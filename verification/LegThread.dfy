/** The real-time thread of a leg (lib/robot/ControlledSubsystemBase.h) with its mailbox
    (lib/common/FdEvent.h): any number of producers, one thread that polls the eventfd, drains
    the queue and runs the controller on schedule, and one caller of pause and resume.  Each
    atomic load or store, each locked queue operation, each eventfd read or write and each
    reading of the clock is one step, and time passes by steps of its own; memory is
    sequentially consistent. */
module LegThread {
  import opened Wrappers

  const PERIOD_NS: nat := 2_500_000
  /** How long `pause` waits for the controller to finish. */
  const PAUSE_TIMEOUT_NS: nat := 5_000_000

  type Message = int
  type Producer = nat

  /** Where `Run` stands. */
  datatype LegPc =
    | Poll
    | ReadFd            // in pop(): about to read the eventfd
    | Dequeue           // in pop(): about to lock and look at the queue
    | RunMessage(m: Message)
    | CheckDue
    | Enter(now: nat)   // about to store m_inControllerPeriodic = true
    | CheckPause(now: nat)
    | Refused           // pause seen: about to store m_inControllerPeriodic = false
    | Control(now: nat, since: nat) // inside controllerPeriodic(), entered at `since`
    | Leave(now: nat)   // about to store m_inControllerPeriodic = false

  /** Where the caller of `pause` stands: the flag is stored, the loop is about to load, it has
      loaded true and is about to look at the clock, and `pause` has returned.  `at` is when the
      flag was stored, `start` when the loop began. */
  datatype PauserPc =
    | Free
    | Stored(at: nat)
    | Spin(at: nat, start: nat)
    | Saw(at: nat, start: nat)
    | Held(at: nat, timedOut: bool)

  datatype Mailbox = Mailbox(queue: seq<Message>, counter: nat, notifying: set<Producer>,
                             enqueued: seq<Message>, executed: seq<Message>)

  datatype Flags = Flags(pauseRequested: bool, inController: bool, ready: bool)

  /** `clock` is the present; `runs` counts finished calls of controllerPeriodic. */
  datatype Schedule = Schedule(start: nat, nextWake: nat, clock: nat, runs: nat)

  datatype State = State(leg: LegPc, pauser: PauserPc, mail: Mailbox, flags: Flags, time: Schedule)

  datatype Action =
    | Enqueue(from: Producer, m: Message)
    | Notify(from: Producer)
    | Leg(interrupted: bool)
    | Pause | PauserStep | Resume
    | MarkReady
    | Tick(ns: nat)

  function Init(start: nat): State {
    State(Poll, Free, Mailbox([], 0, {}, [], []), Flags(false, false, false), Schedule(start, start, start, 0))
  }

  function LegNext(s: State, interrupted: bool): LegPc {
    match s.leg
    case Poll => if !interrupted && s.mail.counter > 0 then ReadFd else CheckDue
    case ReadFd => Dequeue
    case Dequeue => if s.mail.queue == [] then CheckDue else RunMessage(s.mail.queue[0])
    case RunMessage(_) => ReadFd
    case CheckDue => if s.time.clock >= s.time.nextWake && s.flags.ready then Enter(s.time.clock) else Poll
    case Enter(t) => CheckPause(t)
    case CheckPause(t) => if s.flags.pauseRequested then Refused else Control(t, s.time.clock)
    case Refused => Poll
    case Control(t, _) => Leave(t)
    case Leave(_) => Poll
  }

  function LegMail(leg: LegPc, mail: Mailbox): Mailbox {
    match leg
    case ReadFd => mail.(counter := 0)
    case Dequeue => if mail.queue == [] then mail else mail.(queue := mail.queue[1..])
    case RunMessage(m) => mail.(executed := mail.executed + [m])
    case _ => mail
  }

  function LegTime(leg: LegPc, t: Schedule): Schedule {
    match leg
    case Control(_, _) => t.(runs := t.runs + 1)
    case Leave(then_) =>
      var next := t.nextWake + PERIOD_NS;
      t.(nextWake := if next < then_ then then_ + PERIOD_NS else next)
    case _ => t
  }

  function LegStep(s: State, interrupted: bool): State {
    s.(leg := LegNext(s, interrupted),
       mail := LegMail(s.leg, s.mail),
       time := LegTime(s.leg, s.time),
       flags := if s.leg.Enter? then s.flags.(inController := true)
                else if s.leg.Refused? || s.leg.Leave? then s.flags.(inController := false)
                else s.flags)
  }

  function Step(s: State, a: Action): State {
    match a
    case Enqueue(from, m) =>
      if from in s.mail.notifying then s
      else s.(mail := s.mail.(queue := s.mail.queue + [m], enqueued := s.mail.enqueued + [m],
                              notifying := s.mail.notifying + {from}))
    case Notify(from) =>
      if from !in s.mail.notifying then s
      else s.(mail := s.mail.(counter := s.mail.counter + 1, notifying := s.mail.notifying - {from}))
    case Leg(interrupted) => LegStep(s, interrupted)
    case Pause =>
      if s.pauser.Free? then s.(pauser := Stored(s.time.clock), flags := s.flags.(pauseRequested := true)) else s
    case PauserStep => s.(pauser := PauserNext(s.pauser, s.flags.inController, s.time.clock))
    case Resume => if s.pauser.Held? then s.(pauser := Free, flags := s.flags.(pauseRequested := false)) else s
    case MarkReady => s.(flags := s.flags.(ready := true))
    case Tick(ns) => s.(time := s.time.(clock := s.time.clock + ns))
  }

  /** The loop of `pause`: it ends when it loads false, or when it has loaded true and more than
      the time-out has passed. */
  function PauserNext(p: PauserPc, inController: bool, clock: nat): PauserPc {
    match p
    case Stored(at) => Spin(at, clock)
    case Spin(at, start) => if inController then Saw(at, start) else Held(at, false)
    case Saw(at, start) => if clock - start > PAUSE_TIMEOUT_NS then Held(at, true) else Spin(at, start)
    case _ => p
  }

  function Exec(s: State, schedule: seq<Action>): State
    decreases |schedule|
  {
    if schedule == [] then s else Exec(Step(s, schedule[0]), schedule[1..])
  }

  // ---------------------------------------------------------------------------------------
  // Invariants.

  function InFlight(leg: LegPc): seq<Message> { if leg.RunMessage? then [leg.m] else [] }

  /** Draining is the only time mail may lie in the queue with nothing to announce it. */
  predicate Draining(leg: LegPc) { leg.ReadFd? || leg.Dequeue? || leg.RunMessage? }

  ghost predicate MailInv(leg: LegPc, mail: Mailbox) {
    && mail.enqueued == mail.executed + InFlight(leg) + mail.queue
    && (!Draining(leg) && mail.queue != [] ==> mail.counter > 0 || mail.notifying != {})
  }

  predicate InsideController(leg: LegPc) { leg.Control? || leg.Leave? }

  ghost predicate PauseInv(leg: LegPc, pauser: PauserPc, flags: Flags) {
    && (flags.inController <==> leg.CheckPause? || leg.Refused? || InsideController(leg))
    && (flags.pauseRequested <==> !pauser.Free?)
    && (pauser.Held? && !pauser.timedOut ==> !InsideController(leg))
    && (InsideController(leg) || leg.CheckPause? || leg.Enter? ==> flags.ready)
  }

  /** The time `CheckDue` read, kept until the run is over. */
  function TimeRead(leg: LegPc, t: Schedule): nat {
    if leg.Enter? || leg.CheckPause? || leg.Control? || leg.Leave? then leg.now else t.nextWake
  }

  ghost predicate TimeInv(leg: LegPc, t: Schedule) {
    var counted := if leg.Leave? then t.runs - 1 else t.runs;
    && t.start <= t.clock
    && TimeRead(leg, t) >= t.nextWake
    && (leg.Enter? || leg.CheckPause? || leg.Control? || leg.Leave? ==> leg.now <= t.clock)
    && t.start + counted * PERIOD_NS <= t.nextWake <= t.clock + PERIOD_NS
  }

  /** A run inside the controller during a pause was there when the flag was stored, and a
      pause that timed out has taken its time. */
  ghost predicate OverlapInv(leg: LegPc, pauser: PauserPc, clock: nat) {
    && (leg.Control? ==> leg.since <= clock)
    && (leg.Control? && !pauser.Free? ==> leg.since <= pauser.at)
    && (!pauser.Free? ==> pauser.at <= clock)
    && (pauser.Spin? || pauser.Saw? ==> pauser.at <= pauser.start <= clock)
    && (pauser.Held? && pauser.timedOut ==> clock - pauser.at > PAUSE_TIMEOUT_NS)
  }

  ghost predicate Inv(s: State) {
    && MailInv(s.leg, s.mail) && PauseInv(s.leg, s.pauser, s.flags) && TimeInv(s.leg, s.time)
    && OverlapInv(s.leg, s.pauser, s.time.clock)
  }

  lemma {:induction false} MailKept(s: State, a: Action)
    requires MailInv(s.leg, s.mail)
    ensures MailInv(Step(s, a).leg, Step(s, a).mail)
  {
  }

  lemma {:induction false} PauseKept(s: State, a: Action)
    requires PauseInv(s.leg, s.pauser, s.flags)
    ensures var t := Step(s, a); PauseInv(t.leg, t.pauser, t.flags)
  {
  }

  lemma {:induction false} TimeKept(s: State, a: Action)
    requires TimeInv(s.leg, s.time)
    ensures TimeInv(Step(s, a).leg, Step(s, a).time)
  {
  }

  lemma {:induction false} OverlapKept(s: State, a: Action)
    requires PauseInv(s.leg, s.pauser, s.flags) && OverlapInv(s.leg, s.pauser, s.time.clock)
    ensures var t := Step(s, a); OverlapInv(t.leg, t.pauser, t.time.clock)
  {
  }

  lemma {:induction false} StepKeepsInv(s: State, a: Action)
    requires Inv(s)
    ensures Inv(Step(s, a))
  {
    MailKept(s, a);
    PauseKept(s, a);
    TimeKept(s, a);
    OverlapKept(s, a);
  }

  lemma {:induction false} Reachable(s: State, schedule: seq<Action>)
    requires Inv(s)
    ensures Inv(Exec(s, schedule))
    decreases |schedule|
  {
    if schedule != [] {
      StepKeepsInv(s, schedule[0]);
      Reachable(Step(s, schedule[0]), schedule[1..]);
    }
  }

  // ---------------------------------------------------------------------------------------
  // Main results.

  /** Messages run exactly once and in the order they were queued. */
  lemma {:induction false} MessagesRunOnceInOrder(start: nat, schedule: seq<Action>)
    ensures var s := Exec(Init(start), schedule);
            s.mail.enqueued == s.mail.executed + InFlight(s.leg) + s.mail.queue
  {
    Reachable(Init(start), schedule);
  }

  /** Back at poll with mail in the queue, the eventfd is readable or a producer is about to
      make it so. */
  lemma {:induction false} NoMailStranded(start: nat, schedule: seq<Action>)
    requires Exec(Init(start), schedule).leg.Poll? && Exec(Init(start), schedule).mail.queue != []
    ensures var s := Exec(Init(start), schedule); s.mail.counter > 0 || s.mail.notifying != {}
  {
    Reachable(Init(start), schedule);
  }

  function LegSteps(n: nat): seq<Action> { seq(n, _ => Leg(false)) }

  lemma {:induction false} LegStepsUnfold(s: State, n: nat)
    requires n > 0
    ensures Exec(s, LegSteps(n)) == Exec(LegStep(s, false), LegSteps(n - 1))
  {
    assert LegSteps(n)[0] == Leg(false);
    assert LegSteps(n)[1..] == LegSteps(n - 1);
  }

  /** Reading the eventfd, taking a message and running it. */
  lemma {:induction false} DrainsOne(s: State, n: nat) returns (t: State)
    requires s.leg.ReadFd? && s.mail.queue != []
    ensures Exec(s, LegSteps(n + 3)) == Exec(t, LegSteps(n))
    ensures t.leg.ReadFd? && t.mail.queue == s.mail.queue[1..]
    ensures t.mail.executed == s.mail.executed + [s.mail.queue[0]]
  {
    var s1 := LegStep(s, false);
    var s2 := LegStep(s1, false);
    t := LegStep(s2, false);
    LegStepsUnfold(s, n + 3);
    LegStepsUnfold(s1, n + 2);
    LegStepsUnfold(s2, n + 1);
  }

  lemma {:induction false} DrainsNone(s: State)
    requires s.leg.ReadFd? && s.mail.queue == []
    ensures var t := Exec(s, LegSteps(2));
            && t.leg.CheckDue? && t.mail.queue == [] && t.mail.executed == s.mail.executed && t.mail.counter == 0
  {
    LegStepsUnfold(s, 2);
    LegStepsUnfold(LegStep(s, false), 1);
    assert LegSteps(0) == [];
  }

  /** From inside pop(), three steps per message and two more empty the queue, and leave nothing to
      read in the eventfd. */
  lemma {:induction false} DrainsFrom(s: State)
    requires s.leg.ReadFd?
    ensures var t := Exec(s, LegSteps(3 * |s.mail.queue| + 2));
            && t.leg.CheckDue? && t.mail.queue == [] && t.mail.counter == 0
            && t.mail.executed == s.mail.executed + s.mail.queue
    decreases |s.mail.queue|
  {
    var q := s.mail.queue;
    if q == [] {
      DrainsNone(s);
    } else {
      var t := DrainsOne(s, 3 * |q[1..]| + 2);
      DrainsFrom(t);
      assert s.mail.executed + [q[0]] + q[1..] == s.mail.executed + q;
    }
  }

  /** One readable poll runs everything that was queued before it. */
  lemma {:induction false} OnePollDrainsAll(s: State)
    requires s.leg.Poll? && s.mail.counter > 0
    ensures var t := Exec(s, LegSteps(3 * |s.mail.queue| + 3));
            && t.leg.CheckDue? && t.mail.queue == [] && t.mail.counter == 0
            && t.mail.executed == s.mail.executed + s.mail.queue
  {
    LegStepsUnfold(s, 3 * |s.mail.queue| + 3);
    DrainsFrom(LegStep(s, false));
  }

  /** After `pause` returned without timing out and until `resume`, the controller is not
      running; nor does it ever run before the subsystem is ready. */
  lemma {:induction false} PausedMeansIdle(start: nat, schedule: seq<Action>)
    ensures var s := Exec(Init(start), schedule);
            && (s.pauser.Held? && !s.pauser.timedOut ==> !s.leg.Control?)
            && (s.leg.Control? ==> s.flags.ready && s.flags.inController)
  {
    Reachable(Init(start), schedule);
  }

  /** No run begins while a pause is held or being waited for. */
  lemma {:induction false} NoRunBeginsWhilePaused(start: nat, schedule: seq<Action>, a: Action)
    ensures var s := Exec(Init(start), schedule);
            Step(s, a).leg.Control? && !s.leg.Control? ==> s.pauser.Free?
  {
    Reachable(Init(start), schedule);
  }

  /** A run inside the controller after `pause` returned was inside when the flag was stored, and
      has by now lasted for more than five milliseconds since: a pause never returns over runs
      that take no longer. */
  lemma {:induction false} OverlapNeedsLongRun(start: nat, schedule: seq<Action>)
    requires Exec(Init(start), schedule).pauser.Held? && Exec(Init(start), schedule).leg.Control?
    ensures var s := Exec(Init(start), schedule);
            s.leg.since <= s.pauser.at && s.time.clock - s.pauser.at > PAUSE_TIMEOUT_NS
  {
    Reachable(Init(start), schedule);
  }

  /** What holds from the moment the flag is stored in state `s` until `resume`. */
  ghost predicate SinceFlag(s: State, t: State) {
    && !t.pauser.Free? && t.pauser.at == s.time.clock && t.time.runs >= s.time.runs
    && (t.leg.Control? <==> s.leg.Control? && t.time.runs == s.time.runs)
  }

  lemma {:induction false} SinceFlagKept(s: State, t: State, a: Action)
    requires SinceFlag(s, t) && Inv(t) && a != Resume
    ensures SinceFlag(s, Step(t, a))
  {
  }

  lemma {:induction false} SinceFlagRun(s: State, t: State, schedule: seq<Action>)
    requires SinceFlag(s, t) && Inv(t) && Resume !in schedule
    ensures SinceFlag(s, Exec(t, schedule))
    decreases |schedule|
  {
    if schedule != [] {
      SinceFlagKept(s, t, schedule[0]);
      StepKeepsInv(t, schedule[0]);
      SinceFlagRun(s, Step(t, schedule[0]), schedule[1..]);
    }
  }

  /** From a call of `pause` until `resume`, whatever happens: once the call has returned, the
      controller is running if and only if the run that was inside when the flag was stored has
      not finished; and then more than five milliseconds have passed since. */
  lemma {:induction false} OverlapExactly(start: nat, before: seq<Action>, after: seq<Action>)
    requires Exec(Init(start), before).pauser.Free? && Resume !in after
    ensures var s := Exec(Init(start), before);
            var t := Exec(Step(s, Pause), after);
            t.pauser.Held? ==>
              && (t.leg.Control? <==> s.leg.Control? && t.time.runs == s.time.runs)
              && (t.leg.Control? ==> t.time.clock - s.time.clock > PAUSE_TIMEOUT_NS)
  {
    Reachable(Init(start), before);
    var s := Exec(Init(start), before);
    StepKeepsInv(s, Pause);
    SinceFlagRun(s, Step(s, Pause), after);
    Reachable(Step(s, Pause), after);
  }

  /** Conversely every run that is inside at the call and goes on for more than five milliseconds
      can be overlapped: the loop loads the flag, finds the time over, and `pause` returns. */
  lemma {:induction false} LongRunOverlapped(start: nat, before: seq<Action>, ns: nat)
    requires Exec(Init(start), before).pauser.Free? && Exec(Init(start), before).leg.Control?
    requires ns > PAUSE_TIMEOUT_NS
    ensures var s := Exec(Init(start), before);
            var t := Exec(s, [Pause, PauserStep, PauserStep] + [Tick(ns), PauserStep]);
            t.pauser == Held(s.time.clock, true) && t.leg == s.leg && t.time.clock == s.time.clock + ns
  {
    Reachable(Init(start), before);
    var s := Exec(Init(start), before);
    ExecAppend(s, [Pause, PauserStep, PauserStep], [Tick(ns), PauserStep]);
    assert [Pause, PauserStep, PauserStep] == [Pause, PauserStep] + [PauserStep];
    ExecAppend(s, [Pause, PauserStep], [PauserStep]);
    ExecTwo(s, Pause, PauserStep);
    ExecOne(Step(Step(s, Pause), PauserStep), PauserStep);
    var u := Step(Step(Step(s, Pause), PauserStep), PauserStep);
    assert u.pauser == Saw(s.time.clock, s.time.clock);
    ExecTwo(u, Tick(ns), PauserStep);
  }

  /** A run of `after` in which a pause called in state `s` has returned over a running controller
      `ns` after the call. */
  ghost predicate Overlap(s: State, after: seq<Action>, ns: nat) {
    && Resume !in after
    && var t := Exec(Step(s, Pause), after); t.pauser.Held? && t.leg.Control? && t.time.clock == s.time.clock + ns
  }

  /** Some interleaving has `pause` returned over a running controller `ns` after the call, if and
      only if the controller is running at the call and `ns` is more than five milliseconds. */
  lemma {:induction false} OverlapPossibleIff(start: nat, before: seq<Action>, ns: nat)
    requires Exec(Init(start), before).pauser.Free?
    ensures var s := Exec(Init(start), before);
            (exists after :: Overlap(s, after, ns)) <==> s.leg.Control? && ns > 5_000_000
  {
    var s := Exec(Init(start), before);
    if after :| Overlap(s, after, ns) {
      OverlapExactly(start, before, after);
    }
    if s.leg.Control? && ns > PAUSE_TIMEOUT_NS {
      LongRunOverlapped(start, before, ns);
      var after := [PauserStep, PauserStep] + [Tick(ns), PauserStep];
      assert ([Pause, PauserStep, PauserStep] + [Tick(ns), PauserStep])[1..] == after;
      assert Overlap(s, after, ns);
    }
  }

  lemma {:induction false} ExecOne(s: State, a: Action)
    ensures Exec(s, [a]) == Step(s, a)
  {
    assert [a][1..] == [];
  }

  lemma {:induction false} ExecTwo(s: State, a: Action, b: Action)
    ensures Exec(s, [a, b]) == Step(Step(s, a), b)
  {
    assert [a, b][1..] == [b];
    ExecOne(Step(s, a), b);
  }

  // Deadlines.

  /** A run is begun exactly if its deadline has come and the subsystem is ready, and it is begun
      at the present time. */
  lemma {:induction false} BegunWhenDue(s: State, interrupted: bool)
    requires s.leg.CheckDue?
    ensures var t := Step(s, Leg(interrupted));
            && (t.leg.Enter? <==> s.time.clock >= s.time.nextWake && s.flags.ready)
            && (t.leg.Enter? ==> t.leg.now == s.time.clock) && (!t.leg.Enter? ==> t.leg.Poll?)
            && t.time == s.time
  {
  }

  /** The time read when the run was begun is kept until its end. */
  lemma {:induction false} BegunTimeKept(s: State, interrupted: bool)
    requires s.leg.Enter? || s.leg.CheckPause? || s.leg.Control?
    ensures var leg := Step(s, Leg(interrupted)).leg;
            && (s.leg.Enter? ==> leg == CheckPause(s.leg.now))
            && (s.leg.CheckPause? ==> leg == Refused || leg == Control(s.leg.now, s.time.clock))
            && (s.leg.Control? ==> leg == Leave(s.leg.now))
  {
  }

  /** The times at which the runs that finish during `schedule` were begun. */
  function Begun(s: State, schedule: seq<Action>): seq<nat>
    decreases |schedule|
  {
    if schedule == [] then []
    else
      (if schedule[0].Leg? && s.leg.Leave? then [s.leg.now] else []) + Begun(Step(s, schedule[0]), schedule[1..])
  }

  /** The k-th run is begun not more than one period after `first` + k periods. */
  predicate OnTime(first: nat, begun: seq<nat>) {
    forall k :: 0 <= k < |begun| ==> begun[k] <= first + (k + 1) * PERIOD_NS
  }

  lemma {:induction false} OnTimeTail(first: nat, begun: seq<nat>)
    requires begun != [] && OnTime(first, begun)
    ensures begun[0] <= first + PERIOD_NS && OnTime(first + PERIOD_NS, begun[1..])
  {
    forall k | 0 <= k < |begun| - 1
      ensures begun[1..][k] <= first + PERIOD_NS + (k + 1) * PERIOD_NS
    {
      assert begun[k + 1] <= first + (k + 1 + 1) * PERIOD_NS;
    }
  }

  lemma {:induction false} NextDeadline(s: State, a: Action)
    ensures var d := Step(s, a).time.nextWake;
            if a.Leg? && s.leg.Leave? then
              d == if s.leg.now <= s.time.nextWake + PERIOD_NS then s.time.nextWake + PERIOD_NS else s.leg.now + PERIOD_NS
            else
              d == s.time.nextWake
  {
  }

  /** From any state on: as long as no run is begun more than one period after its deadline, the
      deadline advances by exactly one period per run. */
  lemma {:induction false} DeadlinesFrom(s: State, schedule: seq<Action>)
    requires OnTime(s.time.nextWake, Begun(s, schedule))
    ensures Exec(s, schedule).time.nextWake == s.time.nextWake + |Begun(s, schedule)| * PERIOD_NS
    decreases |schedule|
  {
    if schedule != [] {
      var a, begun := schedule[0], Begun(s, schedule);
      NextDeadline(s, a);
      if a.Leg? && s.leg.Leave? {
        OnTimeTail(s.time.nextWake, begun);
        assert begun[1..] == Begun(Step(s, a), schedule[1..]);
      } else {
        assert begun == Begun(Step(s, a), schedule[1..]);
      }
      DeadlinesFrom(Step(s, a), schedule[1..]);
    }
  }

  /** Over every interleaving: as long as no run was begun more than one period after its deadline,
      the k-th deadline is the start plus k periods, however late the runs were within that. */
  lemma {:induction false} DeadlinesDoNotDrift(start: nat, schedule: seq<Action>)
    requires var begun := Begun(Init(start), schedule);
             forall k :: 0 <= k < |begun| ==> begun[k] <= start + (k + 1) * 2_500_000
    ensures Exec(Init(start), schedule).time.nextWake == start + |Begun(Init(start), schedule)| * 2_500_000
  {
    DeadlinesFrom(Init(start), schedule);
  }

  /** In every reachable state at the end of a run: one begun more than one period after its
      deadline is followed by a deadline one period after it was begun, any other by one a period
      after its own; and the next deadline never lies before the time the run was begun. */
  lemma {:induction false} LateRunResets(start: nat, before: seq<Action>, interrupted: bool)
    requires Exec(Init(start), before).leg.Leave?
    ensures var s := Exec(Init(start), before);
            var d := Step(s, Leg(interrupted)).time.nextWake;
            && s.time.nextWake <= s.leg.now <= d
            && (s.leg.now > s.time.nextWake + 2_500_000 ==> d == s.leg.now + 2_500_000)
            && (s.leg.now <= s.time.nextWake + 2_500_000 ==> d == s.time.nextWake + 2_500_000)
  {
    Reachable(Init(start), before);
  }

  /** A message enqueued and announced is last in the queue, and the eventfd counts one more. */
  lemma {:induction false} PushEffect(s: State, from: Producer, m: Message)
    requires from !in s.mail.notifying
    ensures var t := Step(Step(s, Enqueue(from, m)), Notify(from));
            && t.mail.queue == s.mail.queue + [m] && t.mail.enqueued == s.mail.enqueued + [m]
            && t.mail.counter == s.mail.counter + 1 && t.mail.notifying == s.mail.notifying && t.leg == s.leg
  {
  }

  /** Without a call of `markReady` the controller never runs. */
  lemma {:induction false} NeverBeforeReady(start: nat, schedule: seq<Action>)
    requires MarkReady !in schedule
    ensures !Exec(Init(start), schedule).leg.Control?
  {
    StaysUnready(Init(start), schedule);
    Reachable(Init(start), schedule);
  }

  lemma {:induction false} StaysUnready(s: State, schedule: seq<Action>)
    requires MarkReady !in schedule && !s.flags.ready
    ensures !Exec(s, schedule).flags.ready
    decreases |schedule|
  {
    if schedule != [] {
      StaysUnready(Step(s, schedule[0]), schedule[1..]);
    }
  }

  /** `resume` ends a pause that has returned. */
  lemma {:induction false} ResumeEnds(s: State)
    requires s.pauser.Held?
    ensures Step(s, Resume).pauser.Free? && !Step(s, Resume).flags.pauseRequested
  {
  }

  /** A `pause` that finds the controller idle returns with its next load; one whose time is not
      over loads again. */
  lemma {:induction false} PauseLoop(s: State)
    requires s.pauser.Spin? || s.pauser.Saw?
    ensures s.pauser.Spin? && !s.flags.inController ==> Step(s, PauserStep).pauser == Held(s.pauser.at, false)
    ensures s.pauser.Saw? && s.time.clock - s.pauser.start <= PAUSE_TIMEOUT_NS ==>
              Step(s, PauserStep).pauser == Spin(s.pauser.at, s.pauser.start)
  {
  }

  /** The controller is called at most once per period since the thread started, plus once. */
  lemma {:induction false} RateBounded(start: nat, schedule: seq<Action>)
    ensures var t := Exec(Init(start), schedule).time;
            t.runs <= 1 + (t.clock - t.start) / 2_500_000
  {
    Reachable(Init(start), schedule);
    var s := Exec(Init(start), schedule);
    var t := s.time;
    var counted := if s.leg.Leave? then t.runs - 1 else t.runs;
    assert counted * PERIOD_NS <= t.clock - t.start + PERIOD_NS;
    if s.leg.Leave? {
      assert counted * PERIOD_NS <= t.clock - t.start;
    }
  }

  /** The thread started at time 0 is inside the controller after five steps. */
  lemma {:induction false} FirstRun()
    ensures Exec(Init(0), [MarkReady] + LegSteps(4)) == Step(Init(0), MarkReady).(leg := Control(0, 0), flags := Flags(false, true, true))
  {
    var s0 := Step(Init(0), MarkReady);
    assert ([MarkReady] + LegSteps(4))[1..] == LegSteps(4);
    LegStepsUnfold(s0, 4);
    LegStepsUnfold(LegStep(s0, false), 3);
    LegStepsUnfold(LegStep(LegStep(s0, false), false), 2);
    LegStepsUnfold(LegStep(LegStep(LegStep(s0, false), false), false), 1);
    assert LegSteps(0) == [];
  }

  /** `pause` gives up: called at time 0 during the first run, it returns 5.000001 ms later while
      that run is still inside. */
  lemma {:induction false} TimedOutPauseOverlaps()
    ensures var schedule := [MarkReady] + LegSteps(4) + ([Pause, PauserStep, PauserStep] + [Tick(5_000_001), PauserStep]);
            var t := Exec(Init(0), schedule);
            t.leg == Control(0, 0) && t.pauser == Held(0, true) && t.time.clock == 5_000_001
  {
    FirstRun();
    LongRunOverlapped(0, [MarkReady] + LegSteps(4), 5_000_001);
    ExecAppend(Init(0), [MarkReady] + LegSteps(4), [Pause, PauserStep, PauserStep] + [Tick(5_000_001), PauserStep]);
  }

  lemma {:induction false} ExecAppend(s: State, x: seq<Action>, y: seq<Action>)
    ensures Exec(s, x + y) == Exec(Exec(s, x), y)
    decreases |x|
  {
    if x == [] {
      assert x + y == y;
    } else {
      assert (x + y)[1..] == x[1..] + y;
      ExecAppend(Step(s, x[0]), x[1..], y);
    }
  }

  // ---------------------------------------------------------------------------------------
  // The mailbox as the program runs it.

  class Fifo {
    var queue: seq<Message>
    var counter: nat

    constructor ()
      ensures queue == [] && counter == 0
    {
      queue, counter := [], 0;
    }

    method Push(item: Message)
      modifies this
      ensures queue == old(queue) + [item] && counter == old(counter) + 1
    {
      queue := queue + [item];
      counter := counter + 1;
    }

    method Pop() returns (item: Option<Message>)
      modifies this
      ensures counter == 0
      ensures item == if old(queue) == [] then None else Some(old(queue)[0])
      ensures queue == if old(queue) == [] then [] else old(queue)[1..]
    {
      counter := 0;
      item := None;
      if queue != [] {
        item := Some(queue[0]);
        queue := queue[1..];
      }
    }

    /** The inner loop of `Run` on a readable eventfd. */
    method Drain() returns (ran: seq<Message>)
      modifies this
      ensures ran == old(queue) && queue == [] && counter == 0
    {
      ran := [];
      var f := Pop();
      while f.Some?
        invariant counter == 0 && ran + (if f.Some? then [f.value] else []) + queue == old(queue)
        invariant f.None? ==> queue == []
        decreases |queue|, f.Some?
      {
        ran := ran + [f.value];
        f := Pop();
      }
    }
  }
}
