/** Supervision: the staleness check of the composer (lib/composer/Composer.cpp) and the
    emergency stop raised by the robot's periodic cycle (src/Robot.cpp), with composer and
    shared memory attached. */
module EmergencyStop {
  const UINT64: nat := 0x1_0000_0000_0000_0000
  const UINT32: nat := 0x1_0000_0000
  const NS_PER_MS: nat := 1_000_000

  const IMU_STALE_TIMEOUT_MS: nat := 50
  const MOTOR_GROUP_STALE_TIMEOUT_MS: nat := 100
  const HEARTBEAT_STALE_NS: nat := 100_000_000

  // ---------------------------------------------------------------------------------------
  // Staleness of one source.  The composer thread and the supervising thread interleave.

  /** `elapsed_ms`, in 64 bits without sign. */
  function ElapsedMs(now: nat, last: nat): nat {
    if last == 0 then UINT64 - 1 else (now - last) % UINT64 / NS_PER_MS
  }

  /** What the comparison with the timeout decides. */
  lemma {:induction false} ElapsedExact(now: nat, last: nat, timeout: nat)
    requires now < UINT64 / 2 && last < UINT64 / 2 && timeout <= 1000
    ensures ElapsedMs(now, last) >= timeout <==>
            last == 0 || last > now || now - last >= timeout * NS_PER_MS
  {
    if last > now {
      assert (now - last) % UINT64 == now - last + UINT64;
    }
  }

  /** The composer between two cycles, after it has read the stage, and after it has read the clock. */
  datatype Cycle = Idle | Read(sequence: nat) | Stamped(sequence: nat, now: nat)

  /** The supervisor between two checks, and after it has read the clock. */
  datatype Check = Resting | Checking(now: nat)

  /** A finished check of this source; `seen` are the times stored by then. */
  datatype Verdict = Verdict(now: nat, seen: seq<nat>, stale: bool)

  /** `changes` are the times stored at the start and whenever a new sequence number was seen. */
  datatype Source = Source(previous: nat, last: nat, changes: seq<nat>)

  datatype Watch = Watch(clock: nat, source: Source, cycle: Cycle, check: Check, verdicts: seq<Verdict>)

  datatype Action = Tick(ns: nat) | ReadStage(sequence: nat) | ReadClock | Update | BeginCheck | Load

  /** The composer has just been started. */
  function Started(now: nat): Watch { Watch(now, Source(UINT64 - 1, now, [now]), Idle, Resting, []) }

  function Stored(s: Source, sequence: nat, now: nat): Source {
    if sequence != s.previous then Source(sequence, now, s.changes + [now]) else s
  }

  function Step(w: Watch, timeout: nat, a: Action): Watch {
    match a
    case Tick(ns) => w.(clock := w.clock + ns)
    case ReadStage(sequence) => if w.cycle.Idle? then w.(cycle := Read(sequence)) else w
    case ReadClock => if w.cycle.Read? then w.(cycle := Stamped(w.cycle.sequence, w.clock)) else w
    case Update =>
      if w.cycle.Stamped? then w.(source := Stored(w.source, w.cycle.sequence, w.cycle.now), cycle := Idle) else w
    case BeginCheck => if w.check.Resting? then w.(check := Checking(w.clock)) else w
    case Load =>
      if w.check.Checking? then
        var stale := ElapsedMs(w.check.now, w.source.last) >= timeout;
        w.(check := Resting, verdicts := w.verdicts + [Verdict(w.check.now, w.source.changes, stale)])
      else
        w
  }

  function Exec(w: Watch, timeout: nat, schedule: seq<Action>): Watch {
    if schedule == [] then w
    else Step(Exec(w, timeout, schedule[..|schedule| - 1]), timeout, schedule[|schedule| - 1])
  }

  /** Times never go back. */
  ghost predicate InOrder(times: seq<nat>) { forall i, j :: 0 <= i < j < |times| ==> times[i] <= times[j] }

  ghost predicate SourceOk(s: Source, start: nat, clock: nat) {
    && s.changes != [] && s.last == s.changes[|s.changes| - 1] && s.changes[0] == start
    && InOrder(s.changes) && s.last <= clock
  }

  /** No sequence number was seen to change for the timeout before `now`. */
  ghost predicate Quiet(seen: seq<nat>, now: nat, timeout: nat) {
    forall i :: 0 <= i < |seen| ==> now - seen[i] >= timeout * NS_PER_MS
  }

  /** A verdict means quiet, unless a change was stored with a time after the check began. */
  ghost predicate Exact(v: Verdict, timeout: nat) {
    && v.seen != []
    && var last := v.seen[|v.seen| - 1];
       v.stale <==> last > v.now || Quiet(v.seen, v.now, timeout)
  }

  ghost predicate WatchOk(w: Watch, start: nat, timeout: nat) {
    && SourceOk(w.source, start, w.clock)
    && (w.cycle.Stamped? ==> w.source.last <= w.cycle.now <= w.clock)
    && (w.check.Checking? ==> w.check.now <= w.clock)
    && forall i :: 0 <= i < |w.verdicts| ==> Exact(w.verdicts[i], timeout)
  }

  lemma {:induction false} QuietByLast(s: Source, start: nat, clock: nat, now: nat, timeout: nat)
    requires SourceOk(s, start, clock)
    ensures Quiet(s.changes, now, timeout) <==> now - s.last >= timeout * NS_PER_MS
  {
    var n := |s.changes| - 1;
    assert forall i :: 0 <= i < n ==> s.changes[i] <= s.changes[n];
  }

  lemma {:induction false} LoadExact(w: Watch, start: nat, timeout: nat)
    requires WatchOk(w, start, timeout) && w.check.Checking?
    requires 0 < start && w.clock < UINT64 / 2 && timeout <= 1000
    ensures Exact(Verdict(w.check.now, w.source.changes, ElapsedMs(w.check.now, w.source.last) >= timeout), timeout)
  {
    ElapsedExact(w.check.now, w.source.last, timeout);
    QuietByLast(w.source, start, w.clock, w.check.now, timeout);
    assert start <= w.source.last;
  }

  lemma {:induction false} StoredOk(s: Source, start: nat, clock: nat, sequence: nat, now: nat)
    requires SourceOk(s, start, clock) && s.last <= now <= clock
    ensures SourceOk(Stored(s, sequence, now), start, clock) && Stored(s, sequence, now).last <= now
  {
    var n := |s.changes| - 1;
    assert forall i :: 0 <= i < n ==> s.changes[i] <= s.changes[n];
  }

  lemma {:induction false} StepKeepsOk(w: Watch, start: nat, timeout: nat, a: Action)
    requires WatchOk(w, start, timeout) && 0 < start && w.clock < UINT64 / 2 && timeout <= 1000
    ensures WatchOk(Step(w, timeout, a), start, timeout) && w.clock <= Step(w, timeout, a).clock
  {
    if a.Load? && w.check.Checking? {
      LoadExact(w, start, timeout);
    } else if a.Update? && w.cycle.Stamped? {
      StoredOk(w.source, start, w.clock, w.cycle.sequence, w.cycle.now);
    }
  }

  lemma {:induction false} Reachable(start: nat, timeout: nat, schedule: seq<Action>)
    requires 0 < start && timeout <= 1000 && Exec(Started(start), timeout, schedule).clock < UINT64 / 2
    ensures WatchOk(Exec(Started(start), timeout, schedule), start, timeout)
    decreases |schedule|
  {
    if schedule != [] {
      var before := schedule[..|schedule| - 1];
      ClockGrows(Exec(Started(start), timeout, before), timeout, schedule[|schedule| - 1]);
      Reachable(start, timeout, before);
      StepKeepsOk(Exec(Started(start), timeout, before), start, timeout, schedule[|schedule| - 1]);
    }
  }

  lemma {:induction false} ClockGrows(w: Watch, timeout: nat, a: Action)
    ensures w.clock <= Step(w, timeout, a).clock
  {
  }

  /** The cycles of the composer that end during a run: the sequence number each has read and the
      time it has read after that. */
  function CyclesSeen(w: Watch, timeout: nat, schedule: seq<Action>): seq<(nat, nat)>
    decreases |schedule|
  {
    if schedule == [] then []
    else
      var before := schedule[..|schedule| - 1];
      var cycle := Exec(w, timeout, before).cycle;
      if schedule[|schedule| - 1].Update? && cycle.Stamped? then
        CyclesSeen(w, timeout, before) + [(cycle.sequence, cycle.now)]
      else
        CyclesSeen(w, timeout, before)
  }

  /** The times of those whose sequence number differs from that of the cycle before. */
  function NewTimes(first: nat, cycles: seq<(nat, nat)>): seq<nat> {
    if cycles == [] then []
    else
      var n := |cycles| - 1;
      NewTimes(first, cycles[..n]) +
      if cycles[n].0 != (if n == 0 then first else cycles[n - 1].0) then [cycles[n].1] else []
  }

  lemma {:induction false} NewTimesSnoc(first: nat, cycles: seq<(nat, nat)>, cycle: (nat, nat))
    ensures NewTimes(first, cycles + [cycle]) ==
            NewTimes(first, cycles) + if cycle.0 != LastSeen(first, cycles) then [cycle.1] else []
  {
    assert (cycles + [cycle])[..|cycles|] == cycles;
  }

  function LastSeen(first: nat, cycles: seq<(nat, nat)>): nat { if cycles == [] then first else cycles[|cycles| - 1].0 }

  /** The times stored, to which the verdicts refer, are the start and those of the cycles that read
      another sequence number than the cycle before them. */
  lemma {:induction false} ChangesAreNew(start: nat, timeout: nat, schedule: seq<Action>)
    ensures var cycles := CyclesSeen(Started(start), timeout, schedule);
            var source := Exec(Started(start), timeout, schedule).source;
            && source.changes == [start] + NewTimes(UINT64 - 1, cycles)
            && source.previous == LastSeen(UINT64 - 1, cycles)
    decreases |schedule|
  {
    if schedule != [] {
      var before, a := schedule[..|schedule| - 1], schedule[|schedule| - 1];
      ChangesAreNew(start, timeout, before);
      var w := Exec(Started(start), timeout, before);
      SourceStep(w, timeout, a);
      if a.Update? && w.cycle.Stamped? {
        NewTimesSnoc(UINT64 - 1, CyclesSeen(Started(start), timeout, before), (w.cycle.sequence, w.cycle.now));
      }
    }
  }

  lemma {:induction false} SourceStep(w: Watch, timeout: nat, a: Action)
    ensures var s := Step(w, timeout, a).source;
            if a.Update? && w.cycle.Stamped? then
              && s.previous == w.cycle.sequence
              && s.changes == w.source.changes + if w.cycle.sequence != w.source.previous then [w.cycle.now] else []
            else
              s == w.source
  {
  }

  /** In every interleaving, a source is reported stale if and only if no new sequence number
      was seen for the timeout, or one was stored after the check had read the clock. */
  lemma {:induction false} StaleExactly(start: nat, timeout: nat, schedule: seq<Action>, i: nat)
    requires 0 < start && timeout <= 1000 && Exec(Started(start), timeout, schedule).clock < UINT64 / 2
    requires i < |Exec(Started(start), timeout, schedule).verdicts|
    ensures Exact(Exec(Started(start), timeout, schedule).verdicts[i], timeout)
  {
    Reachable(start, timeout, schedule);
  }

  /** With the latest stored time not after the clock reading, exactly if quiet. */
  lemma {:induction false} StaleIffQuiet(start: nat, timeout: nat, schedule: seq<Action>, i: nat)
    requires 0 < start && timeout <= 1000 && Exec(Started(start), timeout, schedule).clock < UINT64 / 2
    requires i < |Exec(Started(start), timeout, schedule).verdicts|
    ensures var v := Exec(Started(start), timeout, schedule).verdicts[i];
            v.seen != [] && (v.seen[|v.seen| - 1] <= v.now ==> (v.stale <==> Quiet(v.seen, v.now, timeout)))
  {
    Reachable(start, timeout, schedule);
  }

  lemma {:induction false} ExecSnoc(w: Watch, timeout: nat, before: seq<Action>, a: Action)
    ensures Exec(w, timeout, before + [a]) == Step(Exec(w, timeout, before), timeout, a)
  {
    assert (before + [a])[..|before|] == before;
  }

  /** At any time: a source that changes while a check is between its clock and its load is
      called stale. */
  lemma {:induction false} FalseAlarm(w: Watch, timeout: nat, ns: nat, sequence: nat)
    requires w.cycle.Idle? && w.check.Resting? && sequence != w.source.previous
    requires 0 < ns && w.clock + ns < UINT64 / 2 && timeout <= 1000
    ensures var schedule := [BeginCheck, Tick(ns), ReadStage(sequence), ReadClock, Update, Load];
            && Exec(w, timeout, schedule).check.Resting?
            && Exec(w, timeout, schedule).verdicts ==
               w.verdicts + [Verdict(w.clock, w.source.changes + [w.clock + ns], true)]
  {
    var s1 := [BeginCheck];
    var s2 := s1 + [Tick(ns)];
    var s3 := s2 + [ReadStage(sequence)];
    var s4 := s3 + [ReadClock];
    var s5 := s4 + [Update];
    assert s1[..0] == [] && Exec(w, timeout, []) == w;
    ExecSnoc(w, timeout, s1, Tick(ns));
    ExecSnoc(w, timeout, s2, ReadStage(sequence));
    ExecSnoc(w, timeout, s3, ReadClock);
    ExecSnoc(w, timeout, s4, Update);
    assert Exec(w, timeout, s5).source == Source(sequence, w.clock + ns, w.source.changes + [w.clock + ns]);
    assert Exec(w, timeout, s5).check == Checking(w.clock) && Exec(w, timeout, s5).verdicts == w.verdicts;
    ExecSnoc(w, timeout, s5, Load);
    ElapsedExact(w.clock, w.clock + ns, timeout);
    assert s5 + [Load] == [BeginCheck, Tick(ns), ReadStage(sequence), ReadClock, Update, Load];
  }

  /** `check_staleness`: bits 1, 2 and 4 for the IMU and the two motor groups. */
  method CheckStaleness(now: nat, imu: nat, groupA: nat, groupB: nat) returns (mask: nat)
    requires now < UINT64 / 2 && imu < UINT64 / 2 && groupA < UINT64 / 2 && groupB < UINT64 / 2
    ensures mask < 8
    ensures mask % 2 == 1 <==> imu == 0 || imu > now || now - imu >= 50 * NS_PER_MS
    ensures mask / 2 % 2 == 1 <==> groupA == 0 || groupA > now || now - groupA >= 100 * NS_PER_MS
    ensures mask / 4 % 2 == 1 <==> groupB == 0 || groupB > now || now - groupB >= 100 * NS_PER_MS
  {
    ElapsedExact(now, imu, IMU_STALE_TIMEOUT_MS);
    ElapsedExact(now, groupA, MOTOR_GROUP_STALE_TIMEOUT_MS);
    ElapsedExact(now, groupB, MOTOR_GROUP_STALE_TIMEOUT_MS);
    mask := 0;
    if ElapsedMs(now, imu) >= IMU_STALE_TIMEOUT_MS { mask := mask + 1; }
    if ElapsedMs(now, groupA) >= MOTOR_GROUP_STALE_TIMEOUT_MS { mask := mask + 2; }
    if ElapsedMs(now, groupB) >= MOTOR_GROUP_STALE_TIMEOUT_MS { mask := mask + 4; }
  }

  // ---------------------------------------------------------------------------------------
  // The supervising cycle.

  /** What one cycle sees: the operator's stop edge, the staleness mask, the index and time of
      the latest command with the clock, and the controller's stop flag. */
  datatype Seen = Seen(operatorStop: bool, mask: nat, commandIndex: nat, commandTime: nat, now: nat, controllerStop: bool)

  predicate ImuStale(seen: Seen) { seen.mask % 2 == 1 }

  /** The latest command is from the future or older than the limit. */
  predicate CommandsStale(seen: Seen) {
    && seen.commandIndex <= 1 && seen.commandTime > 0
    && (seen.commandTime > seen.now || seen.now - seen.commandTime > HEARTBEAT_STALE_NS)
  }

  datatype Supervisor = Supervisor(staleCount: nat, stop: bool)

  function Supervise(s: Supervisor, seen: Seen): Supervisor {
    var count := if ImuStale(seen) then (s.staleCount + 1) % UINT32 else 0;
    Supervisor(count, s.stop || seen.operatorStop || count > 20 || CommandsStale(seen) || seen.controllerStop)
  }

  function SuperviseAll(cycles: seq<Seen>): Supervisor {
    if cycles == [] then Supervisor(0, false) else Supervise(SuperviseAll(cycles[..|cycles| - 1]), cycles[|cycles| - 1])
  }

  /** There is a command, and its time is after the present or more than 100 ms before it. */
  predicate CommandsOld(seen: Seen) {
    && (seen.commandIndex == 0 || seen.commandIndex == 1) && seen.commandTime != 0
    && (seen.now < seen.commandTime || seen.commandTime + 100 * NS_PER_MS < seen.now)
  }

  /** Cycle `i` gives a reason to stop; the stale IMU does when it is the 21st time in a row. */
  ghost predicate Cause(cycles: seq<Seen>, i: nat)
    requires i < |cycles|
  {
    || cycles[i].operatorStop || CommandsOld(cycles[i]) || cycles[i].controllerStop
    || (i >= 20 && forall j :: i - 20 <= j <= i ==> ImuStale(cycles[j]))
  }

  /** How many of the latest cycles saw a stale IMU without a break. */
  function Streak(cycles: seq<Seen>): (n: nat)
    ensures n <= |cycles|
  {
    if cycles == [] || !ImuStale(cycles[|cycles| - 1]) then 0 else Streak(cycles[..|cycles| - 1]) + 1
  }

  lemma {:induction false} StreakStale(cycles: seq<Seen>)
    ensures forall j :: |cycles| - Streak(cycles) <= j < |cycles| ==> ImuStale(cycles[j])
    ensures Streak(cycles) < |cycles| ==> !ImuStale(cycles[|cycles| - Streak(cycles) - 1])
    decreases |cycles|
  {
    if cycles != [] {
      StreakStale(cycles[..|cycles| - 1]);
    }
  }

  lemma {:induction false} LastCause(cycles: seq<Seen>)
    requires cycles != []
    ensures var seen := cycles[|cycles| - 1];
            Cause(cycles, |cycles| - 1) <==>
            seen.operatorStop || CommandsStale(seen) || seen.controllerStop || Streak(cycles) > 20
  {
    StreakStale(cycles);
    var n := |cycles| - 1;
    if Streak(cycles) <= 20 && n >= 20 {
      assert !ImuStale(cycles[n - Streak(cycles)]);
    }
  }

  lemma {:induction false} EarlierCause(cycles: seq<Seen>, i: nat)
    requires i < |cycles| - 1
    ensures Cause(cycles[..|cycles| - 1], i) <==> Cause(cycles, i)
  {
    var before := cycles[..|cycles| - 1];
    assert forall j :: 0 <= j <= i ==> before[j] == cycles[j];
  }

  ghost predicate AnyCause(cycles: seq<Seen>) { exists i :: 0 <= i < |cycles| && Cause(cycles, i) }

  lemma {:induction false} AnyCauseSnoc(cycles: seq<Seen>)
    requires cycles != []
    ensures AnyCause(cycles) <==> AnyCause(cycles[..|cycles| - 1]) || Cause(cycles, |cycles| - 1)
  {
    var n := |cycles| - 1;
    forall i | 0 <= i < n
      ensures Cause(cycles[..n], i) <==> Cause(cycles, i)
    {
      EarlierCause(cycles, i);
    }
    if AnyCause(cycles[..n]) {
      var i :| 0 <= i < n && Cause(cycles[..n], i);
      assert Cause(cycles, i);
    }
    if AnyCause(cycles) {
      var i :| 0 <= i < |cycles| && Cause(cycles, i);
      assert i < n ==> Cause(cycles[..n], i);
    }
  }

  lemma {:induction false} WrappedCount(n: nat)
    ensures (n % UINT32 + 1) % UINT32 == (n + 1) % UINT32
  {
  }

  /** The stop is raised if and only if some cycle so far gave a reason; the 32-bit counter is
      the streak, and it wraps only after the stop was raised. */
  lemma {:induction false} StopIffCause(cycles: seq<Seen>)
    ensures SuperviseAll(cycles).staleCount == Streak(cycles) % 0x1_0000_0000
    ensures Streak(cycles) > 20 ==> SuperviseAll(cycles).stop
    ensures SuperviseAll(cycles).stop <==> AnyCause(cycles)
    decreases |cycles|
  {
    if cycles != [] {
      var before := cycles[..|cycles| - 1];
      StopIffCause(before);
      WrappedCount(Streak(before));
      AnyCauseSnoc(cycles);
      LastCause(cycles);
    }
  }

  /** Once raised, the stop stays. */
  lemma {:induction false} StopStays(cycles: seq<Seen>, more: seq<Seen>)
    requires SuperviseAll(cycles).stop
    ensures SuperviseAll(cycles + more).stop
    decreases |more|
  {
    if more == [] {
      assert cycles + more == cycles;
    } else {
      var n := |more| - 1;
      StopStays(cycles, more[..n]);
      assert (cycles + more)[..|cycles + more| - 1] == cycles + more[..n];
    }
  }

  // ---------------------------------------------------------------------------------------
  // The IMU bit comes from the checks of a watch.

  /** The cycles saw the verdicts of an IMU watch. */
  ghost predicate Watched(start: nat, schedule: seq<Action>, cycles: seq<Seen>) {
    var w := Exec(Started(start), IMU_STALE_TIMEOUT_MS, schedule);
    && 0 < start && w.clock < UINT64 / 2
    && |cycles| == |w.verdicts| && forall i :: 0 <= i < |cycles| ==> (ImuStale(cycles[i]) <==> w.verdicts[i].stale)
  }

  /** A change was stored after the check had read the clock. */
  predicate Raced(v: Verdict) { v.seen != [] && v.seen[|v.seen| - 1] > v.now }

  predicate OtherCause(seen: Seen) { seen.operatorStop || CommandsOld(seen) || seen.controllerStop }

  /** At 21 checks in a row, up to the i-th, the IMU was quiet or the check lost its race. */
  ghost predicate SilentRow(verdicts: seq<Verdict>, i: nat)
    requires i < |verdicts|
  {
    i >= 20 && forall j :: i - 20 <= j <= i ==> Raced(verdicts[j]) || Quiet(verdicts[j].seen, verdicts[j].now, IMU_STALE_TIMEOUT_MS)
  }

  lemma {:induction false} CauseWatched(start: nat, schedule: seq<Action>, cycles: seq<Seen>, i: nat)
    requires Watched(start, schedule, cycles) && i < |cycles|
    ensures var verdicts := Exec(Started(start), IMU_STALE_TIMEOUT_MS, schedule).verdicts;
            Cause(cycles, i) <==> OtherCause(cycles[i]) || SilentRow(verdicts, i)
  {
    Reachable(start, IMU_STALE_TIMEOUT_MS, schedule);
    var verdicts := Exec(Started(start), IMU_STALE_TIMEOUT_MS, schedule).verdicts;
    forall j | 0 <= j <= i
      ensures ImuStale(cycles[j]) <==> Raced(verdicts[j]) || Quiet(verdicts[j].seen, verdicts[j].now, IMU_STALE_TIMEOUT_MS)
    {
      assert Exact(verdicts[j], IMU_STALE_TIMEOUT_MS);
    }
  }

  /** Composer, checks and supervision together: in every interleaving the stop is raised if and
      only if some cycle gave another reason, or at 21 checks in a row no new IMU sequence number
      had been seen for 50 ms or one was just being stored. */
  lemma {:induction false} StopIffSilent(start: nat, schedule: seq<Action>, cycles: seq<Seen>)
    requires Watched(start, schedule, cycles)
    ensures var verdicts := Exec(Started(start), IMU_STALE_TIMEOUT_MS, schedule).verdicts;
            SuperviseAll(cycles).stop <==>
            exists i :: 0 <= i < |cycles| && (OtherCause(cycles[i]) || SilentRow(verdicts, i))
  {
    StopIffCause(cycles);
    var verdicts := Exec(Started(start), IMU_STALE_TIMEOUT_MS, schedule).verdicts;
    forall i | 0 <= i < |cycles|
      ensures Cause(cycles, i) <==> OtherCause(cycles[i]) || SilentRow(verdicts, i)
    {
      CauseWatched(start, schedule, cycles, i);
    }
    if AnyCause(cycles) {
      var i :| 0 <= i < |cycles| && Cause(cycles, i);
      assert OtherCause(cycles[i]) || SilentRow(verdicts, i);
    }
    if i :| 0 <= i < |cycles| && (OtherCause(cycles[i]) || SilentRow(verdicts, i)) {
      assert Cause(cycles, i);
    }
  }

  /** A check 50 ms after `x` or later, before which nothing new was seen after `x`. */
  ghost predicate SilentSince(v: Verdict, x: nat) {
    v.now >= x + IMU_STALE_TIMEOUT_MS * NS_PER_MS && forall k :: 0 <= k < |v.seen| ==> v.seen[k] <= x
  }

  ghost predicate SilentChecks(verdicts: seq<Verdict>, i: nat, x: nat) {
    20 <= i < |verdicts| && forall j :: i - 20 <= j <= i ==> SilentSince(verdicts[j], x)
  }

  /** An IMU of which nothing new is seen after time `x` raises the stop at the 21st check from
      50 ms after `x` on. */
  lemma {:induction false} SilentImuStops(start: nat, schedule: seq<Action>, cycles: seq<Seen>, i: nat, x: nat)
    requires Watched(start, schedule, cycles) && 20 <= i < |cycles|
    requires SilentChecks(Exec(Started(start), IMU_STALE_TIMEOUT_MS, schedule).verdicts, i, x)
    ensures SuperviseAll(cycles[..i + 1]).stop
  {
    var verdicts := Exec(Started(start), IMU_STALE_TIMEOUT_MS, schedule).verdicts;
    assert SilentRow(verdicts, i);
    CauseWatched(start, schedule, cycles, i);
    var sofar := cycles[..i + 1];
    assert forall j :: 0 <= j <= i ==> sofar[j] == cycles[j];
    assert Cause(sofar, i);
    StopIffCause(sofar);
  }

  lemma {:induction false} CheckOf21(i: nat) returns (j: nat)
    requires i >= 20
    ensures i - 20 <= j <= i && j % 21 == 20
  {
    var q := (i - 20) / 21;
    j := 20 + 21 * q;
  }

  /** One whose changes are seen in time, without that race, at one check in every 21, never does. */
  lemma {:induction false} LivelyImuNeverStops(start: nat, schedule: seq<Action>, cycles: seq<Seen>)
    requires Watched(start, schedule, cycles) && forall i :: 0 <= i < |cycles| ==> !OtherCause(cycles[i])
    requires var verdicts := Exec(Started(start), IMU_STALE_TIMEOUT_MS, schedule).verdicts;
             forall j :: 0 <= j < |verdicts| && j % 21 == 20 ==>
               && verdicts[j].seen != [] && !Raced(verdicts[j])
               && verdicts[j].now - verdicts[j].seen[|verdicts[j].seen| - 1] < IMU_STALE_TIMEOUT_MS * NS_PER_MS
    ensures !SuperviseAll(cycles).stop
  {
    StopIffSilent(start, schedule, cycles);
    var verdicts := Exec(Started(start), IMU_STALE_TIMEOUT_MS, schedule).verdicts;
    forall i | 0 <= i < |cycles|
      ensures !SilentRow(verdicts, i)
    {
      if i >= 20 {
        var j := CheckOf21(i);
        assert !Raced(verdicts[j]) && !Quiet(verdicts[j].seen, verdicts[j].now, IMU_STALE_TIMEOUT_MS);
      }
    }
  }

  // ---------------------------------------------------------------------------------------
  // The bits of the motor groups come from watches of their own.

  const GROUP_A: nat := 2
  const GROUP_B: nat := 4

  /** The cycle disables the leg of the group whose bit has the value `group`. */
  predicate DisablesLeg(seen: Seen, group: nat)
    requires group > 0
  {
    seen.mask / group % 2 == 1
  }

  /** The cycles saw the verdicts of a watch of that group. */
  ghost predicate GroupWatched(start: nat, schedule: seq<Action>, cycles: seq<Seen>, group: nat)
    requires group > 0
  {
    var w := Exec(Started(start), MOTOR_GROUP_STALE_TIMEOUT_MS, schedule);
    && 0 < start && w.clock < UINT64 / 2 && |cycles| == |w.verdicts|
    && forall i :: 0 <= i < |cycles| ==> (DisablesLeg(cycles[i], group) <==> w.verdicts[i].stale)
  }

  /** In every interleaving a cycle disables a leg if and only if, at its check, no new sequence
      number of that motor group had been seen for 100 ms or one was just being stored. */
  lemma {:induction false} LegDisabledIffSilent(start: nat, schedule: seq<Action>, cycles: seq<Seen>, group: nat, i: nat)
    requires group > 0 && GroupWatched(start, schedule, cycles, group) && i < |cycles|
    ensures var v := Exec(Started(start), MOTOR_GROUP_STALE_TIMEOUT_MS, schedule).verdicts[i];
            DisablesLeg(cycles[i], group) <==> Raced(v) || Quiet(v.seen, v.now, MOTOR_GROUP_STALE_TIMEOUT_MS)
  {
    Reachable(start, MOTOR_GROUP_STALE_TIMEOUT_MS, schedule);
    assert Exact(Exec(Started(start), MOTOR_GROUP_STALE_TIMEOUT_MS, schedule).verdicts[i], MOTOR_GROUP_STALE_TIMEOUT_MS);
  }

  class Robot {
    var imuStaleCounter: nat
    var emergencyStop: bool

    ghost function State(): Supervisor
      reads this
    {
      Supervisor(imuStaleCounter, emergencyStop)
    }

    constructor ()
      ensures State() == SuperviseAll([])
    {
      imuStaleCounter, emergencyStop := 0, false;
    }

    /** The supervision of `robotPeriodic`; the results tell which legs it disables. */
    method RobotPeriodic(seen: Seen) returns (disableLeft: bool, disableRight: bool)
      modifies this
      ensures State() == Supervise(old(State()), seen)
      ensures disableLeft == DisablesLeg(seen, GROUP_A) && disableRight == DisablesLeg(seen, GROUP_B)
    {
      if seen.operatorStop { emergencyStop := true; }
      if seen.mask % 2 == 1 {
        imuStaleCounter := (imuStaleCounter + 1) % UINT32;
        if imuStaleCounter > 20 { emergencyStop := true; }
      } else {
        imuStaleCounter := 0;
      }
      disableLeft := seen.mask / 2 % 2 == 1;
      disableRight := seen.mask / 4 % 2 == 1;
      if seen.commandIndex <= 1 && seen.commandTime > 0 {
        if seen.commandTime > seen.now || seen.now - seen.commandTime > HEARTBEAT_STALE_NS {
          emergencyStop := true;
        }
      }
      if seen.controllerStop { emergencyStop := true; }
    }

    /** A cycle with its check of the three sources, from the times last stored for them. */
    method Cycle(operatorStop: bool, now: nat, imu: nat, groupA: nat, groupB: nat, commandIndex: nat, commandTime: nat,
                 commandNow: nat, controllerStop: bool) returns (disableLeft: bool, disableRight: bool)
      requires now < UINT64 / 2 && imu < UINT64 / 2 && groupA < UINT64 / 2 && groupB < UINT64 / 2
      modifies this
      ensures disableLeft <==> groupA == 0 || groupA > now || now - groupA >= 100 * NS_PER_MS
      ensures disableRight <==> groupB == 0 || groupB > now || now - groupB >= 100 * NS_PER_MS
      ensures imuStaleCounter ==
              if imu == 0 || imu > now || now - imu >= 50 * NS_PER_MS then (old(imuStaleCounter) + 1) % UINT32 else 0
    {
      var mask := CheckStaleness(now, imu, groupA, groupB);
      disableLeft, disableRight := RobotPeriodic(Seen(operatorStop, mask, commandIndex, commandTime, commandNow, controllerStop));
    }

    /** Any number of cycles: the stop is raised exactly if one of them gave a reason. */
    method Supervised(cycles: seq<Seen>)
      requires State() == SuperviseAll([])
      modifies this
      ensures emergencyStop <==> AnyCause(cycles)
    {
      for i := 0 to |cycles|
        invariant State() == SuperviseAll(cycles[..i])
      {
        assert cycles[..i + 1][..i] == cycles[..i];
        var left, right := RobotPeriodic(cycles[i]);
      }
      assert cycles[..|cycles|] == cycles;
      StopIffCause(cycles);
    }
  }
}
