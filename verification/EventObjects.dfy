/** The wpi event objects (lib/common/Synchronization.cpp).

    Everything runs under one mutex, so a step is one critical section: creating, setting or
    resetting an event, the first pass of a wait, or one pass of its loop after the condition
    variable returned (notified, spuriously, or because the timeout expired). */
module EventObjects {
  type Handle = nat
  /** A thread inside `waitForObjects`, standing for the condition variable on its stack. */
  type Thread = nat

  /** What an event was credited with since it was last created (its initial state and every
      set), how often it was reported to a waiter, and what a set on a signaled event or a reset
      discarded. */
  datatype Ledger = Ledger(credits: nat, delivered: nat, absorbed: nat)

  datatype Signal = Signal(signaled: int, autoReset: bool, waiters: seq<Thread>, ledger: Ledger)

  type States = map<Handle, Signal>

  /** An entry of the output span; `missing` is the error bit. */
  datatype Report = Report(handle: Handle, missing: bool)

  // ---------------------------------------------------------------------------------------
  // One pass over the handles of a wait.

  predicate Hit(st: States, h: Handle) { h !in st || st[h].signaled > 0 }

  function ScanOne(st: States, h: Handle): States {
    if h in st && st[h].signaled > 0 then
      var e := st[h];
      var left := if e.autoReset then (if e.signaled - 1 < 0 then 0 else e.signaled - 1) else e.signaled;
      st[h := e.(signaled := left, ledger := e.ledger.(delivered := e.ledger.delivered + 1))]
    else st
  }

  function Scan(st: States, hs: seq<Handle>): States
    decreases |hs|
  {
    if hs == [] then st else ScanOne(Scan(st, hs[..|hs| - 1]), hs[|hs| - 1])
  }

  function Reports(st: States, hs: seq<Handle>): seq<Report>
    decreases |hs|
  {
    if hs == [] then []
    else
      var before, h := hs[..|hs| - 1], hs[|hs| - 1];
      Reports(st, before) + (if Hit(Scan(st, before), h) then [Report(h, h !in st)] else [])
  }

  // ---------------------------------------------------------------------------------------
  // Waiter lists.

  function Register(st: States, t: Thread, hs: seq<Handle>): States
    decreases |hs|
  {
    if hs == [] then st
    else
      var sofar, h := Register(st, t, hs[..|hs| - 1]), hs[|hs| - 1];
      var e := if h in sofar then sofar[h] else Signal(0, false, [], Ledger(0, 0, 0));
      sofar[h := e.(waiters := e.waiters + [t])]
  }

  /** `std::find` and `erase`. */
  function EraseFirst(s: seq<Thread>, t: Thread): seq<Thread> {
    if s == [] then [] else if s[0] == t then s[1..] else [s[0]] + EraseFirst(s[1..], t)
  }

  function Unregister(st: States, t: Thread, hs: seq<Handle>): States
    decreases |hs|
  {
    if hs == [] then st
    else
      var sofar, h := Unregister(st, t, hs[..|hs| - 1]), hs[|hs| - 1];
      var e := if h in sofar then sofar[h] else Signal(0, false, [], Ledger(0, 0, 0));
      sofar[h := e.(waiters := EraseFirst(e.waiters, t))]
  }

  function Notified(e: Signal): seq<Thread> {
    if e.autoReset && e.waiters != [] then [e.waiters[0]] else e.waiters
  }

  function SetSignal(e: Signal): Signal {
    e.(signaled := 1,
       ledger := e.ledger.(credits := e.ledger.credits + 1,
                           absorbed := e.ledger.absorbed + (if e.signaled > 0 then e.signaled else 0)))
  }

  function ResetSignal(e: Signal): Signal {
    e.(signaled := 0,
       ledger := e.ledger.(absorbed := e.ledger.absorbed + (if e.signaled > 0 then e.signaled else 0)))
  }

  // ---------------------------------------------------------------------------------------
  // The protocol.

  /** `timeout` zero, positive or negative. */
  datatype Timeout = Zero | Finite | Forever

  /** A thread inside the condition wait; `notified` makes it runnable. */
  datatype Blocked = Blocked(handles: seq<Handle>, finite: bool, notified: bool)

  /** One return from `waitForObjects`. */
  datatype Returned = Returned(t: Thread, reports: seq<Report>, timedOut: bool)

  datatype World = World(states: States, blocked: map<Thread, Blocked>, log: seq<Returned>)

  datatype Action =
    | Create(h: Handle, manualReset: bool, initialState: bool)
    | Set(h: Handle)
    | Reset(h: Handle)
    | Wait(t: Thread, handles: seq<Handle>, timeout: Timeout)
    | Wake(t: Thread)
    | Expire(t: Thread)

  function Init(): World { World(map[], map[], []) }

  function Fresh(manualReset: bool, initialState: bool): Signal {
    var n := if initialState then 1 else 0;
    Signal(n, !manualReset, [], Ledger(n, 0, 0))
  }

  /** `createEvent` and `createSignalObject`: a handle that exists gets a new state but keeps its
      waiters, and nobody is notified. */
  function Created(st: States, h: Handle, manualReset: bool, initialState: bool): Signal {
    Fresh(manualReset, initialState).(waiters := if h in st then st[h].waiters else [])
  }

  function NotifyAll(blocked: map<Thread, Blocked>, woken: seq<Thread>): map<Thread, Blocked> {
    map t | t in blocked :: if t in woken then blocked[t].(notified := true) else blocked[t]
  }

  function Return(w: World, st: States, t: Thread, reports: seq<Report>, timedOut: bool): World {
    World(st, w.blocked - {t}, w.log + [Returned(t, reports, timedOut)])
  }

  /** The loop body after the condition variable returned. */
  function Pass(w: World, t: Thread, expired: bool): World
    requires t in w.blocked
  {
    var b := w.blocked[t];
    var st, reports := Scan(w.states, b.handles), Reports(w.states, b.handles);
    if expired || reports != [] then Return(w, Unregister(st, t, b.handles), t, reports, expired)
    else w.(states := st, blocked := w.blocked[t := b.(notified := false)])
  }

  function FirstPass(w: World, t: Thread, hs: seq<Handle>, timeout: Timeout): World {
    var st, reports := Scan(w.states, hs), Reports(w.states, hs);
    if reports != [] then Return(w, st, t, reports, false)
    else if timeout.Zero? then Return(w, st, t, [], true)
    else w.(states := Register(st, t, hs), blocked := w.blocked[t := Blocked(hs, timeout.Finite?, false)])
  }

  function Step(w: World, a: Action): World {
    match a
    case Create(h, manualReset, initialState) =>
      w.(states := w.states[h := Created(w.states, h, manualReset, initialState)])
    case Set(h) =>
      if h !in w.states then w
      else World(w.states[h := SetSignal(w.states[h])], NotifyAll(w.blocked, Notified(w.states[h])), w.log)
    case Reset(h) =>
      if h !in w.states then w else w.(states := w.states[h := ResetSignal(w.states[h])])
    case Wait(t, hs, timeout) => if t in w.blocked then w else FirstPass(w, t, hs, timeout)
    case Wake(t) => if t in w.blocked then Pass(w, t, false) else w
    case Expire(t) => if t in w.blocked && w.blocked[t].finite then Pass(w, t, true) else w
  }

  function Exec(w: World, schedule: seq<Action>): World
    decreases |schedule|
  {
    if schedule == [] then w else Step(Exec(w, schedule[..|schedule| - 1]), schedule[|schedule| - 1])
  }

  // ---------------------------------------------------------------------------------------
  // Invariants.

  /** An event is signaled at most once, and every credit of an auto-reset event was
      delivered, discarded, or is still there. */
  ghost predicate Sane(e: Signal) {
    && 0 <= e.signaled <= 1
    && (e.autoReset ==> e.ledger.credits == e.ledger.delivered + e.ledger.absorbed + e.signaled)
  }

  ghost predicate AllSane(st: States) { forall h :: h in st ==> Sane(st[h]) }

  function Times(s: seq<nat>, x: nat): nat { multiset(s)[x] }

  /** A thread stands in an event's waiter list as often as the event is in its handle list. */
  ghost predicate Listed(st: States, blocked: map<Thread, Blocked>) {
    && (forall h, t :: h in st && t in blocked ==> Times(st[h].waiters, t) == Times(blocked[t].handles, h))
    && (forall h, t :: h in st && t in st[h].waiters ==> t in blocked)
    && (forall t, h :: t in blocked && h in blocked[t].handles ==> h in st)
  }

  /** Who has to be woken when the event is signaled: every waiter, or for auto-reset the one that
      registered first. */
  predicate MustWake(e: Signal, t: Thread) {
    if e.autoReset then e.waiters != [] && t == e.waiters[0] else t in e.waiters
  }

  /** No wake-up is lost: a signaled event that anybody waits for has a notified waiter. */
  ghost predicate Runnable(e: Signal, blocked: map<Thread, Blocked>) {
    e.signaled > 0 ==> forall t :: MustWake(e, t) ==> t in blocked && blocked[t].notified
  }

  ghost predicate AllRunnable(st: States, blocked: map<Thread, Blocked>) {
    forall h :: h in st ==> Runnable(st[h], blocked)
  }

  ghost predicate Inv(w: World) {
    AllSane(w.states) && Listed(w.states, w.blocked) && AllRunnable(w.states, w.blocked)
  }

  /** What a pass over `hs` does to one event. */
  lemma {:induction false} ScanEffect(st: States, hs: seq<Handle>)
    requires AllSane(st)
    ensures Scan(st, hs).Keys == st.Keys && AllSane(Scan(st, hs))
    ensures forall h :: h in st ==>
              var e, f := st[h], Scan(st, hs)[h];
              && f.waiters == e.waiters && f.autoReset == e.autoReset && f.signaled <= e.signaled
              && (h !in hs || !e.autoReset ==> f.signaled == e.signaled)
              && (h in hs && e.autoReset ==> f.signaled == 0)
    decreases |hs|
  {
    if hs != [] {
      var before, h := hs[..|hs| - 1], hs[|hs| - 1];
      ScanEffect(st, before);
      assert hs == before + [h];
    }
  }

  /** A pass reports nothing exactly when every handle exists and is not signaled, and then it
      changes nothing; it reports every signaled handle. */
  lemma {:induction false} ReportsEffect(st: States, hs: seq<Handle>)
    requires AllSane(st)
    ensures Reports(st, hs) == [] <==> forall h :: h in hs ==> h in st && st[h].signaled == 0
    ensures Reports(st, hs) == [] ==> Scan(st, hs) == st
    ensures forall h :: h in hs && h in st && st[h].signaled > 0 ==> Report(h, false) in Reports(st, hs)
    ensures forall h :: Report(h, false) in Reports(st, hs) ==> h in hs && h in st && st[h].signaled > 0
    ensures forall h :: Report(h, true) in Reports(st, hs) <==> h in hs && h !in st
    decreases |hs|
  {
    if hs != [] {
      var before, h := hs[..|hs| - 1], hs[|hs| - 1];
      ReportsEffect(st, before);
      ScanEffect(st, before);
      assert hs == before + [h];
    }
  }

  /** What registering does to one event: `n` copies of the waiter are appended. */
  ghost predicate Appended(e: Signal, f: Signal, t: Thread, n: nat) {
    && f == e.(waiters := f.waiters)
    && e.waiters <= f.waiters && |f.waiters| == |e.waiters| + n
    && forall i :: |e.waiters| <= i < |f.waiters| ==> f.waiters[i] == t
  }

  lemma {:induction false} AppendedOne(e: Signal, f: Signal, t: Thread, n: nat)
    requires Appended(e, f, t, n)
    ensures Appended(e, f.(waiters := f.waiters + [t]), t, n + 1)
  {
  }

  lemma {:induction false} RegisterEffect(st: States, t: Thread, hs: seq<Handle>)
    requires forall h :: h in hs ==> h in st
    ensures Register(st, t, hs).Keys == st.Keys
    ensures forall h :: h in st ==> Appended(st[h], Register(st, t, hs)[h], t, Times(hs, h))
    decreases |hs|
  {
    if hs != [] {
      var before, h := hs[..|hs| - 1], hs[|hs| - 1];
      RegisterEffect(st, t, before);
      assert hs == before + [h];
      AppendedOne(st[h], Register(st, t, before)[h], t, Times(before, h));
    }
  }

  lemma {:induction false} EraseEffect(s: seq<Thread>, t: Thread)
    ensures multiset(EraseFirst(s, t)) == multiset(s) - multiset{t}
    ensures t !in s ==> EraseFirst(s, t) == s
    decreases |s|
  {
    if s != [] {
      assert s == [s[0]] + s[1..];
      EraseEffect(s[1..], t);
    }
  }

  lemma {:induction false} UnregisterKeys(st: States, t: Thread, hs: seq<Handle>)
    requires forall h :: h in hs ==> h in st
    ensures Unregister(st, t, hs).Keys == st.Keys
    decreases |hs|
  {
    if hs != [] {
      assert forall h :: h in hs[..|hs| - 1] ==> h in hs;
      UnregisterKeys(st, t, hs[..|hs| - 1]);
    }
  }

  lemma {:induction false} UnregisterAt(st: States, t: Thread, hs: seq<Handle>, h: Handle)
    requires h in st && forall g :: g in hs ==> g in st
    ensures h in Unregister(st, t, hs)
    ensures var e, f := st[h], Unregister(st, t, hs)[h];
            && f == e.(waiters := f.waiters)
            && (h !in hs ==> f == e)
            && (forall u :: u != t ==> Times(f.waiters, u) == Times(e.waiters, u))
            && (Times(e.waiters, t) >= Times(hs, h) ==> Times(f.waiters, t) == Times(e.waiters, t) - Times(hs, h))
    decreases |hs|
  {
    UnregisterKeys(st, t, hs);
    if hs != [] {
      var before, last := hs[..|hs| - 1], hs[|hs| - 1];
      assert hs == before + [last];
      UnregisterKeys(st, t, before);
      UnregisterAt(st, t, before, h);
      if h == last {
        EraseEffect(Unregister(st, t, before)[h].waiters, t);
      }
    }
  }

  // ---------------------------------------------------------------------------------------
  // Every step keeps the invariant.

  /** Notifying changes neither lists nor who is blocked. */
  lemma {:induction false} NotifyListed(st: States, blocked: map<Thread, Blocked>, woken: seq<Thread>)
    requires Listed(st, blocked)
    ensures Listed(st, NotifyAll(blocked, woken))
  {
    var after := NotifyAll(blocked, woken);
    assert after.Keys == blocked.Keys;
    assert forall t :: t in blocked ==> after[t].handles == blocked[t].handles;
  }

  lemma {:induction false} SetListed(st: States, blocked: map<Thread, Blocked>, h: Handle, woken: seq<Thread>)
    requires Listed(st, blocked) && h in st
    ensures Listed(st[h := SetSignal(st[h])], NotifyAll(blocked, woken))
  {
    CreateListed(st, blocked, h, SetSignal(st[h]));
    NotifyListed(st[h := SetSignal(st[h])], blocked, woken);
  }

  /** The loop of a set notifies those who have to be woken and nobody else. */
  lemma {:induction false} NotifiesExactly(e: Signal, t: Thread)
    ensures t in Notified(e) <==> MustWake(e, t)
  {
  }

  lemma {:induction false} SetKeepsInv(w: World, h: Handle)
    requires Inv(w) && h in w.states
    ensures Inv(Step(w, Set(h)))
  {
    var v := Step(w, Set(h));
    SetListed(w.states, w.blocked, h, Notified(w.states[h]));
    forall g | g in v.states
      ensures Runnable(v.states[g], v.blocked)
    {
      if g == h {
        forall t | MustWake(v.states[h], t)
          ensures t in v.blocked && v.blocked[t].notified
        {
          NotifiesExactly(w.states[h], t);
          assert t in w.states[h].waiters;
        }
      } else {
        assert Runnable(w.states[g], w.blocked);
      }
    }
  }

  /** Coming back from the condition wait empty-handed. */
  lemma {:induction false} BlockAgainKeepsInv(w: World, t: Thread)
    requires Inv(w) && t in w.blocked && Reports(w.states, w.blocked[t].handles) == []
    ensures Inv(Pass(w, t, false))
  {
    var v, hs := Pass(w, t, false), w.blocked[t].handles;
    ReportsEffect(w.states, hs);
    forall g | g in v.states
      ensures Runnable(v.states[g], v.blocked)
    {
      assert Runnable(w.states[g], w.blocked);
      if t in w.states[g].waiters {
        assert Times(w.states[g].waiters, t) == Times(hs, g);
        assert g in hs;
      }
    }
  }

  /** A pass alone: what it leaves signaled was signaled, and nobody moves. */
  lemma {:induction false} ScanKeepsInv(w: World, hs: seq<Handle>)
    requires Inv(w)
    ensures Inv(w.(states := Scan(w.states, hs)))
  {
    var st := Scan(w.states, hs);
    ScanEffect(w.states, hs);
    forall g | g in st
      ensures Runnable(st[g], w.blocked)
    {
      assert Runnable(w.states[g], w.blocked);
    }
  }

  lemma {:induction false} TimesIn(s: seq<nat>, x: nat)
    ensures Times(s, x) > 0 <==> x in s
  {
  }

  /** Leaving with everything in `hs` consumed: the remaining waiters of those events are
      those that were there, and only a manual-reset event can still be signaled. */
  lemma {:induction false} LeaveListed(st: States, blocked: map<Thread, Blocked>, t: Thread)
    requires t in blocked && Listed(st, blocked)
    ensures Unregister(st, t, blocked[t].handles).Keys == st.Keys
    ensures Listed(Unregister(st, t, blocked[t].handles), blocked - {t})
  {
    var hs := blocked[t].handles;
    var after := Unregister(st, t, hs);
    UnregisterKeys(st, t, hs);
    forall h | h in st
      ensures t !in after[h].waiters
      ensures forall u :: u != t ==> Times(after[h].waiters, u) == Times(st[h].waiters, u)
      ensures forall u :: u in after[h].waiters ==> u in st[h].waiters
    {
      UnregisterAt(st, t, hs, h);
      TimesIn(after[h].waiters, t);
      forall u | u in after[h].waiters
        ensures u in st[h].waiters
      {
        TimesIn(after[h].waiters, u);
        TimesIn(st[h].waiters, u);
      }
    }
  }

  /** An event after the scan and the clean-up of a leaving thread. */
  lemma {:induction false} LeaveRunnable(st: States, blocked: map<Thread, Blocked>, t: Thread, g: Handle)
    requires t in blocked && Listed(st, blocked) && g in st && Sane(st[g]) && Runnable(st[g], blocked)
    requires g in blocked[t].handles && st[g].autoReset ==> st[g].signaled == 0
    ensures g in Unregister(st, t, blocked[t].handles)
    ensures var e := Unregister(st, t, blocked[t].handles)[g]; Sane(e) && Runnable(e, blocked - {t})
  {
    var hs := blocked[t].handles;
    UnregisterAt(st, t, hs, g);
    var e := Unregister(st, t, hs)[g];
    if g in hs {
      forall u | u in e.waiters
        ensures u != t && u in st[g].waiters
      {
        TimesIn(e.waiters, u);
        TimesIn(st[g].waiters, u);
      }
    } else {
      assert Times(st[g].waiters, t) == Times(hs, g) == 0;
      TimesIn(st[g].waiters, t);
    }
  }

  lemma {:induction false} LeaveKeepsInv(w: World, t: Thread, expired: bool)
    requires Inv(w) && t in w.blocked
    requires expired || Reports(w.states, w.blocked[t].handles) != []
    ensures Inv(Pass(w, t, expired))
  {
    var hs := w.blocked[t].handles;
    var st := Scan(w.states, hs);
    ScanKeepsInv(w, hs);
    ScanEffect(w.states, hs);
    LeaveListed(st, w.blocked, t);
    forall g | g in st
      ensures Sane(Unregister(st, t, hs)[g]) && Runnable(Unregister(st, t, hs)[g], w.blocked - {t})
    {
      LeaveRunnable(st, w.blocked, t, g);
    }
  }

  lemma {:induction false} AppendedCopies(before: seq<nat>, after: seq<nat>, t: nat)
    requires before <= after && t !in before
    requires forall i :: |before| <= i < |after| ==> after[i] == t
    ensures Times(after, t) == |after| - |before|
    ensures forall u :: u != t ==> Times(after, u) == Times(before, u)
    decreases |after|
  {
    if |after| == |before| {
      assert after == before;
    } else {
      var shorter := after[..|after| - 1];
      assert after == shorter + [t];
      AppendedCopies(before, shorter, t);
    }
  }

  lemma {:induction false} RegisterAt(st: States, t: Thread, hs: seq<Handle>, h: Handle)
    requires h in st && t !in st[h].waiters && forall g :: g in hs ==> g in st
    ensures h in Register(st, t, hs)
    ensures var after := Register(st, t, hs)[h].waiters;
            && Times(after, t) == Times(hs, h)
            && (forall u :: u != t ==> Times(after, u) == Times(st[h].waiters, u))
            && forall u :: u in after ==> u == t || u in st[h].waiters
  {
    RegisterEffect(st, t, hs);
    AppendedCopies(st[h].waiters, Register(st, t, hs)[h].waiters, t);
  }

  lemma {:induction false} EnterListed(st: States, blocked: map<Thread, Blocked>, t: Thread, hs: seq<Handle>, b: Blocked)
    requires t !in blocked && Listed(st, blocked) && b.handles == hs
    requires forall h :: h in hs ==> h in st
    ensures Register(st, t, hs).Keys == st.Keys
    ensures Listed(Register(st, t, hs), blocked[t := b])
  {
    var after := Register(st, t, hs);
    RegisterEffect(st, t, hs);
    forall h, u | h in after && u in blocked[t := b]
      ensures Times(after[h].waiters, u) == Times(blocked[t := b][u].handles, h)
    {
      RegisterAt(st, t, hs, h);
    }
    forall h, u | h in after && u in after[h].waiters
      ensures u in blocked[t := b]
    {
      RegisterAt(st, t, hs, h);
    }
  }

  lemma {:induction false} EnterKeepsInv(w: World, t: Thread, hs: seq<Handle>, timeout: Timeout)
    requires Inv(w) && t !in w.blocked && Reports(w.states, hs) == [] && !timeout.Zero?
    ensures Inv(FirstPass(w, t, hs, timeout))
  {
    var v := FirstPass(w, t, hs, timeout);
    ReportsEffect(w.states, hs);
    EnterListed(w.states, w.blocked, t, hs, Blocked(hs, timeout.Finite?, false));
    RegisterEffect(w.states, t, hs);
    forall g | g in v.states
      ensures Sane(v.states[g]) && Runnable(v.states[g], v.blocked)
    {
      assert Sane(w.states[g]) && Runnable(w.states[g], w.blocked);
      if g !in hs {
        assert Times(hs, g) == 0;
        assert v.states[g].waiters == w.states[g].waiters;
      }
    }
  }

  lemma {:induction false} WaitKeepsInv(w: World, t: Thread, hs: seq<Handle>, timeout: Timeout)
    requires Inv(w) && t !in w.blocked
    ensures Inv(FirstPass(w, t, hs, timeout))
  {
    if Reports(w.states, hs) == [] && !timeout.Zero? {
      EnterKeepsInv(w, t, hs, timeout);
    } else {
      ScanKeepsInv(w, hs);
      assert w.blocked - {t} == w.blocked;
    }
  }

  /** Who has to be awake when the call creates a live handle as signaled: every waiter it finds
      registered, or for auto-reset the first. */
  predicate MustBeAwake(st: States, a: Action, t: Thread)
    requires a.Create?
  {
    && a.initialState && a.h in st
    && if a.manualReset then t in st[a.h].waiters else st[a.h].waiters != [] && t == st[a.h].waiters[0]
  }

  /** A creation leaves nobody asleep who should be awake. */
  ghost predicate Covered(w: World, a: Action) {
    a.Create? ==> forall t :: MustBeAwake(w.states, a, t) ==> t in w.blocked && w.blocked[t].notified
  }

  lemma {:induction false} CreateListed(st: States, blocked: map<Thread, Blocked>, h: Handle, e: Signal)
    requires Listed(st, blocked) && e.waiters == if h in st then st[h].waiters else []
    ensures Listed(st[h := e], blocked)
  {
    assert forall g :: g in st ==> st[h := e][g].waiters == st[g].waiters;
    forall t | t in blocked && h !in st
      ensures Times(blocked[t].handles, h) == 0
    {
      TimesIn(blocked[t].handles, h);
    }
  }

  lemma {:induction false} CreateKeepsInv(w: World, a: Action)
    requires Inv(w) && a.Create? && Covered(w, a)
    ensures Inv(Step(w, a))
  {
    var st := Step(w, a).states;
    CreateListed(w.states, w.blocked, a.h, Created(w.states, a.h, a.manualReset, a.initialState));
    forall g | g in st
      ensures Runnable(st[g], w.blocked)
    {
      if g == a.h {
        assert forall t :: MustWake(st[g], t) && st[g].signaled > 0 ==> MustBeAwake(w.states, a, t);
      } else {
        assert Runnable(w.states[g], w.blocked);
      }
    }
  }

  lemma {:induction false} ResetKeepsInv(w: World, h: Handle)
    requires Inv(w) && h in w.states
    ensures Inv(w.(states := w.states[h := ResetSignal(w.states[h])]))
  {
    var st := w.states[h := ResetSignal(w.states[h])];
    forall g | g in st
      ensures Runnable(st[g], w.blocked)
    {
      assert Runnable(w.states[g], w.blocked);
    }
  }

  lemma {:induction false} StepKeepsInv(w: World, a: Action)
    requires Inv(w) && Covered(w, a)
    ensures Inv(Step(w, a))
  {
    match a
    case Create(_, _, _) => CreateKeepsInv(w, a);
    case Set(h) => if h in w.states { SetKeepsInv(w, h); }
    case Reset(h) => if h in w.states { ResetKeepsInv(w, h); }
    case Wait(t, hs, timeout) => if t !in w.blocked { WaitKeepsInv(w, t, hs, timeout); }
    case Wake(t) =>
      if t in w.blocked {
        if Reports(w.states, w.blocked[t].handles) == [] { BlockAgainKeepsInv(w, t); } else { LeaveKeepsInv(w, t, false); }
      }
    case Expire(t) => if t in w.blocked && w.blocked[t].finite { LeaveKeepsInv(w, t, true); }
  }

  // ---------------------------------------------------------------------------------------
  // Who was notified, told from the calls made.

  /** The call is a set that notifies `t`. */
  predicate Tells(w: World, a: Action, t: Thread) { a.Set? && a.h in w.states && MustWake(w.states[a.h], t) }

  /** The step is a pass of `t`. */
  predicate Passes(w: World, a: Action, t: Thread) {
    t in w.blocked && (a == Wake(t) || (a == Expire(t) && w.blocked[t].finite))
  }

  /** A set has notified `t` since its last pass. */
  predicate SetSince(schedule: seq<Action>, t: Thread)
    decreases |schedule|
  {
    schedule != [] &&
    var before, a := schedule[..|schedule| - 1], schedule[|schedule| - 1];
    var w := Exec(Init(), before);
    Tells(w, a, t) || (SetSince(before, t) && !Passes(w, a, t))
  }

  /** A call that is no creation of a live handle, or creates it unsignaled, or finds nobody
      registered on it, or finds those to be notified already notified by a set. */
  ghost predicate SafeCall(before: seq<Action>, a: Action) {
    a.Create? ==> forall t :: MustBeAwake(Exec(Init(), before).states, a, t) ==> SetSince(before, t)
  }

  ghost predicate SafeCalls(schedule: seq<Action>) {
    forall n :: 0 <= n < |schedule| ==> SafeCall(schedule[..n], schedule[n])
  }

  lemma {:induction false} SafePrefix(schedule: seq<Action>, m: nat)
    requires m <= |schedule| && SafeCalls(schedule)
    ensures SafeCalls(schedule[..m])
  {
    forall n | 0 <= n < m
      ensures SafeCall(schedule[..m][..n], schedule[..m][n])
    {
      assert schedule[..m][..n] == schedule[..n];
    }
  }

  lemma {:induction false} SafeSnoc(schedule: seq<Action>)
    requires schedule != []
    ensures SafeCalls(schedule[..|schedule| - 1]) && SafeCall(schedule[..|schedule| - 1], schedule[|schedule| - 1]) ==>
            SafeCalls(schedule)
  {
    var m := |schedule| - 1;
    forall n | 0 <= n < m && SafeCalls(schedule[..m])
      ensures SafeCall(schedule[..n], schedule[n])
    {
      assert schedule[..m][..n] == schedule[..n] && schedule[..m][n] == schedule[n];
      assert SafeCall(schedule[..m][..n], schedule[..m][n]);
    }
  }

  predicate Awake(w: World, t: Thread) { t in w.blocked && w.blocked[t].notified }

  lemma {:induction false} AwakeStep(w: World, a: Action, t: Thread)
    requires Listed(w.states, w.blocked)
    ensures Awake(Step(w, a), t) <==> Tells(w, a, t) || (Awake(w, t) && !Passes(w, a, t))
  {
    match a
    case Set(h) => if h in w.states { SetAwake(w, h, t); }
    case Wait(u, _, _) => assert u != t || t !in w.blocked || Step(w, a) == w;
    case Wake(u) => assert u != t ==> (Awake(Step(w, a), t) <==> Awake(w, t));
    case Expire(u) => assert u != t ==> (Awake(Step(w, a), t) <==> Awake(w, t));
    case _ =>
  }

  lemma {:induction false} SetAwake(w: World, h: Handle, t: Thread)
    requires Listed(w.states, w.blocked) && h in w.states
    ensures Awake(Step(w, Set(h)), t) <==> MustWake(w.states[h], t) || Awake(w, t)
  {
    NotifiesExactly(w.states[h], t);
    if MustWake(w.states[h], t) {
      assert t in w.states[h].waiters;
    }
  }

  /** In a run of safe calls every step keeps the invariant, and the threads ready to return
      from their condition wait are those a set notified since their last pass. */
  lemma {:induction false} Reachable(schedule: seq<Action>)
    requires SafeCalls(schedule)
    ensures Inv(Exec(Init(), schedule))
    ensures forall t :: SetSince(schedule, t) <==> Awake(Exec(Init(), schedule), t)
    decreases |schedule|
  {
    if schedule != [] {
      var m := |schedule| - 1;
      var before, a := schedule[..m], schedule[m];
      var w := Exec(Init(), before);
      SafePrefix(schedule, m);
      Reachable(before);
      assert SafeCall(schedule[..m], schedule[m]);
      assert forall t :: SetSince(before, t) ==> Awake(w, t);
      StepKeepsInv(w, a);
      forall t
        ensures SetSince(schedule, t) <==> Awake(Exec(Init(), schedule), t)
      {
        AwakeStep(w, a, t);
      }
    }
  }

  // ---------------------------------------------------------------------------------------
  // Main results.

  /** `t` is ready to return from its condition wait, and its pass then returns with `h`. */
  predicate ReturnsWith(w: World, t: Thread, h: Handle) {
    && Awake(w, t)
    && var v := Step(w, Wake(t));
       && t !in v.blocked && |v.log| == |w.log| + 1
       && v.log[|w.log|].t == t && Report(h, false) in v.log[|w.log|].reports
  }

  /** If `h` is signaled, all its waiters, or the first one for auto-reset, are on their way to
      return with it. */
  ghost predicate Served(w: World, h: Handle) {
    h in w.states && w.states[h].signaled > 0 ==> forall t :: MustWake(w.states[h], t) ==> ReturnsWith(w, t, h)
  }

  lemma {:induction false} InvServes(w: World, h: Handle)
    requires Inv(w)
    ensures Served(w, h)
  {
    if h in w.states && w.states[h].signaled > 0 {
      forall t | MustWake(w.states[h], t)
        ensures ReturnsWith(w, t, h)
      {
        assert Runnable(w.states[h], w.blocked);
        assert t in w.states[h].waiters;
        assert Times(w.states[h].waiters, t) == Times(w.blocked[t].handles, h);
        TimesIn(w.states[h].waiters, t);
        TimesIn(w.blocked[t].handles, h);
        ReportsEffect(w.states, w.blocked[t].handles);
      }
    }
  }

  ghost predicate ServedAt(schedule: seq<Action>, n: nat, h: Handle)
    requires n <= |schedule|
  {
    Served(Exec(Init(), schedule[..n]), h)
  }

  /** No wake-up is lost at any time of the run. */
  ghost predicate AlwaysServed(schedule: seq<Action>) {
    forall n, h :: 0 <= n <= |schedule| ==> ServedAt(schedule, n, h)
  }

  lemma {:induction false} ServedPrefix(schedule: seq<Action>, m: nat)
    requires m <= |schedule|
    ensures AlwaysServed(schedule) ==> AlwaysServed(schedule[..m])
  {
    forall n, h | 0 <= n <= m && AlwaysServed(schedule)
      ensures ServedAt(schedule[..m], n, h)
    {
      assert schedule[..m][..n] == schedule[..n];
      assert ServedAt(schedule, n, h);
    }
  }

  /** An unsafe creation leaves someone asleep, registered on an event that is signaled. */
  lemma {:induction false} UnsafeCallLosesWakeup(before: seq<Action>, a: Action)
    requires SafeCalls(before) && !SafeCall(before, a)
    ensures a.Create? && !Served(Step(Exec(Init(), before), a), a.h)
  {
    Reachable(before);
    var w := Exec(Init(), before);
    var t :| MustBeAwake(w.states, a, t) && !SetSince(before, t);
    var v := Step(w, a);
    assert MustWake(v.states[a.h], t) && v.states[a.h].signaled > 0;
    assert !Awake(v, t);
    assert !ReturnsWith(v, t, a.h);
  }

  /** Over all runs, with any number of waiters, timeouts and re-creations: at every moment the
      waiters a signaled event has to wake are on their way to return with it, if and only if
      every creation is a safe call. */
  lemma {:induction false} NoLostWakeup(schedule: seq<Action>)
    ensures SafeCalls(schedule) <==> AlwaysServed(schedule)
    decreases |schedule|
  {
    if SafeCalls(schedule) {
      forall n, h | 0 <= n <= |schedule|
        ensures ServedAt(schedule, n, h)
      {
        SafePrefix(schedule, n);
        Reachable(schedule[..n]);
        InvServes(Exec(Init(), schedule[..n]), h);
      }
    } else if schedule != [] {
      var m := |schedule| - 1;
      NoLostWakeup(schedule[..m]);
      ServedPrefix(schedule, m);
      SafeSnoc(schedule);
      if SafeCalls(schedule[..m]) {
        UnsafeCallLosesWakeup(schedule[..m], schedule[m]);
        assert schedule[..|schedule|] == schedule;
        assert !ServedAt(schedule, |schedule|, schedule[m].h);
      }
    }
  }

  /** In particular without re-creation of live handles, or when they are created unsignaled. */
  lemma {:induction false} NoneLostWithoutRecreation(schedule: seq<Action>)
    requires forall n :: 0 <= n < |schedule| && schedule[n].Create? ==>
               !schedule[n].initialState || schedule[n].h !in Exec(Init(), schedule[..n]).states
    ensures AlwaysServed(schedule)
  {
    forall n | 0 <= n < |schedule|
      ensures SafeCall(schedule[..n], schedule[n])
    {
      assert schedule[n].Create? ==> forall t :: !MustBeAwake(Exec(Init(), schedule[..n]).states, schedule[n], t);
    }
    NoLostWakeup(schedule);
  }

  lemma {:induction false} ExecSnoc(w: World, schedule: seq<Action>, a: Action)
    ensures Exec(w, schedule + [a]) == Step(Exec(w, schedule), a)
  {
    assert (schedule + [a])[..|schedule|] == schedule;
  }

  lemma {:induction false} RegisterOne(st: States, t: Thread, h: Handle)
    requires h in st && st[h].waiters == []
    ensures Register(st, t, [h]) == st[h := st[h].(waiters := [t])]
  {
    assert [h][..0] == [];
    assert Register(st, t, []) == st;
    assert st[h].waiters + [t] == [t];
  }

  /** A thread waits for an event that is then created again as signaled: it sleeps on. */
  lemma {:induction false} SleepsThroughRecreation(t: Thread, h: Handle)
    ensures var w := Exec(Init(), [Create(h, false, false), Wait(t, [h], Forever), Create(h, false, true)]);
            && h in w.states && w.states[h].signaled == 1 && w.states[h].waiters == [t]
            && t in w.blocked && !w.blocked[t].notified && !Served(w, h)
  {
    var s1 := [Create(h, false, false)];
    var s2 := s1 + [Wait(t, [h], Forever)];
    ExecSnoc(Init(), [], Create(h, false, false));
    ExecSnoc(Init(), s1, Wait(t, [h], Forever));
    ExecSnoc(Init(), s2, Create(h, false, true));
    assert [] + s1 == s1 && s2 + [Create(h, false, true)] ==
           [Create(h, false, false), Wait(t, [h], Forever), Create(h, false, true)];
    var w1 := Exec(Init(), s1);
    ReportsEffect(w1.states, [h]);
    RegisterOne(w1.states, t, h);
    var w := Step(Exec(Init(), s2), Create(h, false, true));
    assert w.states[h].waiters == [t] && MustWake(w.states[h], t);
    assert !ReturnsWith(w, t, h);
  }

  // ---------------------------------------------------------------------------------------
  // What is delivered.

  /** How often the waits that returned reported `h`. */
  function Delivered(log: seq<Returned>, h: Handle): nat
    decreases |log|
  {
    if log == [] then 0
    else Delivered(log[..|log| - 1], h) + multiset(log[|log| - 1].reports)[Report(h, false)]
  }

  function Sets(schedule: seq<Action>, h: Handle): nat {
    multiset(schedule)[Set(h)]
  }

  /** What can happen to event `h` between two states of the table, given what was reported. */
  ghost predicate Moves(st: States, after: States, h: Handle, sets: nat, reported: nat) {
    if h in st then
      && h in after && after[h].autoReset == st[h].autoReset
      && after[h].ledger.credits == st[h].ledger.credits + sets
      && after[h].ledger.delivered == st[h].ledger.delivered + reported
    else
      reported == 0
  }

  function Reported(reports: seq<Report>, h: Handle): nat { multiset(reports)[Report(h, false)] }

  lemma {:induction false} ScanMoves(st: States, hs: seq<Handle>, h: Handle)
    ensures Scan(st, hs).Keys == st.Keys
    ensures Moves(st, Scan(st, hs), h, 0, Reported(Reports(st, hs), h))
    decreases |hs|
  {
    if hs != [] {
      ScanMoves(st, hs[..|hs| - 1], h);
    }
  }

  /** Registering and unregistering touch nothing but waiter lists. */
  lemma {:induction false} ListsMove(st: States, t: Thread, hs: seq<Handle>, h: Handle)
    ensures Moves(st, Register(st, t, hs), h, 0, 0)
    ensures Moves(st, Unregister(st, t, hs), h, 0, 0)
    decreases |hs|
  {
    if hs != [] {
      ListsMove(st, t, hs[..|hs| - 1], h);
    }
  }

  /** The log after a step is the log before it and at most one return. */
  ghost predicate Logged(w: World, v: World, h: Handle, reported: nat) {
    Delivered(v.log, h) == Delivered(w.log, h) + reported
  }

  lemma {:induction false} ReturnLogged(w: World, st: States, t: Thread, reports: seq<Report>, expired: bool, h: Handle)
    ensures Logged(w, Return(w, st, t, reports, expired), h, Reported(reports, h))
  {
    assert Return(w, st, t, reports, expired).log[..|w.log|] == w.log;
  }

  lemma {:induction false} PassMoves(w: World, t: Thread, expired: bool, h: Handle) returns (reported: nat)
    requires t in w.blocked
    ensures var v := Pass(w, t, expired); Moves(w.states, v.states, h, 0, reported) && Logged(w, v, h, reported)
  {
    var hs := w.blocked[t].handles;
    var st, reports := Scan(w.states, hs), Reports(w.states, hs);
    reported := Reported(reports, h);
    ScanMoves(w.states, hs, h);
    ListsMove(st, t, hs, h);
    ReturnLogged(w, Unregister(st, t, hs), t, reports, expired, h);
  }

  lemma {:induction false} FirstPassMoves(w: World, t: Thread, hs: seq<Handle>, timeout: Timeout, h: Handle)
    returns (reported: nat)
    ensures var v := FirstPass(w, t, hs, timeout);
            Moves(w.states, v.states, h, 0, reported) && Logged(w, v, h, reported)
  {
    var st, reports := Scan(w.states, hs), Reports(w.states, hs);
    reported := Reported(reports, h);
    ScanMoves(w.states, hs, h);
    ListsMove(st, t, hs, h);
    ReturnLogged(w, st, t, reports, false, h);
    ReturnLogged(w, st, t, [], true, h);
  }

  predicate Creates(a: Action, h: Handle) { a.Create? && a.h == h }

  lemma {:induction false} StepMoves(w: World, a: Action, h: Handle) returns (reported: nat)
    requires h in w.states && !Creates(a, h)
    ensures var v := Step(w, a);
            Moves(w.states, v.states, h, if a == Set(h) then 1 else 0, reported) && Logged(w, v, h, reported)
  {
    reported := 0;
    match a
    case Wait(t, hs, timeout) => if t !in w.blocked { reported := FirstPassMoves(w, t, hs, timeout, h); }
    case Wake(t) => if t in w.blocked { reported := PassMoves(w, t, false, h); }
    case Expire(t) => if t in w.blocked && w.blocked[t].finite { reported := PassMoves(w, t, true, h); }
    case _ =>
  }

  /** Over a run that does not create `h` again its ledger moves by the sets made and the reports
      logged. */
  lemma {:induction false} RunMoves(w: World, schedule: seq<Action>, h: Handle) returns (reported: nat)
    requires h in w.states && forall i :: 0 <= i < |schedule| ==> !Creates(schedule[i], h)
    ensures Moves(w.states, Exec(w, schedule).states, h, Sets(schedule, h), reported)
    ensures Logged(w, Exec(w, schedule), h, reported)
    decreases |schedule|
  {
    reported := 0;
    if schedule != [] {
      var m := |schedule| - 1;
      assert schedule == schedule[..m] + [schedule[m]];
      var earlier := RunMoves(w, schedule[..m], h);
      var now := StepMoves(Exec(w, schedule[..m]), schedule[m], h);
      reported := earlier + now;
    }
  }

  lemma {:induction false} ListsSane(st: States, t: Thread, hs: seq<Handle>)
    requires AllSane(st)
    ensures AllSane(Register(st, t, hs)) && AllSane(Unregister(st, t, hs))
    decreases |hs|
  {
    if hs != [] {
      ListsSane(st, t, hs[..|hs| - 1]);
    }
  }

  /** Every step, safe or not, keeps the accounts. */
  lemma {:induction false} StepSane(w: World, a: Action)
    requires AllSane(w.states)
    ensures AllSane(Step(w, a).states)
  {
    match a
    case Wait(t, hs, _) =>
      ScanEffect(w.states, hs);
      ListsSane(Scan(w.states, hs), t, hs);
    case Wake(t) =>
      if t in w.blocked {
        ScanEffect(w.states, w.blocked[t].handles);
        ListsSane(Scan(w.states, w.blocked[t].handles), t, w.blocked[t].handles);
      }
    case Expire(t) =>
      if t in w.blocked {
        ScanEffect(w.states, w.blocked[t].handles);
        ListsSane(Scan(w.states, w.blocked[t].handles), t, w.blocked[t].handles);
      }
    case _ =>
  }

  lemma {:induction false} RunSane(w: World, schedule: seq<Action>)
    requires AllSane(w.states)
    ensures AllSane(Exec(w, schedule).states)
    decreases |schedule|
  {
    if schedule != [] {
      RunSane(w, schedule[..|schedule| - 1]);
      StepSane(Exec(w, schedule[..|schedule| - 1]), schedule[|schedule| - 1]);
    }
  }

  /** An auto-reset event created as `initial`, for the first time or again, is reported by later
      waits at most once per set, plus once if it started signaled: what was credited has been
      delivered, discarded by a set or a reset, or is still pending.  This holds in every run
      until it is created again, safely or not. */
  lemma {:induction false} DeliveredOncePerSet(before: seq<Action>, h: Handle, initial: bool, after: seq<Action>)
    requires forall i :: 0 <= i < |after| ==> !Creates(after[i], h)
    ensures var w := Step(Exec(Init(), before), Create(h, false, initial));
            var v := Exec(w, after);
            && h in v.states && v.states[h].autoReset && 0 <= v.states[h].signaled <= 1
            && Delivered(v.log, h) - Delivered(w.log, h) + v.states[h].ledger.absorbed + v.states[h].signaled
               == Sets(after, h) + (if initial then 1 else 0)
  {
    RunSane(Init(), before);
    var w := Step(Exec(Init(), before), Create(h, false, initial));
    RunSane(w, after);
    var reported := RunMoves(w, after, h);
    assert Sane(Exec(w, after).states[h]);
  }

  // ---------------------------------------------------------------------------------------
  // What a set and a reset do, told from calls and returns.

  /** The step passes over the handle list of a wait that contains `h`. */
  predicate PassesOver(w: World, a: Action, h: Handle) {
    || (a.Wait? && a.t !in w.blocked && h in a.handles)
    || ((a.Wake? || a.Expire?) && Passes(w, a, a.t) && h in w.blocked[a.t].handles)
  }

  lemma {:induction false} ListsKeepSignal(st: States, t: Thread, hs: seq<Handle>, h: Handle)
    requires h in st
    ensures h in Register(st, t, hs) && Register(st, t, hs)[h] == st[h].(waiters := Register(st, t, hs)[h].waiters)
    ensures h in Unregister(st, t, hs) && Unregister(st, t, hs)[h] == st[h].(waiters := Unregister(st, t, hs)[h].waiters)
    decreases |hs|
  {
    if hs != [] {
      ListsKeepSignal(st, t, hs[..|hs| - 1], h);
    }
  }

  /** How a step changes whether `h` is signaled. */
  predicate Signals(w: World, a: Action, v: World, h: Handle)
    requires h in w.states
  {
    && h in v.states && v.states[h].autoReset == w.states[h].autoReset
    && (v.states[h].signaled > 0 <==>
        if a == Set(h) then true
        else if a == Reset(h) || (PassesOver(w, a, h) && w.states[h].autoReset) then false
        else w.states[h].signaled > 0)
  }

  lemma {:induction false} PassSignals(w: World, t: Thread, expired: bool, a: Action, h: Handle)
    requires AllSane(w.states) && h in w.states && t in w.blocked
    requires (a == Wake(t) && !expired) || (a == Expire(t) && expired && w.blocked[t].finite)
    ensures Signals(w, a, Pass(w, t, expired), h)
  {
    var hs := w.blocked[t].handles;
    ScanEffect(w.states, hs);
    ListsKeepSignal(Scan(w.states, hs), t, hs, h);
  }

  lemma {:induction false} WaitSignals(w: World, a: Action, h: Handle)
    requires AllSane(w.states) && h in w.states && a.Wait? && a.t !in w.blocked
    ensures Signals(w, a, FirstPass(w, a.t, a.handles, a.timeout), h)
  {
    ScanEffect(w.states, a.handles);
    ReportsEffect(w.states, a.handles);
    ListsKeepSignal(w.states, a.t, a.handles, h);
  }

  lemma {:induction false} StepSignals(w: World, a: Action, h: Handle)
    requires AllSane(w.states) && h in w.states && !Creates(a, h)
    ensures Signals(w, a, Step(w, a), h)
  {
    match a
    case Wait(t, _, _) => if t !in w.blocked { WaitSignals(w, a, h); }
    case Wake(t) => if t in w.blocked { PassSignals(w, t, false, a, h); }
    case Expire(t) => if t in w.blocked && w.blocked[t].finite { PassSignals(w, t, true, a, h); }
    case _ =>
  }

  /** What may not happen for a signal of `h` to stay: it is not reset or created again, and
      not passed over if it is auto-reset. */
  predicate Disturbs(w: World, a: Action, h: Handle, autoReset: bool) {
    a == Reset(h) || Creates(a, h) || (autoReset && PassesOver(w, a, h))
  }

  predicate Undisturbed(w: World, schedule: seq<Action>, h: Handle, autoReset: bool)
    decreases |schedule|
  {
    schedule != [] ==>
      var before, a := schedule[..|schedule| - 1], schedule[|schedule| - 1];
      Undisturbed(w, before, h, autoReset) && !Disturbs(Exec(w, before), a, h, autoReset)
  }

  lemma {:induction false} StaysSignaled(w: World, schedule: seq<Action>, h: Handle, autoReset: bool)
    requires AllSane(w.states) && h in w.states && w.states[h].signaled > 0
    requires (w.states[h].autoReset ==> autoReset) && Undisturbed(w, schedule, h, autoReset)
    ensures var v := Exec(w, schedule);
            AllSane(v.states) && h in v.states && v.states[h].signaled > 0 && v.states[h].autoReset == w.states[h].autoReset
    decreases |schedule|
  {
    if schedule != [] {
      var before, a := schedule[..|schedule| - 1], schedule[|schedule| - 1];
      StaysSignaled(w, before, h, autoReset);
      StepSignals(Exec(w, before), a, h);
      StepSane(Exec(w, before), a);
    }
  }

  /** Thread `t` is back from its wait, not timed out, and `h` is among its reports. */
  predicate BackWith(w: World, v: World, t: Thread, h: Handle) {
    && t !in v.blocked && |v.log| == |w.log| + 1
    && v.log[|w.log|].t == t && !v.log[|w.log|].timedOut && Report(h, false) in v.log[|w.log|].reports
  }

  lemma {:induction false} SignaledReturns(w: World, t: Thread, hs: seq<Handle>, timeout: Timeout, h: Handle)
    requires AllSane(w.states) && h in w.states && w.states[h].signaled > 0 && h in hs && t !in w.blocked
    ensures BackWith(w, Step(w, Wait(t, hs, timeout)), t, h)
  {
    ReportsEffect(w.states, hs);
  }

  /** After a set of an existing event, whatever happens but a reset, a new creation or a pass over
      it: the next wait for it returns at once with it. */
  lemma {:induction false} SetDelivers(before: seq<Action>, h: Handle, after: seq<Action>, t: Thread, hs: seq<Handle>,
                                       timeout: Timeout)
    requires h in Exec(Init(), before).states && h in hs
    requires var w := Step(Exec(Init(), before), Set(h)); Undisturbed(w, after, h, true) && t !in Exec(w, after).blocked
    ensures var u := Exec(Step(Exec(Init(), before), Set(h)), after);
            BackWith(u, Step(u, Wait(t, hs, timeout)), t, h)
  {
    RunSane(Init(), before);
    StepSignals(Exec(Init(), before), Set(h), h);
    StepSane(Exec(Init(), before), Set(h));
    var w := Step(Exec(Init(), before), Set(h));
    StaysSignaled(w, after, h, true);
    SignaledReturns(Exec(w, after), t, hs, timeout, h);
  }

  lemma {:induction false} KeepsMode(w: World, schedule: seq<Action>, h: Handle)
    requires AllSane(w.states) && h in w.states && forall i :: 0 <= i < |schedule| ==> !Creates(schedule[i], h)
    ensures var v := Exec(w, schedule);
            AllSane(v.states) && h in v.states && v.states[h].autoReset == w.states[h].autoReset
    decreases |schedule|
  {
    if schedule != [] {
      KeepsMode(w, schedule[..|schedule| - 1], h);
      StepSignals(Exec(w, schedule[..|schedule| - 1]), schedule[|schedule| - 1], h);
      StepSane(Exec(w, schedule[..|schedule| - 1]), schedule[|schedule| - 1]);
    }
  }

  /** An event created as manual-reset stays signaled through any number of waits: after a set,
      every wait for it returns at once with it, until it is reset or created again. */
  lemma {:induction false} ManualSetDelivers(before: seq<Action>, h: Handle, initial: bool, middle: seq<Action>,
                                             after: seq<Action>, t: Thread, hs: seq<Handle>, timeout: Timeout)
    requires h in hs && forall i :: 0 <= i < |middle| ==> !Creates(middle[i], h)
    requires var w := Step(Exec(Step(Exec(Init(), before), Create(h, true, initial)), middle), Set(h));
             Undisturbed(w, after, h, false) && t !in Exec(w, after).blocked
    ensures var w := Step(Exec(Step(Exec(Init(), before), Create(h, true, initial)), middle), Set(h));
            var u := Exec(w, after);
            BackWith(u, Step(u, Wait(t, hs, timeout)), t, h)
  {
    RunSane(Init(), before);
    var c := Step(Exec(Init(), before), Create(h, true, initial));
    StepSane(Exec(Init(), before), Create(h, true, initial));
    KeepsMode(c, middle, h);
    StepSignals(Exec(c, middle), Set(h), h);
    StepSane(Exec(c, middle), Set(h));
    var w := Step(Exec(c, middle), Set(h));
    StaysSignaled(w, after, h, false);
    SignaledReturns(Exec(w, after), t, hs, timeout, h);
  }

  /** The step is no set and no creation of `h`. */
  predicate NoSignal(a: Action, h: Handle) { a != Set(h) && !Creates(a, h) }

  lemma {:induction false} StaysUnsignaled(w: World, schedule: seq<Action>, h: Handle)
    requires AllSane(w.states) && h in w.states && w.states[h].signaled == 0
    requires forall i :: 0 <= i < |schedule| ==> NoSignal(schedule[i], h)
    ensures var v := Exec(w, schedule); AllSane(v.states) && h in v.states && v.states[h].signaled == 0
    decreases |schedule|
  {
    if schedule != [] {
      StaysUnsignaled(w, schedule[..|schedule| - 1], h);
      StepSignals(Exec(w, schedule[..|schedule| - 1]), schedule[|schedule| - 1], h);
      StepSane(Exec(w, schedule[..|schedule| - 1]), schedule[|schedule| - 1]);
    }
  }

  /** After a reset, or a creation as unsignaled, no wait returns with the event, at once or later,
      until it is set or created again. */
  lemma {:induction false} ResetSilences(before: seq<Action>, h: Handle, quiet: Action, after: seq<Action>, a: Action)
    requires quiet == Reset(h) || (Creates(quiet, h) && !quiet.initialState)
    requires h in Exec(Init(), before).states || quiet.Create?
    requires (forall i :: 0 <= i < |after| ==> NoSignal(after[i], h)) && NoSignal(a, h)
    ensures var u := Exec(Step(Exec(Init(), before), quiet), after);
            var v := Step(u, a);
            v.log == u.log || (|v.log| == |u.log| + 1 && Report(h, false) !in v.log[|u.log|].reports)
  {
    RunSane(Init(), before);
    var w := Step(Exec(Init(), before), quiet);
    StepSane(Exec(Init(), before), quiet);
    if quiet == Reset(h) { StepSignals(Exec(Init(), before), quiet, h); }
    StaysUnsignaled(w, after, h);
    var u := Exec(w, after);
    if a.Wait? { ReportsEffect(u.states, a.handles); }
    if (a.Wake? || a.Expire?) && a.t in u.blocked { ReportsEffect(u.states, u.blocked[a.t].handles); }
  }

  // A waiter that is asleep when the set comes.

  lemma {:induction false} ScanListed(st: States, blocked: map<Thread, Blocked>, hs: seq<Handle>)
    requires AllSane(st) && Listed(st, blocked)
    ensures Listed(Scan(st, hs), blocked)
  {
    ScanEffect(st, hs);
  }

  lemma {:induction false} PassListed(w: World, t: Thread, expired: bool)
    requires AllSane(w.states) && Listed(w.states, w.blocked) && t in w.blocked
    ensures Listed(Pass(w, t, expired).states, Pass(w, t, expired).blocked)
  {
    var hs := w.blocked[t].handles;
    ScanListed(w.states, w.blocked, hs);
    LeaveListed(Scan(w.states, hs), w.blocked, t);
  }

  lemma {:induction false} FirstPassListed(w: World, t: Thread, hs: seq<Handle>, timeout: Timeout)
    requires AllSane(w.states) && Listed(w.states, w.blocked) && t !in w.blocked
    ensures var v := FirstPass(w, t, hs, timeout); Listed(v.states, v.blocked)
  {
    ScanListed(w.states, w.blocked, hs);
    assert w.blocked - {t} == w.blocked;
    ReportsEffect(w.states, hs);
    if Reports(w.states, hs) == [] && !timeout.Zero? {
      EnterListed(w.states, w.blocked, t, hs, Blocked(hs, timeout.Finite?, false));
    }
  }

  /** Waiter lists and waiting threads agree in every run, safe or not. */
  lemma {:induction false} StepListed(w: World, a: Action)
    requires AllSane(w.states) && Listed(w.states, w.blocked)
    ensures Listed(Step(w, a).states, Step(w, a).blocked)
  {
    match a
    case Create(h, m, i) => CreateListed(w.states, w.blocked, h, Created(w.states, h, m, i));
    case Set(h) => if h in w.states { SetListed(w.states, w.blocked, h, Notified(w.states[h])); }
    case Reset(h) => if h in w.states { CreateListed(w.states, w.blocked, h, ResetSignal(w.states[h])); }
    case Wait(t, hs, timeout) => if t !in w.blocked { FirstPassListed(w, t, hs, timeout); }
    case Wake(t) => if t in w.blocked { PassListed(w, t, false); }
    case Expire(t) => if t in w.blocked && w.blocked[t].finite { PassListed(w, t, true); }
  }

  lemma {:induction false} RunListed(schedule: seq<Action>)
    ensures var w := Exec(Init(), schedule); AllSane(w.states) && Listed(w.states, w.blocked)
    decreases |schedule|
  {
    if schedule != [] {
      var before, a := schedule[..|schedule| - 1], schedule[|schedule| - 1];
      RunListed(before);
      StepSane(Exec(Init(), before), a);
      StepListed(Exec(Init(), before), a);
    }
  }

  /** While nothing passes over `h`, a thread waiting for it goes on waiting for the same, and
      stays ready if it was. */
  lemma {:induction false} StaysBlocked(w: World, schedule: seq<Action>, h: Handle, t: Thread)
    requires AllSane(w.states) && Listed(w.states, w.blocked) && t in w.blocked && h in w.blocked[t].handles
    requires Undisturbed(w, schedule, h, true)
    ensures var v := Exec(w, schedule);
            && AllSane(v.states) && Listed(v.states, v.blocked)
            && t in v.blocked && v.blocked[t].handles == w.blocked[t].handles && (Awake(w, t) ==> Awake(v, t))
    decreases |schedule|
  {
    if schedule != [] {
      var before, a := schedule[..|schedule| - 1], schedule[|schedule| - 1];
      StaysBlocked(w, before, h, t);
      var u := Exec(w, before);
      StepSane(u, a);
      StepListed(u, a);
      AwakeStep(u, a, t);
    }
  }

  /** A set reaches those who are waiting: as long as nothing disturbs it, every thread that waits
      for the event returns with it on its next pass, and the ones it has to wake, all of them or
      for auto-reset the one that registered first, are ready to make that pass. */
  lemma {:induction false} SetWakes(before: seq<Action>, h: Handle, after: seq<Action>, t: Thread)
    requires var s := Exec(Init(), before); h in s.states && t in s.blocked && h in s.blocked[t].handles
    requires Undisturbed(Step(Exec(Init(), before), Set(h)), after, h, true)
    ensures var s := Exec(Init(), before);
            var u := Exec(Step(s, Set(h)), after);
            && BackWith(u, Step(u, Wake(t)), t, h)
            && (MustWake(s.states[h], t) ==> Awake(u, t))
  {
    AfterSet(before, h, t);
    var w := Step(Exec(Init(), before), Set(h));
    StaysSignaled(w, after, h, true);
    StaysBlocked(w, after, h, t);
    WakeReturns(Exec(w, after), t, h);
  }

  lemma {:induction false} WakeReturns(w: World, t: Thread, h: Handle)
    requires AllSane(w.states) && t in w.blocked && h in w.blocked[t].handles
    requires h in w.states && w.states[h].signaled > 0
    ensures BackWith(w, Step(w, Wake(t)), t, h)
  {
    ReportsEffect(w.states, w.blocked[t].handles);
  }

  /** Right after the set. */
  lemma {:induction false} AfterSet(before: seq<Action>, h: Handle, t: Thread)
    requires var s := Exec(Init(), before); h in s.states && t in s.blocked && h in s.blocked[t].handles
    ensures var s := Exec(Init(), before);
            var w := Step(s, Set(h));
            && AllSane(w.states) && Listed(w.states, w.blocked)
            && h in w.states && w.states[h].signaled > 0
            && t in w.blocked && w.blocked[t].handles == s.blocked[t].handles
            && (MustWake(s.states[h], t) ==> Awake(w, t))
  {
    RunListed(before);
    var s := Exec(Init(), before);
    StepSane(s, Set(h));
    StepListed(s, Set(h));
    SetAwake(s, h, t);
    StepSignals(s, Set(h), h);
  }

  /** What a wait does at once: it returns, not timed out, if something in its list is signaled or
      does not exist; it returns empty and timed out if its time-out is zero; otherwise it waits. */
  lemma {:induction false} WaitOutcome(w: World, t: Thread, hs: seq<Handle>, timeout: Timeout)
    requires AllSane(w.states) && t !in w.blocked
    ensures var v := Step(w, Wait(t, hs, timeout));
            if exists h :: h in hs && (h !in w.states || w.states[h].signaled > 0) then
              && t !in v.blocked && v.log == w.log + [Returned(t, Reports(w.states, hs), false)]
            else if timeout == Zero then
              t !in v.blocked && v.log == w.log + [Returned(t, [], true)]
            else
              && v.log == w.log && t in v.blocked && v.blocked[t] == Blocked(hs, timeout == Finite, false)
  {
    ReportsEffect(w.states, hs);
  }

  /** What a time-out does: the thread returns, timed out, with whatever is signaled by then. */
  lemma {:induction false} ExpireOutcome(w: World, t: Thread)
    requires AllSane(w.states) && t in w.blocked && w.blocked[t].finite
    ensures var v, hs := Step(w, Expire(t)), w.blocked[t].handles;
            && t !in v.blocked && |v.log| == |w.log| + 1
            && v.log[|w.log|].t == t && v.log[|w.log|].timedOut
            && forall h :: Report(h, false) in v.log[|w.log|].reports <==> h in hs && h in w.states && w.states[h].signaled > 0
  {
    ReportsEffect(w.states, w.blocked[t].handles);
  }

  // ---------------------------------------------------------------------------------------
  // The critical sections as the program runs them.

  class HandleManager {
    var states: States

    constructor ()
      ensures states == map[]
    {
      states := map[];
    }

    /** The scan of `waitForObjects`; `room` is the length of the output span.  A span shorter
        than the reports cuts them off although the signals are consumed. */
    method ScanHandles(handles: seq<Handle>, room: nat) returns (signaled: seq<Report>)
      modifies this
      ensures states == Scan(old(states), handles)
      ensures var all := Reports(old(states), handles);
              signaled == if room <= |all| then all[..room] else all
    {
      signaled := [];
      ghost var all: seq<Report> := [];
      for i := 0 to |handles|
        invariant states == Scan(old(states), handles[..i]) && states.Keys == old(states).Keys
        invariant all == Reports(old(states), handles[..i])
        invariant signaled == if room <= |all| then all[..room] else all
      {
        var handle := handles[i];
        assert handles[..i + 1][..i] == handles[..i];
        all := all + (if Hit(states, handle) then [Report(handle, handle !in states)] else []);
        if handle !in states {
          if |signaled| < room { signaled := signaled + [Report(handle, true)]; }
        } else if states[handle].signaled > 0 {
          var e := states[handle];
          if |signaled| < room { signaled := signaled + [Report(handle, false)]; }
          if e.autoReset {
            e := e.(signaled := e.signaled - 1);
            if e.signaled < 0 { e := e.(signaled := 0); }
          }
          states := states[handle := e.(ledger := e.ledger.(delivered := e.ledger.delivered + 1))];
        }
      }
      assert handles[..|handles|] == handles;
    }

    method AddWaiter(t: Thread, handles: seq<Handle>)
      modifies this
      ensures states == Register(old(states), t, handles)
    {
      for i := 0 to |handles|
        invariant states == Register(old(states), t, handles[..i])
      {
        var h := handles[i];
        assert handles[..i + 1][..i] == handles[..i];
        var e := if h in states then states[h] else Signal(0, false, [], Ledger(0, 0, 0));
        states := states[h := e.(waiters := e.waiters + [t])];
      }
      assert handles[..|handles|] == handles;
    }

    method RemoveWaiter(t: Thread, handles: seq<Handle>)
      modifies this
      ensures states == Unregister(old(states), t, handles)
    {
      for i := 0 to |handles|
        invariant states == Unregister(old(states), t, handles[..i])
      {
        var h := handles[i];
        assert handles[..i + 1][..i] == handles[..i];
        var e := if h in states then states[h] else Signal(0, false, [], Ledger(0, 0, 0));
        var w := Erase(e.waiters, t);
        states := states[h := e.(waiters := w)];
      }
      assert handles[..|handles|] == handles;
    }

    static method Erase(s: seq<Thread>, t: Thread) returns (r: seq<Thread>)
      ensures r == EraseFirst(s, t)
    {
      var i := 0;
      while i < |s| && s[i] != t
        invariant 0 <= i <= |s|
        invariant EraseFirst(s, t) == s[..i] + EraseFirst(s[i..], t)
      {
        assert s[i..][1..] == s[i + 1..];
        i := i + 1;
      }
      if i == |s| { return s; }
      assert s[i..][1..] == s[i + 1..];
      r := s[..i] + s[i + 1..];
    }

    /** `createSignalObject`. */
    method CreateSignalObject(h: Handle, manualReset: bool, initialState: bool)
      modifies this
      ensures states == old(states)[h := Created(old(states), h, manualReset, initialState)]
    {
      var e := if h in states then states[h] else Signal(0, false, [], Ledger(0, 0, 0));
      e := e.(signaled := if initialState then 1 else 0);
      e := e.(autoReset := !manualReset);
      states := states[h := e.(ledger := Ledger(e.signaled, 0, 0))];
    }

    /** `setSignalObject`: the waiters notified, stopping after the first for auto-reset. */
    method SetSignalObject(h: Handle) returns (woken: seq<Thread>)
      modifies this
      ensures h !in old(states) ==> states == old(states) && woken == []
      ensures h in old(states) ==>
                states == old(states)[h := SetSignal(old(states)[h])] && woken == Notified(old(states)[h])
    {
      woken := [];
      if h !in states { return; }
      var e := states[h];
      states := states[h := SetSignal(e)];
      var i := 0;
      while i < |e.waiters|
        invariant 0 <= i <= |e.waiters| && woken == e.waiters[..i]
        invariant e.autoReset ==> i == 0
      {
        woken := woken + [e.waiters[i]];
        i := i + 1;
        if e.autoReset { break; }
      }
    }
  }
}
