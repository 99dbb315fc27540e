/** The scheduling loop of the robot (lib/robot/TimedRobot.cpp) over its priority queue. */
module Scheduler {
  import Bits
  import PQ = PriorityQueue

  /** A periodic callback, in microseconds.  `origin` is the start time plus the offset it was
      added with, and never changes. */
  datatype Callback = Callback(func: nat, period: nat, origin: nat, expiry: nat)

  /** std::greater<Callback>. */
  function Later(a: Callback, b: Callback): bool { a.expiry > b.expiry }

  function Urgency(c: Callback): int { 0 - c.expiry }

  lemma {:induction false} LaterAgrees(s: multiset<Callback>)
    ensures PQ.Agrees(Later, Urgency, s)
  {
  }

  /** The constructor of a callback, with period and offset in milliseconds as addPeriodic takes them. */
  function NewCallback(start: nat, func: nat, period: nat, offset: nat): Callback {
    Callback(func, period * 1000, start + offset * 1000, start + offset * 1000 + period * 1000)
  }

  /** The next expiry: the periods it is behind, plus one, are added. */
  function Advance(c: Callback, now: nat): Callback
    requires c.period > 0 && c.expiry <= now
  {
    c.(expiry := c.expiry + (c.period + (now - c.expiry) / c.period * c.period))
  }

  /** On the grid of its period, after its origin. */
  predicate Aligned(c: Callback) {
    c.period > 0 && c.expiry > c.origin && (c.expiry - c.origin) % c.period == 0
  }

  lemma {:induction false} AddMultiple(a: nat, m: nat, n: nat)
    requires m > 0 && a % m == 0
    ensures (a + n * m) % m == 0
  {
    var q := a / m;
    assert a == q * m + a % m;
    assert a + n * m == (q + n) * m + 0;
    Bits.ModUnique(a + n * m, m, q + n, 0);
  }

  /** An advanced callback next expires after now, by at most one period, on its grid. */
  lemma {:induction false} AdvanceEffect(c: Callback, now: nat)
    requires c.period > 0 && c.expiry <= now
    ensures now < Advance(c, now).expiry <= now + c.period
    ensures Aligned(c) ==> Aligned(Advance(c, now))
  {
    var behind := (now - c.expiry) / c.period;
    assert now - c.expiry == behind * c.period + (now - c.expiry) % c.period;
    if Aligned(c) {
      AddMultiple(c.expiry - c.origin, c.period, behind + 1);
      assert (behind + 1) * c.period == c.period + behind * c.period;
    }
  }

  predicate AllDue(fired: seq<Callback>, now: nat) {
    forall i :: 0 <= i < |fired| ==> fired[i].period > 0 && fired[i].expiry <= now
  }

  function AdvanceAll(fired: seq<Callback>, now: nat): (next: seq<Callback>)
    requires AllDue(fired, now)
    ensures |next| == |fired| && forall i :: 0 <= i < |fired| ==> next[i] == Advance(fired[i], now)
  {
    seq(|fired|, i requires 0 <= i < |fired| => Advance(fired[i], now))
  }

  ghost predicate InExpiryOrder(fired: seq<Callback>) {
    forall i, j :: 0 <= i < j < |fired| ==> fired[i].expiry <= fired[j].expiry
  }

  /** `fired` is every callback of `before` that is due at `now`, as often as it is there. */
  ghost predicate FiresExactlyDue(before: multiset<Callback>, fired: seq<Callback>, now: nat) {
    forall c :: multiset(fired)[c] == if c.expiry <= now then before[c] else 0
  }

  /** The expiry of the last callback run. */
  function Reached(fired: seq<Callback>): nat { if fired == [] then 0 else fired[|fired| - 1].expiry }

  /** Where the queue's contents come from while a pass goes on. */
  ghost predicate Rescheduled(before: multiset<Callback>, items: multiset<Callback>, fired: seq<Callback>, now: nat) {
    && AllDue(fired, now) && multiset(fired) <= before
    && items == before - multiset(fired) + multiset(AdvanceAll(fired, now))
  }

  /** Everything in the queue is on its grid and not before what was already run. */
  ghost predicate Ahead(items: multiset<Callback>, fired: seq<Callback>) {
    forall c :: c in items ==> Aligned(c) && Reached(fired) <= c.expiry
  }

  ghost predicate MidPass(before: multiset<Callback>, items: multiset<Callback>, fired: seq<Callback>, now: nat) {
    Rescheduled(before, items, fired, now) && Ahead(items, fired) && InExpiryOrder(fired)
  }

  lemma {:induction false} AdvancedLater(fired: seq<Callback>, now: nat)
    requires AllDue(fired, now)
    ensures forall c :: c in multiset(AdvanceAll(fired, now)) ==> c.expiry > now
  {
    forall c | c in multiset(AdvanceAll(fired, now))
      ensures c.expiry > now
    {
      var i :| 0 <= i < |fired| && AdvanceAll(fired, now)[i] == c;
      AdvanceEffect(fired[i], now);
    }
  }

  lemma {:induction false} RescheduleOne(before: multiset<Callback>, items: multiset<Callback>, fired: seq<Callback>,
                                         now: nat, c: Callback)
    requires Rescheduled(before, items, fired, now) && c in items && c.period > 0 && c.expiry <= now
    ensures Rescheduled(before, items - multiset{c} + multiset{Advance(c, now)}, fired + [c], now)
  {
    AdvancedLater(fired, now);
    assert c !in multiset(AdvanceAll(fired, now));
    assert AdvanceAll(fired + [c], now) == AdvanceAll(fired, now) + [Advance(c, now)];
  }

  lemma {:induction false} AheadOne(items: multiset<Callback>, fired: seq<Callback>, now: nat, c: Callback)
    requires Ahead(items, fired) && c in items && c.expiry <= now && forall d :: d in items ==> c.expiry <= d.expiry
    ensures c.period > 0 && Ahead(items - multiset{c} + multiset{Advance(c, now)}, fired + [c])
  {
    assert Aligned(c);
    AdvanceEffect(c, now);
    forall d | d in items - multiset{c} + multiset{Advance(c, now)}
      ensures Aligned(d) && c.expiry <= d.expiry
    {
      assert d == Advance(c, now) || d in items;
    }
  }

  lemma {:induction false} OrderOne(fired: seq<Callback>, c: Callback)
    requires InExpiryOrder(fired) && Reached(fired) <= c.expiry
    ensures InExpiryOrder(fired + [c])
  {
  }

  /** One more callback is taken from the top, run, and put back advanced. */
  lemma {:induction false} PassStep(before: multiset<Callback>, items: multiset<Callback>, fired: seq<Callback>,
                                    now: nat, c: Callback)
    requires MidPass(before, items, fired, now)
    requires c in items && c.expiry <= now && forall d :: d in items ==> c.expiry <= d.expiry
    ensures c.period > 0
    ensures MidPass(before, items - multiset{c} + multiset{Advance(c, now)}, fired + [c], now)
  {
    AheadOne(items, fired, now, c);
    OrderOne(fired, c);
    RescheduleOne(before, items, fired, now, c);
  }

  lemma {:induction false} PassBegins(before: multiset<Callback>, now: nat)
    requires forall c :: c in before ==> Aligned(c)
    ensures MidPass(before, before, [], now)
  {
    assert AdvanceAll([], now) == [];
  }

  /** When nothing in the queue is due any more, exactly the due callbacks were run. */
  lemma {:induction false} PassEnds(before: multiset<Callback>, items: multiset<Callback>, fired: seq<Callback>, now: nat)
    requires MidPass(before, items, fired, now) && forall c :: c in items ==> c.expiry > now
    ensures FiresExactlyDue(before, fired, now)
  {
    AdvancedLater(fired, now);
    assert forall c :: c in multiset(fired) ==> c.expiry <= now;
    forall c
      ensures multiset(fired)[c] == if c.expiry <= now then before[c] else 0
    {
      if c.expiry <= now {
        assert c !in items && c !in multiset(AdvanceAll(fired, now));
      }
    }
  }

  class TimedRobot {
    const startTime: nat
    const callbacks: PQ.PriorityQueue<Callback>

    ghost predicate Valid()
      reads this, callbacks
    {
      && callbacks.less == Later && callbacks.key == Urgency && callbacks.Valid()
      && forall c :: c in multiset(callbacks.items) ==> Aligned(c)
    }

    /** The constructor adds the main loop, so the queue is never empty. */
    constructor (now: nat, period: nat)
      requires period > 0
      ensures Valid() && startTime == now && fresh(callbacks) && AllOnSchedule(multiset(callbacks.items), now)
      ensures multiset(callbacks.items) == multiset{Callback(0, period * 1000, now, now + period * 1000)}
    {
      startTime := now;
      callbacks := new PQ.PriorityQueue(Later, Urgency);
      new;
      AddPeriodic(0, period, 0);
      NewOnSchedule(NewCallback(now, 0, period, 0), now);
    }

    /** `addPeriodic`, in milliseconds. */
    method AddPeriodic(func: nat, period: nat, offset: nat)
      requires Valid() && period > 0
      modifies callbacks
      ensures Valid()
      ensures multiset(callbacks.items) == multiset(old(callbacks.items)) +
              multiset{Callback(func, period * 1000, startTime + offset * 1000,
                                startTime + offset * 1000 + period * 1000)}
    {
      var c := NewCallback(startTime, func, period, offset);
      NewOnSchedule(c, startTime);
      LaterAgrees(multiset(callbacks.items) + multiset{c});
      callbacks.Push(c);
    }

    /** Pops the top callback, runs it, and pushes it back advanced. */
    method RunTop(ghost before: multiset<Callback>, fired: seq<Callback>, now: nat) returns (more: seq<Callback>)
      requires Valid() && callbacks.items != [] && callbacks.items[0].expiry <= now
      requires MidPass(before, multiset(callbacks.items), fired, now)
      modifies callbacks
      ensures Valid() && callbacks.items != []
      ensures |more| == |fired| + 1 && MidPass(before, multiset(callbacks.items), more, now)
    {
      ghost var items := multiset(callbacks.items);
      var callback := callbacks.Pop();
      assert forall d :: d in items ==> callback.expiry <= d.expiry by {
        assert forall d :: d in items ==> Urgency(d) <= Urgency(callback);
      }
      PassStep(before, items, fired, now, callback);
      more := fired + [callback];
      LaterAgrees(multiset(callbacks.items) + multiset{Advance(callback, now)});
      callbacks.Push(Advance(callback, now));
    }

    /** The inner loop: runs callbacks until none is due. */
    method RunDue(ghost before: multiset<Callback>, ran: seq<Callback>, now: nat) returns (fired: seq<Callback>)
      requires Valid() && callbacks.items != [] && ran != [] && MidPass(before, multiset(callbacks.items), ran, now)
      modifies callbacks
      ensures Valid() && callbacks.items != [] && fired != []
      ensures MidPass(before, multiset(callbacks.items), fired, now)
      ensures forall c :: c in multiset(callbacks.items) ==> c.expiry > now
    {
      fired := ran;
      while callbacks.items[0].expiry <= now
        invariant Valid() && callbacks.items != [] && fired != []
        invariant MidPass(before, multiset(callbacks.items), fired, now)
        decreases |before| - |fired|
      {
        FiredBound(before, multiset(callbacks.items), fired, now);
        fired := RunTop(before, fired, now);
      }
      TopLatest(callbacks.items, now);
    }

    /** One turn of the outer loop.  `now` is the clock when the first callback is looked at and
        `woken` what it reads after sleeping until that one expires; `last` is the time the turn
        before worked with.  The turn runs exactly the callbacks due at the time it works with,
        each once, in the order of expiry, puts each back on its grid at most one period ahead,
        and leaves nothing due and everything on schedule. */
    method Turn(ghost last: nat, now: nat, woken: nat) returns (fired: seq<Callback>, currentTime: nat)
      requires Valid() && callbacks.items != [] && AllOnSchedule(multiset(callbacks.items), last)
      requires last <= now <= woken && callbacks.items[0].expiry <= woken
      modifies callbacks
      ensures Valid() && callbacks.items != [] && AllOnSchedule(multiset(callbacks.items), currentTime)
      ensures currentTime == if old(callbacks.items[0].expiry) > now then woken else now
      ensures fired != [] && AllDue(fired, currentTime) && InExpiryOrder(fired)
      ensures FiresExactlyDue(multiset(old(callbacks.items)), fired, currentTime)
      ensures multiset(callbacks.items) ==
              multiset(old(callbacks.items)) - multiset(fired) + multiset(AdvanceAll(fired, currentTime))
      ensures forall c :: c in multiset(callbacks.items) ==> c.expiry > currentTime
    {
      ghost var before := multiset(callbacks.items);
      currentTime := now;
      if callbacks.items[0].expiry > currentTime { currentTime := woken; }
      PassBegins(before, currentTime);
      fired := RunTop(before, [], currentTime);
      fired := RunDue(before, fired, currentTime);
      PassEnds(before, multiset(callbacks.items), fired, currentTime);
      PassOnSchedule(before, multiset(callbacks.items), fired, last, currentTime);
    }

    /** A turn, seen from the callbacks `s` in the queue: each goes on as by itself. */
    method TurnOf(ghost s: seq<Callback>, last: nat, delay: nat, oversleep: nat) returns (fired: seq<Callback>, now: nat)
      requires Valid() && callbacks.items != [] && multiset(callbacks.items) == multiset(s) && AllOnSchedule(multiset(s), last)
      modifies callbacks
      ensures Valid() && callbacks.items != [] && now >= last && AllOnSchedule(multiset(callbacks.items), now)
      ensures multiset(callbacks.items) == multiset(TickAll(s, now)) && multiset(fired) == multiset(DueOf(s, now))
    {
      var clock := last + delay;
      var expiry := callbacks.items[0].expiry;
      fired, now := Turn(last, clock, (if expiry > clock then expiry else clock) + oversleep);
      AlignedPeriodic(s, last);
      TurnIsTick(s, fired, now);
    }

    /** Any number of turns, each begun some time after the last one and ended with some oversleep:
        every callback that was in the queue goes on as by itself, and each turn runs exactly
        those that are due. */
    method Turns(last: nat, delays: seq<(nat, nat)>) returns (times: seq<nat>, log: seq<seq<Callback>>)
      requires Valid() && callbacks.items != [] && AllOnSchedule(multiset(callbacks.items), last)
      modifies callbacks
      ensures Valid() && |times| == |delays| && Ordered(last, times)
      ensures multiset(callbacks.items) == multiset(AfterAll(old(callbacks.items), times))
      ensures RanDue(old(callbacks.items), times, log)
    {
      times, log := [], [];
      ghost var s := callbacks.items;
      for j := 0 to |delays|
        invariant Valid() && callbacks.items != [] && |times| == j && Ordered(last, times) && RanDue(s, times, log)
        invariant multiset(callbacks.items) == multiset(AfterAll(s, times))
        invariant AllOnSchedule(multiset(callbacks.items), LastOf(last, times))
      {
        var fired, now := TurnOf(AfterAll(s, times), LastOf(last, times), delays[j].0, delays[j].1);
        OneMoreTurn(s, last, times, log, now, fired);
        times, log := times + [now], log + [fired];
      }
    }
  }

  /** Each turn ran, once each, those of the callbacks `s` that were due by then. */
  ghost predicate RanDue(s: seq<Callback>, times: seq<nat>, log: seq<seq<Callback>>) {
    && |times| == |log|
    && forall j :: 0 <= j < |log| ==> multiset(log[j]) == multiset(DueOf(AfterAll(s, times[..j]), times[j]))
  }

  lemma {:induction false} OneMoreTurn(s: seq<Callback>, last: nat, times: seq<nat>, log: seq<seq<Callback>>,
                                       now: nat, fired: seq<Callback>)
    requires RanDue(s, times, log) && multiset(fired) == multiset(DueOf(AfterAll(s, times), now))
    requires Ordered(last, times) && LastOf(last, times) <= now
    ensures RanDue(s, times + [now], log + [fired]) && Ordered(last, times + [now])
    ensures AfterAll(s, times + [now]) == TickAll(AfterAll(s, times), now)
  {
    var more := times + [now];
    assert more[..|times|] == times;
    forall j | 0 <= j < |more|
      ensures multiset((log + [fired])[j]) == multiset(DueOf(AfterAll(s, more[..j]), more[j]))
    {
      assert j < |times| ==> more[..j] == times[..j];
    }
  }

  lemma {:induction false} AlignedPeriodic(s: seq<Callback>, t: nat)
    requires AllOnSchedule(multiset(s), t)
    ensures Periodic(s)
  {
    forall i | 0 <= i < |s|
      ensures s[i].period > 0
    {
      assert s[i] in multiset(s);
    }
  }

  // ---------------------------------------------------------------------------------------
  // When a callback runs, from one turn to the next.

  /** Never run yet, or next due at the first point of its grid after `t`. */
  predicate OnSchedule(c: Callback, t: nat) {
    Aligned(c) && (c.expiry == c.origin + c.period || c.expiry - c.period <= t < c.expiry)
  }

  ghost predicate AllOnSchedule(items: multiset<Callback>, t: nat) { forall c :: c in items ==> OnSchedule(c, t) }

  /** A callback added at any time is on schedule. */
  lemma {:induction false} NewOnSchedule(c: Callback, t: nat)
    requires c.period > 0 && c.expiry == c.origin + c.period
    ensures OnSchedule(c, t)
  {
    assert c.expiry - c.origin == 0 + 1 * c.period;
    AddMultiple(0, c.period, 1);
  }

  lemma {:induction false} PassOnSchedule(before: multiset<Callback>, items: multiset<Callback>, fired: seq<Callback>,
                                          last: nat, now: nat)
    requires MidPass(before, items, fired, now) && AllOnSchedule(before, last) && last <= now
    requires forall c :: c in items ==> c.expiry > now
    ensures AllOnSchedule(items, now)
  {
    forall c | c in items
      ensures OnSchedule(c, now)
    {
      if c in multiset(AdvanceAll(fired, now)) {
        var i :| 0 <= i < |fired| && AdvanceAll(fired, now)[i] == c;
        AdvanceEffect(fired[i], now);
      } else {
        assert c in before && OnSchedule(c, last);
      }
    }
  }

  /** The points at which a callback is meant to run: its grid, from one period after its origin. */
  function GridPoint(c: Callback, k: nat): nat { c.origin + k * c.period }

  lemma {:induction false} GridGrows(c: Callback, j: nat, k: nat)
    requires c.period > 0 && j < k
    ensures GridPoint(c, j) + c.period <= GridPoint(c, k)
    decreases k
  {
    assert k * c.period == (k - 1) * c.period + c.period;
    if j < k - 1 {
      GridGrows(c, j, k - 1);
    }
  }

  lemma {:induction false} PointOf(c: Callback) returns (m: nat)
    requires Aligned(c)
    ensures c.expiry == GridPoint(c, m)
  {
    var d: nat := c.expiry - c.origin;
    m := d / c.period;
    assert d == m * c.period + d % c.period;
  }

  /** A point at which the callback is meant to run lies after `low` and not after `now`. */
  ghost predicate PointBetween(c: Callback, low: nat, now: nat) {
    exists k :: k >= 1 && low < GridPoint(c, k) <= now
  }

  /** The time from which points count for a callback in the next turn: the last turn, or its
      origin if it has never run. */
  function CountsFrom(c: Callback, last: nat): nat { if c.expiry == GridPoint(c, 1) then c.origin else last }

  lemma {:induction false} DueIffPoint(c: Callback, m: nat, low: nat, now: nat)
    requires c.period > 0 && m >= 1 && c.expiry == GridPoint(c, m)
    requires low < c.expiry && (m > 1 ==> GridPoint(c, m - 1) <= low)
    ensures c.expiry <= now <==> PointBetween(c, low, now)
  {
    if PointBetween(c, low, now) {
      var k :| k >= 1 && low < GridPoint(c, k) <= now;
      if m < k {
        GridGrows(c, m, k);
      } else if k < m - 1 {
        GridGrows(c, k, m - 1);
      }
    }
  }

  /** Where a callback on schedule stands on its grid. */
  lemma {:induction false} PlaceOnGrid(c: Callback, last: nat) returns (m: nat)
    requires OnSchedule(c, last)
    ensures m >= 1 && c.expiry == GridPoint(c, m)
    ensures m > 1 ==> GridPoint(c, m - 1) <= last < c.expiry
    ensures m == 1 <==> c.expiry == GridPoint(c, 1)
  {
    m := PointOf(c);
    assert GridPoint(c, 0) == c.origin;
    if m > 1 {
      GridGrows(c, 1, m);
      GridGrows(c, m - 1, m);
      assert m * c.period == (m - 1) * c.period + c.period;
    }
  }

  /** A callback runs in a turn exactly if a point of its grid lies between the time of the turn
      before and the time of this one, or, if it has never run, has come at all: no point is
      missed for good, none counts twice, and points passed together count once. */
  lemma {:induction false} RunsIffGridPoint(c: Callback, last: nat, now: nat)
    requires OnSchedule(c, last)
    ensures c.expiry <= now <==> PointBetween(c, CountsFrom(c, last), now)
  {
    var m := PlaceOnGrid(c, last);
    assert GridPoint(c, 1) == c.origin + c.period;
    DueIffPoint(c, m, CountsFrom(c, last), now);
  }

  // ---------------------------------------------------------------------------------------
  // Many turns.

  /** One callback over one turn, and over turns at the given times. */
  function Ticked(c: Callback, now: nat): Callback { if c.period > 0 && c.expiry <= now then Advance(c, now) else c }

  function After(c: Callback, times: seq<nat>): Callback
    decreases |times|
  {
    if times == [] then c else Ticked(After(c, times[..|times| - 1]), times[|times| - 1])
  }

  /** How often it runs. */
  function Runs(c: Callback, times: seq<nat>): nat
    decreases |times|
  {
    if times == [] then 0
    else
      var before, now := times[..|times| - 1], times[|times| - 1];
      Runs(c, before) + if After(c, before).expiry <= now then 1 else 0
  }

  /** Turns between which, or before which, at least one point passes. */
  ghost function TurnsWithPoint(c: Callback, from: nat, times: seq<nat>): nat
    decreases |times|
  {
    if times == [] then 0
    else
      var n := |times| - 1;
      TurnsWithPoint(c, from, times[..n]) + if PointBetween(c, if n == 0 then from else times[n - 1], times[n]) then 1 else 0
  }

  function LastOf(last: nat, times: seq<nat>): nat { if times == [] then last else times[|times| - 1] }

  /** The clock does not go back. */
  predicate Ordered(last: nat, times: seq<nat>)
    decreases |times|
  {
    times != [] ==>
      var before := times[..|times| - 1];
      Ordered(last, before) && LastOf(last, before) <= times[|times| - 1]
  }

  lemma {:induction false} AfterOnSchedule(c: Callback, last: nat, times: seq<nat>)
    requires OnSchedule(c, last) && Ordered(last, times)
    ensures var d := After(c, times);
            && OnSchedule(d, LastOf(last, times)) && d.origin == c.origin && d.period == c.period
            && (times != [] ==> d.expiry > LastOf(last, times))
    decreases |times|
  {
    if times != [] {
      var n := |times| - 1;
      AfterOnSchedule(c, last, times[..n]);
      var d := After(c, times[..n]);
      if d.expiry <= times[n] {
        AdvanceEffect(d, times[n]);
      }
    }
  }

  lemma {:induction false} SameGrid(c: Callback, d: Callback, low: nat, now: nat)
    requires c.origin == d.origin && c.period == d.period
    ensures PointBetween(c, low, now) == PointBetween(d, low, now)
  {
    assert forall k :: GridPoint(c, k) == GridPoint(d, k);
  }

  /** A callback that has not run although turns have passed counts from the last turn as well. */
  lemma {:induction false} NeverRunLater(c: Callback, low: nat, now: nat)
    requires Aligned(c) && c.expiry == GridPoint(c, 1) && low < c.expiry
    ensures c.expiry <= now <==> PointBetween(c, low, now)
  {
    DueIffPoint(c, 1, low, now);
  }

  /** Over any turns, at any times, a callback runs as often as there are turns since the one
      before which a point of its grid has come.  It does not drift off its grid, and a point makes
      it run once; several points passed between two turns make it run once together. */
  lemma {:induction false} RunsOncePerPoint(c: Callback, last: nat, times: seq<nat>)
    requires OnSchedule(c, last) && Ordered(last, times)
    ensures Runs(c, times) == TurnsWithPoint(c, CountsFrom(c, last), times)
    decreases |times|
  {
    if times != [] {
      var n := |times| - 1;
      var before, now := times[..n], times[n];
      RunsOncePerPoint(c, last, before);
      AfterOnSchedule(c, last, before);
      var d := After(c, before);
      if n == 0 {
        RunsIffGridPoint(c, last, now);
      } else {
        var low := times[n - 1];
        if d.expiry == GridPoint(d, 1) { NeverRunLater(d, low, now); } else { RunsIffGridPoint(d, low, now); }
        SameGrid(c, d, low, now);
      }
    }
  }

  function TickAll(s: seq<Callback>, now: nat): (t: seq<Callback>)
    ensures |t| == |s| && forall i :: 0 <= i < |s| ==> t[i] == Ticked(s[i], now)
  {
    seq(|s|, i requires 0 <= i < |s| => Ticked(s[i], now))
  }

  function AfterAll(s: seq<Callback>, times: seq<nat>): (t: seq<Callback>)
    ensures |t| == |s| && forall i :: 0 <= i < |s| ==> t[i] == After(s[i], times)
    decreases |times|
  {
    if times == [] then s else TickAll(AfterAll(s, times[..|times| - 1]), times[|times| - 1])
  }

  /** The callbacks of `s` that are due. */
  function DueOf(s: seq<Callback>, now: nat): seq<Callback> {
    if s == [] then []
    else if s[|s| - 1].expiry <= now then DueOf(s[..|s| - 1], now) + [s[|s| - 1]]
    else DueOf(s[..|s| - 1], now)
  }

  lemma {:induction false} DueCount(s: seq<Callback>, now: nat, c: Callback)
    ensures multiset(DueOf(s, now))[c] == if c.expiry <= now then multiset(s)[c] else 0
    decreases |s|
  {
    if s != [] {
      assert s == s[..|s| - 1] + [s[|s| - 1]];
      DueCount(s[..|s| - 1], now, c);
    }
  }

  lemma {:induction false} AdvanceSnoc(fired: seq<Callback>, c: Callback, now: nat)
    requires AllDue(fired, now) && c.period > 0 && c.expiry <= now
    ensures AdvanceAll(fired + [c], now) == AdvanceAll(fired, now) + [Advance(c, now)]
  {
  }

  lemma {:induction false} Rebalance(ticked: multiset<Callback>, all: multiset<Callback>, due: multiset<Callback>,
                                     advanced: multiset<Callback>, c: Callback, d: Callback)
    requires ticked == all - due + advanced && due <= all
    ensures ticked + multiset{d} == (all + multiset{c}) - (due + multiset{c}) + (advanced + multiset{d})
    ensures ticked + multiset{c} == (all + multiset{c}) - due + advanced
    ensures due + multiset{c} <= all + multiset{c} && due <= all + multiset{c}
  {
  }

  /** `ticked` is `all` with the due ones advanced. */
  ghost predicate Splits(ticked: seq<Callback>, all: seq<Callback>, due: seq<Callback>, now: nat) {
    && AllDue(due, now) && multiset(due) <= multiset(all)
    && multiset(ticked) == multiset(all) - multiset(due) + multiset(AdvanceAll(due, now))
  }

  lemma {:induction false} SplitsOne(ticked: seq<Callback>, all: seq<Callback>, due: seq<Callback>, now: nat, c: Callback)
    requires Splits(ticked, all, due, now) && c.period > 0
    ensures Splits(ticked + [Ticked(c, now)], all + [c], if c.expiry <= now then due + [c] else due, now)
  {
    Rebalance(multiset(ticked), multiset(all), multiset(due), multiset(AdvanceAll(due, now)), c, Ticked(c, now));
    if c.expiry <= now {
      AdvanceSnoc(due, c, now);
    }
  }

  lemma {:induction false} SplitsNone(now: nat)
    ensures Splits(TickAll([], now), [], DueOf([], now), now)
  {
    assert TickAll([], now) == [] && AdvanceAll([], now) == [];
  }

  lemma {:induction false} TickSnoc(t: seq<Callback>, c: Callback, now: nat)
    ensures TickAll(t + [c], now) == TickAll(t, now) + [Ticked(c, now)]
    ensures DueOf(t + [c], now) == if c.expiry <= now then DueOf(t, now) + [c] else DueOf(t, now)
  {
    assert (t + [c])[..|t|] == t;
  }

  lemma {:induction false} SplitsSnoc(t: seq<Callback>, c: Callback, now: nat)
    requires Splits(TickAll(t, now), t, DueOf(t, now), now) && c.period > 0
    ensures Splits(TickAll(t + [c], now), t + [c], DueOf(t + [c], now), now)
  {
    SplitsOne(TickAll(t, now), t, DueOf(t, now), now, c);
    TickSnoc(t, c, now);
  }

  predicate Periodic(s: seq<Callback>) { forall i :: 0 <= i < |s| ==> s[i].period > 0 }

  lemma {:induction false} TickAllSplit(s: seq<Callback>, now: nat)
    requires Periodic(s)
    ensures Splits(TickAll(s, now), s, DueOf(s, now), now)
    decreases |s|
  {
    if s == [] {
      SplitsNone(now);
    } else {
      var t, c := s[..|s| - 1], s[|s| - 1];
      assert s == t + [c];
      TickAllSplit(t, now);
      SplitsSnoc(t, c, now);
    }
  }

  lemma {:induction false} AdvanceWithout(s: seq<Callback>, i: nat, now: nat)
    requires AllDue(s, now) && i < |s|
    ensures AllDue(s[..i] + s[i + 1..], now)
    ensures multiset(AdvanceAll(s, now)) == multiset(AdvanceAll(s[..i] + s[i + 1..], now)) + multiset{Advance(s[i], now)}
  {
    var t := AdvanceAll(s, now);
    assert AdvanceAll(s[..i] + s[i + 1..], now) == t[..i] + t[i + 1..];
    PQ.TakeOut(t, i);
  }

  lemma {:induction false} PermutedSnoc(a: seq<Callback>, b: seq<Callback>, i: nat, now: nat)
    requires AllDue(a, now) && AllDue(b, now) && i < |b| && AllDue(b[..i] + b[i + 1..], now)
    requires multiset(AdvanceAll(a, now)) == multiset(AdvanceAll(b[..i] + b[i + 1..], now))
    ensures AllDue(a + [b[i]], now) && multiset(AdvanceAll(a + [b[i]], now)) == multiset(AdvanceAll(b, now))
  {
    AdvanceWithout(b, i, now);
    AdvanceSnoc(a, b[i], now);
  }

  lemma {:induction false} SharedElement(a: seq<Callback>, x: Callback, b: seq<Callback>) returns (i: nat)
    requires multiset(a + [x]) == multiset(b)
    ensures i < |b| && b[i] == x && multiset(a) == multiset(b[..i] + b[i + 1..])
  {
    assert x in multiset(b);
    i :| 0 <= i < |b| && b[i] == x;
    PQ.TakeOut(b, i);
    assert multiset(a + [x]) == multiset(a) + multiset{x};
  }

  lemma {:induction false} AdvancePermuted(a: seq<Callback>, b: seq<Callback>, now: nat)
    requires AllDue(a, now) && AllDue(b, now) && multiset(a) == multiset(b)
    ensures multiset(AdvanceAll(a, now)) == multiset(AdvanceAll(b, now))
    decreases |a|
  {
    if a == [] {
      assert |multiset(b)| == |b|;
      assert b == [];
    } else {
      var t, x := a[..|a| - 1], a[|a| - 1];
      assert a == t + [x];
      var i := SharedElement(t, x, b);
      AdvancePermuted(t, b[..i] + b[i + 1..], now);
      PermutedSnoc(t, b, i, now);
    }
  }

  /** A turn does to the queue what it does to each callback by itself. */
  lemma {:induction false} TurnIsTick(s: seq<Callback>, fired: seq<Callback>, now: nat)
    requires Periodic(s) && AllDue(fired, now) && FiresExactlyDue(multiset(s), fired, now)
    ensures multiset(fired) == multiset(DueOf(s, now))
    ensures multiset(s) - multiset(fired) + multiset(AdvanceAll(fired, now)) == multiset(TickAll(s, now))
  {
    forall c
      ensures multiset(fired)[c] == multiset(DueOf(s, now))[c]
    {
      DueCount(s, now, c);
    }
    assert multiset(fired) == multiset(DueOf(s, now));
    TickAllSplit(s, now);
    AdvancePermuted(fired, DueOf(s, now), now);
  }

  /** If the top is not due, nothing is. */
  lemma {:induction false} TopLatest(items: seq<Callback>, now: nat)
    requires PQ.IsHeap(Urgency, items) && items != [] && items[0].expiry > now
    ensures forall c :: c in multiset(items) ==> c.expiry > now
  {
    forall c | c in multiset(items)
      ensures c.expiry > now
    {
      var i :| 0 <= i < |items| && items[i] == c;
      PQ.TopIsGreatest(Urgency, items, i);
    }
  }

  /** While something is due, not everything has been run. */
  lemma {:induction false} FiredBound(before: multiset<Callback>, items: multiset<Callback>, fired: seq<Callback>, now: nat)
    requires MidPass(before, items, fired, now)
    ensures |multiset(fired)| == |fired| <= |before|
  {
    assert before == multiset(fired) + (before - multiset(fired));
  }
}
