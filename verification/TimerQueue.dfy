/** The timer queue with its wrap-tolerant comparator (lib/common/GenericTimerQueue.h) and the
    timer manager on top of it (lib/common/TimerManager.cpp).

    Tick counts are `long`, taken to wrap at 64 bits.  Every timer also remembers the true,
    unbounded tick it is meant for, which the program does not have. */
module TimerQueue {
  import opened Wrappers
  import PQ = PriorityQueue

  const HALF: int := 0x8000_0000_0000_0000
  const FULL: int := 0x1_0000_0000_0000_0000

  /** The `long` that holds `x`. */
  function Wrap(x: int): (r: int)
    ensures -HALF <= r < HALF
  {
    (x + HALF) % FULL - HALF
  }

  /** `when` and what it was asked for are not stored by the program: `started` in microseconds
      and `millis` as passed to startTimer. */
  datatype Timer = Timer(expires: int, item: nat, when: int, started: int, millis: int)

  /** TimerCompare. */
  function Compare(lhs: Timer, rhs: Timer): bool { Wrap(rhs.expires - lhs.expires) < 0 }

  function Urgency(t: Timer): int { 0 - t.when }

  predicate Stored(t: Timer) { t.expires == Wrap(t.when) }

  /** Wrapped subtraction of wrapped ticks is the true difference if that fits. */
  lemma {:induction false} WrapDifference(a: int, b: int)
    ensures Wrap(Wrap(a) - Wrap(b)) == Wrap(a - b)
    ensures -HALF <= a - b < HALF ==> Wrap(a - b) == a - b
  {
    var i, j := (a + HALF) / FULL, (b + HALF) / FULL;
    assert Wrap(a) == a - i * FULL && Wrap(b) == b - j * FULL;
    assert Wrap(a) - Wrap(b) + HALF == (a - b + HALF) + (j - i) * FULL;
    ModShift(a - b + HALF, j - i);
  }

  lemma {:induction false} ModShift(x: int, k: int)
    ensures (x + k * FULL) % FULL == x % FULL
  {
    assert x + k * FULL == (x / FULL + k) * FULL + x % FULL;
  }

  /** For ticks less than a full range apart, the comparator tells which is later exactly when
      they are within half the range of each other. */
  lemma {:induction false} ComparatorExact(a: Timer, b: Timer)
    requires Stored(a) && Stored(b) && -FULL < b.when - a.when < FULL
    ensures (Compare(a, b) <==> a.when > b.when) <==> -HALF <= b.when - a.when < HALF
  {
    WrapDifference(b.when, a.when);
  }

  /** The test of `pop(now)`. */
  predicate Expired(t: Timer, now: int) { Wrap(now - t.expires) >= 0 }

  lemma {:induction false} ExpiredExact(t: Timer, now: int)
    requires Stored(t) && -HALF < t.when - now < HALF
    ensures Expired(t, Wrap(now)) <==> t.when <= now
  {
    WrapDifference(now, t.when);
  }

  /** All live timers lie within half the range of each other. */
  ghost predicate InWindow(s: multiset<Timer>) {
    && (forall t :: t in s ==> Stored(t))
    && (forall a, b :: a in s && b in s ==> b.when - a.when < HALF)
  }

  lemma {:induction false} WindowGrows(s: multiset<Timer>, t: Timer)
    requires InWindow(s) && Stored(t) && forall a :: a in s ==> -HALF < a.when - t.when < HALF
    ensures InWindow(s + multiset{t})
  {
    forall a, b | a in s + multiset{t} && b in s + multiset{t}
      ensures b.when - a.when < HALF
    {
      assert (a in s || a == t) && (b in s || b == t);
    }
  }

  lemma {:induction false} WindowAgrees(s: multiset<Timer>)
    requires InWindow(s)
    ensures PQ.Agrees(Compare, Urgency, s)
  {
    forall a, b | a in s && b in s
      ensures Compare(a, b) <==> Urgency(a) < Urgency(b)
    {
      ComparatorExact(a, b);
    }
  }

  class GenericTimerQueue {
    const queue: PQ.PriorityQueue<Timer>

    ghost predicate Valid()
      reads this, queue
    {
      queue.less == Compare && queue.key == Urgency && queue.Valid() && InWindow(multiset(queue.items))
    }

    ghost function Live(): multiset<Timer>
      reads this, queue
    {
      multiset(queue.items)
    }

    constructor ()
      ensures Valid() && Live() == multiset{} && fresh(queue)
    {
      queue := new PQ.PriorityQueue(Compare, Urgency);
    }

    /** `push(now, interval, obj)` at true tick `now`. */
    method Push(now: int, interval: int, item: nat, started: int, millis: int)
      requires Valid()
      requires var when := now + (if interval < 0 then 0 else interval);
               forall t :: t in Live() ==> -HALF < t.when - when < HALF
      modifies queue
      ensures Valid()
      ensures var when := now + (if interval < 0 then 0 else interval);
              Live() == old(Live()) + multiset{Timer(Wrap(when), item, when, started, millis)}
    {
      var when := now + (if interval < 0 then 0 else interval);
      var timer := Timer(Wrap(when), item, when, started, millis);
      WindowGrows(Live(), timer);
      WindowAgrees(Live() + multiset{timer});
      queue.Push(timer);
    }

    /** `pop(now)`: an earliest expired timer; none means that none has expired. */
    method PopExpired(now: int) returns (timer: Option<Timer>)
      requires Valid() && forall t :: t in Live() ==> -HALF < t.when - now < HALF
      modifies queue
      ensures Valid()
      ensures timer.None? ==> Live() == old(Live()) && forall t :: t in Live() ==> t.when > now
      ensures timer.Some? ==>
                && timer.value in old(Live()) && Live() == old(Live()) - multiset{timer.value}
                && timer.value.when <= now
                && forall t :: t in old(Live()) ==> timer.value.when <= t.when
    {
      timer := None;
      if queue.items != [] {
        TopEarliest(queue.items);
        var top := queue.items[0];
        ExpiredExact(top, now);
        if Expired(top, Wrap(now)) {
          top := queue.Pop();
          timer := Some(top);
        }
      }
    }

    /** `pop()`: an earliest timer, expired or not. */
    method PopAny() returns (timer: Option<Timer>)
      requires Valid()
      modifies queue
      ensures Valid()
      ensures timer.None? ==> Live() == old(Live()) == multiset{}
      ensures timer.Some? ==>
                && timer.value in old(Live()) && Live() == old(Live()) - multiset{timer.value}
                && forall t :: t in old(Live()) ==> timer.value.when <= t.when
    {
      timer := None;
      if queue.items != [] {
        TopEarliest(queue.items);
        var top := queue.Pop();
        timer := Some(top);
      }
    }
  }

  lemma {:induction false} TopEarliest(items: seq<Timer>)
    requires PQ.IsHeap(Urgency, items) && items != []
    ensures items[0] in multiset(items) && forall t :: t in multiset(items) ==> items[0].when <= t.when
  {
    forall t | t in multiset(items)
      ensures items[0].when <= t.when
    {
      var i :| 0 <= i < |items| && items[i] == t;
      PQ.TopIsGreatest(Urgency, items, i);
    }
  }

  // ---------------------------------------------------------------------------------------
  // The timer manager.

  const TICK_MILLISECONDS: int := 100

  /** gettimeofday, in microseconds, as ticks of a tenth of a second. */
  function Tick(micros: nat): int {
    micros / 1_000_000 * (1000 / TICK_MILLISECONDS) + micros % 1_000_000 / (TICK_MILLISECONDS * 1000)
  }

  lemma {:induction false} TickIsFloor(micros: nat)
    ensures Tick(micros) * 100_000 <= micros < (Tick(micros) + 1) * 100_000
  {
  }

  /** Integer division of C, towards zero. */
  function DivTrunc(a: int, b: int): int
    requires b > 0
  {
    if a >= 0 then a / b else -((-a) / b)
  }

  function TimerTick(started: nat, millis: int): int {
    var interval := DivTrunc(millis, TICK_MILLISECONDS);
    Tick(started) + (if interval < 0 then 0 else interval)
  }

  /** A timer whose tick has come fires less than 200 ms early. */
  lemma {:induction false} LessThan200msEarly(started: nat, millis: int, now: nat)
    requires TimerTick(started, millis) <= Tick(now)
    ensures now > started + millis * 1000 - 200_000
  {
    TickIsFloor(started);
    TickIsFloor(now);
    if millis >= 0 {
      assert millis < (millis / 100 + 1) * 100;
    }
  }

  /** And no later than it was asked for: once that time is over its tick has come. */
  lemma {:induction false} NeverLate(started: nat, millis: int, now: nat)
    requires now >= started + (if millis < 0 then 0 else millis) * 1000
    ensures TimerTick(started, millis) <= Tick(now)
  {
    TickIsFloor(started);
    TickIsFloor(now);
    if millis >= 0 {
      assert millis / 100 * 100 <= millis;
    }
  }

  /** Close to that: a timer for 199 ms that fires after one microsecond. */
  lemma {:induction false} AlmostThatEarly()
    ensures TimerTick(99_999, 199) <= Tick(100_000)
  {
    TickIsFloor(99_999);
    TickIsFloor(100_000);
  }

  class TimerManager {
    const queue: GenericTimerQueue
    var nextTimerId: nat

    ghost predicate Valid()
      reads this, queue, queue.queue
    {
      && queue.Valid() && nextTimerId < 0x1_0000_0000
      && forall t :: t in queue.Live() ==> t.started >= 0 && t.when == TimerTick(t.started, t.millis) && t.item != 0
    }

    constructor ()
      ensures Valid() && queue.Live() == multiset{} && fresh(queue) && fresh(queue.queue)
    {
      queue := new GenericTimerQueue();
      nextTimerId := 1;
    }

    /** Identifiers skip zero when the counter wraps. */
    method GetNextTimerId() returns (id: nat)
      requires nextTimerId < 0x1_0000_0000
      modifies this
      ensures 0 < id < 0x1_0000_0000 && nextTimerId == (id + 1) % 0x1_0000_0000
      ensures id == if old(nextTimerId) == 0 then 1 else old(nextTimerId)
    {
      if nextTimerId == 0 { nextTimerId := 1; }
      id := nextTimerId;
      nextTimerId := (nextTimerId + 1) % 0x1_0000_0000;
    }

    method StartTimer(now: nat, millis: int) returns (id: nat)
      requires Valid()
      requires forall t :: t in queue.Live() ==> -HALF < t.when - TimerTick(now, millis) < HALF
      modifies this, queue.queue
      ensures Valid() && id != 0 && id == (if old(nextTimerId) == 0 then 1 else old(nextTimerId))
      ensures nextTimerId == (id + 1) % 0x1_0000_0000
      ensures var when := TimerTick(now, millis);
              queue.Live() == old(queue.Live()) + multiset{Timer(Wrap(when), id, when, now, millis)}
    {
      id := GetNextTimerId();
      queue.Push(Tick(now), DivTrunc(millis, TICK_MILLISECONDS), id, now, millis);
    }

    /** A timer is handed out at most once, never 200 ms early, earliest tick first; none is
        handed out only if no tick has come. */
    method GetExpiredTimer(now: nat) returns (timer: Option<Timer>)
      requires Valid() && forall t :: t in queue.Live() ==> -HALF < t.when - Tick(now) < HALF
      modifies queue.queue
      ensures Valid()
      ensures timer.None? ==> queue.Live() == old(queue.Live()) && forall t :: t in queue.Live() ==> t.when > Tick(now)
      ensures timer.Some? ==>
                && timer.value in old(queue.Live()) && queue.Live() == old(queue.Live()) - multiset{timer.value}
                && now > timer.value.started + timer.value.millis * 1000 - 200_000
                && forall t :: t in old(queue.Live()) ==> timer.value.when <= t.when
    {
      timer := queue.PopExpired(Tick(now));
      if timer.Some? {
        LessThan200msEarly(timer.value.started, timer.value.millis, now);
      }
    }
  }

  /** Milliseconds from tick `now` until `t` expires, none if it has. */
  function Remaining(t: Timer, now: int): int {
    if t.when > now then (t.when - now) * TICK_MILLISECONDS else 0
  }

  /** The same as the program computes it, from the stored expiry. */
  function Interval(t: Timer, now: int): int {
    var interval := Wrap(Wrap(t.expires - now) * TICK_MILLISECONDS);
    if interval > 0 then interval else 0
  }

  lemma {:induction false} IntervalExact(t: Timer, now: int)
    requires Stored(t) && -HALF < (t.when - now) * TICK_MILLISECONDS < HALF
    ensures Interval(t, Wrap(now)) == Remaining(t, now)
  {
    WrapDifference(t.when, now);
    WrapDifference((t.when - now) * TICK_MILLISECONDS, 0);
    WrapDifference(0, 0);
  }

  /** getTopExpires: how long the earliest timer of either queue leaves to wait; -1 without one. */
  method GetTopExpires(curl: GenericTimerQueue, timers: GenericTimerQueue, now: int) returns (wait: int)
    requires curl.Valid() && timers.Valid()
    requires forall t :: t in curl.Live() + timers.Live() ==> -HALF < (t.when - now) * TICK_MILLISECONDS < HALF
    ensures wait == -1 <==> curl.Live() + timers.Live() == multiset{}
    ensures forall t :: t in curl.Live() + timers.Live() ==> 0 <= wait <= Remaining(t, now)
    ensures wait != -1 ==> exists t :: t in curl.Live() + timers.Live() && wait == Remaining(t, now)
  {
    wait := -1;
    if curl.queue.items != [] {
      TopEarliest(curl.queue.items);
      IntervalExact(curl.queue.items[0], now);
      wait := Interval(curl.queue.items[0], Wrap(now));
      assert curl.queue.items[0] in curl.Live() + timers.Live();
    }
    if timers.queue.items != [] {
      TopEarliest(timers.queue.items);
      IntervalExact(timers.queue.items[0], now);
      var interval := Interval(timers.queue.items[0], Wrap(now));
      wait := if wait == -1 || interval < wait then interval else wait;
      assert timers.queue.items[0] in curl.Live() + timers.Live();
    }
  }
}
