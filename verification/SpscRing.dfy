/** The single-producer single-consumer ring (include/mercury_shm.h), one load, store or half
    of an element copy per step.  An element being copied in is torn; a copy out returns the
    element only if the slot was whole and the same throughout, and is torn otherwise. */
module SpscRing {
  import opened Wrappers
  import Bits

  datatype Cell<+T> = Torn | Whole(item: T)

  datatype ProducerPc<+T> =
    | PIdle
    | PLoadTail(item: T, head: nat)
    | PCopy(item: T, head: nat)
    | PCopying(item: T, head: nat)
    | PStoreHead(item: T, head: nat)

  datatype ConsumerPc<+T> =
    | CIdle
    | CLoadHead(tail: nat)
    | CCopy(tail: nat)
    | CCopying(tail: nat, seen: Cell<T>)
    | CStoreTail(tail: nat, out: Cell<T>)

  /** What pushes and pops have returned: `offered` pairs each finished push with its result. */
  datatype Log<T> = Log(offered: seq<(T, bool)>, accepted: seq<T>, popped: seq<Cell<T>>)

  datatype Ring<T> = Ring(slots: seq<Cell<T>>, head: nat, tail: nat, dropped: nat,
                          producer: ProducerPc<T>, consumer: ConsumerPc<T>, log: Log<T>)

  datatype Action<T> = Push(item: T) | ProducerStep | Pop | ConsumerStep

  function Init<T>(capacity: nat): Ring<T> {
    Ring(seq(capacity, _ => Torn), 0, 0, 0, PIdle, CIdle, Log([], [], []))
  }

  /** The slot a counter stands for; the mask of the program is this remainder (see SlotIsMask). */
  function Slot(counter: nat, capacity: nat): (i: nat)
    requires capacity > 0
    ensures i < capacity
  {
    counter % capacity
  }

  lemma SlotIsMask(counter: nat, k: nat)
    ensures Slot(counter, Bits.Pow2(k)) == Bits.BitAnd(counter, Bits.Pow2(k) - 1)
  {
    Bits.MaskIsMod(counter, k);
  }

  function ProducerStepFn<T(==)>(r: Ring<T>): (t: Ring<T>)
    requires |r.slots| > 0
    ensures |t.slots| == |r.slots|
  {
    match r.producer
    case PIdle => r
    case PLoadTail(item, head) =>
      if head - r.tail >= |r.slots| then
        r.(dropped := r.dropped + 1, producer := PIdle, log := r.log.(offered := r.log.offered + [(item, false)]))
      else r.(producer := PCopy(item, head))
    case PCopy(item, head) =>
      r.(slots := r.slots[Slot(head, |r.slots|) := Torn], producer := PCopying(item, head))
    case PCopying(item, head) =>
      r.(slots := r.slots[Slot(head, |r.slots|) := Whole(item)], producer := PStoreHead(item, head))
    case PStoreHead(item, head) =>
      r.(head := head + 1, producer := PIdle,
         log := r.log.(offered := r.log.offered + [(item, true)], accepted := r.log.accepted + [item]))
  }

  function ConsumerStepFn<T(==)>(r: Ring<T>): (t: Ring<T>)
    requires |r.slots| > 0
    ensures |t.slots| == |r.slots|
  {
    match r.consumer
    case CIdle => r
    case CLoadHead(tail) => if tail >= r.head then r.(consumer := CIdle) else r.(consumer := CCopy(tail))
    case CCopy(tail) => r.(consumer := CCopying(tail, r.slots[Slot(tail, |r.slots|)]))
    case CCopying(tail, seen) =>
      var now := r.slots[Slot(tail, |r.slots|)];
      r.(consumer := CStoreTail(tail, if now == seen then seen else Torn))
    case CStoreTail(tail, out) =>
      r.(tail := tail + 1, consumer := CIdle, log := r.log.(popped := r.log.popped + [out]))
  }

  function Step<T(==)>(r: Ring<T>, a: Action<T>): (t: Ring<T>)
    requires |r.slots| > 0
    ensures |t.slots| == |r.slots|
  {
    match a
    case Push(item) => if r.producer.PIdle? then r.(producer := PLoadTail(item, r.head)) else r
    case ProducerStep => ProducerStepFn(r)
    case Pop => if r.consumer.CIdle? then r.(consumer := CLoadHead(r.tail)) else r
    case ConsumerStep => ConsumerStepFn(r)
  }

  function Exec<T(==)>(r: Ring<T>, schedule: seq<Action<T>>): (t: Ring<T>)
    requires |r.slots| > 0
    ensures |t.slots| == |r.slots|
    decreases |schedule|
  {
    if schedule == [] then r else Exec(Step(r, schedule[0]), schedule[1..])
  }

  // ---------------------------------------------------------------------------------------
  // Invariants.

  ghost predicate Counters<T>(r: Ring<T>) {
    var c, p, q := |r.slots|, r.producer, r.consumer;
    && c > 0 && r.tail <= r.head <= r.tail + c
    && |r.log.accepted| == r.head && |r.log.popped| == r.tail
    && (!p.PIdle? ==> p.head == r.head)
    && (p.PCopy? || p.PCopying? || p.PStoreHead? ==> r.head < r.tail + c)
    && (!q.CIdle? ==> q.tail == r.tail)
    && (q.CCopy? || q.CCopying? || q.CStoreTail? ==> r.tail < r.head)
  }

  ghost predicate Unread<T>(r: Ring<T>)
    requires Counters(r)
  {
    && (forall i :: r.tail <= i < r.head ==> r.slots[Slot(i, |r.slots|)] == Whole(r.log.accepted[i]))
    && (r.producer.PStoreHead? ==> r.slots[Slot(r.head, |r.slots|)] == Whole(r.producer.item))
  }

  ghost predicate Taken<T>(r: Ring<T>)
    requires Counters(r)
  {
    && (r.consumer.CCopying? ==> r.consumer.seen == Whole(r.log.accepted[r.tail]))
    && (r.consumer.CStoreTail? ==> r.consumer.out == Whole(r.log.accepted[r.tail]))
    && (forall i :: 0 <= i < r.tail ==> r.log.popped[i] == Whole(r.log.accepted[i]))
  }

  function Accepted<T>(offered: seq<(T, bool)>): seq<T>
    decreases |offered|
  {
    if offered == [] then []
    else
      var last := offered[|offered| - 1];
      Accepted(offered[..|offered| - 1]) + (if last.1 then [last.0] else [])
  }

  function Refused<T>(offered: seq<(T, bool)>): nat
    decreases |offered|
  {
    if offered == [] then 0
    else Refused(offered[..|offered| - 1]) + (if offered[|offered| - 1].1 then 0 else 1)
  }

  ghost predicate Tallied<T>(r: Ring<T>) {
    r.log.accepted == Accepted(r.log.offered) && r.dropped == Refused(r.log.offered)
  }

  ghost predicate Inv<T>(r: Ring<T>) {
    Counters(r) && Unread(r) && Taken(r) && Tallied(r)
  }

  /** The slot being written is none of those that hold an element not yet read. */
  lemma {:induction false} WriteMisses<T>(r: Ring<T>)
    requires Counters(r) && r.head < r.tail + |r.slots|
    ensures forall i :: r.tail <= i < r.head ==> Slot(i, |r.slots|) != Slot(r.head, |r.slots|)
  {
    forall i | r.tail <= i < r.head
      ensures Slot(i, |r.slots|) != Slot(r.head, |r.slots|)
    {
      Bits.NearbyModsDiffer(i, r.head, |r.slots|);
    }
  }

  lemma {:induction false} ProducerKeepsTally<T>(r: Ring<T>)
    requires Inv(r)
    ensures Tallied(ProducerStepFn(r))
  {
    var t := ProducerStepFn(r);
    if |t.log.offered| > |r.log.offered| {
      assert t.log.offered[..|r.log.offered|] == r.log.offered;
    }
  }

  lemma {:induction false} ProducerKeepsInv<T>(r: Ring<T>)
    requires Inv(r)
    ensures Inv(ProducerStepFn(r))
  {
    if r.head < r.tail + |r.slots| { WriteMisses(r); }
    ProducerKeepsTally(r);
  }

  lemma {:induction false} ConsumerKeepsInv<T>(r: Ring<T>)
    requires Inv(r)
    ensures Inv(ConsumerStepFn(r))
  {
  }

  lemma {:induction false} StepKeepsInv<T>(r: Ring<T>, a: Action<T>)
    requires Inv(r)
    ensures Inv(Step(r, a))
  {
    match a
    case ProducerStep => ProducerKeepsInv(r);
    case ConsumerStep => ConsumerKeepsInv(r);
    case Push(_) =>
    case Pop =>
  }

  lemma {:induction false} Reachable<T>(r: Ring<T>, schedule: seq<Action<T>>)
    requires Inv(r)
    ensures Inv(Exec(r, schedule))
    decreases |schedule|
  {
    if schedule != [] {
      StepKeepsInv(r, schedule[0]);
      Reachable(Step(r, schedule[0]), schedule[1..]);
    }
  }

  // ---------------------------------------------------------------------------------------
  // Main results.

  /** In every interleaving: what was popped is whole and is exactly the first elements
      accepted, in order; the ring never holds more than its capacity; and every push was
      either accepted or counted as dropped. */
  lemma {:induction false} PoppedPrefixOfAccepted<T>(capacity: nat, schedule: seq<Action<T>>)
    requires capacity > 0
    ensures var r := Exec(Init(capacity), schedule);
            && |r.log.popped| <= |r.log.accepted| <= |r.log.popped| + capacity
            && (forall i :: 0 <= i < |r.log.popped| ==> r.log.popped[i] == Whole(r.log.accepted[i]))
            && r.log.accepted == Accepted(r.log.offered)
            && r.dropped == Refused(r.log.offered)
            && |r.log.offered| == |r.log.accepted| + r.dropped
  {
    Reachable(Init(capacity), schedule);
    AcceptedOrRefused(Exec(Init(capacity), schedule).log.offered);
  }

  lemma {:induction false} AcceptedOrRefused<T>(offered: seq<(T, bool)>)
    ensures |offered| == |Accepted(offered)| + Refused(offered)
    decreases |offered|
  {
    if offered != [] {
      AcceptedOrRefused(offered[..|offered| - 1]);
    }
  }

  /** While an element is being copied in, its slot holds no unread element and is not the one
      being copied out. */
  lemma {:induction false} CopiesNeverMeet<T>(capacity: nat, schedule: seq<Action<T>>)
    requires capacity > 0
    ensures var r := Exec(Init<T>(capacity), schedule);
            var p, q := r.producer, r.consumer;
            p.PCopy? || p.PCopying? || p.PStoreHead? ==>
              && (forall i :: |r.log.popped| <= i < |r.log.accepted| ==> Slot(i, capacity) != Slot(p.head, capacity))
              && (q.CCopy? || q.CCopying? ==> Slot(q.tail, capacity) != Slot(p.head, capacity))
  {
    Reachable(Init<T>(capacity), schedule);
    var r := Exec(Init<T>(capacity), schedule);
    if r.head < r.tail + |r.slots| { WriteMisses(r); }
  }

  /** A push is refused exactly when the ring is full at the moment it loads the tail, and a
      pop finds nothing exactly when it is empty at the moment it loads the head. */
  lemma {:induction false} RefusedIffFull<T>(capacity: nat, schedule: seq<Action<T>>)
    requires capacity > 0
    ensures var r := Exec(Init<T>(capacity), schedule);
            && (r.producer.PLoadTail? ==>
                  (Step(r, ProducerStep).dropped == r.dropped + 1 <==> |r.log.accepted| == |r.log.popped| + capacity))
            && (r.consumer.CLoadHead? ==>
                  (Step(r, ConsumerStep).consumer.CIdle? <==> |r.log.accepted| == |r.log.popped|))
  {
    Reachable(Init<T>(capacity), schedule);
  }

  lemma {:induction false} ExecCons<T>(r: Ring<T>, a: Action<T>, rest: seq<Action<T>>)
    requires |r.slots| > 0
    ensures Exec(r, [a] + rest) == Exec(Step(r, a), rest)
  {
    assert ([a] + rest)[1..] == rest;
  }

  lemma {:induction false} ExecFive<T>(r: Ring<T>, a: Action<T>, b: Action<T>)
    requires |r.slots| > 0
    ensures Exec(r, [a, b]) == Step(Step(r, a), b)
    ensures Exec(r, [a, b, b, b, b]) == Step(Step(Step(Step(Step(r, a), b), b), b), b)
  {
    var r1 := Step(r, a);
    var r2 := Step(r1, b);
    var r3 := Step(r2, b);
    var r4 := Step(r3, b);
    ExecCons(r, a, [b]);
    ExecCons(r1, b, []);
    ExecCons(r, a, [b, b, b, b]);
    ExecCons(r1, b, [b, b, b]);
    ExecCons(r2, b, [b, b]);
    ExecCons(r3, b, [b]);
    ExecCons(r4, b, []);
    assert [a] + [b] == [a, b] && [b] + [] == [b] && [a] + [b, b, b, b] == [a, b, b, b, b];
    assert [b] + [b, b, b] == [b, b, b, b] && [b] + [b, b] == [b, b, b] && [b] + [b] == [b, b];
  }

  /** A push that nobody interrupts ends: refused in one step if the ring is full, accepted after
      four otherwise. */
  lemma {:induction false} PushCompletes<T>(r: Ring<T>, item: T)
    requires Inv(r) && r.producer.PIdle?
    ensures |r.log.accepted| == |r.log.popped| + |r.slots| ==>
              var t := Exec(r, [Push(item), ProducerStep]);
              t.producer.PIdle? && t.log.accepted == r.log.accepted && t.dropped == r.dropped + 1
    ensures |r.log.accepted| < |r.log.popped| + |r.slots| ==>
              var t := Exec(r, [Push(item), ProducerStep, ProducerStep, ProducerStep, ProducerStep]);
              t.producer.PIdle? && t.log.accepted == r.log.accepted + [item] && t.dropped == r.dropped
  {
    ExecFive(r, Push(item), ProducerStep);
  }

  /** So does a pop: it finds nothing, or takes the oldest element accepted and not yet popped. */
  lemma {:induction false} PopCompletes<T>(r: Ring<T>)
    requires Inv(r) && r.consumer.CIdle?
    ensures |r.log.accepted| == |r.log.popped| ==>
              var t := Exec(r, [Pop, ConsumerStep]); t.consumer.CIdle? && t.log == r.log
    ensures |r.log.accepted| > |r.log.popped| ==>
              var t := Exec(r, [Pop, ConsumerStep, ConsumerStep, ConsumerStep, ConsumerStep]);
              t.consumer.CIdle? && t.log.popped == r.log.popped + [Whole(r.log.accepted[|r.log.popped|])]
  {
    ExecFive(r, Pop, ConsumerStep);
  }

  // ---------------------------------------------------------------------------------------
  // The ring as each thread sees it when the other stands still.

  /** The `n` elements from counter `tail` on. */
  function Window<T>(slots: seq<T>, tail: nat, n: nat): (w: seq<T>)
    requires |slots| > 0
    ensures |w| == n && forall i :: 0 <= i < n ==> w[i] == slots[Slot(tail + i, |slots|)]
  {
    seq(n, i requires 0 <= i < n => slots[Slot(tail + i, |slots|)])
  }

  lemma {:induction false} WindowTail<T>(slots: seq<T>, tail: nat, n: nat)
    requires |slots| > 0 && n > 0
    ensures Window(slots, tail, n)[0] == slots[Slot(tail, |slots|)]
    ensures Window(slots, tail, n)[1..] == Window(slots, tail + 1, n - 1)
  {
    var w, v := Window(slots, tail, n), Window(slots, tail + 1, n - 1);
    forall i | 0 <= i < n - 1
      ensures w[1..][i] == v[i]
    {
      assert w[i + 1] == slots[Slot(tail + (i + 1), |slots|)] && tail + (i + 1) == tail + 1 + i;
    }
  }

  class SpscRingBuffer<T(0)> {
    const k: nat
    var buffer: array<T>
    var head: nat
    var tail: nat
    var dropped: nat

    ghost predicate Valid()
      reads this
    {
      buffer.Length == Bits.Pow2(k) && tail <= head <= tail + buffer.Length
    }

    /** The elements pushed and not yet popped, oldest first. */
    ghost function Contents(): seq<T>
      requires Valid()
      reads this, buffer
    {
      Window(buffer[..], tail, head - tail)
    }

    constructor (k: nat)
      ensures Valid() && fresh(buffer) && this.k == k && Contents() == [] && dropped == 0
    {
      this.k := k;
      buffer := new T[Bits.Pow2(k)];
      head, tail, dropped := 0, 0, 0;
    }

    method Push(item: T) returns (ok: bool)
      requires Valid()
      modifies this, buffer
      ensures Valid() && buffer == old(buffer)
      ensures ok == (|old(Contents())| < buffer.Length)
      ensures Contents() == if ok then old(Contents()) + [item] else old(Contents())
      ensures dropped == old(dropped) + (if ok then 0 else 1)
    {
      if head - tail >= buffer.Length {
        dropped := dropped + 1;
        return false;
      }
      SlotIsMask(head, k);
      var at := Bits.BitAnd(head, buffer.Length - 1);
      forall i | tail <= i < head
        ensures Slot(i, buffer.Length) != at
      {
        Bits.NearbyModsDiffer(i, head, buffer.Length);
      }
      buffer[at] := item;
      head := head + 1;
      ok := true;
    }

    method Pop() returns (item: Option<T>)
      requires Valid()
      modifies this
      ensures Valid() && buffer == old(buffer)
      ensures item == if old(Contents()) == [] then None else Some(old(Contents())[0])
      ensures Contents() == if old(Contents()) == [] then [] else old(Contents())[1..]
    {
      if tail >= head { return None; }
      SlotIsMask(tail, k);
      WindowTail(buffer[..], tail, head - tail);
      item := Some(buffer[Bits.BitAnd(tail, buffer.Length - 1)]);
      tail := tail + 1;
    }
  }
}
