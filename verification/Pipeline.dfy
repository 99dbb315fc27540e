/** Composer, ring and Logger together (lib/composer/Composer.cpp, lib/logger/Logger.cpp): the
    composer thread collects sensor and command pairs into batches and pushes them, the logger
    thread pops them, keeps every n-th and publishes it.  The push and the pop are the
    individual steps of the ring, interleaved freely. */
module Pipeline {
  import opened Wrappers
  import opened Payload
  import Bits
  import Ring = SpscRing

  const LOG_RING_CAPACITY: nat := 256

  datatype Composer = Composer(samples: seq<Pair>, idx: nat, batchSeq: nat, dropped: nat, running: bool, robotId: nat)

  /** `published` are the batches handed to the MQTT client, whatever it answered. */
  datatype Logger = Logger(downsample: nat, robotId: nat, skipCounter: nat, published: seq<Batch>)

  datatype State = State(composer: Composer, ring: Ring.Ring<Batch>, logger: Logger, composed: seq<Pair>)

  datatype Action = Compose(pair: Pair, now: nat) | Shutdown(now: nat) | ComposerStep | LoggerPop | LoggerStep

  function Init(robotId: nat, loggerId: nat, downsample: nat): State {
    State(Composer(seq(BATCH_SIZE, _ => seq(PAIR_SIZE, _ => 0)), 0, 0, 0, true, robotId),
          Ring.Init(LOG_RING_CAPACITY),
          Logger(if downsample == 0 then 1 else downsample, loggerId, 0, []), [])
  }

  function FlushedBatch(c: Composer, now: nat): Batch {
    Batch(Header(PAYLOAD_MAGIC, PAYLOAD_VERSION, SENSOR_BATCH, c.robotId, 8 + c.idx * PAIR_SIZE, 0, c.batchSeq, now),
          c.idx, c.samples)
  }

  /** `flush_batch` up to the push. */
  function BeginFlush(s: State, now: nat): State
    requires |s.ring.slots| > 0
  {
    s.(ring := Ring.Step(s.ring, Ring.Push(FlushedBatch(s.composer, now))),
       composer := s.composer.(batchSeq := s.composer.batchSeq + 1))
  }

  /** What the logger rewrites in a header before it serializes. */
  function Relabel(b: Batch, robotId: nat): Batch {
    b.(header := b.header.(magic := PAYLOAD_MAGIC, version := PAYLOAD_VERSION, recordType := SENSOR_BATCH,
                           robotId := robotId, payloadSize := 8 + b.count * PAIR_SIZE, reserved := 0))
  }

  /** `drainOnce` on one popped batch. */
  function Drain(l: Logger, out: Ring.Cell<Batch>): Logger
    requires l.downsample > 0
  {
    var publish := l.skipCounter % l.downsample == 0;
    l.(skipCounter := l.skipCounter + 1,
       published := if publish && out.Whole? then l.published + [Relabel(out.item, l.robotId)] else l.published)
  }

  predicate Ready(s: State) { |s.ring.slots| > 0 && s.logger.downsample > 0 }

  function Step(s: State, a: Action): (t: State)
    requires Ready(s)
    ensures Ready(t)
  {
    var c := s.composer;
    match a
    case Compose(pair, now) =>
      if !c.running || !s.ring.producer.PIdle? || |pair| != PAIR_SIZE || c.idx >= |c.samples| then s
      else
        var t := s.(composer := c.(samples := c.samples[c.idx := pair], idx := c.idx + 1), composed := s.composed + [pair]);
        if c.idx + 1 >= BATCH_SIZE then BeginFlush(t, now) else t
    case Shutdown(now) =>
      if !c.running || !s.ring.producer.PIdle? then s
      else
        var t := s.(composer := c.(running := false));
        if c.idx > 0 then BeginFlush(t, now) else t
    case ComposerStep =>
      if s.ring.producer.PIdle? then s
      else
        var r := Ring.Step(s.ring, Ring.ProducerStep);
        var refused := r.log.offered != [] && !r.log.offered[|r.log.offered| - 1].1;
        s.(ring := r,
           composer := if r.producer.PIdle? then c.(idx := 0, dropped := c.dropped + (if refused then 1 else 0)) else c)
    case LoggerPop => s.(ring := Ring.Step(s.ring, Ring.Pop))
    case LoggerStep =>
      var r := Ring.Step(s.ring, Ring.ConsumerStep);
      s.(ring := r, logger := if s.ring.consumer.CStoreTail? then Drain(s.logger, s.ring.consumer.out) else s.logger)
  }

  function Exec(s: State, schedule: seq<Action>): (t: State)
    requires Ready(s)
    ensures Ready(t)
    decreases |schedule|
  {
    if schedule == [] then s else Exec(Step(s, schedule[0]), schedule[1..])
  }

  // ---------------------------------------------------------------------------------------
  // Invariants.

  /** The valid pairs of the batches offered to the ring, in order. */
  function Flatten(offered: seq<(Batch, bool)>): seq<Pair>
    decreases |offered|
  {
    if offered == [] then []
    else
      var b := offered[|offered| - 1].0;
      Flatten(offered[..|offered| - 1]) + (if b.count <= |b.samples| then b.samples[..b.count] else [])
  }

  ghost predicate GoodBatch(b: Batch, number: nat, full: bool) {
    && |b.samples| == BATCH_SIZE && 1 <= b.count <= BATCH_SIZE && Sized(b.samples)
    && (full ==> b.count == BATCH_SIZE)
    && b.header.sequence == number
  }

  /** Batch number `i` is the i-th offered; only the one flushed at shutdown may be partial. */
  ghost predicate GoodOffers(offered: seq<(Batch, bool)>, running: bool) {
    forall i :: 0 <= i < |offered| ==> GoodBatch(offered[i].0, i, running || i < |offered| - 1)
  }

  ghost predicate Collecting(c: Composer) {
    && |c.samples| == BATCH_SIZE && c.idx <= BATCH_SIZE && Sized(c.samples)
  }

  ghost predicate ComposerInv(c: Composer, p: Ring.ProducerPc<Batch>, offered: seq<(Batch, bool)>, composed: seq<Pair>) {
    && Collecting(c) && GoodOffers(offered, c.running || !p.PIdle?)
    && composed == Flatten(offered) + c.samples[..c.idx]
    && c.batchSeq == |offered| + (if p.PIdle? then 0 else 1)
    && (p.PIdle? ==> c.idx < BATCH_SIZE && (c.running || c.idx == 0))
    && (!p.PIdle? ==> p.item.count == c.idx && p.item.samples == c.samples && GoodBatch(p.item, |offered|, c.running))
  }

  /** Every downsample-th element, starting with the first. */
  function Select<T>(s: seq<T>, n: nat): seq<T>
    requires n > 0
    decreases |s|
  {
    if s == [] then []
    else Select(s[..|s| - 1], n) + (if (|s| - 1) % n == 0 then [s[|s| - 1]] else [])
  }

  function RelabelAll(s: seq<Batch>, robotId: nat): seq<Batch> {
    seq(|s|, i requires 0 <= i < |s| => Relabel(s[i], robotId))
  }

  ghost predicate LoggerInv(l: Logger, log: Ring.Log<Batch>)
    requires l.downsample > 0
  {
    && l.skipCounter == |log.popped| <= |log.accepted|
    && l.published == RelabelAll(Select(log.accepted[..|log.popped|], l.downsample), l.robotId)
  }

  ghost predicate Inv(s: State) {
    && Ready(s) && Ring.Inv(s.ring)
    && ComposerInv(s.composer, s.ring.producer, s.ring.log.offered, s.composed)
    && s.composer.dropped == s.ring.dropped
    && LoggerInv(s.logger, s.ring.log)
  }

  lemma {:induction false} ComposeKeepsInv(s: State, pair: Pair, now: nat)
    requires Inv(s)
    ensures Inv(Step(s, Compose(pair, now)))
  {
    var c, t := s.composer, Step(s, Compose(pair, now));
    if c.running && s.ring.producer.PIdle? && |pair| == PAIR_SIZE {
      var more := c.samples[c.idx := pair];
      assert more[..c.idx + 1] == c.samples[..c.idx] + [pair];
      assert Sized(more);
      var u := c.(samples := more, idx := c.idx + 1);
      if c.idx + 1 >= BATCH_SIZE {
        Ring.StepKeepsInv(s.ring, Ring.Push(FlushedBatch(u, now)));
      }
    }
  }

  lemma {:induction false} ShutdownKeepsInv(s: State, now: nat)
    requires Inv(s)
    ensures Inv(Step(s, Shutdown(now)))
  {
    var c := s.composer;
    if c.running && s.ring.producer.PIdle? {
      Ring.StepKeepsInv(s.ring, Ring.Push(FlushedBatch(c.(running := false), now)));
      if c.idx == 0 {
        assert GoodOffers(s.ring.log.offered, false);
      }
    }
  }

  lemma {:induction false} ComposerStepKeepsInv(s: State)
    requires Inv(s)
    ensures Inv(Step(s, ComposerStep))
  {
    if !s.ring.producer.PIdle? {
      var c, b, offered := s.composer, s.ring.producer.item, s.ring.log.offered;
      var r := Ring.Step(s.ring, Ring.ProducerStep);
      Ring.StepKeepsInv(s.ring, Ring.ProducerStep);
      if r.producer.PIdle? {
        var more := r.log.offered;
        assert more[..|offered|] == offered && more[|offered|].0 == b;
        assert Flatten(more) == Flatten(offered) + c.samples[..c.idx];
        assert c.samples[..0] == [];
      }
      assert r.log.accepted[..|r.log.popped|] == s.ring.log.accepted[..|r.log.popped|];
    }
  }

  lemma {:induction false} LoggerStepKeepsInv(s: State)
    requires Inv(s)
    ensures Inv(Step(s, LoggerStep))
  {
    Ring.StepKeepsInv(s.ring, Ring.ConsumerStep);
    if s.ring.consumer.CStoreTail? {
      var log, n := s.ring.log, s.logger.downsample;
      var before, after := log.accepted[..|log.popped|], log.accepted[..|log.popped| + 1];
      assert after[..|after| - 1] == before;
    }
  }

  lemma {:induction false} StepKeepsInv(s: State, a: Action)
    requires Inv(s)
    ensures Inv(Step(s, a))
  {
    match a
    case Compose(pair, now) => ComposeKeepsInv(s, pair, now);
    case Shutdown(now) => ShutdownKeepsInv(s, now);
    case ComposerStep => ComposerStepKeepsInv(s);
    case LoggerPop => Ring.StepKeepsInv(s.ring, Ring.Pop);
    case LoggerStep => LoggerStepKeepsInv(s);
  }

  lemma {:induction false} Reachable(s: State, schedule: seq<Action>)
    requires Inv(s)
    ensures Inv(Exec(s, schedule))
    decreases |schedule|
  {
    if schedule != [] {
      StepKeepsInv(s, schedule[0]);
      Reachable(Step(s, schedule[0]), schedule[1..]);
    }
  }

  lemma {:induction false} Runs(robotId: nat, loggerId: nat, downsample: nat, schedule: seq<Action>)
    ensures Inv(Exec(Init(robotId, loggerId, downsample), schedule))
  {
    Reachable(Init(robotId, loggerId, downsample), schedule);
  }

  // ---------------------------------------------------------------------------------------
  // Main results, for every interleaving of composer and logger.

  /** Every composed pair is in exactly one batch, in order, or still being collected; batches
      are full except one flushed at shutdown; and every batch flushed was accepted by the ring
      or is counted as dropped, by the composer and by the ring alike. */
  lemma {:induction false} NoPairLost(robotId: nat, loggerId: nat, downsample: nat, schedule: seq<Action>)
    ensures var s := Exec(Init(robotId, loggerId, downsample), schedule);
            var offered := s.ring.log.offered;
            && s.composer.idx <= |s.composer.samples|
            && s.composed == Flatten(offered) + s.composer.samples[..s.composer.idx]
            && (forall i :: 0 <= i < |offered| ==>
                  1 <= offered[i].0.count <= 4
                  && (offered[i].0.count < 4 ==> i == |offered| - 1 && !s.composer.running))
            && |offered| == |s.ring.log.accepted| + s.composer.dropped
            && s.composer.dropped == s.ring.dropped
            && |s.ring.slots| == 256 && |s.ring.log.accepted| <= |s.ring.log.popped| + 256
  {
    CapacityFixed(Init(robotId, loggerId, downsample), schedule);
    Runs(robotId, loggerId, downsample, schedule);
    var s := Exec(Init(robotId, loggerId, downsample), schedule);
    Ring.AcceptedOrRefused(s.ring.log.offered);
    forall i | 0 <= i < |s.ring.log.offered|
      ensures 1 <= s.ring.log.offered[i].0.count <= BATCH_SIZE
      ensures s.ring.log.offered[i].0.count < BATCH_SIZE ==> i == |s.ring.log.offered| - 1 && !s.composer.running
    {
      assert GoodBatch(s.ring.log.offered[i].0, i,
                       (s.composer.running || !s.ring.producer.PIdle?) || i < |s.ring.log.offered| - 1);
    }
  }

  lemma {:induction false} CapacityFixed(s: State, schedule: seq<Action>)
    requires Ready(s)
    ensures |Exec(s, schedule).ring.slots| == |s.ring.slots|
    decreases |schedule|
  {
    if schedule != [] {
      CapacityFixed(Step(s, schedule[0]), schedule[1..]);
    }
  }

  /** Until shutdown, whenever no push is under way, the composer takes the next pair. */
  lemma {:induction false} ComposeTakes(robotId: nat, loggerId: nat, downsample: nat, schedule: seq<Action>, pair: Pair, now: nat)
    requires (forall i :: 0 <= i < |schedule| ==> !schedule[i].Shutdown?) && |pair| == PAIR_SIZE
    requires Exec(Init(robotId, loggerId, downsample), schedule).ring.producer.PIdle?
    ensures var s := Exec(Init(robotId, loggerId, downsample), schedule);
            Step(s, Compose(pair, now)).composed == s.composed + [pair]
  {
    Runs(robotId, loggerId, downsample, schedule);
    StaysRunning(Init(robotId, loggerId, downsample), schedule);
  }

  lemma {:induction false} StaysRunning(s: State, schedule: seq<Action>)
    requires Ready(s) && s.composer.running && forall i :: 0 <= i < |schedule| ==> !schedule[i].Shutdown?
    ensures Exec(s, schedule).composer.running
    decreases |schedule|
  {
    if schedule != [] {
      StaysRunning(Step(s, schedule[0]), schedule[1..]);
    }
  }

  lemma {:induction false} DivStep(m: nat, n: nat)
    requires n > 0
    ensures (m + 1) / n == m / n + (if (m + 1) % n == 0 then 1 else 0)
  {
    var q, r := m / n, m % n;
    assert m == q * n + r;
    if r + 1 == n {
      assert m + 1 == (q + 1) * n + 0;
      Bits.ModUnique(m + 1, n, q + 1, 0);
    } else {
      Bits.ModUnique(m + 1, n, q, r + 1);
    }
  }

  lemma {:induction false} SelectAt<T>(s: seq<T>, n: nat)
    requires n > 0
    ensures |Select(s, n)| == if s == [] then 0 else (|s| - 1) / n + 1
    ensures forall k :: 0 <= k < |s| && k % n == 0 ==> k / n < |Select(s, n)| && Select(s, n)[k / n] == s[k]
    decreases |s|
  {
    if s != [] {
      var before := s[..|s| - 1];
      SelectAt(before, n);
      if before == [] {
        Bits.ModUnique(0, n, 0, 0);
      } else {
        DivStep(|s| - 2, n);
      }
    }
  }

  /** `out` is batch `b` as it has to be published: the same pairs and count, sequence number and
      time stamp kept, and everything else in the header set by the logger. */
  predicate PublishedAs(out: Batch, b: Batch, loggerId: nat) {
    && out.count == b.count && out.samples == b.samples
    && out.header == Header(0x4D52, 1, 4, loggerId, 8 + b.count * 1544, 0, b.header.sequence, b.header.timestamp)
  }

  /** Of the batches popped, each accepted before, those at multiples of `n` are published,
      with the logger's robot identifier, and nothing else is. */
  ghost predicate EveryNth(log: Ring.Log<Batch>, published: seq<Batch>, n: nat, loggerId: nat)
    requires n > 0
  {
    var popped := |log.popped|;
    && popped <= |log.accepted|
    && |published| == (if popped == 0 then 0 else (popped - 1) / n + 1)
    && forall k :: 0 <= k < popped && k % n == 0 ==>
         && log.popped[k] == Ring.Whole(log.accepted[k])
         && k / n < |published| && PublishedAs(published[k / n], log.accepted[k], loggerId)
  }

  lemma {:induction false} EveryNthKept(s: State)
    requires Inv(s)
    ensures s.logger.downsample > 0 && EveryNth(s.ring.log, s.logger.published, s.logger.downsample, s.logger.robotId)
  {
    SelectAt(s.ring.log.accepted[..|s.ring.log.popped|], s.logger.downsample);
  }

  /** The k-th batch popped, counting from zero, is handed to the MQTT client exactly when k is
      a multiple of the downsampling factor, and nothing else is. */
  lemma {:induction false} EveryNthPublished(robotId: nat, loggerId: nat, downsample: nat, schedule: seq<Action>)
    ensures var s := Exec(Init(robotId, loggerId, downsample), schedule);
            EveryNth(s.ring.log, s.logger.published, if downsample == 0 then 1 else downsample, loggerId)
  {
    Runs(robotId, loggerId, downsample, schedule);
    FactorFixed(Init(robotId, loggerId, downsample), schedule);
    EveryNthKept(Exec(Init(robotId, loggerId, downsample), schedule));
  }

  lemma {:induction false} FactorFixed(s: State, schedule: seq<Action>)
    requires Ready(s)
    ensures Exec(s, schedule).logger.downsample == s.logger.downsample
    ensures Exec(s, schedule).logger.robotId == s.logger.robotId
    decreases |schedule|
  {
    if schedule != [] {
      FactorFixed(Step(s, schedule[0]), schedule[1..]);
    }
  }

  ghost predicate Increasing(s: seq<Batch>) {
    forall i, j :: 0 <= i < j < |s| ==> s[i].header.sequence < s[j].header.sequence
  }

  ghost predicate Below(s: seq<Batch>, bound: nat) {
    forall i :: 0 <= i < |s| ==> s[i].header.sequence < bound
  }

  lemma {:induction false} AcceptedIncrease(offered: seq<(Batch, bool)>)
    requires forall i :: 0 <= i < |offered| ==> offered[i].0.header.sequence == i
    ensures Increasing(Ring.Accepted(offered)) && Below(Ring.Accepted(offered), |offered|)
    decreases |offered|
  {
    if offered != [] {
      AcceptedIncrease(offered[..|offered| - 1]);
    }
  }

  lemma {:induction false} SelectIncreases(s: seq<Batch>, n: nat)
    requires n > 0 && Increasing(s)
    ensures Increasing(Select(s, n))
    ensures forall i :: 0 <= i < |Select(s, n)| ==> Select(s, n)[i] in s
    decreases |s|
  {
    if s != [] {
      SelectIncreases(s[..|s| - 1], n);
    }
  }

  /** Published sequence numbers strictly increase, gaps from drops and downsampling included. */
  lemma {:induction false} PublishedInOrder(robotId: nat, loggerId: nat, downsample: nat, schedule: seq<Action>)
    ensures Increasing(Exec(Init(robotId, loggerId, downsample), schedule).logger.published)
  {
    Runs(robotId, loggerId, downsample, schedule);
    var s := Exec(Init(robotId, loggerId, downsample), schedule);
    var offered, popped := s.ring.log.offered, s.ring.log.accepted[..|s.ring.log.popped|];
    forall i | 0 <= i < |offered|
      ensures offered[i].0.header.sequence == i
    {
      assert GoodBatch(offered[i].0, i, (s.composer.running || !s.ring.producer.PIdle?) || i < |offered| - 1);
    }
    AcceptedIncrease(offered);
    SelectIncreases(popped, s.logger.downsample);
    forall i, j | 0 <= i < j < |s.logger.published|
      ensures s.logger.published[i].header.sequence < s.logger.published[j].header.sequence
    {
      var chosen := Select(popped, s.logger.downsample);
      assert chosen[i].header.sequence < chosen[j].header.sequence;
    }
  }

  lemma {:induction false} AcceptedGood(offered: seq<(Batch, bool)>)
    requires forall i :: 0 <= i < |offered| ==> GoodBatch(offered[i].0, i, false)
    ensures forall b :: b in Ring.Accepted(offered) ==> GoodBatch(b, b.header.sequence, false)
    decreases |offered|
  {
    if offered != [] {
      AcceptedGood(offered[..|offered| - 1]);
    }
  }

  lemma {:induction false} PopAccepted(s: State, k: nat)
    requires Inv(s) && k < |s.ring.log.popped|
    ensures k < |s.ring.log.accepted| && GoodBatch(s.ring.log.accepted[k], s.ring.log.accepted[k].header.sequence, false)
  {
    var offered := s.ring.log.offered;
    forall i | 0 <= i < |offered|
      ensures GoodBatch(offered[i].0, i, false)
    {
      assert GoodBatch(offered[i].0, i, (s.composer.running || !s.ring.producer.PIdle?) || i < |offered| - 1);
    }
    AcceptedGood(offered);
    assert s.ring.log.accepted[k] in Ring.Accepted(offered);
  }

  /** The payload of `out` is 32 bytes and payload_size more, and decodes to exactly the valid pairs
      of `b` in their order, with the logger's robot identifier and the sequence number and time
      stamp of `b`. */
  ghost predicate Delivers(out: Batch, b: Batch, loggerId: nat) {
    && out.count <= |out.samples| && 1 <= b.count <= |b.samples|
    && |Serialize(out)| == 40 + b.count * 1544
    && Decode(Serialize(out)) ==
       Some((Header(0x4D52, 1, 4, loggerId, 8 + b.count * 1544, 0, b.header.sequence, b.header.timestamp), b.samples[..b.count]))
  }

  /** The numbers in the header fit their fields. */
  predicate NumbersFit(b: Batch, loggerId: nat) {
    loggerId < Pow256(4) && b.header.sequence < Pow256(8) && b.header.timestamp < Pow256(8)
  }

  lemma {:induction false} PublishedDecodes(out: Batch, b: Batch, loggerId: nat)
    requires PublishedAs(out, b, loggerId) && GoodBatch(b, b.header.sequence, false) && NumbersFit(b, loggerId)
    ensures Delivers(out, b, loggerId)
  {
    assert Pow256(2) == 0x1_0000 && Pow256(1) == 0x100;
    assert Pow256(4) == 0x1_0000 * 0x1_0000;
    BatchRoundTrip(out);
  }

  lemma {:induction false} EveryNthDecodes(s: State, n: nat, loggerId: nat, k: nat)
    requires Inv(s) && n > 0 && EveryNth(s.ring.log, s.logger.published, n, loggerId)
    requires k < |s.ring.log.popped| && k % n == 0 && NumbersFit(s.ring.log.accepted[k], loggerId)
    ensures k / n < |s.logger.published| && Delivers(s.logger.published[k / n], s.ring.log.accepted[k], loggerId)
  {
    PopAccepted(s, k);
    PublishedDecodes(s.logger.published[k / n], s.ring.log.accepted[k], loggerId);
  }

  /** The payload published for the k-th batch popped, k a multiple of the downsampling factor, as
      long as its numbers fit their fields, delivers exactly that batch. */
  lemma {:induction false} PayloadsDecode(robotId: nat, loggerId: nat, downsample: nat, schedule: seq<Action>, k: nat)
    requires var s, n := Exec(Init(robotId, loggerId, downsample), schedule), if downsample == 0 then 1 else downsample;
             k < |s.ring.log.popped| && k % n == 0 && k < |s.ring.log.accepted| && NumbersFit(s.ring.log.accepted[k], loggerId)
    ensures var s, n := Exec(Init(robotId, loggerId, downsample), schedule), if downsample == 0 then 1 else downsample;
            k / n < |s.logger.published| && Delivers(s.logger.published[k / n], s.ring.log.accepted[k], loggerId)
  {
    Runs(robotId, loggerId, downsample, schedule);
    EveryNthPublished(robotId, loggerId, downsample, schedule);
    var s, n := Exec(Init(robotId, loggerId, downsample), schedule), if downsample == 0 then 1 else downsample;
    EveryNthDecodes(s, n, loggerId, k);
  }

  /** A flush offers a batch of what was collected, numbered by the flushes before it and stamped
      with the time of the flush; nothing else is ever offered. */
  lemma {:induction false} FlushStamped(s: State, a: Action)
    requires Inv(s) && s.ring.producer.PIdle?
    ensures var p, q := s.ring.producer, Step(s, a).ring.producer;
            !q.PIdle? ==>
              && (a.Compose? || a.Shutdown?)
              && q.item.header == Header(0x4D52, 1, 4, s.composer.robotId, 8 + q.item.count * 1544, 0, |s.ring.log.offered|, a.now)
  {
  }

  // ---------------------------------------------------------------------------------------
  // The two threads as they run when the other stands still.

  const DRAIN_BATCH_LIMIT: nat := 10

  /** `Drain` applied to several popped batches in order. */
  function DrainAll(l: Logger, items: seq<Batch>): (m: Logger)
    requires l.downsample > 0
    ensures m.downsample == l.downsample
    decreases |items|
  {
    if items == [] then l else Drain(DrainAll(l, items[..|items| - 1]), Ring.Whole(items[|items| - 1]))
  }

  class LoggerThread {
    const ring: Ring.SpscRingBuffer<Batch>
    var logger: Logger

    constructor (ring: Ring.SpscRingBuffer<Batch>, robotId: nat, downsample: nat)
      ensures this.ring == ring && logger == Logger(if downsample == 0 then 1 else downsample, robotId, 0, [])
    {
      this.ring := ring;
      logger := Logger(if downsample == 0 then 1 else downsample, robotId, 0, []);
    }

    /** Pops at most ten batches and treats each as the protocol does. */
    method DrainOnce()
      requires ring.Valid() && logger.downsample > 0
      modifies this, ring
      ensures ring.Valid() && ring.buffer == old(ring.buffer)
      ensures var waiting := old(ring.Contents());
              var n := if |waiting| < 10 then |waiting| else 10;
              logger == DrainAll(old(logger), waiting[..n]) && ring.Contents() == waiting[n..]
    {
      ghost var waiting := ring.Contents();
      var i := 0;
      while i < DRAIN_BATCH_LIMIT
        invariant ring.Valid() && ring.buffer == old(ring.buffer) && i <= DRAIN_BATCH_LIMIT && i <= |waiting|
        invariant ring.Contents() == waiting[i..] && logger == DrainAll(old(logger), waiting[..i])
      {
        var more := DrainNext();
        if !more { break; }
        DrainAllSnoc(old(logger), waiting, i);
        i := i + 1;
      }
    }

    /** One turn of the loop: a batch is popped, counted, and published if its turn has come. */
    method DrainNext() returns (more: bool)
      requires ring.Valid() && logger.downsample > 0
      modifies this, ring
      ensures ring.Valid() && ring.buffer == old(ring.buffer) && more == (old(ring.Contents()) != [])
      ensures logger == if more then Drain(old(logger), Ring.Whole(old(ring.Contents())[0])) else old(logger)
      ensures ring.Contents() == if more then old(ring.Contents())[1..] else []
    {
      var batch := ring.Pop();
      if batch.None? { return false; }
      var shouldPublish := logger.skipCounter % logger.downsample == 0;
      logger := logger.(skipCounter := logger.skipCounter + 1);
      if shouldPublish {
        logger := logger.(published := logger.published + [Relabel(batch.value, logger.robotId)]);
      }
      more := true;
    }
  }

  lemma {:induction false} DrainAllSnoc(l: Logger, items: seq<Batch>, i: nat)
    requires l.downsample > 0 && i < |items|
    ensures DrainAll(l, items[..i + 1]) == Drain(DrainAll(l, items[..i]), Ring.Whole(items[i]))
  {
    assert items[..i + 1][..i] == items[..i];
  }

  class ComposerThread {
    const ring: Ring.SpscRingBuffer<Batch>
    var composer: Composer

    constructor (ring: Ring.SpscRingBuffer<Batch>, robotId: nat)
      ensures this.ring == ring && Collecting(composer) && composer.idx == 0 && composer.dropped == 0
    {
      this.ring := ring;
      composer := Composer(seq(BATCH_SIZE, _ => seq(PAIR_SIZE, _ => 0)), 0, 0, 0, true, robotId);
    }

    method FlushBatch(now: nat)
      requires ring.Valid()
      modifies this, ring, ring.buffer
      ensures ring.Valid() && ring.buffer == old(ring.buffer)
      ensures var full := |old(ring.Contents())| == ring.buffer.Length;
              && ring.Contents() == old(ring.Contents()) + (if full then [] else [FlushedBatch(old(composer), now)])
              && composer == old(composer).(idx := 0, batchSeq := old(composer.batchSeq) + 1,
                                            dropped := old(composer.dropped) + (if full then 1 else 0))
    {
      var batch := FlushedBatch(composer, now);
      composer := composer.(batchSeq := composer.batchSeq + 1);
      var ok := ring.Push(batch);
      if !ok { composer := composer.(dropped := composer.dropped + 1); }
      composer := composer.(idx := 0);
    }

    /** Step 6 of a compose cycle: store the pair, flush a full batch. */
    method Accumulate(pair: Pair, now: nat)
      requires ring.Valid() && Collecting(composer) && composer.idx < BATCH_SIZE && |pair| == PAIR_SIZE
      modifies this, ring, ring.buffer
      ensures ring.Valid() && ring.buffer == old(ring.buffer) && Collecting(composer) && composer.idx < BATCH_SIZE
      ensures var c := old(composer).(samples := old(composer.samples)[old(composer.idx) := pair],
                                      idx := old(composer.idx) + 1);
              var full := |old(ring.Contents())| == ring.buffer.Length;
              if old(composer.idx) + 1 < BATCH_SIZE then
                composer == c && ring.Contents() == old(ring.Contents())
              else
                && composer == c.(idx := 0, batchSeq := c.batchSeq + 1, dropped := c.dropped + (if full then 1 else 0))
                && ring.Contents() == old(ring.Contents()) + (if full then [] else [FlushedBatch(c, now)])
    {
      composer := composer.(samples := composer.samples[composer.idx := pair]);
      composer := composer.(idx := composer.idx + 1);
      if composer.idx >= BATCH_SIZE {
        FlushBatch(now);
      }
    }
  }
}
