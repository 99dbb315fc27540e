/** The IMU link: tools/imuSimulator.cpp packs a sample into five CAN-over-UDP frames and
    lib/imu/ImuReader.cpp assembles frames into measurements.

    A float32 is its bit pattern.  Frames of a cycle arrive in order and at most once; any of
    them may be lost. */
module ImuAssembly {
  import opened CanFrame
  import Payload

  /** NUM_CAN_FRAMES of the simulator and kMaxFrames of the reader. */
  const FRAMES: nat := 5

  datatype Sample = Sample(accX: nat, accY: nat, accZ: nat, gyroX: nat, gyroY: nat, gyroZ: nat,
                           quatW: nat, quatX: nat, quatY: nat, quatZ: nat)

  // ---------------------------------------------------------------------------------------
  // The simulator.

  /** `pack`: the canonical order of the ten values. */
  function Pack(s: Sample): (values: seq<nat>)
    ensures |values| == 2 * FRAMES
  {
    [s.accX, s.accY, s.accZ, s.gyroX, s.gyroY, s.gyroZ, s.quatW, s.quatX, s.quatY, s.quatZ]
  }

  predicate Floats(s: Sample) { forall i :: 0 <= i < 2 * FRAMES ==> Pack(s)[i] < Payload.Pow256(4) }

  /** The two values of a frame. */
  function Values(v0: nat, v1: nat): (data: Bytes)
    ensures |data| == 8
  {
    Payload.LittleEndian(v0, 4) + Payload.LittleEndian(v1, 4)
  }

  /** `build_can_frame`. */
  method BuildCanFrame(frame: array<nat>, id: nat, v0: nat, v1: nat)
    requires frame.Length == FRAME_SIZE
    modifies frame
    ensures frame[..] == Frame(id, Values(v0, v1))
  {
    frame[0] := 8;
    frame[1] := id / 0x100_0000 % 256;
    frame[2] := id / 0x1_0000 % 256;
    frame[3] := id / 0x100 % 256;
    frame[4] := id % 256;
    Payload.CopyInto(frame, 5, Payload.LittleEndian(v0, 4));
    Payload.CopyInto(frame, 9, Payload.LittleEndian(v1, 4));
  }

  // ---------------------------------------------------------------------------------------
  // The reader.

  /** The part of ImuStageData that comes from the frames. */
  datatype Stage = Stage(accX: nat, accY: nat, accZ: nat, gyroX: nat, gyroY: nat, gyroZ: nat)

  datatype Publication = Publication(sequence: nat, stage: Stage)

  /** `published` is what went to the staging buffer so far. */
  datatype Reader = Reader(count: nat, stage: Stage, sequence: nat, published: seq<Publication>)

  const Start: Reader := Reader(0, Stage(0, 0, 0, 0, 0, 0), 0, [])

  /** The switch on the offset. */
  function Store(stage: Stage, offset: nat, f0: nat, f1: nat): Stage {
    match offset
    case 0 => stage.(accX := f0, accY := f1)
    case 1 => stage.(accZ := f0, gyroX := f1)
    case 2 => stage.(gyroY := f0, gyroZ := f1)
    case _ => stage
  }

  /** What one frame within the range of identifiers does. */
  function Accept(r: Reader, offset: nat, f0: nat, f1: nat): Reader {
    var count := (if offset == 0 then 0 else r.count) + 1;
    var stage := Store(r.stage, offset, f0, f1);
    if count == FRAMES then
      Reader(0, stage, r.sequence + 1, r.published + [Publication(r.sequence + 1, stage)])
    else
      Reader(count, stage, r.sequence, r.published)
  }

  /** Long enough, and with an identifier of this sensor. */
  predicate Wanted(base: nat, d: Bytes) {
    |d| >= FRAME_SIZE && base <= Id(d) < base + FRAMES
  }

  function Receive(r: Reader, base: nat, d: Bytes): Reader {
    if Wanted(base, d) then
      Accept(r, Id(d) - base, Payload.FromLittleEndian(Data(d)[..4]), Payload.FromLittleEndian(Data(d)[4..]))
    else
      r
  }

  function Run(r: Reader, base: nat, stream: seq<Bytes>): Reader {
    if stream == [] then r else Receive(Run(r, base, stream[..|stream| - 1]), base, stream[|stream| - 1])
  }

  class ImuReader {
    const base: nat
    var frameCount: nat
    var accumulator: Stage
    var sequence: nat
    var published: seq<Publication>

    ghost function State(): Reader
      reads this
    {
      Reader(frameCount, accumulator, sequence, published)
    }

    constructor (base: nat)
      ensures this.base == base && State() == Start
      ensures frameCount == 0 && sequence == 0 && published == [] && accumulator == Stage(0, 0, 0, 0, 0, 0)
    {
      this.base := base;
      frameCount, sequence, published, accumulator := 0, 0, [], Stage(0, 0, 0, 0, 0, 0);
    }

    /** What `recvfrom` handed over; it cuts off a longer datagram. */
    method OnDatagram(d: Bytes)
      modifies this
      ensures State() == Receive(old(State()), base, d)
    {
      if |d| < FRAME_SIZE { return; }
      var canId := Id(d);
      if canId < base || canId >= base + FRAMES { return; }
      var offset := canId - base;
      var f0 := Payload.FromLittleEndian(Data(d)[..4]);
      var f1 := Payload.FromLittleEndian(Data(d)[4..]);
      if offset == 0 { frameCount := 0; }
      accumulator := Store(accumulator, offset, f0, f1);
      frameCount := frameCount + 1;
      if frameCount == FRAMES {
        sequence := sequence + 1;
        published := published + [Publication(sequence, accumulator)];
        frameCount := 0;
      }
    }

    /** The loop over everything that has arrived. */
    method Drain(stream: seq<Bytes>)
      modifies this
      ensures State() == Run(old(State()), base, stream)
    {
      for i := 0 to |stream|
        invariant State() == Run(old(State()), base, stream[..i])
      {
        assert stream[..i + 1][..i] == stream[..i];
        OnDatagram(stream[i]);
      }
      assert stream[..|stream|] == stream;
    }
  }

  /** A frame reads back as the identifier and the two values it was built from. */
  lemma {:induction false} FrameRoundTrip(id: nat, v0: nat, v1: nat)
    requires id < 0x1_0000_0000 && v0 < Payload.Pow256(4) && v1 < Payload.Pow256(4)
    ensures var d := Frame(id, Values(v0, v1));
            && |d| == FRAME_SIZE && Id(d) == id
            && Payload.FromLittleEndian(Data(d)[..4]) == v0 && Payload.FromLittleEndian(Data(d)[4..]) == v1
  {
    FrameParts(id, Values(v0, v1));
    assert Values(v0, v1)[..4] == Payload.LittleEndian(v0, 4) && Values(v0, v1)[4..] == Payload.LittleEndian(v1, 4);
    Payload.IntegerRoundTrip(v0, 4);
    Payload.IntegerRoundTrip(v1, 4);
  }

  // ---------------------------------------------------------------------------------------
  // Streams with loss.

  /** One cycle of the simulator and which of its frames get through. */
  datatype Cycle = Cycle(sample: Sample, got: seq<bool>)

  predicate WellFormed(c: Cycle) { |c.got| == FRAMES && Floats(c.sample) }

  predicate AllWellFormed(cycles: seq<Cycle>) { forall i :: 0 <= i < |cycles| ==> WellFormed(cycles[i]) }

  /** How many of the first `k` frames get through. */
  function Got(c: Cycle, k: nat): (n: nat)
    requires WellFormed(c) && k <= FRAMES
    ensures n <= k
  {
    if k == 0 then 0 else Got(c, k - 1) + if c.got[k - 1] then 1 else 0
  }

  predicate Complete(c: Cycle)
    requires WellFormed(c)
  {
    forall f :: 0 <= f < FRAMES ==> c.got[f]
  }

  /** Frame `f` of a cycle. */
  function Sent(base: nat, s: Sample, f: nat): Bytes
    requires f < FRAMES
  {
    Frame(base + f, Values(Pack(s)[2 * f], Pack(s)[2 * f + 1]))
  }

  lemma {:induction false} SentReceived(r: Reader, base: nat, s: Sample, f: nat)
    requires Floats(s) && f < FRAMES && base + FRAMES <= 0x1_0000_0000
    ensures Receive(r, base, Sent(base, s, f)) == Accept(r, f, Pack(s)[2 * f], Pack(s)[2 * f + 1])
  {
    FrameRoundTrip(base + f, Pack(s)[2 * f], Pack(s)[2 * f + 1]);
  }

  /** What is in which frame. */
  lemma {:induction false} FrameSlots(base: nat, s: Sample, f: nat)
    requires Floats(s) && f < FRAMES && base + FRAMES <= 0x1_0000_0000
    ensures var d := Sent(base, s, f);
            var v0, v1 := Payload.FromLittleEndian(Data(d)[..4]), Payload.FromLittleEndian(Data(d)[4..]);
            && d[0] == 8 && Id(d) == base + f
            && (f == 0 ==> v0 == s.accX && v1 == s.accY) && (f == 1 ==> v0 == s.accZ && v1 == s.gyroX)
            && (f == 2 ==> v0 == s.gyroY && v1 == s.gyroZ) && (f == 3 ==> v0 == s.quatW && v1 == s.quatX)
            && (f == 4 ==> v0 == s.quatY && v1 == s.quatZ)
  {
    FrameRoundTrip(base + f, Pack(s)[2 * f], Pack(s)[2 * f + 1]);
  }

  /** The datagrams of the first `k` frames of a cycle. */
  function Arrivals(base: nat, c: Cycle, k: nat): seq<Bytes>
    requires WellFormed(c) && k <= FRAMES
  {
    if k == 0 then []
    else if c.got[k - 1] then
      Arrivals(base, c, k - 1) + [Sent(base, c.sample, k - 1)]
    else
      Arrivals(base, c, k - 1)
  }

  function Stream(base: nat, cycles: seq<Cycle>): seq<Bytes>
    requires AllWellFormed(cycles)
  {
    if cycles == [] then []
    else Stream(base, cycles[..|cycles| - 1]) + Arrivals(base, cycles[|cycles| - 1], FRAMES)
  }

  /** The sending loop of one cycle. */
  method SendCycle(base: nat, c: Cycle) returns (sent: seq<Bytes>)
    requires WellFormed(c)
    ensures sent == Arrivals(base, c, FRAMES)
  {
    sent := [];
    for f: nat := 0 to FRAMES
      invariant sent == Arrivals(base, c, f)
    {
      var frame := new nat[FRAME_SIZE];
      BuildCanFrame(frame, base + f, Pack(c.sample)[2 * f], Pack(c.sample)[2 * f + 1]);
      assert frame[..] == Sent(base, c.sample, f);
      if c.got[f] { sent := sent + [frame[..]]; }
    }
  }

  function Measured(s: Sample): Stage { Stage(s.accX, s.accY, s.accZ, s.gyroX, s.gyroY, s.gyroZ) }

  /** What should be published: the complete cycles, in order, numbered from one. */
  function Expected(cycles: seq<Cycle>): seq<Publication>
    requires AllWellFormed(cycles)
  {
    if cycles == [] then []
    else
      var before := Expected(cycles[..|cycles| - 1]);
      var last := cycles[|cycles| - 1];
      if Complete(last) then before + [Publication(|before| + 1, Measured(last.sample))] else before
  }

  /** How many frames got through since a cycle last began with its first frame, that one
      included, or since the last complete cycle. */
  function Leftover(cycles: seq<Cycle>): nat
    requires AllWellFormed(cycles)
  {
    if cycles == [] then 0
    else
      var last := cycles[|cycles| - 1];
      if Complete(last) then 0
      else if last.got[0] then Got(last, FRAMES)
      else Leftover(cycles[..|cycles| - 1]) + Got(last, FRAMES)
  }

  /** Cycle `k` lacks its first frame, and with it the count left over by earlier cycles fills up. */
  predicate FillsUp(cycles: seq<Cycle>, k: nat)
    requires AllWellFormed(cycles) && k < |cycles|
  {
    !cycles[k].got[0] && Leftover(cycles[..k + 1]) >= FRAMES
  }

  ghost predicate NeverFilledUp(cycles: seq<Cycle>)
    requires AllWellFormed(cycles)
  {
    forall k :: 0 <= k < |cycles| ==> !FillsUp(cycles, k)
  }

  lemma {:induction false} RunConcat(r: Reader, base: nat, a: seq<Bytes>, b: seq<Bytes>)
    ensures Run(r, base, a + b) == Run(Run(r, base, a), base, b)
    decreases |b|
  {
    if b == [] {
      assert a + b == a;
    } else {
      var n := |b| - 1;
      assert (a + b)[..|a + b| - 1] == a + b[..n];
      RunConcat(r, base, a, b[..n]);
    }
  }

  /** The cycle as seen by the reader, without the wire. */
  function Steps(r: Reader, c: Cycle, k: nat): Reader
    requires WellFormed(c) && k <= FRAMES
  {
    if k == 0 then r
    else if c.got[k - 1] then
      Accept(Steps(r, c, k - 1), k - 1, Pack(c.sample)[2 * (k - 1)], Pack(c.sample)[2 * (k - 1) + 1])
    else
      Steps(r, c, k - 1)
  }

  lemma {:induction false} RunArrivals(r: Reader, base: nat, c: Cycle, k: nat)
    requires WellFormed(c) && k <= FRAMES && base + FRAMES <= 0x1_0000_0000
    ensures Run(r, base, Arrivals(base, c, k)) == Steps(r, c, k)
  {
    if k > 0 {
      RunArrivals(r, base, c, k - 1);
      if c.got[k - 1] {
        var before, d := Arrivals(base, c, k - 1), Sent(base, c.sample, k - 1);
        SentReceived(Steps(r, c, k - 1), base, c.sample, k - 1);
        assert (before + [d])[..|before + [d]| - 1] == before;
      }
    }
  }

  /** The stage holds the values of the first `k` frames. */
  predicate Holds(stage: Stage, s: Sample, k: nat) {
    && (k > 0 ==> stage.accX == s.accX && stage.accY == s.accY)
    && (k > 1 ==> stage.accZ == s.accZ && stage.gyroX == s.gyroX)
    && (k > 2 ==> stage.gyroY == s.gyroY && stage.gyroZ == s.gyroZ)
  }

  lemma {:induction false} GotAll(c: Cycle, k: nat)
    requires WellFormed(c) && k <= FRAMES
    ensures Got(c, k) == k <==> forall f :: 0 <= f < k ==> c.got[f]
  {
    if k > 0 {
      GotAll(c, k - 1);
    }
  }

  /** A cycle whose first frame arrives counts its own frames only. */
  lemma {:induction false} Started(r: Reader, c: Cycle, k: nat)
    requires WellFormed(c) && c.got[0] && 1 <= k <= FRAMES
    ensures var s := Steps(r, c, k);
            && (Got(c, k) == k ==> Holds(s.stage, c.sample, k))
            && if Got(c, k) == FRAMES then
                 && s.count == 0 && s.sequence == r.sequence + 1
                 && s.published == r.published + [Publication(r.sequence + 1, Measured(c.sample))]
               else
                 s.count == Got(c, k) && s.sequence == r.sequence && s.published == r.published
  {
    if k == 1 {
      assert Steps(r, c, 0) == r && Got(c, 0) == 0;
    } else {
      Started(r, c, k - 1);
    }
  }

  /** A cycle without its first frame goes on counting, and publishes if the count fills up. */
  lemma {:induction false} Unstarted(r: Reader, c: Cycle, k: nat)
    requires WellFormed(c) && !c.got[0] && k <= FRAMES && r.count < FRAMES
    ensures var s, n := Steps(r, c, k), r.count + Got(c, k);
            if n < FRAMES then
              s.count == n && s.sequence == r.sequence && s.published == r.published
            else
              s.count == n - FRAMES && s.sequence == r.sequence + 1 && |s.published| == |r.published| + 1
    ensures k > 0 ==> Got(c, k) < k
  {
    if k > 0 {
      Unstarted(r, c, k - 1);
    }
  }

  lemma {:induction false} RunStream(base: nat, cycles: seq<Cycle>)
    requires AllWellFormed(cycles) && cycles != [] && base + FRAMES <= 0x1_0000_0000
    ensures Run(Start, base, Stream(base, cycles)) ==
            Steps(Run(Start, base, Stream(base, cycles[..|cycles| - 1])), cycles[|cycles| - 1], FRAMES)
  {
    var before, last := cycles[..|cycles| - 1], cycles[|cycles| - 1];
    RunConcat(Start, base, Stream(base, before), Arrivals(base, last, FRAMES));
    RunArrivals(Run(Start, base, Stream(base, before)), base, last, FRAMES);
  }

  /** Where the reader stands after a stream. */
  ghost predicate Tracks(r: Reader, cycles: seq<Cycle>)
    requires AllWellFormed(cycles)
  {
    && r.count < FRAMES && r.sequence == |r.published|
    && (NeverFilledUp(cycles) ==> r.published == Expected(cycles) && r.count == Leftover(cycles))
    && (!NeverFilledUp(cycles) ==> |r.published| > |Expected(cycles)|)
  }

  lemma {:induction false} FillsUpEarlier(cycles: seq<Cycle>, k: nat)
    requires AllWellFormed(cycles) && k < |cycles| - 1
    ensures FillsUp(cycles[..|cycles| - 1], k) == FillsUp(cycles, k)
  {
    assert cycles[..|cycles| - 1][..k + 1] == cycles[..k + 1];
  }

  lemma {:induction false} NeverFilledUpSnoc(cycles: seq<Cycle>)
    requires AllWellFormed(cycles) && cycles != []
    ensures NeverFilledUp(cycles) <==>
            && NeverFilledUp(cycles[..|cycles| - 1])
            && (cycles[|cycles| - 1].got[0] || Leftover(cycles) < FRAMES)
  {
    var n := |cycles| - 1;
    assert cycles[..n + 1] == cycles;
    assert FillsUp(cycles, n) <==> !cycles[n].got[0] && Leftover(cycles) >= FRAMES;
    forall k | 0 <= k < n
      ensures FillsUp(cycles[..n], k) == FillsUp(cycles, k)
    {
      FillsUpEarlier(cycles, k);
    }
  }

  lemma {:induction false} StreamTracked(base: nat, cycles: seq<Cycle>)
    requires AllWellFormed(cycles) && base + FRAMES <= 0x1_0000_0000
    ensures Tracks(Run(Start, base, Stream(base, cycles)), cycles)
    decreases |cycles|
  {
    if cycles != [] {
      var before, last := cycles[..|cycles| - 1], cycles[|cycles| - 1];
      var r := Run(Start, base, Stream(base, before));
      StreamTracked(base, before);
      RunStream(base, cycles);
      NeverFilledUpSnoc(cycles);
      GotAll(last, FRAMES);
      if last.got[0] {
        Started(r, last, FRAMES);
      } else {
        Unstarted(r, last, FRAMES);
      }
    }
  }

  /** Exactly the complete cycles are published, each with its own values, numbered from one,
      if and only if no cycle without its first frame fills up a count left over before it. */
  lemma {:induction false} ExactlyCompleteCycles(base: nat, cycles: seq<Cycle>)
    requires AllWellFormed(cycles) && base + FRAMES <= 0x1_0000_0000
    ensures Run(Start, base, Stream(base, cycles)).published == Expected(cycles) <==> NeverFilledUp(cycles)
  {
    StreamTracked(base, cycles);
  }

  /** In particular whenever only frames other than the first of a cycle are lost. */
  lemma {:induction false} ExactWhenFirstFramesArrive(base: nat, cycles: seq<Cycle>)
    requires AllWellFormed(cycles) && base + FRAMES <= 0x1_0000_0000
    requires forall k :: 0 <= k < |cycles| ==> cycles[k].got[0]
    ensures Run(Start, base, Stream(base, cycles)).published == Expected(cycles)
  {
    StreamTracked(base, cycles);
  }

  lemma {:induction false} FourthCompleted(r: Reader, d: Cycle)
    requires r.count == 4 && WellFormed(d) && d.got == [false, true, true, true, true]
    ensures var stage := r.stage.(accZ := d.sample.accZ, gyroX := d.sample.gyroX);
            Steps(r, d, 5).published == r.published + [Publication(r.sequence + 1, stage)]
  {
    assert Steps(r, d, 1) == r;
    assert Steps(r, d, 2) == Accept(r, 1, d.sample.accZ, d.sample.gyroX);
    assert Steps(r, d, 3).count == 1 && Steps(r, d, 4).count == 2;
  }

  /** Two cycles, the first without its last frame and the second without its first: one
      measurement is published, with values of both, and neither is complete. */
  lemma {:induction false} MixedPublication(base: nat, a: Sample, b: Sample)
    requires Floats(a) && Floats(b) && base + FRAMES <= 0x1_0000_0000
    ensures var cycles := [Cycle(a, [true, true, true, true, false]), Cycle(b, [false, true, true, true, true])];
            && Expected(cycles) == []
            && Run(Start, base, Stream(base, cycles)).published ==
               [Publication(1, Stage(a.accX, a.accY, b.accZ, b.gyroX, a.gyroY, a.gyroZ))]
  {
    var c, d := Cycle(a, [true, true, true, true, false]), Cycle(b, [false, true, true, true, true]);
    var cycles := [c, d];
    assert cycles[..1] == [c] && [c][..0] == [];
    assert !c.got[4] && !d.got[0];
    assert Expected(cycles[..1]) == [];
    RunStream(base, [c]);
    RunStream(base, cycles);
    var r := Steps(Start, c, 5);
    Started(Start, c, 4);
    assert Got(c, 4) == 4 by { GotAll(c, 4); }
    assert r == Steps(Start, c, 4);
    FourthCompleted(r, d);
  }

  // ---------------------------------------------------------------------------------------
  // Other traffic on the socket.

  /** Thirteen bytes at least, with one of the five identifiers from the base on. */
  predicate OfSensor(base: nat, d: Bytes) {
    |d| >= 13 &&
    var id := ((d[1] * 256 + d[2]) * 256 + d[3]) * 256 + d[4];
    id == base || id == base + 1 || id == base + 2 || id == base + 3 || id == base + 4
  }

  function Filter(base: nat, stream: seq<Bytes>): seq<Bytes> {
    if stream == [] then []
    else
      var rest, d := Filter(base, stream[..|stream| - 1]), stream[|stream| - 1];
      if OfSensor(base, d) then rest + [d] else rest
  }

  /** Short datagrams and foreign identifiers change nothing, wherever they come. */
  lemma {:induction false} OtherTrafficIgnored(r: Reader, base: nat, stream: seq<Bytes>)
    ensures Run(r, base, stream) == Run(r, base, Filter(base, stream))
    decreases |stream|
  {
    if stream != [] {
      var d := stream[|stream| - 1];
      var rest := Filter(base, stream[..|stream| - 1]);
      OtherTrafficIgnored(r, base, stream[..|stream| - 1]);
      assert Wanted(base, d) == OfSensor(base, d);
      assert (rest + [d])[..|rest + [d]| - 1] == rest;
    }
  }
}
