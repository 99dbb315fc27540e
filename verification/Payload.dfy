/** The MQTT payload of a batch (include/mercury_shm.h, lib/logger/Logger.cpp): a packed
    little-endian header, the sample count, four bytes of padding, and the valid pairs. */
module Payload {
  import opened Wrappers

  const PAYLOAD_MAGIC: nat := 0x4D52
  const PAYLOAD_VERSION: nat := 1
  const SENSOR_BATCH: nat := 4
  const BATCH_SIZE: nat := 4
  const HEADER_SIZE: nat := 32
  /** sizeof(SensorData) + sizeof(Command). */
  const PAIR_SIZE: nat := 1016 + 528

  type Bytes = seq<nat>

  /** A sensor and command pair, as the bytes it occupies. */
  type Pair = Bytes

  datatype Header = Header(magic: nat, version: nat, recordType: nat, robotId: nat,
                           payloadSize: nat, reserved: nat, sequence: nat, timestamp: nat)

  /** `samples` has BATCH_SIZE entries; those from `count` on are left over from earlier. */
  datatype Batch = Batch(header: Header, count: nat, samples: seq<Pair>)

  function Pow256(k: nat): nat { if k == 0 then 1 else 256 * Pow256(k - 1) }

  /** The `k` low bytes of `n`, least significant first: what memcpy of a k-byte integer copies. */
  function LittleEndian(n: nat, k: nat): (b: Bytes)
    ensures |b| == k
  {
    if k == 0 then [] else [n % 256] + LittleEndian(n / 256, k - 1)
  }

  function FromLittleEndian(b: Bytes): nat {
    if b == [] then 0 else b[0] + 256 * FromLittleEndian(b[1..])
  }

  lemma {:induction false} IntegerRoundTrip(n: nat, k: nat)
    requires n < Pow256(k)
    ensures FromLittleEndian(LittleEndian(n, k)) == n
    decreases k
  {
    if k > 0 {
      assert LittleEndian(n, k)[1..] == LittleEndian(n / 256, k - 1);
      IntegerRoundTrip(n / 256, k - 1);
    }
  }

  predicate Fits(h: Header) {
    && h.magic < Pow256(2) && h.version < Pow256(1) && h.recordType < Pow256(1) && h.robotId < Pow256(4)
    && h.payloadSize < Pow256(4) && h.reserved < Pow256(4) && h.sequence < Pow256(8) && h.timestamp < Pow256(8)
  }

  function EncodeHeader(h: Header): (b: Bytes)
    ensures |b| == HEADER_SIZE
  {
    LittleEndian(h.magic, 2) + LittleEndian(h.version, 1) + LittleEndian(h.recordType, 1) +
    LittleEndian(h.robotId, 4) + LittleEndian(h.payloadSize, 4) + LittleEndian(h.reserved, 4) +
    LittleEndian(h.sequence, 8) + LittleEndian(h.timestamp, 8)
  }

  function DecodeHeader(b: Bytes): Header
    requires |b| == HEADER_SIZE
  {
    Header(FromLittleEndian(b[0..2]), FromLittleEndian(b[2..3]), FromLittleEndian(b[3..4]), FromLittleEndian(b[4..8]),
           FromLittleEndian(b[8..12]), FromLittleEndian(b[12..16]), FromLittleEndian(b[16..24]),
           FromLittleEndian(b[24..32]))
  }

  /** Where the fields are, least significant byte first. */
  lemma {:induction false} HeaderLayout(h: Header)
    ensures var b := EncodeHeader(h);
            && b[0..2] == LittleEndian(h.magic, 2) && b[2..3] == LittleEndian(h.version, 1)
            && b[3..4] == LittleEndian(h.recordType, 1) && b[4..8] == LittleEndian(h.robotId, 4)
            && b[8..12] == LittleEndian(h.payloadSize, 4) && b[12..16] == LittleEndian(h.reserved, 4)
            && b[16..24] == LittleEndian(h.sequence, 8) && b[24..32] == LittleEndian(h.timestamp, 8)
  {
  }

  /** The count follows the header, then four zero bytes. */
  lemma {:induction false} BatchLayout(b: Batch)
    requires b.count <= |b.samples|
    ensures var p := Serialize(b);
            |p| >= 40 && p[..32] == EncodeHeader(b.header) && p[32..36] == LittleEndian(b.count, 4) && p[36..40] == [0, 0, 0, 0]
  {
    assert LittleEndian(0, 4) == [0, 0, 0, 0];
  }

  lemma {:induction false} HeaderRoundTrip(h: Header)
    requires Fits(h)
    ensures DecodeHeader(EncodeHeader(h)) == h
  {
    var b := EncodeHeader(h);
    assert b[0..2] == LittleEndian(h.magic, 2);
    assert b[2..3] == LittleEndian(h.version, 1);
    assert b[3..4] == LittleEndian(h.recordType, 1);
    assert b[4..8] == LittleEndian(h.robotId, 4);
    assert b[8..12] == LittleEndian(h.payloadSize, 4);
    assert b[12..16] == LittleEndian(h.reserved, 4);
    assert b[16..24] == LittleEndian(h.sequence, 8);
    assert b[24..32] == LittleEndian(h.timestamp, 8);
    IntegerRoundTrip(h.magic, 2);
    IntegerRoundTrip(h.version, 1);
    IntegerRoundTrip(h.recordType, 1);
    IntegerRoundTrip(h.robotId, 4);
    IntegerRoundTrip(h.payloadSize, 4);
    IntegerRoundTrip(h.reserved, 4);
    IntegerRoundTrip(h.sequence, 8);
    IntegerRoundTrip(h.timestamp, 8);
  }

  function Concat(pairs: seq<Pair>): Bytes
    decreases |pairs|
  {
    if pairs == [] then [] else pairs[0] + Concat(pairs[1..])
  }

  ghost predicate Sized(pairs: seq<Pair>) { forall i :: 0 <= i < |pairs| ==> |pairs[i]| == PAIR_SIZE }

  lemma {:induction false} ConcatLength(pairs: seq<Pair>)
    requires Sized(pairs)
    ensures |Concat(pairs)| == |pairs| * PAIR_SIZE
    decreases |pairs|
  {
    if pairs != [] {
      ConcatLength(pairs[1..]);
    }
  }

  /** Cut into pairs; anything left over at the end is dropped. */
  function Split(b: Bytes): seq<Pair>
    decreases |b|
  {
    if |b| < PAIR_SIZE then [] else [b[..PAIR_SIZE]] + Split(b[PAIR_SIZE..])
  }

  lemma {:induction false} SplitConcat(pairs: seq<Pair>)
    requires Sized(pairs)
    ensures Split(Concat(pairs)) == pairs
    decreases |pairs|
  {
    if pairs != [] {
      SplitConcat(pairs[1..]);
      assert Concat(pairs)[..PAIR_SIZE] == pairs[0];
      assert Concat(pairs)[PAIR_SIZE..] == Concat(pairs[1..]);
    }
  }

  ghost predicate WellFormed(b: Batch) {
    && |b.samples| == BATCH_SIZE && b.count <= BATCH_SIZE && Sized(b.samples) && Fits(b.header)
    && b.header.payloadSize == 8 + b.count * PAIR_SIZE
  }

  function Serialize(b: Batch): Bytes
    requires b.count <= |b.samples|
  {
    EncodeHeader(b.header) + LittleEndian(b.count, 4) + LittleEndian(0, 4) + Concat(b.samples[..b.count])
  }

  /** What a receiver makes of a payload, checking it against its own header. */
  function Decode(payload: Bytes): Option<(Header, seq<Pair>)> {
    if |payload| < HEADER_SIZE + 8 then None
    else
      var h := DecodeHeader(payload[..HEADER_SIZE]);
      var count := FromLittleEndian(payload[HEADER_SIZE..HEADER_SIZE + 4]);
      var pairs := Split(payload[HEADER_SIZE + 8..]);
      if h.magic != PAYLOAD_MAGIC || h.version != PAYLOAD_VERSION || h.recordType != SENSOR_BATCH
         || |payload| != HEADER_SIZE + h.payloadSize || |pairs| != count
      then None
      else Some((h, pairs))
  }

  /** A serialized batch is 32 + payload_size bytes and decodes to its header and exactly its
      valid pairs: nothing left over in the sample array gets out. */
  lemma {:induction false} BatchRoundTrip(b: Batch)
    requires WellFormed(b) && b.header.magic == PAYLOAD_MAGIC && b.header.version == PAYLOAD_VERSION
    requires b.header.recordType == SENSOR_BATCH
    ensures |Serialize(b)| == HEADER_SIZE + b.header.payloadSize
    ensures Decode(Serialize(b)) == Some((b.header, b.samples[..b.count]))
  {
    var valid, payload := b.samples[..b.count], Serialize(b);
    ConcatLength(valid);
    SplitConcat(valid);
    HeaderRoundTrip(b.header);
    assert b.count < Pow256(4) by { assert Pow256(4) >= Pow256(1) == 256; }
    IntegerRoundTrip(b.count, 4);
    assert payload[..HEADER_SIZE] == EncodeHeader(b.header);
    assert payload[HEADER_SIZE..HEADER_SIZE + 4] == LittleEndian(b.count, 4);
    assert payload[HEADER_SIZE + 8..] == Concat(valid);
  }

  /** `memcpy` into the buffer at `at`. */
  method CopyInto(buf: array<nat>, at: nat, bytes: Bytes)
    requires at + |bytes| <= buf.Length
    modifies buf
    ensures buf[..] == old(buf[..at]) + bytes + old(buf[at + |bytes|..])
  {
    for i := 0 to |bytes|
      invariant buf[..at] == old(buf[..at]) && buf[at..at + i] == bytes[..i]
      invariant buf[at + i..] == old(buf[at + i..])
    {
      buf[at + i] := bytes[i];
      assert buf[at..at + i + 1] == buf[at..at + i] + [bytes[i]];
      assert buf[at + i + 1..] == old(buf[at + i..])[1..];
    }
    assert buf[..] == buf[..at] + buf[at..at + |bytes|] + buf[at + |bytes|..];
  }

  method SerializeBatch(b: Batch) returns (buf: array<nat>)
    requires b.count <= |b.samples| && Sized(b.samples)
    ensures fresh(buf) && buf[..] == Serialize(b)
  {
    var valid := b.samples[..b.count];
    ConcatLength(valid);
    var pairsSize := b.count * PAIR_SIZE;
    buf := new nat[HEADER_SIZE + 8 + pairsSize];
    var dst := 0;
    CopyInto(buf, dst, EncodeHeader(b.header));
    dst := dst + HEADER_SIZE;
    CopyInto(buf, dst, LittleEndian(b.count, 4));
    dst := dst + 4;
    CopyInto(buf, dst, LittleEndian(0, 4));
    dst := dst + 4;
    CopyInto(buf, dst, Concat(valid));
  }
}
