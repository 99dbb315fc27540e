/** CAN frames over UDP, as all simulators and readers use them: thirteen bytes, of which the
    first is the data length, the next four the identifier, big-endian, and the rest the data. */
module CanFrame {
  type Bytes = seq<nat>

  const FRAME_SIZE: nat := 13

  /** `set_can_id`. */
  function BigEndian32(n: nat): (b: Bytes)
    ensures |b| == 4
  {
    [n / 0x100_0000 % 256, n / 0x1_0000 % 256, n / 0x100 % 256, n % 256]
  }

  /** `extract_can_id`, and the byte swap of the IMU reader. */
  function FromBigEndian32(b: Bytes): nat
    requires |b| == 4
  {
    ((b[0] * 256 + b[1]) * 256 + b[2]) * 256 + b[3]
  }

  lemma {:induction false} BigEndianRoundTrip(n: nat)
    requires n < 0x1_0000_0000
    ensures FromBigEndian32(BigEndian32(n)) == n
  {
    assert n == n / 0x100 * 0x100 + n % 256;
    assert n / 0x100 == n / 0x1_0000 * 0x100 + n / 0x100 % 256;
    assert n / 0x1_0000 == n / 0x100_0000 * 0x100 + n / 0x1_0000 % 256;
  }

  function Frame(id: nat, data: Bytes): Bytes { [8] + BigEndian32(id) + data }

  function Id(frame: Bytes): nat
    requires |frame| >= FRAME_SIZE
  {
    FromBigEndian32(frame[1..5])
  }

  function Data(frame: Bytes): (data: Bytes)
    requires |frame| >= FRAME_SIZE
    ensures |data| == 8
  {
    frame[5..13]
  }

  lemma {:induction false} FrameParts(id: nat, data: Bytes)
    requires id < 0x1_0000_0000 && |data| == 8
    ensures Frame(id, data)[0] == 8 && |Frame(id, data)| == FRAME_SIZE && Id(Frame(id, data)) == id && Data(Frame(id, data)) == data
  {
    assert Frame(id, data)[1..5] == BigEndian32(id);
    BigEndianRoundTrip(id);
  }
}
