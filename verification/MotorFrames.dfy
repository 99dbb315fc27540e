/** The data bytes of the Damiao motor protocol (lib/motor/Motor.cpp, tools/DamiaoSimulator.cpp):
    the MIT command frame and the feedback frame.  A shift by n bits is a division or
    multiplication by 2^n, a mask a remainder, and the union of separate bits a sum. */
module MotorFrames {
  import Bits
  import opened CanFrame

  predicate AreBytes(b: Bytes) { forall i :: 0 <= i < |b| ==> b[i] < 256 }

  /** The five fields of a MIT command: 16 bits of position and four times 12 bits. */
  datatype MitFields = MitFields(q: nat, dq: nat, kp: nat, kd: nat, tau: nat)

  predicate Fits(f: MitFields) {
    f.q < 0x1_0000 && f.dq < 0x1000 && f.kp < 0x1000 && f.kd < 0x1000 && f.tau < 0x1000
  }

  /** The bytes set by `setMitControl`. */
  function Pack(f: MitFields): (b: Bytes)
    ensures |b| == 8
  {
    [f.q / 256 % 256, f.q % 256, f.dq / 16 % 256, f.dq % 16 * 16 + f.kp / 256 % 16,
     f.kp % 256, f.kd / 16 % 256, f.kd % 16 * 16 + f.tau / 256 % 16, f.tau % 256]
  }

  /** The fields read by `handleMitControl`. */
  function Unpack(b: Bytes): MitFields
    requires |b| == 8
  {
    MitFields(b[0] * 256 + b[1], b[2] * 16 + b[3] / 16, b[3] % 16 * 256 + b[4],
              b[5] * 16 + b[6] / 16, b[6] % 16 * 256 + b[7])
  }

  /** Packing is one to one on the fields ... */
  lemma {:induction false} UnpackPack(f: MitFields)
    requires Fits(f)
    ensures AreBytes(Pack(f)) && Unpack(Pack(f)) == f
  {
    Word(f.q);
    TwoTwelves(f.dq, f.kp);
    TwoTwelves(f.kd, f.tau);
  }

  lemma {:induction false} Nibbles(high: nat, low: nat)
    requires high < 16 && low < 16
    ensures (high * 16 + low) / 16 == high && (high * 16 + low) % 16 == low
  {
  }

  /** ... and reaches every frame of eight bytes. */
  lemma {:induction false} PackUnpack(b: Bytes)
    requires |b| == 8 && AreBytes(b)
    ensures Fits(Unpack(b)) && Pack(Unpack(b)) == b
  {
    Half(b[0], b[1]);
    Half(b[3] % 16, b[4]);
    Half(b[6] % 16, b[7]);
    Nibbles2(b[2], b[3]);
    Nibbles2(b[5], b[6]);
  }

  lemma {:induction false} Half(high: nat, low: nat)
    requires high < 256 && low < 256
    ensures (high * 256 + low) / 256 == high && (high * 256 + low) % 256 == low
  {
  }

  lemma {:induction false} Nibbles2(high: nat, byte: nat)
    requires high < 256 && byte < 256
    ensures (high * 16 + byte / 16) / 16 == high && (high * 16 + byte / 16) % 16 == byte / 16
  {
  }

  /** Seven bytes of ones, which the simulator takes for a control command. */
  predicate LooksLikeControl(data: Bytes)
    requires |data| == 8
  {
    forall i :: 0 <= i < 7 ==> data[i] == 0xFF
  }

  /** The MIT commands it mistakes: all fields at their greatest, the torque in its top sixteenth. */
  lemma {:induction false} MitLooksLikeControl(f: MitFields)
    requires Fits(f)
    ensures LooksLikeControl(Pack(f)) <==> f.q == 0xFFFF && f.dq == 0xFFF && f.kp == 0xFFF && f.kd == 0xFFF && f.tau >= 0xF00
  {
    UnpackPack(f);
    var b := Pack(f);
    assert LooksLikeControl(b) <==>
           b[0] == 255 && b[1] == 255 && b[2] == 255 && b[3] == 255 && b[4] == 255 && b[5] == 255 && b[6] == 255;
    assert b[3] == 255 <==> f.dq % 16 == 15 && f.kp / 256 == 15;
    assert b[6] == 255 <==> f.kd % 16 == 15 && f.tau / 256 == 15;
  }

  // ---------------------------------------------------------------------------------------
  // Feedback.

  datatype Feedback = Feedback(canId: nat, status: nat, q: nat, dq: nat, tau: nat, mosTemp: nat, rotorTemp: nat)

  /** The two statuses that commands bring about. */
  const DISABLED: nat := 0
  const ENABLED: nat := 1

  predicate FeedbackFits(f: Feedback) {
    f.status < 16 && f.q < 0x1_0000 && f.dq < 0x1000 && f.tau < 0x1000 && f.mosTemp < 256 && f.rotorTemp < 256
  }

  /** Bitwise or. */
  function BitOr(a: nat, b: nat): nat {
    AndAtMost(a, b);
    a + b - Bits.BitAnd(a, b)
  }

  lemma {:induction false} AndAtMost(a: nat, b: nat)
    ensures Bits.BitAnd(a, b) <= a
    decreases a
  {
    if a > 0 {
      AndAtMost(a / 2, b / 2);
    }
  }

  /** The data bytes set by `buildFeedbackFrame`. */
  function FeedbackData(f: Feedback): (b: Bytes)
    ensures |b| == 8
  {
    [BitOr(f.canId % 256, f.status * 16 % 256), f.q / 256 % 256, f.q % 256, f.dq / 16 % 256,
     f.dq % 16 * 16 + f.tau / 256 % 16, f.tau % 256, f.mosTemp, f.rotorTemp]
  }

  datatype Report = Report(status: nat, q: nat, dq: nat, tau: nat, mosTemp: nat, rotorTemp: nat)

  /** The bit fields read by `parseMotorStateData`. */
  function ReadFeedback(b: Bytes): Report
    requires |b| == 8
  {
    Report(b[0] / 16 % 16, b[1] * 256 + b[2], b[3] * 16 + b[4] / 16, b[4] % 16 * 256 + b[5], b[6], b[7])
  }

  lemma {:induction false} AndShift(a: nat, b: nat)
    ensures Bits.BitAnd(a, 2 * b) == 2 * Bits.BitAnd(a / 2, b)
  {
    assert 2 * b / 2 == b && 2 * b % 2 == 0;
  }

  lemma {:induction false} AndShift2(a: nat, b: nat)
    ensures Bits.BitAnd(a, 4 * b) == 4 * Bits.BitAnd(a / 4, b)
  {
    AndShift(a, 2 * b);
    AndShift(a / 2, b);
    assert a / 2 / 2 == a / 4;
  }

  lemma {:induction false} AndShift4(a: nat, b: nat)
    ensures Bits.BitAnd(a, 16 * b) == 16 * Bits.BitAnd(a / 16, b)
  {
    AndShift2(a, 4 * b);
    AndShift2(a / 4, b);
    assert a / 4 / 4 == a / 16;
  }

  lemma {:induction false} AndOne(a: nat)
    ensures Bits.BitAnd(a, 1) == a % 2 && Bits.BitAnd(a, 0) == 0
  {
    Bits.MaskZero(a);
    Bits.MaskZero(a / 2);
  }

  lemma {:induction false} OrShift(a: nat, status: nat)
    ensures BitOr(a, 16 * status) == 16 * BitOr(a / 16, status) + a % 16
  {
    AndShift4(a, status);
    assert a == a / 16 * 16 + a % 16;
  }

  lemma {:induction false} OrOne(a: nat, status: nat)
    requires status <= 1
    ensures BitOr(a, status) == if a % 2 == 0 then a + status else a
  {
    AndOne(a);
  }

  lemma {:induction false} StatusNibble(a: nat, status: nat)
    requires a < 256 && status <= 1
    ensures BitOr(a, 16 * status) / 16 % 16 == BitOr(a / 16, status)
  {
    OrShift(a, status);
    HighNibble(a, status);
    UpperHalf(BitOr(a / 16, status), a % 16);
  }

  lemma {:induction false} HighNibble(a: nat, status: nat)
    requires a < 256 && status <= 1
    ensures BitOr(a / 16, status) < 16
  {
    OrOne(a / 16, status);
  }

  lemma {:induction false} SecondNibble(n: nat)
    ensures n % 256 / 16 == n / 16 % 16
  {
  }

  /** The upper half of the first byte is the status, merged with bits 4 to 7 of the identifier. */
  lemma {:induction false} StatusByte(canId: nat, status: nat)
    requires status <= 1
    ensures BitOr(canId % 256, status * 16 % 256) / 16 % 16 == BitOr(canId / 16 % 16, status)
  {
    assert status * 16 % 256 == 16 * status;
    SecondNibble(canId);
    StatusNibble(canId % 256, status);
  }

  lemma {:induction false} UpperHalf(high: nat, low: nat)
    requires high < 16 && low < 16
    ensures (16 * high + low) / 16 % 16 == high
  {
  }

  /** A status of a running motor reads back exactly when bits 4 to 7 of the identifier are
      clear or are that status. */
  lemma {:induction false} StatusReadsBack(canId: nat, status: nat)
    requires status <= 1
    ensures BitOr(canId % 256, status * 16 % 256) / 16 % 16 == status <==>
            canId / 16 % 16 == 0 || canId / 16 % 16 == status
  {
    StatusByte(canId, status);
    OrOne(canId / 16 % 16, status);
  }

  /** An instance: a disabled motor with identifier 16 does not read as disabled. */
  lemma {:induction false} StatusMisread(canId: nat)
    requires canId == 16
    ensures BitOr(canId % 256, DISABLED * 16 % 256) / 16 % 16 != DISABLED
  {
    StatusReadsBack(canId, DISABLED);
  }

  /** Everything else always reads back. */
  lemma {:induction false} FeedbackReadsBack(f: Feedback)
    requires FeedbackFits(f)
    ensures var r := ReadFeedback(FeedbackData(f));
            r.q == f.q && r.dq == f.dq && r.tau == f.tau && r.mosTemp == f.mosTemp && r.rotorTemp == f.rotorTemp
  {
    Word(f.q);
    TwoTwelves(f.dq, f.tau);
  }

  lemma {:induction false} Word(q: nat)
    requires q < 0x1_0000
    ensures q / 256 % 256 * 256 + q % 256 == q
  {
  }

  lemma {:induction false} TwoTwelves(a: nat, b: nat)
    requires a < 0x1000 && b < 0x1000
    ensures var middle := a % 16 * 16 + b / 256 % 16;
            && a / 16 % 256 * 16 + middle / 16 == a
            && middle % 16 * 256 + b % 256 == b
  {
    assert a / 16 < 256 && b / 256 < 16;
    Nibbles(a % 16, b / 256);
  }
}
