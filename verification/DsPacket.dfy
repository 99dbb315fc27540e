/** The driver-station packet, from tools/PackageGenerator.cpp to the decoders of
    lib/ds/FRCDriverStation.cpp.

    The decoders read the payload through `char`, whose sign is the platform's choice; it is a
    parameter here. */
module DsPacket {
  import Bits
  import opened Wrappers

  type Bytes = seq<nat>

  const JOYSTICK_POS: nat := 19
  const TAG_JOYSTICK: nat := 0x0C
  const TAG_DATE: nat := 0x0F
  const TAG_TIMEZONE: nat := 0x10
  const TAG_COMM_VERSION: nat := 1

  // ---------------------------------------------------------------------------------------
  // The generator.

  datatype Joystick = Joystick(axes: seq<real>, buttons: seq<bool>, hats: seq<int>)

  /** Within the arrays of the generator, axes between -1 and 1. */
  predicate WithinArrays(j: Joystick) {
    && |j.axes| <= 6 && |j.buttons| <= 16 && |j.hats| <= 4
    && forall i :: 0 <= i < |j.axes| ==> -1.0 <= j.axes[i] <= 1.0
  }

  /** `dsFloatToByte`. */
  function AxisByte(v: real): (b: nat)
    requires -1.0 <= v <= 1.0
    ensures b <= 255
  {
    ((v + 1.0) / 2.0 * 255.0).Floor
  }

  function AxisBytes(axes: seq<real>): (b: Bytes)
    requires forall i :: 0 <= i < |axes| ==> -1.0 <= axes[i] <= 1.0
    ensures |b| == |axes| && forall i :: 0 <= i < |axes| ==> b[i] == AxisByte(axes[i])
  {
    seq(|axes|, i requires 0 <= i < |axes| => AxisByte(axes[i]))
  }

  /** Button `j` is worth 2^j. */
  function Flags(buttons: seq<bool>): nat {
    if buttons == [] then 0 else (if buttons[0] then 1 else 0) + 2 * Flags(buttons[1..])
  }

  lemma {:induction false} FlagsSnoc(buttons: seq<bool>, pressed: bool)
    ensures Flags(buttons + [pressed]) == Flags(buttons) + if pressed then Bits.Pow2(|buttons|) else 0
    decreases |buttons|
  {
    if buttons != [] {
      assert (buttons + [pressed])[1..] == buttons[1..] + [pressed];
      FlagsSnoc(buttons[1..], pressed);
    }
  }

  lemma {:induction false} FlagsBound(buttons: seq<bool>, bits: nat)
    requires |buttons| <= bits
    ensures Flags(buttons) < Bits.Pow2(bits)
    decreases bits
  {
    if buttons != [] {
      FlagsBound(buttons[1..], bits - 1);
    }
  }

  lemma {:induction false} HalveThenDivide(a: nat, p: nat)
    requires p >= 1
    ensures a / (2 * p) == a / 2 / p
  {
    var q, r := a / 2 / p, a / 2 % p;
    assert a / 2 == q * p + r;
    assert a == q * (2 * p) + (2 * r + a % 2);
    Bits.ModUnique(a, 2 * p, q, 2 * r + a % 2);
  }

  /** Bit `j` of the mask tells whether button `j` is pressed. */
  lemma {:induction false} FlagBit(buttons: seq<bool>, j: nat)
    requires j < |buttons|
    ensures Flags(buttons) / Bits.Pow2(j) % 2 == 1 <==> buttons[j]
    decreases j
  {
    if j > 0 {
      assert Flags(buttons) / 2 == Flags(buttons[1..]);
      FlagBit(buttons[1..], j - 1);
      HalveThenDivide(Flags(buttons), Bits.Pow2(j - 1));
    }
  }

  function HatBytes(hats: seq<int>): (b: Bytes)
    ensures |b| == 2 * |hats|
  {
    if hats == [] then []
    else
      var hat := hats[|hats| - 1];
      HatBytes(hats[..|hats| - 1]) + [hat / 256 % 256, hat % 256]
  }

  lemma {:induction false} HatBytesAt(hats: seq<int>, i: nat)
    requires i < |hats|
    ensures HatBytes(hats)[2 * i] == hats[i] / 256 % 256 && HatBytes(hats)[2 * i + 1] == hats[i] % 256
    decreases |hats|
  {
    if i < |hats| - 1 {
      HatBytesAt(hats[..|hats| - 1], i);
    }
  }

  function RecordSize(j: Joystick): nat { 2 + (|j.buttons| + 1) + (|j.axes| + 1) + (2 * |j.hats| + 1) }

  function Record(j: Joystick): (b: Bytes)
    requires WithinArrays(j)
    ensures |b| == 7 + |j.axes| + 2 * |j.hats|
  {
    [RecordSize(j) % 256, TAG_JOYSTICK, |j.axes|] + AxisBytes(j.axes) +
    [|j.buttons|, Flags(j.buttons) / 256 % 256, Flags(j.buttons) % 256, |j.hats|] + HatBytes(j.hats)
  }

  predicate AllWithin(sticks: seq<Joystick>) { forall i :: 0 <= i < |sticks| ==> WithinArrays(sticks[i]) }

  function Records(sticks: seq<Joystick>): Bytes
    requires AllWithin(sticks)
  {
    if sticks == [] then [] else Records(sticks[..|sticks| - 1]) + Record(sticks[|sticks| - 1])
  }

  datatype Mode = Test | Autonomous | Teleoperated

  datatype Position = First | Second | Third

  /** What the generator is configured with. */
  datatype Config = Config(mode: Mode, enabled: bool, stopped: bool, fms: bool,
                           robotComms: bool, reboot: bool, restartCode: bool, position: Position, red: bool)

  function Bit(b: bool, value: nat): nat { if b then value else 0 }

  /** The control byte; its parts are separate bits. */
  function ControlCode(c: Config): nat {
    0x20 + Bit(c.mode.Test?, 0x04) + Bit(c.mode.Autonomous?, 0x02) + Bit(c.fms, 0x10) + Bit(c.stopped, 0x08) +
    Bit(c.enabled, 0x01)
  }

  function RequestCode(c: Config): nat {
    if !c.robotComms then 0 else if c.reboot then 0x08 else if c.restartCode then 0x04 else 0
  }

  function StationCode(c: Config): nat {
    match c.position
    case First => if c.red then 0 else 3
    case Second => if c.red then 1 else 4
    case Third => if c.red then 2 else 5
  }

  function Head(c: Config, count: nat): (b: Bytes)
    ensures |b| == 6
  {
    [count / 256 % 256, count % 256, TAG_COMM_VERSION, ControlCode(c), RequestCode(c), StationCode(c)]
  }

  /** What localtime_r gives, and the length of the name of the zone. */
  datatype LocalTime = LocalTime(sec: nat, min: nat, hour: nat, yday: nat, mon: nat, year: nat, zoneLength: nat)

  /** The date, with zero milliseconds, and the time zone, without its name. */
  function TimeData(t: LocalTime): (b: Bytes)
    ensures |b| == 13
  {
    [TAG_DATE, 0, 0, 0, 0, t.sec % 256, t.min % 256, t.hour % 256, t.yday % 256, t.mon % 256, t.year % 256,
     TAG_TIMEZONE, t.zoneLength % 256]
  }

  /** `time` is the local time, if it is sent. */
  function Packet(c: Config, count: nat, time: Option<LocalTime>, sticks: seq<Joystick>): Bytes
    requires AllWithin(sticks)
  {
    Head(c, count) + (if time.Some? then TimeData(time.value) else []) + if count > 5 then Records(sticks) else []
  }

  /** The part of the loop that writes one joystick. */
  method EncodeJoystick(j: Joystick) returns (b: Bytes)
    requires WithinArrays(j)
    ensures b == Record(j)
  {
    b := [RecordSize(j) % 256, TAG_JOYSTICK, |j.axes|];
    ghost var head := b;
    for i := 0 to |j.axes|
      invariant b == head + AxisBytes(j.axes[..i])
    {
      assert AxisBytes(j.axes[..i + 1]) == AxisBytes(j.axes[..i]) + [AxisByte(j.axes[i])];
      b := b + [AxisByte(j.axes[i])];
    }
    assert j.axes[..|j.axes|] == j.axes;
    var flags := ButtonFlags(j.buttons);
    b := b + [|j.buttons|, flags / 256 % 256, flags % 256, |j.hats|];
    var hats := EncodeHats(j.hats);
    b := b + hats;
  }

  method ButtonFlags(buttons: seq<bool>) returns (flags: nat)
    ensures flags == Flags(buttons)
  {
    flags := 0;
    for i := 0 to |buttons|
      invariant flags == Flags(buttons[..i])
    {
      assert buttons[..i + 1] == buttons[..i] + [buttons[i]];
      FlagsSnoc(buttons[..i], buttons[i]);
      flags := flags + if buttons[i] then Bits.Pow2(i) else 0;
    }
    assert buttons[..|buttons|] == buttons;
  }

  method EncodeHats(hats: seq<int>) returns (b: Bytes)
    ensures b == HatBytes(hats)
  {
    b := [];
    for i := 0 to |hats|
      invariant b == HatBytes(hats[..i])
    {
      assert hats[..i + 1][..i] == hats[..i];
      b := b + [hats[i] / 256 % 256, hats[i] % 256];
    }
    assert hats[..|hats|] == hats;
  }

  class PackageGenerator {
    var sentRobotPackets: nat

    /** `create_robot_packet`. */
    method CreateRobotPacket(c: Config, sendTimeData: bool, now: LocalTime, sticks: seq<Joystick>) returns (data: Bytes)
      requires AllWithin(sticks)
      modifies this
      ensures data == Packet(c, old(sentRobotPackets), if sendTimeData then Some(now) else None, sticks)
      ensures sentRobotPackets == (old(sentRobotPackets) + 1) % 0x1_0000_0000
    {
      data := Head(c, sentRobotPackets);
      if sendTimeData { data := data + TimeData(now); }
      if sentRobotPackets > 5 {
        var records := [];
        for i := 0 to |sticks|
          invariant records == Records(sticks[..i])
          invariant sentRobotPackets == old(sentRobotPackets)
        {
          assert sticks[..i + 1][..i] == sticks[..i];
          var record := EncodeJoystick(sticks[i]);
          records := records + record;
        }
        assert sticks[..|sticks|] == sticks;
        data := data + records;
      }
      sentRobotPackets := (sentRobotPackets + 1) % 0x1_0000_0000;
    }
  }

  // ---------------------------------------------------------------------------------------
  // The decoders, all for joystick number 0.

  function Signed(b: nat, signed: bool): int { if signed && b >= 128 then b as int - 256 else b }

  /** Byte `i` of the payload as a char; the buffer holds zeros after it. */
  function Char(p: Bytes, i: int, signed: bool): int { Signed(if 0 <= i < |p| then p[i] else 0, signed) }

  function ToInt16(n: int): int { (n + 0x8000) % 0x1_0000 - 0x8000 }

  datatype Buttons = Buttons(count: nat, mask: nat)

  datatype Axes = Axes(raw: seq<nat>, scaled: seq<real>)

  /** The decoded structs. */
  datatype Decoded = Decoded(axes: Axes, povs: seq<int>, buttons: Buttons, controlWord: nat)

  function Count(n: int): nat { if n < 0 then 0 else n }

  function Raw(p: Bytes, signed: bool): seq<nat> {
    seq(Count(Char(p, JOYSTICK_POS + 2, signed)), i => Char(p, JOYSTICK_POS + 3 + i, signed) % 256)
  }

  function ToInt8(n: int): int { (n + 0x80) % 0x100 - 0x80 }

  /** An axis as a number from -1 to 1: the byte is taken as two's complement. */
  function Scaled(b: int): real {
    var value := ToInt8(b);
    if value < 0 then value as real / 128.0 else value as real / 127.0
  }

  function AxesOf(p: Bytes, signed: bool): Axes {
    Axes(Raw(p, signed), seq(|Raw(p, signed)|, i requires 0 <= i < |Raw(p, signed)| => Scaled(Raw(p, signed)[i])))
  }

  function Povs(p: Bytes, signed: bool): seq<int> {
    var offset := 6 + JOYSTICK_POS + Char(p, JOYSTICK_POS + 2, signed);
    seq(Count(Char(p, offset, signed)),
        i => ToInt16(Char(p, offset + 1 + 2 * i, signed) * 256 + Char(p, offset + 2 + 2 * i, signed)))
  }

  function ButtonsOf(p: Bytes, signed: bool): Buttons {
    var offset := JOYSTICK_POS + 3 + Char(p, JOYSTICK_POS + 2, signed);
    Buttons(Char(p, offset, signed) % 256,
            (Char(p, offset + 1, signed) * 256 + Char(p, offset + 2, signed)) % 0x1_0000_0000)
  }

  /** What `Update` decodes; nothing of the joystick if its size does not exceed 0. */
  function Decode(p: Bytes, signed: bool): Option<Decoded> {
    if Char(p, JOYSTICK_POS, signed) <= 0 then None
    else Some(Decoded(AxesOf(p, signed), Povs(p, signed), ButtonsOf(p, signed), Char(p, 3, false)))
  }

  class JoystickDataCache {
    var axes: Axes
    var povs: seq<int>
    var buttons: Buttons
    var controlWord: nat

    /** `Update`, with its three decoders. */
    method Update(p: Bytes, signed: bool)
      modifies this
      ensures controlWord == Char(p, 3, false)
      ensures Decode(p, signed).Some? ==> Decoded(axes, povs, buttons, controlWord) == Decode(p, signed).value
      ensures Decode(p, signed).None? ==> axes == old(axes) && povs == old(povs) && buttons == old(buttons)
    {
      if Char(p, JOYSTICK_POS, signed) > 0 {
        axes := ReadAxes(p, signed);
        povs := ReadPovs(p, signed);
        buttons := ButtonsOf(p, signed);
      }
      controlWord := Char(p, 3, false);
    }
  }

  method ReadAxes(p: Bytes, signed: bool) returns (axes: Axes)
    ensures axes == AxesOf(p, signed)
  {
    var count := Count(Char(p, JOYSTICK_POS + 2, signed));
    var netcommAxes: seq<int> := [];
    var offset := JOYSTICK_POS + 3;
    for i := 0 to count
      invariant offset == JOYSTICK_POS + 3 + i && |netcommAxes| == i
      invariant forall k :: 0 <= k < i ==> netcommAxes[k] == Char(p, JOYSTICK_POS + 3 + k, signed)
    {
      netcommAxes := netcommAxes + [Char(p, offset, signed)];
      offset := offset + 1;
    }
    var raw: seq<nat>, scaled: seq<real> := [], [];
    for i := 0 to count
      invariant raw == Raw(p, signed)[..i] && scaled == AxesOf(p, signed).scaled[..i]
    {
      var value := ToInt8(netcommAxes[i]);
      SameByte(netcommAxes[i]);
      assert AxesOf(p, signed).scaled[i] == Scaled(Raw(p, signed)[i]) && Raw(p, signed)[i] == value % 256;
      raw := raw + [value % 256];
      scaled := scaled + [if value < 0 then value as real / 128.0 else value as real / 127.0];
    }
    assert Raw(p, signed)[..count] == Raw(p, signed);
    assert AxesOf(p, signed).scaled[..count] == AxesOf(p, signed).scaled;
    axes := Axes(raw, scaled);
  }

  lemma {:induction false} SameByte(n: int)
    ensures ToInt8(n) % 256 == n % 256 && ToInt8(n % 256) == ToInt8(n)
  {
    WholePages(n, -((n + 0x80) / 0x100));
    WholePages(n % 256 + 0x80, n / 256);
    assert n % 256 + 0x80 + n / 256 * 256 == n + 0x80;
  }

  lemma {:induction false} WholePages(n: int, k: int)
    ensures (n + k * 256) % 256 == n % 256
  {
  }

  method ReadPovs(p: Bytes, signed: bool) returns (povs: seq<int>)
    ensures povs == Povs(p, signed)
  {
    povs := [];
    var offset := 6 + JOYSTICK_POS + Char(p, JOYSTICK_POS + 2, signed);
    var count := Char(p, offset, signed);
    offset := offset + 1;
    var i := 0;
    while i < count
      invariant 0 <= i <= Count(count) && offset == 7 + JOYSTICK_POS + Char(p, JOYSTICK_POS + 2, signed) + 2 * i
      invariant povs == Povs(p, signed)[..i]
    {
      povs := povs + [ToInt16(Char(p, offset, signed) * 256 + Char(p, offset + 1, signed))];
      offset, i := offset + 2, i + 1;
    }
  }

  // ---------------------------------------------------------------------------------------
  // Round trip.

  /** Bytes that mean the same with and without a sign. */
  predicate Plain(b: nat, signed: bool) { !signed || b < 128 }

  lemma {:induction false} RecordsStart(sticks: seq<Joystick>)
    requires AllWithin(sticks) && sticks != []
    ensures Record(sticks[0]) <= Records(sticks)
    decreases |sticks|
  {
    if |sticks| == 1 {
      assert sticks[..0] == [];
      assert Records(sticks) == Record(sticks[0]);
    } else {
      RecordsStart(sticks[..|sticks| - 1]);
    }
  }

  /** The payload holds the record of `j` where the decoders look for it. */
  ghost predicate Carries(p: Bytes, j: Joystick)
    requires WithinArrays(j)
  {
    && |p| >= JOYSTICK_POS + |Record(j)|
    && forall k :: 0 <= k < |Record(j)| ==> p[JOYSTICK_POS + k] == Record(j)[k]
  }

  lemma {:induction false} PacketCarries(c: Config, count: nat, time: Option<LocalTime>, sticks: seq<Joystick>)
    requires AllWithin(sticks) && sticks != [] && count > 5 && time.Some?
    ensures Carries(Packet(c, count, time, sticks), sticks[0]) && Packet(c, count, time, sticks)[3] == ControlCode(c)
  {
    RecordsStart(sticks);
    AfterPrefix(Head(c, count) + TimeData(time.value), Records(sticks), Record(sticks[0]));
  }

  lemma {:induction false} AfterPrefix(before: Bytes, all: Bytes, r: Bytes)
    requires r <= all
    ensures |before + all| >= |before| + |r|
    ensures forall k :: 0 <= k < |r| ==> (before + all)[|before| + k] == r[k]
  {
    assert forall k :: 0 <= k < |r| ==> (before + all)[|before| + k] == all[k] == r[k];
  }

  /** Where the parts of a record are. */
  lemma {:induction false} Layout(p: Bytes, j: Joystick)
    requires WithinArrays(j) && Carries(p, j)
    ensures var n := JOYSTICK_POS + 3 + |j.axes|;
            && |p| >= n + 4 + 2 * |j.hats|
            && p[JOYSTICK_POS] == RecordSize(j) && p[JOYSTICK_POS + 2] == |j.axes|
            && (forall i :: 0 <= i < |j.axes| ==> p[JOYSTICK_POS + 3 + i] == AxisByte(j.axes[i]))
            && p[n] == |j.buttons| && p[n + 1] == Flags(j.buttons) / 256 % 256 && p[n + 2] == Flags(j.buttons) % 256
            && p[n + 3] == |j.hats|
            && forall i :: 0 <= i < 2 * |j.hats| ==> p[n + 4 + i] == HatBytes(j.hats)[i]
  {
    var r, n := Record(j), |j.axes|;
    assert r[0] == RecordSize(j) && r[2] == n;
    assert r[3 + n] == |j.buttons| && r[4 + n] == Flags(j.buttons) / 256 % 256;
    assert r[5 + n] == Flags(j.buttons) % 256 && r[6 + n] == |j.hats|;
    forall i | 0 <= i < n
      ensures p[JOYSTICK_POS + 3 + i] == AxisByte(j.axes[i])
    {
      assert r[3 + i] == AxisByte(j.axes[i]);
    }
    forall i | 0 <= i < 2 * |j.hats|
      ensures p[JOYSTICK_POS + 7 + n + i] == HatBytes(j.hats)[i]
    {
      assert r[7 + n + i] == HatBytes(j.hats)[i];
    }
  }

  lemma {:induction false} AxesRoundTrip(p: Bytes, j: Joystick, signed: bool)
    requires WithinArrays(j) && Carries(p, j)
    ensures Raw(p, signed) == AxisBytes(j.axes)
  {
    Layout(p, j);
    assert |Raw(p, signed)| == |j.axes|;
    forall i | 0 <= i < |j.axes|
      ensures Raw(p, signed)[i] == AxisByte(j.axes[i])
    {
      assert p[JOYSTICK_POS + 3 + i] == AxisByte(j.axes[i]);
      assert Raw(p, signed)[i] == Char(p, JOYSTICK_POS + 3 + i, signed) % 256;
      SignLost(AxisByte(j.axes[i]), signed);
    }
  }

  lemma {:induction false} SignLost(b: nat, signed: bool)
    requires b < 256
    ensures Signed(b, signed) % 256 == b
  {
  }

  lemma {:induction false} ButtonsRoundTrip(p: Bytes, j: Joystick, signed: bool)
    requires WithinArrays(j) && Carries(p, j)
    ensures ButtonsOf(p, signed).count == |j.buttons|
    ensures var flags := Flags(j.buttons);
            ButtonsOf(p, signed).mask == flags <==> Plain(flags / 256, signed) && Plain(flags % 256, signed)
  {
    Layout(p, j);
    ButtonsAt(p, |j.axes|, |j.buttons|, Flags(j.buttons), signed);
    MaskFits(j.buttons);
    MaskRead(Flags(j.buttons), signed);
  }

  /** What the button decoder reads after `axes` axes. */
  lemma {:induction false} ButtonsAt(p: Bytes, axes: nat, count: nat, flags: nat, signed: bool)
    requires axes < 128 && count < 128
    requires var n := JOYSTICK_POS + 3 + axes;
             && |p| >= n + 3 && p[JOYSTICK_POS + 2] == axes && p[n] == count
             && p[n + 1] == flags / 256 % 256 && p[n + 2] == flags % 256
    ensures ButtonsOf(p, signed).count == count
    ensures ButtonsOf(p, signed).mask ==
            (Signed(flags / 256 % 256, signed) * 256 + Signed(flags % 256, signed)) % 0x1_0000_0000
  {
    assert Char(p, JOYSTICK_POS + 2, signed) == axes;
  }

  lemma {:induction false} MaskFits(buttons: seq<bool>)
    requires |buttons| <= 16
    ensures Flags(buttons) < 0x1_0000
  {
    FlagsBound(buttons, 16);
    assert Bits.Pow2(8) == 0x100;
    assert Bits.Pow2(16) == 0x1_0000;
  }

  lemma {:induction false} MaskRead(flags: nat, signed: bool)
    requires flags < 0x1_0000
    ensures (Signed(flags / 256 % 256, signed) * 256 + Signed(flags % 256, signed)) % 0x1_0000_0000 == flags <==>
            Plain(flags / 256, signed) && Plain(flags % 256, signed)
  {
    var high, low := flags / 256, flags % 256;
    assert high < 256 && high % 256 == high && flags == high * 256 + low;
  }

  lemma {:induction false} HatRead(hat: int, signed: bool)
    requires -0x8000 <= hat < 0x8000
    ensures ToInt16(Signed(hat / 256 % 256, signed) * 256 + Signed(hat % 256, signed)) == hat <==>
            Plain(hat % 256, signed)
  {
    var high, low := hat / 256, hat % 256;
    assert hat == high * 256 + low && -128 <= high < 128;
    assert high % 256 == if high < 0 then high + 256 else high;
  }

  lemma {:induction false} PovsRoundTrip(p: Bytes, j: Joystick, signed: bool, i: nat)
    requires WithinArrays(j) && Carries(p, j) && i < |j.hats| && -0x8000 <= j.hats[i] < 0x8000
    ensures |Povs(p, signed)| == |j.hats|
    ensures Povs(p, signed)[i] == j.hats[i] <==> Plain(j.hats[i] % 256, signed)
  {
    Layout(p, j);
    HatBytesAt(j.hats, i);
    var n := JOYSTICK_POS + 7 + |j.axes|;
    assert p[n + 2 * i] == HatBytes(j.hats)[2 * i] && p[n + (2 * i + 1)] == HatBytes(j.hats)[2 * i + 1];
    PovAt(p, |j.axes|, |j.hats|, i, j.hats[i], signed);
    HatRead(j.hats[i], signed);
  }

  /** What the hat decoder reads after `axes` axes. */
  lemma {:induction false} PovAt(p: Bytes, axes: nat, count: nat, i: nat, hat: int, signed: bool)
    requires axes < 128 && count < 128 && i < count
    requires var n := JOYSTICK_POS + 7 + axes;
             && |p| >= n + 2 * count && p[JOYSTICK_POS + 2] == axes && p[n - 1] == count
             && p[n + 2 * i] == hat / 256 % 256 && p[n + (2 * i + 1)] == hat % 256
    ensures |Povs(p, signed)| == count
    ensures Povs(p, signed)[i] == ToInt16(Signed(hat / 256 % 256, signed) * 256 + Signed(hat % 256, signed))
  {
    assert Char(p, JOYSTICK_POS + 2, signed) == axes;
    assert Char(p, JOYSTICK_POS + 6 + axes, signed) == count;
  }

  /** Values that read the same through either kind of char: no byte of the button mask and no
      low byte of a hat has its top bit set. */
  ghost predicate PlainStick(j: Joystick, signed: bool) {
    && Plain(Flags(j.buttons) / 256, signed) && Plain(Flags(j.buttons) % 256, signed)
    && forall i :: 0 <= i < |j.hats| ==> Plain(j.hats[i] % 256, signed)
  }

  predicate HatsFit(j: Joystick) { forall i :: 0 <= i < |j.hats| ==> -0x8000 <= j.hats[i] < 0x8000 }

  lemma {:induction false} PovsExact(p: Bytes, j: Joystick, signed: bool)
    requires WithinArrays(j) && Carries(p, j) && HatsFit(j)
    ensures Povs(p, signed) == j.hats <==> forall i :: 0 <= i < |j.hats| ==> Plain(j.hats[i] % 256, signed)
  {
    Layout(p, j);
    assert |Povs(p, signed)| == |j.hats|;
    forall i | 0 <= i < |j.hats|
      ensures Povs(p, signed)[i] == j.hats[i] <==> Plain(j.hats[i] % 256, signed)
    {
      PovsRoundTrip(p, j, signed, i);
    }
    assert (forall i :: 0 <= i < |j.hats| ==> Povs(p, signed)[i] == j.hats[i]) <==> Povs(p, signed) == j.hats;
  }

  /** What comes back of joystick `j`: its raw axes and counts always, its button mask and hats if
      and only if they are plain. */
  ghost predicate Recovered(d: Decoded, j: Joystick, signed: bool)
    requires WithinArrays(j)
  {
    && d.axes.raw == AxisBytes(j.axes) && d.buttons.count == |j.buttons| && |d.povs| == |j.hats|
    && (d.buttons.mask == Flags(j.buttons) && d.povs == j.hats <==> PlainStick(j, signed))
  }

  lemma {:induction false} StickRoundTrip(p: Bytes, j: Joystick, signed: bool)
    requires WithinArrays(j) && Carries(p, j) && HatsFit(j)
    ensures Decode(p, signed).Some? && Recovered(Decode(p, signed).value, j, signed)
  {
    Layout(p, j);
    AxesRoundTrip(p, j, signed);
    ButtonsRoundTrip(p, j, signed);
    PovsExact(p, j, signed);
    HatCount(p, j, signed);
  }

  lemma {:induction false} HatCount(p: Bytes, j: Joystick, signed: bool)
    requires WithinArrays(j) && Carries(p, j)
    ensures |Povs(p, signed)| == |j.hats| && Char(p, JOYSTICK_POS, signed) > 0
  {
    Layout(p, j);
  }

  /** A packet with time data, after the fifth: the first joystick is decoded with its raw axes
      and its counts, and the control byte, always; the button mask and the hats come back if and
      only if they are plain, which they are on a platform with unsigned char. */
  lemma {:induction false} PacketRoundTrip(c: Config, count: nat, time: Option<LocalTime>, sticks: seq<Joystick>, signed: bool)
    requires AllWithin(sticks) && sticks != [] && count > 5 && time.Some? && HatsFit(sticks[0])
    ensures var d := Decode(Packet(c, count, time, sticks), signed);
            d.Some? && d.value.controlWord == ControlCode(c) && Recovered(d.value, sticks[0], signed)
  {
    PacketCarries(c, count, time, sticks);
    StickRoundTrip(Packet(c, count, time, sticks), sticks[0], signed);
  }

  /** The first six bytes: the packet number, the version, the control code, a request made only
      while the robot answers, a reboot before a restart, and the station, the positions of the
      red alliance before those of the blue. */
  lemma {:induction false} PacketHead(c: Config, count: nat, time: Option<LocalTime>, sticks: seq<Joystick>)
    requires AllWithin(sticks)
    ensures var p := Packet(c, count, time, sticks);
            && |p| >= 6 && p[0] * 256 + p[1] == count % 0x1_0000 && p[1] < 256 && p[2] == 1 && p[3] == ControlCode(c)
            && (p[4] == 8 <==> c.robotComms && c.reboot) && (p[4] == 4 <==> c.robotComms && !c.reboot && c.restartCode)
            && (p[4] == 0 || p[4] == 4 || p[4] == 8)
            && p[5] == (if c.position.First? then 1 else if c.position.Second? then 2 else 3) + (if c.red then -1 else 2)
  {
    TwoBytes(count);
  }

  lemma {:induction false} TwoBytes(n: nat)
    ensures n / 256 % 256 * 256 + n % 256 == n % 0x1_0000
  {
  }

  /** The time data, and the first two bytes of a joystick record after it. */
  lemma {:induction false} PacketTime(c: Config, count: nat, time: Option<LocalTime>, sticks: seq<Joystick>)
    requires AllWithin(sticks) && time.Some?
    ensures var p, t := Packet(c, count, time, sticks), time.value;
            && |p| >= JOYSTICK_POS && p[6] == 0x0F && p[7] == 0 && p[8] == 0 && p[9] == 0 && p[10] == 0
            && p[11] == t.sec % 256 && p[12] == t.min % 256 && p[13] == t.hour % 256
            && p[14] == t.yday % 256 && p[15] == t.mon % 256 && p[16] == t.year % 256
            && p[17] == 0x10 && p[18] == t.zoneLength % 256
    ensures var p := Packet(c, count, time, sticks);
            count > 5 && sticks != [] ==>
              && |p| >= JOYSTICK_POS + 2 && p[JOYSTICK_POS + 1] == 0x0C
              && p[JOYSTICK_POS] == 5 + |sticks[0].axes| + |sticks[0].buttons| + 2 * |sticks[0].hats|
  {
    if count > 5 && sticks != [] {
      PacketCarries(c, count, time, sticks);
      assert Record(sticks[0])[1] == TAG_JOYSTICK && Record(sticks[0])[0] == RecordSize(sticks[0]);
    }
  }

  /** The first five packets, and any without a joystick, end before the joystick data, and the
      decoders leave the joystick alone. */
  lemma {:induction false} NoJoystickIgnored(c: Config, count: nat, time: Option<LocalTime>, sticks: seq<Joystick>, signed: bool)
    requires AllWithin(sticks) && (count <= 5 || sticks == [])
    ensures |Packet(c, count, time, sticks)| == (if time.Some? then 19 else 6)
    ensures Decode(Packet(c, count, time, sticks), signed).None?
  {
  }

  /** A raw byte from 128 on is scaled as that many 128ths below 2, negative; any other as 127ths. */
  lemma {:induction false} ScaledExact(b: nat)
    requires b < 256
    ensures b < 128 ==> Scaled(b) * 127.0 == b as real
    ensures b >= 128 ==> Scaled(b) * 128.0 == b as real - 256.0
  {
    assert ToInt8(b) == if b < 128 then b as int else b as int - 256;
  }

  /** An axis byte counts steps of 2/255 from the left end, rounded down. */
  lemma {:induction false} AxisByteExact(v: real)
    requires -1.0 <= v <= 1.0
    ensures AxisByte(v) as real * (2.0 / 255.0) <= v + 1.0 < (AxisByte(v) + 1) as real * (2.0 / 255.0)
    ensures AxisByte(-1.0) == 0 && AxisByte(1.0) == 255
  {
  }

  /** The eighth of eight buttons pressed, and a hat at rest. */
  const Misread: Joystick := Joystick([], [false, false, false, false, false, false, false, true], [-1])

  /** A packet that is misread through a signed char, whatever else it holds: the hat, sent as -1,
      is read as -257, and the button sets most of the mask. */
  lemma {:induction false} SignedCharMisreads(c: Config, count: nat, time: Option<LocalTime>, sticks: seq<Joystick>)
    requires AllWithin(sticks) && sticks != [] && sticks[0] == Misread && count > 5 && time.Some?
    ensures var d := Decode(Packet(c, count, time, sticks), true);
            d.Some? && d.value.povs == [-257] && d.value.buttons.mask == 0xFFFF_FF80
  {
    PacketCarries(c, count, time, sticks);
    CarriedMisread(Packet(c, count, time, sticks));
  }

  lemma {:induction false} CarriedMisread(p: Bytes)
    requires Carries(p, Misread)
    ensures Char(p, JOYSTICK_POS, true) > 0
    ensures Povs(p, true) == [-257] && ButtonsOf(p, true).mask == 0xFFFF_FF80
  {
    MisreadLayout(p);
    ButtonsAt(p, 0, 8, 128, true);
    PovAt(p, 0, 1, 0, -1, true);
  }

  lemma {:induction false} MisreadLayout(p: Bytes)
    requires Carries(p, Misread)
    ensures |p| >= JOYSTICK_POS + 9 && p[JOYSTICK_POS] == 15 && p[JOYSTICK_POS + 2] == 0
    ensures p[JOYSTICK_POS + 3] == 8 && p[JOYSTICK_POS + 4] == 0 && p[JOYSTICK_POS + 5] == 128
    ensures p[JOYSTICK_POS + 6] == 1 && p[JOYSTICK_POS + 7] == 255 && p[JOYSTICK_POS + 8] == 255
  {
    Layout(p, Misread);
    OnlyLast();
    HatBytesAt(Misread.hats, 0);
    assert p[JOYSTICK_POS + 7 + 0] == HatBytes(Misread.hats)[0] && p[JOYSTICK_POS + 7 + 1] == HatBytes(Misread.hats)[1];
  }

  lemma {:induction false} OnlyLast()
    ensures Flags([false, false, false, false, false, false, false, true]) == 128
  {
    FlagsSnoc([false, false, false, false, false, false, false], true);
    assert [false, false, false, false, false, false, false] + [true] ==
           [false, false, false, false, false, false, false, true];
    NonePressed([false, false, false, false, false, false, false]);
    assert Bits.Pow2(7) == 128;
  }

  lemma {:induction false} NonePressed(buttons: seq<bool>)
    requires forall i :: 0 <= i < |buttons| ==> !buttons[i]
    ensures Flags(buttons) == 0
    decreases |buttons|
  {
    if buttons != [] {
      NonePressed(buttons[1..]);
    }
  }

  /** No scaled value is the one sent: the generator's bytes are offset binary, so that an axis
      reads as negative exactly when it is pushed by 1/255 or more, and one at rest as 1. */
  lemma {:induction false} AxisReversed(v: real)
    requires -1.0 <= v <= 1.0
    ensures Scaled(AxisByte(v)) != v
    ensures Scaled(AxisByte(v)) < 0.0 <==> v >= 1.0 / 255.0
    ensures 0.0 <= v < 1.0 / 255.0 ==> Scaled(AxisByte(v)) == 1.0
  {
    var b := AxisByte(v);
    assert 0.0 <= v < 1.0 / 255.0 ==> b == 127;
    assert b >= 128 <==> (v + 1.0) / 2.0 * 255.0 >= 128.0;
    assert ToInt8(b) == if b < 128 then b as int else b as int - 256;
  }

  /** The bits of the control word are the configuration. */
  lemma {:induction false} ControlWordBits(c: Config)
    ensures var w := ControlCode(c);
            && (w % 2 == 1 <==> c.enabled) && (w / 2 % 2 == 1 <==> c.mode.Autonomous?)
            && (w / 4 % 2 == 1 <==> c.mode.Test?) && (w / 8 % 2 == 1 <==> c.stopped)
            && (w / 16 % 2 == 1 <==> c.fms) && w / 32 == 1
  {
  }
}
