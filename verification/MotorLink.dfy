/** Both ends of the motor link: the motor object of the robot (lib/motor/Motor.cpp) and the
    simulated motors (tools/DamiaoSimulator.cpp), with the same limits at both ends. */
module MotorLink {
  import opened Wrappers
  import opened CanFrame
  import Payload
  import opened LinearCode
  import opened MotorFrames

  datatype Limits = Limits(p: real, v: real, t: real)

  predicate Positive(l: Limits) { l.p > 0.0 && l.v > 0.0 && l.t > 0.0 }

  function RangeQ(l: Limits): Range { Range(-l.p, l.p, 0xFFFF) }
  function RangeDq(l: Limits): Range { Range(-l.v, l.v, 0xFFF) }
  function RangeTau(l: Limits): Range { Range(-l.t, l.t, 0xFFF) }
  const RangeKp: Range := Range(0.0, 500.0, 0xFFF)
  const RangeKd: Range := Range(0.0, 5.0, 0xFFF)

  datatype MitParam = MitParam(q: real, dq: real, kp: real, kd: real, tau: real)

  /** `x` is `y` limited to the range from `lo` to `hi`, too low by less than one of `steps` equal steps. */
  predicate Near(x: real, y: real, lo: real, hi: real, steps: real) {
    var limited := if y < lo then lo else if y > hi then hi else y;
    0.0 <= (limited - x) * steps < hi - lo
  }

  lemma {:induction false} DecodedNearOne(y: real, r: Range)
    requires Proper(r)
    ensures Near(Decode(Code(y, r), r), y, r.lo, r.hi, r.top as real)
  {
    DecodeEncode(y, r);
    TopQuanta(r);
    BelowAStep(Clamp(y, r.lo, r.hi) - Decode(Code(y, r), r), Quantum(r), r.top as real, r.hi - r.lo);
  }

  lemma {:induction false} BelowAStep(gap: real, quantum: real, steps: real, span: real)
    requires 0.0 <= gap < quantum && steps > 0.0 && steps * quantum == span
    ensures 0.0 <= gap * steps < span
  {
    Scale(0.0, gap, steps);
    ScaleTo(quantum, gap, steps, gap * steps);
  }

  function Code(x: real, r: Range): (k: nat)
    requires Proper(r)
    ensures k <= r.top && k == Encode(x, r)
  {
    EncodeRange(x, r);
    Encode(x, r)
  }

  /** What `setMitControl` encodes. */
  function EncodeMit(l: Limits, p: MitParam): (f: MitFields)
    requires Positive(l)
    ensures Fits(f)
  {
    MitFields(Code(p.q, RangeQ(l)), Code(p.dq, RangeDq(l)), Code(p.kp, RangeKp), Code(p.kd, RangeKd),
              Code(p.tau, RangeTau(l)))
  }

  /** What `handleMitControl` decodes. */
  function DecodeMit(l: Limits, f: MitFields): MitParam
    requires Positive(l)
  {
    MitParam(Decode(f.q, RangeQ(l)), Decode(f.dq, RangeDq(l)), Decode(f.kp, RangeKp), Decode(f.kd, RangeKd),
             Decode(f.tau, RangeTau(l)))
  }

  // ---------------------------------------------------------------------------------------
  // The simulated motors.

  datatype Body = Body(position: real, velocity: real, torque: real)

  /** The register contents, by register identifier. */
  type Registers = map<nat, real>

  /** `target` is the target of position, velocity and torque with the two gains. */
  datatype MotorState = MotorState(canId: nat, status: nat, body: Body, target: MitParam, mosTemp: int, rotorTemp: int,
                                   parameters: Registers)

  type Motors = map<nat, MotorState>

  datatype Command = Unknown | Enable | Disable | SaveZero | ClearError | MitControl | PosVel | Velocity | PosForce
                   | QueryParam | WriteParam | Refresh

  /** `findMotorByCanId`: the identifier itself, cut to 16 bits, or else the first motor, in
      ascending order, that it is a mode offset away from. */
  function FindMotor(ids: set<nat>, canId: nat): Option<nat> {
    if canId % 0x1_0000 in ids then Some(canId % 0x1_0000)
    else if canId >= 0x300 && canId - 0x300 in ids then Some(canId - 0x300)
    else if canId >= 0x200 && canId - 0x200 in ids then Some(canId - 0x200)
    else if canId >= 0x100 && canId - 0x100 in ids then Some(canId - 0x100)
    else None
  }

  function ControlCommand(last: nat): Command {
    match last
    case 0xFC => Enable
    case 0xFD => Disable
    case 0xFE => SaveZero
    case 0xFB => ClearError
    case _ => Unknown
  }

  function ParamCommand(code: nat): Command {
    match code
    case 0x33 => QueryParam
    case 0x55 => WriteParam
    case 0xCC => Refresh
    case _ => Unknown
  }

  function ModeCommand(canId: nat, base: nat): Command {
    if canId == base then MitControl
    else if canId == base + 0x100 then PosVel
    else if canId == base + 0x200 then Velocity
    else if canId == base + 0x300 then PosForce
    else Unknown
  }

  /** `identifyCommand`, for a message of full length. */
  function Identify(ids: set<nat>, canId: nat, data: Bytes): (Command, Option<nat>)
    requires |data| == 8
  {
    if LooksLikeControl(data) then
      var id := FindMotor(ids, canId);
      (if id.Some? then ControlCommand(data[7]) else Unknown, id)
    else if canId == 0x7FF then
      var id := data[0] + data[1] * 256;
      if id in ids then (ParamCommand(data[2]), Some(id)) else (Unknown, None)
    else
      var id := FindMotor(ids, canId);
      (if id.Some? then ModeCommand(canId, id.value) else Unknown, id)
  }

  /** One tenth of the way to the goal, within the limit. */
  function Approach(x: real, goal: real, limit: real): real { Clamp(x + 0.1 * (goal - x), -limit, limit) }

  function Abs(x: real): real { if x < 0.0 then -x else x }

  function MosTemp(torque: real): int { 35 + (Abs(torque) * 2.0).Floor }
  function RotorTemp(torque: real): int { 40 + (Abs(torque) * 1.5).Floor }

  /** `updatePhysics`, with the new target. */
  function Moved(l: Limits, m: MotorState, target: MitParam): MotorState {
    var body := Body(Approach(m.body.position, target.q, l.p), Approach(m.body.velocity, target.dq, l.v),
                     Approach(m.body.torque, target.tau, l.t));
    m.(body := body, target := target, mosTemp := MosTemp(body.torque), rotorTemp := RotorTemp(body.torque))
  }

  /** The registers that hold integers. */
  predicate IsIntParam(rid: nat) { 7 <= rid <= 10 || 13 <= rid <= 16 || 35 <= rid <= 36 }

  /** The value that four bytes stand for in a register. */
  function RegisterValue(float: Bytes -> real, rid: nat, raw: Bytes): real {
    if IsIntParam(rid) then Payload.FromLittleEndian(raw) as real else float(raw)
  }

  /** The four bytes by which a reply gives a register; `bytes` writes a float32. */
  function RegisterBytes(bytes: real -> Bytes, rid: nat, value: real): Bytes {
    if IsIntParam(rid) then Payload.LittleEndian(if value < 0.0 then 0 else value.Floor, 4) else bytes(value)
  }

  /** The target a control frame asks for; `float` reads a float32 from four bytes. */
  function NewTarget(l: Limits, float: Bytes -> real, command: Command, data: Bytes, t: MitParam): MitParam
    requires Positive(l) && |data| == 8
  {
    match command
    case MitControl => DecodeMit(l, Unpack(data))
    case PosVel => t.(q := float(data[..4]), dq := float(data[4..]))
    case Velocity => t.(dq := float(data[..4]))
    case PosForce =>
      t.(q := float(data[..4]), dq := ((data[4] + data[5] * 256) as real) / 100.0,
         tau := ((data[6] + data[7] * 256) as real) / 10000.0 * l.t)
    case _ => t
  }

  predicate IsControl(c: Command) { c.MitControl? || c.PosVel? || c.Velocity? || c.PosForce? }

  /** What a command does to the motor. */
  function Apply(l: Limits, float: Bytes -> real, command: Command, data: Bytes, m: MotorState): MotorState
    requires Positive(l) && |data| == 8
  {
    if command.Enable? then m.(status := ENABLED)
    else if command.Disable? then m.(status := DISABLED, target := m.target.(q := 0.0, dq := 0.0, tau := 0.0))
    else if command.SaveZero? then m.(body := m.body.(position := 0.0))
    else if command.ClearError? then m.(status := DISABLED)
    else if command.WriteParam? then m.(parameters := m.parameters[data[3] := RegisterValue(float, data[3], data[4..])])
    else if IsControl(command) && m.status == ENABLED then Moved(l, m, NewTarget(l, float, command, data, m.target))
    else m
  }

  /** `handleCommand`, on the motors. */
  function Handle(l: Limits, float: Bytes -> real, motors: Motors, msg: Bytes): (after: Motors)
    requires Positive(l)
    ensures after.Keys == motors.Keys
  {
    if |msg| < FRAME_SIZE then motors
    else
      var parsed := Identify(motors.Keys, Id(msg), Data(msg));
      if parsed.1.Some? && parsed.1.value in motors then
        motors[parsed.1.value := Apply(l, float, parsed.0, Data(msg), motors[parsed.1.value])]
      else
        motors
  }

  function Run(l: Limits, float: Bytes -> real, motors: Motors, msgs: seq<Bytes>): (after: Motors)
    requires Positive(l)
    ensures after.Keys == motors.Keys
  {
    if msgs == [] then motors
    else Handle(l, float, Run(l, float, motors, msgs[..|msgs| - 1]), msgs[|msgs| - 1])
  }

  function MasterId(id: nat): nat { (id + 0x10) % 0x1_0000 }

  /** `initDefaults`. */
  function DefaultRegisters(l: Limits, id: nat): Registers {
    map[5 := l.p, 6 := l.v, 7 := id as real, 8 := MasterId(id) as real, 9 := 10000.0, 10 := l.t, 11 := 100.0]
  }

  function NewMotor(l: Limits, id: nat): MotorState {
    MotorState(id, DISABLED, Body(0.0, 0.0, 0.0), MitParam(0.0, 0.0, 0.0, 0.0, 0.0), 35, 40, DefaultRegisters(l, id))
  }

  /** A temperature is the given one at rest and, rounded down, `rate` degrees more for every Nm. */
  predicate Heated(temperature: int, rest: int, rate: real, torque: real) {
    (temperature - rest) as real <= rate * (if torque < 0.0 then -torque else torque) < (temperature - rest + 1) as real
  }

  /** What holds of a motor at all times. */
  predicate Within(l: Limits, m: MotorState) {
    && m.status <= 1
    && -l.p <= m.body.position <= l.p && -l.v <= m.body.velocity <= l.v && -l.t <= m.body.torque <= l.t
    && Heated(m.mosTemp, 35, 2.0, m.body.torque) && Heated(m.rotorTemp, 40, 1.5, m.body.torque)
  }

  ghost predicate AllWithin(l: Limits, motors: Motors) {
    forall id :: id in motors ==> motors[id].canId == id && Within(l, motors[id])
  }

  lemma {:induction false} ApplyWithin(l: Limits, float: Bytes -> real, command: Command, data: Bytes, m: MotorState)
    requires Positive(l) && |data| == 8 && Within(l, m)
    ensures Within(l, Apply(l, float, command, data, m)) && Apply(l, float, command, data, m).canId == m.canId
  {
  }

  lemma {:induction false} HandleWithin(l: Limits, float: Bytes -> real, motors: Motors, msg: Bytes)
    requires Positive(l) && AllWithin(l, motors)
    ensures AllWithin(l, Handle(l, float, motors, msg))
  {
    if |msg| >= FRAME_SIZE {
      var parsed := Identify(motors.Keys, Id(msg), Data(msg));
      if parsed.1.Some? && parsed.1.value in motors {
        ApplyWithin(l, float, parsed.0, Data(msg), motors[parsed.1.value]);
      }
    }
  }

  /** Whatever messages arrive, every motor stays within its limits. */
  lemma {:induction false} AlwaysWithin(l: Limits, float: Bytes -> real, motors: Motors, msgs: seq<Bytes>)
    requires Positive(l) && AllWithin(l, motors)
    ensures AllWithin(l, Run(l, float, motors, msgs))
    decreases |msgs|
  {
    if msgs != [] {
      AlwaysWithin(l, float, motors, msgs[..|msgs| - 1]);
      HandleWithin(l, float, Run(l, float, motors, msgs[..|msgs| - 1]), msgs[|msgs| - 1]);
    }
  }

  /** The message enables motor `id`. */
  predicate Enables(ids: set<nat>, msg: Bytes, id: nat) {
    |msg| >= FRAME_SIZE && Identify(ids, Id(msg), Data(msg)) == (Enable, Some(id))
  }

  /** Stands still: disabled, and moved at most by declaring its position zero. */
  predicate StoodStill(m: MotorState, from: Body) {
    && m.status == DISABLED && m.body.velocity == from.velocity && m.body.torque == from.torque
    && (m.body.position == from.position || m.body.position == 0.0)
  }

  lemma {:induction false} HandleStoodStill(l: Limits, float: Bytes -> real, motors: Motors, msg: Bytes, id: nat, from: Body)
    requires Positive(l) && id in motors && StoodStill(motors[id], from) && !Enables(motors.Keys, msg, id)
    ensures StoodStill(Handle(l, float, motors, msg)[id], from)
  {
  }

  /** A disabled motor does not move, whatever messages arrive, until one enables it. */
  lemma {:induction false} DisabledStandsStill(l: Limits, float: Bytes -> real, motors: Motors, msgs: seq<Bytes>, id: nat)
    requires Positive(l) && id in motors && motors[id].status == DISABLED
    requires forall i :: 0 <= i < |msgs| ==> !Enables(motors.Keys, msgs[i], id)
    ensures StoodStill(Run(l, float, motors, msgs)[id], motors[id].body)
    decreases |msgs|
  {
    if msgs != [] {
      DisabledStandsStill(l, float, motors, msgs[..|msgs| - 1], id);
      HandleStoodStill(l, float, Run(l, float, motors, msgs[..|msgs| - 1]), msgs[|msgs| - 1], id, motors[id].body);
    }
  }

  // ---------------------------------------------------------------------------------------
  // Commands to the simulator.

  function MitMessage(l: Limits, id: nat, p: MitParam): Bytes
    requires Positive(l)
  {
    Frame(id, Pack(EncodeMit(l, p)))
  }

  /** The parameters whose frame starts with seven bytes of ones: at or above every limit, the
      torque in its top sixteenth. */
  predicate Saturated(l: Limits, p: MitParam)
    requires Positive(l)
  {
    && p.q >= l.p && p.dq >= l.v && p.kp >= 500.0 && p.kd >= 5.0
    && Clamp(p.tau, -l.t, l.t) >= Decode(0xF00, RangeTau(l))
  }

  lemma {:induction false} SaturatedFrame(l: Limits, p: MitParam)
    requires Positive(l)
    ensures LooksLikeControl(Pack(EncodeMit(l, p))) <==> Saturated(l, p)
  {
    MitLooksLikeControl(EncodeMit(l, p));
    EncodeTop(p.q, RangeQ(l));
    EncodeTop(p.dq, RangeDq(l));
    EncodeTop(p.kp, RangeKp);
    EncodeTop(p.kd, RangeKd);
    EncodeReaches(p.tau, RangeTau(l), 0xF00);
  }

  predicate TargetNear(l: Limits, t: MitParam, p: MitParam)
    requires Positive(l)
  {
    && Near(t.q, p.q, -l.p, l.p, 65535.0) && Near(t.dq, p.dq, -l.v, l.v, 4095.0) && Near(t.tau, p.tau, -l.t, l.t, 4095.0)
    && Near(t.kp, p.kp, 0.0, 500.0, 4095.0) && Near(t.kd, p.kd, 0.0, 5.0, 4095.0)
  }

  lemma {:induction false} DecodedNear(l: Limits, p: MitParam)
    requires Positive(l)
    ensures TargetNear(l, DecodeMit(l, EncodeMit(l, p)), p)
  {
    DecodedNearOne(p.q, RangeQ(l));
    DecodedNearOne(p.dq, RangeDq(l));
    DecodedNearOne(p.kp, RangeKp);
    DecodedNearOne(p.kd, RangeKd);
    DecodedNearOne(p.tau, RangeTau(l));
  }

  /** A MIT message is taken as one exactly if its parameters are not saturated. */
  lemma {:induction false} MitIdentified(l: Limits, ids: set<nat>, id: nat, p: MitParam)
    requires Positive(l) && id in ids && id < 0x1_0000 && id != 0x7FF
    ensures var msg := MitMessage(l, id, p);
            && |msg| == FRAME_SIZE && Id(msg) == id
            && (Identify(ids, id, Data(msg)).0 == MitControl <==> !Saturated(l, p))
            && Identify(ids, id, Data(msg)).1 == Some(id)
  {
    FrameParts(id, Pack(EncodeMit(l, p)));
    SaturatedFrame(l, p);
  }

  /** What a saturated MIT message is taken for, by the code of its torque. */
  function MistakenFor(tau: nat): Command {
    match tau
    case 0xFFB => ClearError
    case 0xFFC => Enable
    case 0xFFD => Disable
    case 0xFFE => SaveZero
    case _ => Unknown
  }

  lemma {:induction false} MitMistaken(l: Limits, ids: set<nat>, id: nat, p: MitParam)
    requires Positive(l) && id in ids && id < 0x1_0000 && Saturated(l, p)
    ensures var msg := MitMessage(l, id, p);
            && |msg| == FRAME_SIZE && Id(msg) == id
            && Identify(ids, id, Data(msg)) == (MistakenFor(Code(p.tau, RangeTau(l))), Some(id))
  {
    var data := Pack(EncodeMit(l, p));
    FrameParts(id, data);
    SaturatedFrame(l, p);
    ControlIdentified(ids, id, data);
    EncodeReaches(p.tau, RangeTau(l), 0xF00);
    TopPage(EncodeMit(l, p));
  }

  lemma {:induction false} ControlIdentified(ids: set<nat>, id: nat, data: Bytes)
    requires id in ids && id < 0x1_0000 && |data| == 8 && LooksLikeControl(data)
    ensures Identify(ids, id, data) == (ControlCommand(data[7]), Some(id))
  {
  }

  lemma {:induction false} TopPage(f: MitFields)
    requires 0xF00 <= f.tau <= 0xFFF
    ensures ControlCommand(Pack(f)[7]) == MistakenFor(f.tau)
  {
    assert f.tau % 256 == f.tau - 0xF00;
  }

  /** An instance: full position, velocity and gains with nearly full torque disable the motor. */
  lemma {:induction false} MitDisables(l: Limits, float: Bytes -> real, motors: Motors, id: nat)
    requires Positive(l) && id in motors && id < 0x1_0000
    ensures var p := MitParam(l.p, l.v, 500.0, 5.0, Decode(0xFFD, RangeTau(l)));
            Handle(l, float, motors, MitMessage(l, id, p))[id].status == DISABLED
  {
    var p := MitParam(l.p, l.v, 500.0, 5.0, Decode(0xFFD, RangeTau(l)));
    EncodeDecode(0xFFD, RangeTau(l));
    EncodeReaches(p.tau, RangeTau(l), 0xF00);
    MitMistaken(l, motors.Keys, id, p);
  }

  predicate OffsetBelow(ids: set<nat>, canId: nat, j: nat) { canId >= j * 0x100 && canId - j * 0x100 in ids }

  /** A command of mode `k`, sent to an identifier that many times 0x100 above the motor's, gets
      there exactly if no motor has that identifier and none is a greater offset below it. */
  lemma {:induction false} ModeRouted(ids: set<nat>, id: nat, k: nat, canId: nat, data: Bytes)
    requires id in ids && 1 <= k <= 3 && canId == id + k * 0x100 && canId < 0x1_0000 && canId != 0x7FF
    requires |data| == 8 && !LooksLikeControl(data)
    ensures Identify(ids, canId, data).1 == Some(id) <==>
            canId !in ids && forall j :: k < j <= 3 ==> !OffsetBelow(ids, canId, j)
    ensures Identify(ids, canId, data).1 == Some(id) ==>
            Identify(ids, canId, data).0 == (if k == 1 then PosVel else if k == 2 then Velocity else PosForce)
  {
    assert canId % 0x1_0000 == canId;
    assert k < 3 ==> (OffsetBelow(ids, canId, 3) <==> canId >= 0x300 && canId - 0x300 in ids);
    assert k < 2 ==> (OffsetBelow(ids, canId, 2) <==> canId >= 0x200 && canId - 0x200 in ids);
  }

  /** To an enabled motor it then sets a target less than one quantum below the parameters
      cut to the limits, moves it, and leaves the other motors alone. */
  lemma {:induction false} MitDelivered(l: Limits, float: Bytes -> real, motors: Motors, id: nat, p: MitParam)
    requires Positive(l) && id in motors && id < 0x1_0000 && id != 0x7FF
    requires motors[id].status == ENABLED && !Saturated(l, p)
    ensures var after := Handle(l, float, motors, MitMessage(l, id, p));
            && after == motors[id := Moved(l, motors[id], after[id].target)]
            && after[id].target == DecodeMit(l, EncodeMit(l, p)) && TargetNear(l, after[id].target, p)
  {
    MitIdentified(l, motors.Keys, id, p);
    FrameParts(id, Pack(EncodeMit(l, p)));
    UnpackPack(EncodeMit(l, p));
    DecodedNear(l, p);
  }

  function NineTenths(n: nat): real { if n == 0 then 1.0 else 0.9 * NineTenths(n - 1) }

  lemma {:induction false} ApproachWithin(x: real, goal: real, limit: real)
    requires -limit <= x <= limit && -limit <= goal <= limit
    ensures Approach(x, goal, limit) - goal == 0.9 * (x - goal)
  {
  }

  /** The distances left to the target. */
  ghost predicate Shrunk(from: Body, to: Body, t: MitParam, factor: real) {
    && to.position - t.q == factor * (from.position - t.q)
    && to.velocity - t.dq == factor * (from.velocity - t.dq)
    && to.torque - t.tau == factor * (from.torque - t.tau)
  }

  lemma {:induction false} ShrinkOnce(l: Limits, from: Body, m: MotorState, t: MitParam, factor: real)
    requires Positive(l) && Within(l, m) && Shrunk(from, m.body, t, factor)
    requires -l.p <= t.q <= l.p && -l.v <= t.dq <= l.v && -l.t <= t.tau <= l.t
    ensures Shrunk(from, Moved(l, m, t).body, t, 0.9 * factor)
  {
    ApproachWithin(m.body.position, t.q, l.p);
    ApproachWithin(m.body.velocity, t.dq, l.v);
    ApproachWithin(m.body.torque, t.tau, l.t);
  }

  lemma {:induction false} TargetWithin(l: Limits, p: MitParam)
    requires Positive(l)
    ensures var t := DecodeMit(l, EncodeMit(l, p));
            -l.p <= t.q <= l.p && -l.v <= t.dq <= l.v && -l.t <= t.tau <= l.t
  {
    var f := EncodeMit(l, p);
    EncodeDecode(f.q, RangeQ(l));
    EncodeDecode(f.dq, RangeDq(l));
    EncodeDecode(f.tau, RangeTau(l));
  }

  lemma {:induction false} CommandShrinks(l: Limits, float: Bytes -> real, motors: Motors, id: nat, p: MitParam,
                                          from: Body, factor: real)
    requires Positive(l) && id in motors && Within(l, motors[id]) && id < 0x1_0000 && id != 0x7FF
    requires motors[id].status == ENABLED && !Saturated(l, p)
    requires Shrunk(from, motors[id].body, DecodeMit(l, EncodeMit(l, p)), factor)
    ensures var after := Handle(l, float, motors, MitMessage(l, id, p))[id];
            after.status == ENABLED && Shrunk(from, after.body, DecodeMit(l, EncodeMit(l, p)), 0.9 * factor)
  {
    MitDelivered(l, float, motors, id, p);
    TargetWithin(l, p);
    ShrinkOnce(l, from, motors[id], DecodeMit(l, EncodeMit(l, p)), factor);
  }

  /** The same command `n` times over: every distance to the target shrinks by 0.9 to the n-th. */
  lemma {:induction false} RepeatedCommandConverges(l: Limits, float: Bytes -> real, motors: Motors, id: nat,
                                                    p: MitParam, msgs: seq<Bytes>)
    requires Positive(l) && AllWithin(l, motors) && id in motors && id < 0x1_0000 && id != 0x7FF
    requires motors[id].status == ENABLED && !Saturated(l, p)
    requires forall i :: 0 <= i < |msgs| ==> msgs[i] == MitMessage(l, id, p)
    ensures var after := Run(l, float, motors, msgs)[id];
            && after.status == ENABLED
            && Shrunk(motors[id].body, after.body, DecodeMit(l, EncodeMit(l, p)), NineTenths(|msgs|))
    decreases |msgs|
  {
    if msgs != [] {
      var rest := msgs[..|msgs| - 1];
      RepeatedCommandConverges(l, float, motors, id, p, rest);
      AlwaysWithin(l, float, motors, rest);
      CommandShrinks(l, float, Run(l, float, motors, rest), id, p, motors[id].body, NineTenths(|rest|));
    }
  }

  // ---------------------------------------------------------------------------------------
  // Feedback to the robot.

  function Clip(t: int): nat { if t < 0 then 0 else if t > 255 then 255 else t }

  function FeedbackOf(l: Limits, m: MotorState): (f: Feedback)
    requires Positive(l)
  {
    Feedback(m.canId, m.status, Code(m.body.position, RangeQ(l)), Code(m.body.velocity, RangeDq(l)),
             Code(m.body.torque, RangeTau(l)), Clip(m.mosTemp), Clip(m.rotorTemp))
  }

  function FeedbackFrame(l: Limits, m: MotorState): Bytes
    requires Positive(l)
  {
    Frame(MasterId(m.canId), FeedbackData(FeedbackOf(l, m)))
  }

  /** The state a motor object keeps. */
  datatype HostState = HostState(status: nat, q: real, dq: real, tau: real, mosTemp: int, rotorTemp: int)

  /** `parseMotorStateData`. */
  function ParseState(l: Limits, data: Bytes): Option<HostState>
    requires Positive(l)
  {
    if |data| < 8 then None
    else
      var r := ReadFeedback(data[..8]);
      Some(HostState(r.status, Decode(r.q, RangeQ(l)), Decode(r.dq, RangeDq(l)), Decode(r.tau, RangeTau(l)),
                     r.mosTemp, r.rotorTemp))
  }

  /** The test of `parseMotorParamData`. */
  predicate LooksLikeParam(data: Bytes) { |data| >= 8 && (data[2] == 0x33 || data[2] == 0x55) }

  function AfterCallback(l: Limits, s: HostState, data: Bytes): HostState
    requires Positive(l)
  {
    if LooksLikeParam(data) then s
    else if ParseState(l, data).Some? then ParseState(l, data).value
    else s
  }

  /** The robot's view of a motor is less than one quantum low, with the temperatures exact up to 255. */
  predicate Follows(l: Limits, s: HostState, m: MotorState)
    requires Positive(l)
  {
    && Near(s.q, m.body.position, -l.p, l.p, 65535.0)
    && Near(s.dq, m.body.velocity, -l.v, l.v, 4095.0)
    && Near(s.tau, m.body.torque, -l.t, l.t, 4095.0)
    && s.mosTemp == (if m.mosTemp > 255 then 255 else m.mosTemp)
    && s.rotorTemp == (if m.rotorTemp > 255 then 255 else m.rotorTemp)
  }

  lemma {:induction false} FeedbackParses(l: Limits, m: MotorState)
    requires Positive(l) && Within(l, m)
    ensures var data := FeedbackData(FeedbackOf(l, m));
            && ParseState(l, data).Some? && Follows(l, ParseState(l, data).value, m)
            && (ParseState(l, data).value.status == m.status <==> m.canId / 16 % 16 == 0 || m.canId / 16 % 16 == m.status)
  {
    var f := FeedbackOf(l, m);
    assert FeedbackData(f)[..8] == FeedbackData(f);
    FeedbackReadsBack(f);
    StatusReadsBack(m.canId, m.status);
    DecodedNearOne(m.body.position, RangeQ(l));
    DecodedNearOne(m.body.velocity, RangeDq(l));
    DecodedNearOne(m.body.torque, RangeTau(l));
  }

  /** Feedback for which the low byte of the position happens to be a parameter code. */
  predicate PositionMistaken(l: Limits, m: MotorState)
    requires Positive(l)
  {
    Code(m.body.position, RangeQ(l)) % 256 == 0x33 || Code(m.body.position, RangeQ(l)) % 256 == 0x55
  }

  lemma {:induction false} MistakenData(l: Limits, m: MotorState)
    requires Positive(l)
    ensures LooksLikeParam(FeedbackData(FeedbackOf(l, m))) <==> PositionMistaken(l, m)
  {
  }

  /** What the callback makes of data that parses. */
  lemma {:induction false} CallbackCases(l: Limits, s: HostState, data: Bytes)
    requires Positive(l) && ParseState(l, data).Some?
    ensures AfterCallback(l, s, data) == if LooksLikeParam(data) then s else ParseState(l, data).value
  {
  }

  lemma {:induction false} SmallId(id: nat)
    requires id < 16
    ensures id / 16 % 16 == 0
  {
  }

  /** From `s` to `s'` the robot has come to follow `m`, or has not noticed. */
  predicate Informed(l: Limits, m: MotorState, s: HostState, s': HostState)
    requires Positive(l)
  {
    if PositionMistaken(l, m) then s' == s else Follows(l, s', m) && s'.status == m.status
  }

  lemma {:induction false} CallbackFollows(l: Limits, m: MotorState, s: HostState)
    requires Positive(l) && Within(l, m) && m.canId < 16
    ensures Informed(l, m, s, AfterCallback(l, s, FeedbackData(FeedbackOf(l, m))))
  {
    MistakenData(l, m);
    SmallId(m.canId);
    FeedbackParses(l, m);
    CallbackCases(l, s, FeedbackData(FeedbackOf(l, m)));
  }

  /** The feedback frame of `m` makes a robot in state `s` follow it, unless the position is
      mistaken; then the robot's view does not change. */
  predicate Informs(l: Limits, m: MotorState, s: HostState)
    requires Positive(l)
  {
    var frame := FeedbackFrame(l, m);
    && |frame| == FRAME_SIZE && Id(frame) == m.canId + 0x10
    && Informed(l, m, s, AfterCallback(l, s, Data(frame)))
  }

  lemma {:induction false} FrameInforms(l: Limits, m: MotorState, s: HostState)
    requires Positive(l) && Within(l, m) && m.canId < 16
    ensures Informs(l, m, s)
  {
    assert (m.canId + 0x10) % 0x1_0000 == m.canId + 0x10;
    FrameParts(m.canId + 0x10, FeedbackData(FeedbackOf(l, m)));
    CallbackFollows(l, m, s);
  }

  /** After any messages, the feedback of any motor with a four-bit identifier informs the robot. */
  lemma {:induction false} FeedbackFollowed(l: Limits, float: Bytes -> real, motors: Motors, msgs: seq<Bytes>,
                                            id: nat, s: HostState)
    requires Positive(l) && AllWithin(l, motors) && id in motors && id < 16
    ensures Informs(l, Run(l, float, motors, msgs)[id], s)
  {
    AlwaysWithin(l, float, motors, msgs);
    FrameInforms(l, Run(l, float, motors, msgs)[id], s);
  }

  // ---------------------------------------------------------------------------------------
  // Registers.

  /** What `handleQueryParam` answers: the motor identifier as sent, the marker of a query, the
      register and its contents, 0 if it has none. */
  function RegisterFrame(bytes: real -> Bytes, m: MotorState, data: Bytes): Bytes
    requires |data| == 8
  {
    var value := if data[3] in m.parameters then m.parameters[data[3]] else 0.0;
    Frame(MasterId(m.canId), [data[0], data[1], 0x33, data[3]] + RegisterBytes(bytes, data[3], value))
  }

  /** `parseMotorParamData`. */
  function ParseParam(float: Bytes -> real, data: Bytes): Option<(nat, real)> {
    if LooksLikeParam(data) then Some((data[3], RegisterValue(float, data[3], data[4..8]))) else None
  }

  /** Conversion to int, towards zero. */
  function Truncated(x: real): int { if x >= 0.0 then x.Floor else -((-x).Floor) }

  lemma {:induction false} TruncatedTowardsZero(x: real)
    ensures x >= 0.0 ==> Truncated(x) as real <= x < (Truncated(x) + 1) as real
    ensures x < 0.0 ==> (Truncated(x) - 1) as real < x <= Truncated(x) as real
  {
  }

  /** The parameters the robot keeps, after a message. */
  function AfterParam(float: Bytes -> real, params: map<nat, int>, data: Bytes): map<nat, int> {
    var p := ParseParam(float, data);
    if p.Some? then params[p.value.0 := Truncated(p.value.1)] else params
  }

  /** The message by which the robot writes (0x55) or queries (0x33) a register. */
  function RegisterMessage(id: nat, code: nat, rid: nat, raw: Bytes): Bytes {
    Frame(0x7FF, [id % 256, id / 256, code, rid] + raw)
  }

  lemma {:induction false} BytesFit(raw: Bytes)
    requires AreBytes(raw)
    ensures Payload.FromLittleEndian(raw) < Payload.Pow256(|raw|)
    decreases |raw|
  {
    if raw != [] {
      BytesFit(raw[1..]);
    }
  }

  /** A register's contents survive the reply: integers below 2^32, and floats that `bytes` and
      `float` give back. */
  predicate Representable(float: Bytes -> real, bytes: real -> Bytes, rid: nat, value: real) {
    if IsIntParam(rid) then 0.0 <= value && value == value.Floor as real && value.Floor < Payload.Pow256(4)
    else |bytes(value)| == 4 && float(bytes(value)) == value
  }

  lemma {:induction false} RegisterRoundTrip(float: Bytes -> real, bytes: real -> Bytes, rid: nat, value: real)
    requires Representable(float, bytes, rid, value)
    ensures |RegisterBytes(bytes, rid, value)| == 4
    ensures RegisterValue(float, rid, RegisterBytes(bytes, rid, value)) == value
  {
    if IsIntParam(rid) {
      Payload.IntegerRoundTrip(value.Floor, 4);
    }
  }

  lemma {:induction false} RegisterMessageParts(id: nat, code: nat, rid: nat, raw: Bytes)
    requires id < 0x1_0000 && |raw| == 4
    ensures var msg := RegisterMessage(id, code, rid, raw);
            && |msg| == FRAME_SIZE && Id(msg) == 0x7FF && Data(msg) == [id % 256, id / 256, code, rid] + raw
  {
    FrameParts(0x7FF, [id % 256, id / 256, code, rid] + raw);
  }

  lemma {:induction false} RegisterIdentified(ids: set<nat>, id: nat, code: nat, rid: nat, raw: Bytes)
    requires id in ids && id < 0x1_0000 && |raw| == 4 && code != 0xFF
    ensures Identify(ids, 0x7FF, [id % 256, id / 256, code, rid] + raw) == (ParamCommand(code), Some(id))
  {
    var data := [id % 256, id / 256, code, rid] + raw;
    assert data[2] == code && !LooksLikeControl(data);
    assert data[0] + data[1] * 256 == id;
  }

  /** The reply for a register, read by the robot, gives its contents. */
  lemma {:induction false} RegisterRead(float: Bytes -> real, bytes: real -> Bytes, m: MotorState, data: Bytes)
    requires |data| == 8
    requires Representable(float, bytes, data[3], if data[3] in m.parameters then m.parameters[data[3]] else 0.0)
    ensures var frame := RegisterFrame(bytes, m, data);
            && |frame| == FRAME_SIZE && Id(frame) == MasterId(m.canId)
            && ParseParam(float, Data(frame)) ==
               Some((data[3], if data[3] in m.parameters then m.parameters[data[3]] else 0.0))
  {
    var value := if data[3] in m.parameters then m.parameters[data[3]] else 0.0;
    var body := [data[0], data[1], 0x33, data[3]] + RegisterBytes(bytes, data[3], value);
    RegisterRoundTrip(float, bytes, data[3], value);
    FrameParts(MasterId(m.canId), body);
    assert body[4..8] == RegisterBytes(bytes, data[3], value);
  }

  /** What a reply consists of, and which registers are integers on the wire. */
  lemma {:induction false} RegisterReply(bytes: real -> Bytes, m: MotorState, data: Bytes)
    requires |data| == 8 && |bytes(if data[3] in m.parameters then m.parameters[data[3]] else 0.0)| == 4
    ensures var value := if data[3] in m.parameters then m.parameters[data[3]] else 0.0;
            var whole := data[3] in {7, 8, 9, 10, 13, 14, 15, 16, 35, 36};
            RegisterFrame(bytes, m, data) ==
            Frame((m.canId + 0x10) % 0x1_0000,
                  [data[0], data[1], 0x33, data[3]] +
                  if whole then Payload.LittleEndian(if value < 0.0 then 0 else value.Floor, 4) else bytes(value))
  {
  }

  /** Writing a register of a motor sets that register and nothing else. */
  lemma {:induction false} RegisterWritten(l: Limits, float: Bytes -> real, motors: Motors, id: nat, rid: nat, raw: Bytes)
    requires Positive(l) && id in motors && id < 0x1_0000 && |raw| == 4
    ensures var m := motors[id];
            Handle(l, float, motors, RegisterMessage(id, 0x55, rid, raw)) ==
            motors[id := m.(parameters := m.parameters[rid := RegisterValue(float, rid, raw)])]
  {
    RegisterMessageParts(id, 0x55, rid, raw);
    RegisterIdentified(motors.Keys, id, 0x55, rid, raw);
    assert ([id % 256, id / 256, 0x55, rid] + raw)[4..] == raw;
  }

  /** A query changes no motor. */
  lemma {:induction false} RegisterQueried(l: Limits, float: Bytes -> real, motors: Motors, id: nat, rid: nat, raw: Bytes)
    requires Positive(l) && id in motors && id < 0x1_0000 && |raw| == 4
    ensures Handle(l, float, motors, RegisterMessage(id, 0x33, rid, raw)) == motors
  {
    RegisterMessageParts(id, 0x33, rid, raw);
    RegisterIdentified(motors.Keys, id, 0x33, rid, raw);
  }

  lemma {:induction false} RegisterReplied(l: Limits, bytes: real -> Bytes, motors: Motors, id: nat, code: nat, rid: nat, raw: Bytes)
    requires Positive(l) && id in motors && id < 0x1_0000 && |raw| == 4 && (code == 0x33 || code == 0x55)
    ensures Reply(l, bytes, motors, RegisterMessage(id, code, rid, raw)) ==
            Some(RegisterFrame(bytes, motors[id], [id % 256, id / 256, code, rid] + raw))
  {
    RegisterMessageParts(id, code, rid, raw);
    RegisterIdentified(motors.Keys, id, code, rid, raw);
  }

  /** A register written and later queried, or just written: the answer, read by the robot, is what
      was written, whatever the four bytes mean. */
  lemma {:induction false} WrittenIsRead(l: Limits, float: Bytes -> real, bytes: real -> Bytes, motors: Motors, id: nat,
                                         rid: nat, raw: Bytes, code: nat)
    requires Positive(l) && id in motors && id < 0x1_0000 && |raw| == 4 && AreBytes(raw) && (code == 0x33 || code == 0x55)
    requires !IsIntParam(rid) ==> |bytes(float(raw))| == 4 && float(bytes(float(raw))) == float(raw)
    ensures var after := Handle(l, float, motors, RegisterMessage(id, 0x55, rid, raw));
            var reply := Reply(l, bytes, after, RegisterMessage(id, code, rid, raw));
            && reply.Some? && |reply.value| == FRAME_SIZE
            && ParseParam(float, Data(reply.value)) == Some((rid, RegisterValue(float, rid, raw)))
  {
    RegisterWritten(l, float, motors, id, rid, raw);
    var after := Handle(l, float, motors, RegisterMessage(id, 0x55, rid, raw));
    RegisterReplied(l, bytes, after, id, code, rid, raw);
    BytesFit(raw);
    RegisterRead(float, bytes, after[id], [id % 256, id / 256, code, rid] + raw);
  }

  // ---------------------------------------------------------------------------------------
  // A mistaken position can come up: one command is enough.

  const EnableMessage: Bytes := Frame(1, [0xFF, 0xFF, 0xFF, 0xFF, 0xFF, 0xFF, 0xFF, 0xFC])

  function UnluckyParam(l: Limits): MitParam
    requires Positive(l)
  {
    MitParam(Decode(33285, RangeQ(l)), 0.0, 0.0, 0.0, 0.0)
  }

  lemma {:induction false} Enabled(l: Limits, float: Bytes -> real)
    requires Positive(l)
    ensures Handle(l, float, map[1 := NewMotor(l, 1)], EnableMessage) == map[1 := NewMotor(l, 1).(status := ENABLED)]
  {
    var data := [0xFF, 0xFF, 0xFF, 0xFF, 0xFF, 0xFF, 0xFF, 0xFC];
    FrameParts(1, data);
    assert LooksLikeControl(data);
    assert Identify({1}, 1, data) == (Enable, Some(1));
    assert (map[1 := NewMotor(l, 1)]).Keys == {1};
  }

  lemma {:induction false} UnluckyPosition(l: Limits)
    requires Positive(l)
    ensures Code(Approach(0.0, Decode(33285, RangeQ(l)), l.p), RangeQ(l)) == 0x8033
  {
    var r := RangeQ(l);
    var q := Quantum(r);
    DecodeByQuantum(33285, r);
    TopQuanta(r);
    assert l.p == 32767.5 * q;
    assert Decode(33285, r) == 517.5 * q;
    var x := Approach(0.0, Decode(33285, r), l.p);
    assert x == 51.75 * q;
    EncodeByQuantum(x, r, 0x8033);
  }

  /** A motor with identifier 1 and any limits: enabled and sent one command, it stands at a
      position that the robot does not see. */
  lemma {:induction false} MistakenPositionReached(l: Limits, float: Bytes -> real)
    requires Positive(l)
    ensures var msgs := [EnableMessage, MitMessage(l, 1, UnluckyParam(l))];
            PositionMistaken(l, Run(l, float, map[1 := NewMotor(l, 1)], msgs)[1])
  {
    Enabled(l, float);
    RunTwo(l, float, map[1 := NewMotor(l, 1)], EnableMessage, MitMessage(l, 1, UnluckyParam(l)));
    UnluckyCommand(l, float, map[1 := NewMotor(l, 1).(status := ENABLED)]);
  }

  lemma {:induction false} RunTwo(l: Limits, float: Bytes -> real, motors: Motors, a: Bytes, b: Bytes)
    requires Positive(l)
    ensures Run(l, float, motors, [a, b]) == Handle(l, float, Handle(l, float, motors, a), b)
  {
    assert [a, b][..1] == [a] && [a][..0] == [];
    assert Run(l, float, motors, []) == motors;
    assert Run(l, float, motors, [a]) == Handle(l, float, motors, a);
  }

  lemma {:induction false} UnluckyCommand(l: Limits, float: Bytes -> real, motors: Motors)
    requires Positive(l) && 1 in motors && motors[1].status == ENABLED && motors[1].body.position == 0.0
    ensures PositionMistaken(l, Handle(l, float, motors, MitMessage(l, 1, UnluckyParam(l)))[1])
  {
    UnluckyTarget(l);
    MitDelivered(l, float, motors, 1, UnluckyParam(l));
    UnluckyMove(l, motors[1], DecodeMit(l, EncodeMit(l, UnluckyParam(l))));
  }

  lemma {:induction false} UnluckyTarget(l: Limits)
    requires Positive(l)
    ensures !Saturated(l, UnluckyParam(l))
    ensures DecodeMit(l, EncodeMit(l, UnluckyParam(l))).q == Decode(33285, RangeQ(l))
  {
    EncodeDecode(33285, RangeQ(l));
  }

  lemma {:induction false} UnluckyMove(l: Limits, m: MotorState, t: MitParam)
    requires Positive(l) && m.body.position == 0.0 && t.q == Decode(33285, RangeQ(l))
    ensures PositionMistaken(l, Moved(l, m, t))
  {
    UnluckyPosition(l);
  }

  // ---------------------------------------------------------------------------------------
  // The two programs.

  /** The frame that answers a message, of the motor as it is after it. */
  function Reply(l: Limits, bytes: real -> Bytes, motors: Motors, msg: Bytes): Option<Bytes>
    requires Positive(l)
  {
    if |msg| < FRAME_SIZE then None
    else
      var parsed := Identify(motors.Keys, Id(msg), Data(msg));
      if parsed.1.None? || parsed.1.value !in motors then None
      else if parsed.0.Unknown? then None
      else if parsed.0.QueryParam? || parsed.0.WriteParam? then
        Some(RegisterFrame(bytes, motors[parsed.1.value], Data(msg)))
      else
        Some(FeedbackFrame(l, motors[parsed.1.value]))
  }

  class DamiaoMultiSimulator {
    const limits: Limits
    /** Reads a float32 from its four bytes, and writes one. */
    const float: Bytes -> real
    const bytes: real -> Bytes
    var motors: Motors

    constructor (ids: set<nat>, limits: Limits, float: Bytes -> real, bytes: real -> Bytes)
      requires Positive(limits)
      ensures this.limits == limits && this.float == float && this.bytes == bytes
      ensures motors.Keys == ids && AllWithin(limits, motors)
      ensures forall id :: id in ids ==> motors[id] == NewMotor(limits, id)
    {
      this.limits, this.float, this.bytes := limits, float, bytes;
      motors := map id | id in ids :: NewMotor(limits, id);
    }

    /** `handleCommand`; the result is the frame sent in answer, if any. */
    method HandleCommand(msg: Bytes) returns (reply: Option<Bytes>)
      requires Positive(limits) && AllWithin(limits, motors)
      modifies this
      ensures motors == Handle(limits, float, old(motors), msg) && AllWithin(limits, motors)
      ensures reply == Reply(limits, bytes, motors, msg)
    {
      reply := None;
      HandleWithin(limits, float, motors, msg);
      if |msg| < FRAME_SIZE { return; }
      var parsed := Identify(motors.Keys, Id(msg), Data(msg));
      if parsed.1.None? || parsed.1.value !in motors { return; }
      var id := parsed.1.value;
      var motor := motors[id];
      match parsed.0 {
        case Enable => motor := motor.(status := ENABLED);
        case Disable =>
          motor := motor.(status := DISABLED, target := motor.target.(q := 0.0, dq := 0.0, tau := 0.0));
        case SaveZero => motor := motor.(body := motor.body.(position := 0.0));
        case ClearError => motor := motor.(status := DISABLED);
        case MitControl | PosVel | Velocity | PosForce =>
          if motor.status == ENABLED {
            motor := Moved(limits, motor, NewTarget(limits, float, parsed.0, Data(msg), motor.target));
          }
        case Refresh =>
        case QueryParam =>
          assert motors == motors[id := motor];
          return Some(RegisterFrame(bytes, motor, Data(msg)));
        case WriteParam =>
          var data := Data(msg);
          motor := motor.(parameters := motor.parameters[data[3] := RegisterValue(float, data[3], data[4..])]);
          motors := motors[id := motor];
          return Some(RegisterFrame(bytes, motor, data));
        case Unknown =>
          assert motors == motors[id := motor];
          return;
      }
      motors := motors[id := motor];
      var frame := new nat[FRAME_SIZE];
      BuildFeedbackFrame(motor, frame);
      reply := Some(frame[..]);
    }

    /** `buildFeedbackFrame`. */
    method BuildFeedbackFrame(motor: MotorState, frame: array<nat>)
      requires Positive(limits) && frame.Length == FRAME_SIZE
      modifies frame
      ensures frame[..] == FeedbackFrame(limits, motor)
    {
      var q := Code(motor.body.position, RangeQ(limits));
      var dq := Code(motor.body.velocity, RangeDq(limits));
      var tau := Code(motor.body.torque, RangeTau(limits));
      var f := Feedback(motor.canId, motor.status, q, dq, tau, Clip(motor.mosTemp), Clip(motor.rotorTemp));
      FillFeedback(MasterId(motor.canId), f, frame);
    }

    method FillFeedback(id: nat, f: Feedback, frame: array<nat>)
      requires frame.Length == FRAME_SIZE
      modifies frame
      ensures frame[..] == Frame(id, FeedbackData(f))
    {
      frame[0] := 8;
      frame[1], frame[2], frame[3], frame[4] := id / 0x100_0000 % 256, id / 0x1_0000 % 256, id / 0x100 % 256, id % 256;
      frame[5] := BitOr(f.canId % 256, f.status * 16 % 256);
      frame[6], frame[7] := f.q / 256 % 256, f.q % 256;
      frame[8] := f.dq / 16 % 256;
      frame[9] := f.dq % 16 * 16 + f.tau / 256 % 16;
      frame[10] := f.tau % 256;
      frame[11], frame[12] := f.mosTemp, f.rotorTemp;
      assert frame[1..5] == BigEndian32(id);
      assert frame[5..] == FeedbackData(f);
    }
  }

  class Motor {
    const limits: Limits
    /** Reads a float32 from its four bytes. */
    const float: Bytes -> real
    var state: HostState
    /** m_paramDict. */
    var params: map<nat, int>

    constructor (limits: Limits, float: Bytes -> real)
      ensures this.limits == limits && this.float == float && params == map[]
    {
      this.limits, this.float := limits, float;
      state := HostState(0, 0.0, 0.0, 0.0, 0, 0);
      params := map[];
    }

    /** `setMitControl`: the data bytes sent. */
    method SetMitControl(p: MitParam) returns (data: array<nat>)
      requires Positive(limits)
      ensures fresh(data) && data[..] == Pack(EncodeMit(limits, p))
    {
      var kp, kd := Code(p.kp, RangeKp), Code(p.kd, RangeKd);
      var q, dq, tau := Code(p.q, RangeQ(limits)), Code(p.dq, RangeDq(limits)), Code(p.tau, RangeTau(limits));
      data := Packed(MitFields(q, dq, kp, kd, tau));
    }

    method Packed(f: MitFields) returns (data: array<nat>)
      ensures fresh(data) && data[..] == Pack(f)
    {
      data := new nat[8];
      data[0] := f.q / 256 % 256;
      data[1] := f.q % 256;
      data[2] := f.dq / 16 % 256;
      data[3] := f.dq % 16 * 16 + f.kp / 256 % 16;
      data[4] := f.kp % 256;
      data[5] := f.kd / 16 % 256;
      data[6] := f.kd % 16 * 16 + f.tau / 256 % 16;
      data[7] := f.tau % 256;
    }

    /** `callback`. */
    method Callback(data: Bytes)
      requires Positive(limits)
      modifies this
      ensures state == AfterCallback(limits, old(state), data)
      ensures params == AfterParam(float, old(params), data)
    {
      var param := ParseParam(float, data);
      if param.Some? {
        params := params[param.value.0 := Truncated(param.value.1)];
        return;
      }
      var parsed := ParseState(limits, data);
      if parsed.Some? { state := parsed.value; }
    }
  }
}
