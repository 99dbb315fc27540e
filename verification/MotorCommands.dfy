/** The other commands of the motor protocol (tools/DamiaoSimulator.cpp): position and velocity,
    velocity alone, position with limits, the control commands and the refresh.  What each of
    them does to the motor it is meant for, and what it is answered with. */
module MotorCommands {
  import opened Wrappers
  import opened CanFrame
  import opened MotorFrames
  import opened LinearCode
  import opened MotorLink
  import Payload

  /** A command of mode `k`, sent `k` times 0x100 above the motor's identifier, gets there; see
      MotorLink.ModeRouted. */
  predicate Reaches(ids: set<nat>, id: nat, k: nat, data: Bytes) {
    var canId := id + k * 0x100;
    && id in ids && 1 <= k <= 3 && canId < 0x1_0000 && canId != 0x7FF
    && |data| == 8 && !LooksLikeControl(data)
    && canId !in ids && forall j :: k < j <= 3 ==> !OffsetBelow(ids, canId, j)
  }

  function ModeMessage(id: nat, k: nat, data: Bytes): Bytes { Frame(id + k * 0x100, data) }

  /** The value survives being written as a float32 and read again. */
  predicate Survives(float: Bytes -> real, bytes: real -> Bytes, x: real) { |bytes(x)| == 4 && float(bytes(x)) == x }

  /** The data of a position and velocity command, as `setPosvelControl` builds it. */
  function PosVelData(bytes: real -> Bytes, q: real, dq: real): Bytes { bytes(q) + bytes(dq) }

  /** The position, the velocity in hundredths and the torque in ten-thousandths of its limit. */
  function PosForceData(bytes: real -> Bytes, q: real, hundredths: nat, share: nat): Bytes {
    bytes(q) + Payload.LittleEndian(hundredths, 2) + Payload.LittleEndian(share, 2)
  }

  lemma {:induction false} ModeHandled(l: Limits, float: Bytes -> real, motors: Motors, id: nat, k: nat, data: Bytes)
    requires Positive(l) && Reaches(motors.Keys, id, k, data)
    ensures var command := if k == 1 then PosVel else if k == 2 then Velocity else PosForce;
            Handle(l, float, motors, ModeMessage(id, k, data)) ==
            motors[id := Apply(l, float, command, data, motors[id])]
  {
    FrameParts(id + k * 0x100, data);
    ModeRouted(motors.Keys, id, k, id + k * 0x100, data);
  }

  /** To an enabled motor a position and velocity command sets exactly these two targets and moves
      it; the rest of its target and the other motors stay. */
  lemma {:induction false} PosVelDelivered(l: Limits, float: Bytes -> real, bytes: real -> Bytes, motors: Motors, id: nat,
                                           q: real, dq: real)
    requires Positive(l) && Reaches(motors.Keys, id, 1, PosVelData(bytes, q, dq)) && motors[id].status == ENABLED
    requires Survives(float, bytes, q) && Survives(float, bytes, dq)
    ensures var t := motors[id].target;
            Handle(l, float, motors, ModeMessage(id, 1, PosVelData(bytes, q, dq))) ==
            motors[id := Moved(l, motors[id], MitParam(q, dq, t.kp, t.kd, t.tau))]
  {
    var data := PosVelData(bytes, q, dq);
    ModeHandled(l, float, motors, id, 1, data);
    assert data[..4] == bytes(q) && data[4..] == bytes(dq);
  }

  /** A velocity command sets exactly that target; its last four bytes do not matter. */
  lemma {:induction false} VelocityDelivered(l: Limits, float: Bytes -> real, bytes: real -> Bytes, motors: Motors, id: nat,
                                             dq: real, rest: Bytes)
    requires Positive(l) && Reaches(motors.Keys, id, 2, bytes(dq) + rest) && motors[id].status == ENABLED
    requires Survives(float, bytes, dq)
    ensures var t := motors[id].target;
            Handle(l, float, motors, ModeMessage(id, 2, bytes(dq) + rest)) ==
            motors[id := Moved(l, motors[id], MitParam(t.q, dq, t.kp, t.kd, t.tau))]
  {
    ModeHandled(l, float, motors, id, 2, bytes(dq) + rest);
    assert (bytes(dq) + rest)[..4] == bytes(dq);
  }

  /** A position and force command sets the position, the velocity as hundredths and the torque as
      ten-thousandths of its limit. */
  lemma {:induction false} PosForceDelivered(l: Limits, float: Bytes -> real, bytes: real -> Bytes, motors: Motors, id: nat,
                                             q: real, hundredths: nat, share: nat)
    requires Positive(l) && Reaches(motors.Keys, id, 3, PosForceData(bytes, q, hundredths, share))
    requires motors[id].status == ENABLED && Survives(float, bytes, q) && hundredths < 0x1_0000 && share < 0x1_0000
    ensures var t := motors[id].target;
            Handle(l, float, motors, ModeMessage(id, 3, PosForceData(bytes, q, hundredths, share))) ==
            motors[id := Moved(l, motors[id], MitParam(q, hundredths as real / 100.0, t.kp, t.kd, share as real / 10000.0 * l.t))]
  {
    ModeHandled(l, float, motors, id, 3, PosForceData(bytes, q, hundredths, share));
    PosForceRead(bytes, q, hundredths, share);
    PosForceTarget(l, float, PosForceData(bytes, q, hundredths, share), motors[id].target, hundredths, share);
  }

  lemma {:induction false} PosForceRead(bytes: real -> Bytes, q: real, hundredths: nat, share: nat)
    requires |bytes(q)| == 4 && hundredths < 0x1_0000 && share < 0x1_0000
    ensures var data := PosForceData(bytes, q, hundredths, share);
            && |data| == 8 && data[..4] == bytes(q)
            && data[4] + data[5] * 256 == hundredths && data[6] + data[7] * 256 == share
  {
    TwoBytes(hundredths);
    TwoBytes(share);
    var data := PosForceData(bytes, q, hundredths, share);
    assert data[4..6] == Payload.LittleEndian(hundredths, 2) && data[6..8] == Payload.LittleEndian(share, 2);
  }

  lemma {:induction false} PosForceTarget(l: Limits, float: Bytes -> real, data: Bytes, t: MitParam, hundredths: nat, share: nat)
    requires Positive(l) && |data| == 8
    requires data[4] + data[5] * 256 == hundredths && data[6] + data[7] * 256 == share
    ensures NewTarget(l, float, PosForce, data, t) ==
            MitParam(float(data[..4]), hundredths as real / 100.0, t.kp, t.kd, share as real / 10000.0 * l.t)
  {
  }

  lemma {:induction false} TwoBytes(n: nat)
    requires n < 0x1_0000
    ensures Payload.LittleEndian(n, 2) == [n % 256, n / 256] && n % 256 + n / 256 * 256 == n
  {
    assert Payload.LittleEndian(n / 256, 1) == [n / 256];
  }

  /** A disabled motor takes no target. */
  lemma {:induction false} ModeRejected(l: Limits, float: Bytes -> real, motors: Motors, id: nat, k: nat, data: Bytes)
    requires Positive(l) && Reaches(motors.Keys, id, k, data) && motors[id].status != ENABLED
    ensures Handle(l, float, motors, ModeMessage(id, k, data)) == motors
  {
    ModeHandled(l, float, motors, id, k, data);
  }

  /** Where a move ends: a tenth of the way to the target, cut off at the limit. */
  predicate Tenth(x: real, from: real, goal: real, limit: real) {
    var y := 0.9 * from + 0.1 * goal;
    x == if y > limit then limit else if y < -limit then -limit else y
  }

  /** Every move goes a tenth of the way, whatever the target, and takes it over. */
  lemma {:induction false} MovesATenth(l: Limits, m: MotorState, t: MitParam)
    requires Positive(l)
    ensures var n := Moved(l, m, t);
            && n.target == t && n.canId == m.canId && n.status == m.status && n.parameters == m.parameters
            && Tenth(n.body.position, m.body.position, t.q, l.p) && Tenth(n.body.velocity, m.body.velocity, t.dq, l.v)
            && Tenth(n.body.torque, m.body.torque, t.tau, l.t)
  {
  }

  // ---------------------------------------------------------------------------------------
  // Control commands.

  function ControlData(last: nat): Bytes { [0xFF, 0xFF, 0xFF, 0xFF, 0xFF, 0xFF, 0xFF, last] }

  lemma {:induction false} ControlHandled(l: Limits, float: Bytes -> real, motors: Motors, id: nat, last: nat)
    requires Positive(l) && id in motors && id < 0x1_0000
    ensures var msg := Frame(id, ControlData(last));
            && |msg| == FRAME_SIZE && Identify(motors.Keys, Id(msg), Data(msg)) == (ControlCommand(last), Some(id))
            && Handle(l, float, motors, msg) == motors[id := Apply(l, float, ControlCommand(last), ControlData(last), motors[id])]
  {
    FrameParts(id, ControlData(last));
    assert LooksLikeControl(ControlData(last));
    ControlIdentified(motors.Keys, id, ControlData(last));
  }

  /** 0xFC enables; 0xFD disables and clears the targets but not the gains; 0xFE declares the
      position zero; 0xFB disables, targets kept; anything else does nothing.  The other motors
      and everything else of this one stay. */
  lemma {:induction false} ControlEffects(l: Limits, float: Bytes -> real, motors: Motors, id: nat, last: nat)
    requires Positive(l) && id in motors && id < 0x1_0000
    ensures var m, after := motors[id], Handle(l, float, motors, Frame(id, ControlData(last)));
            && (last == 0xFC ==> after == motors[id := m.(status := 1)])
            && (last == 0xFD ==> after == motors[id := m.(status := 0, target := MitParam(0.0, 0.0, m.target.kp, m.target.kd, 0.0))])
            && (last == 0xFE ==> after == motors[id := m.(body := Body(0.0, m.body.velocity, m.body.torque))])
            && (last == 0xFB ==> after == motors[id := m.(status := 0)])
            && (last !in {0xFB, 0xFC, 0xFD, 0xFE} ==> after == motors)
  {
    ControlHandled(l, float, motors, id, last);
  }

  /** The four are answered with the feedback of the motor as it then is, anything else not. */
  lemma {:induction false} ControlAnswered(l: Limits, float: Bytes -> real, bytes: real -> Bytes, motors: Motors, id: nat, last: nat)
    requires Positive(l) && id in motors && id < 0x1_0000
    ensures var msg := Frame(id, ControlData(last));
            var after := Handle(l, float, motors, msg);
            Reply(l, bytes, after, msg) ==
            if last in {0xFB, 0xFC, 0xFD, 0xFE} then Some(FeedbackFrame(l, after[id])) else None
  {
    ControlHandled(l, float, motors, id, last);
  }

  /** So are the commands that set targets, taken or rejected. */
  lemma {:induction false} ModeAnswered(l: Limits, float: Bytes -> real, bytes: real -> Bytes, motors: Motors, id: nat, k: nat,
                                        data: Bytes)
    requires Positive(l) && Reaches(motors.Keys, id, k, data)
    ensures var msg := ModeMessage(id, k, data);
            var after := Handle(l, float, motors, msg);
            Reply(l, bytes, after, msg) == Some(FeedbackFrame(l, after[id]))
  {
    FrameParts(id + k * 0x100, data);
    ModeRouted(motors.Keys, id, k, id + k * 0x100, data);
  }

  lemma {:induction false} MitAnswered(l: Limits, float: Bytes -> real, bytes: real -> Bytes, motors: Motors, id: nat, p: MitParam)
    requires Positive(l) && id in motors && id < 0x1_0000 && id != 0x7FF && !Saturated(l, p)
    ensures var msg := MitMessage(l, id, p);
            var after := Handle(l, float, motors, msg);
            Reply(l, bytes, after, msg) == Some(FeedbackFrame(l, after[id]))
  {
    MitIdentified(l, motors.Keys, id, p);
  }

  /** A refresh changes nothing and is answered with feedback. */
  lemma {:induction false} RefreshAnswered(l: Limits, float: Bytes -> real, bytes: real -> Bytes, motors: Motors, id: nat,
                                           rid: nat, raw: Bytes)
    requires Positive(l) && id in motors && id < 0x1_0000 && |raw| == 4
    ensures var msg := RegisterMessage(id, 0xCC, rid, raw);
            Handle(l, float, motors, msg) == motors && Reply(l, bytes, motors, msg) == Some(FeedbackFrame(l, motors[id]))
  {
    RegisterMessageParts(id, 0xCC, rid, raw);
    RegisterIdentified(motors.Keys, id, 0xCC, rid, raw);
  }

  /** An identifier beyond 16 bits finds the motor of its low bits, but is no command to it. */
  lemma {:induction false} HighIdentifierIgnored(ids: set<nat>, id: nat, k: nat, data: Bytes)
    requires id in ids && id < 0x1_0000 && k > 0 && |data| == 8 && !LooksLikeControl(data)
    ensures Identify(ids, id + k * 0x1_0000, data) == (Unknown, Some(id))
  {
    assert (id + k * 0x1_0000) % 0x1_0000 == id;
  }

  /** A motor that nothing was sent to yet, with its registers. */
  lemma {:induction false} NewMotorIs(l: Limits, id: nat)
    requires id < 0x1_0000 - 0x10
    ensures var m := NewMotor(l, id);
            && m.canId == id && m.status == 0 && m.body == Body(0.0, 0.0, 0.0)
            && m.target == MitParam(0.0, 0.0, 0.0, 0.0, 0.0) && m.mosTemp == 35 && m.rotorTemp == 40
    ensures var r := NewMotor(l, id).parameters;
            && r.Keys == {5, 6, 7, 8, 9, 10, 11}
            && r[5] == l.p && r[6] == l.v && r[7] == id as real && r[8] == (id + 0x10) as real
            && r[9] == 10000.0 && r[10] == l.t && r[11] == 100.0
  {
  }
}
