/**
 * The step translator and device adapter (`send_to_esp32`): a command is
 * validated against the joint registry, turned into a plan of 5-degree
 * device commands sent one per call, and the registry is updated only once
 * every call of the plan has succeeded.
 */
module Translator {
  import opened Wrappers
  import opened Text
  import opened Joints
  import opened Intent
  import Device

  /** How one call to the device ended: HTTP 200, another status with its body, or the exception the call raised. */
  datatype DeviceReply = Accepted | Rejected(body: string) | TimedOut | Unreachable | Failed(reason: string)

  /** The fixed texts of `send_to_esp32`'s replies. */
  const RejectedPrefix: string := "ESP32 returned error: "
  const TimeoutMessage: string := "ESP32 connection timeout - check if device is powered on and connected to WiFi"
  const UnreachableMessage: string := "Cannot connect to ESP32 - check IP address and network connection"
  const CommunicationPrefix: string := "Communication error: "
  const StopMessage: string := "Emergency stop executed - all joints reset to 90 degrees, gripper open"
  const InvalidGripperMessage: string := "Invalid gripper state (must be 'open' or 'closed')"
  const InvalidJointMessage: string := "Invalid joint"
  const InvalidAngleMessage: string := "Invalid angle value"

  /** The message reported for a failed call. */
  function FailureMessage(reply: DeviceReply): string {
    match reply
    case Accepted => ""
    case Rejected(body) => RejectedPrefix + body
    case TimedOut => TimeoutMessage
    case Unreachable => UnreachableMessage
    case Failed(reason) => CommunicationPrefix + reason
  }

  datatype Status = Success | Error

  /** The dictionary `send_to_esp32` returns, or `Crashed` when an exception escapes it. */
  datatype Outcome = Reply(status: Status, message: string) | Crashed

  /** One dispatch: its outcome, the registry afterwards, and the commands sent to the device, in order. */
  datatype Dispatched = Dispatched(outcome: Outcome, after: Tracked, sent: seq<string>)

  /** `str(value)`, as an error command's message. */
  function Show(v: Value): string {
    match v
    case Null => "None"
    case Num(n) => IntToString(n)
    case Str(s) => s
  }

  /** The replies of the angle branch, built from the joint's name and bounds and the requested angle. */
  function OutOfRangeMessage(j: AngleJoint): string {
    "Angle out of range (" + IntToString(MinAngle(j)) + " to " + IntToString(MaxAngle(j)) + ")"
  }

  function AlreadyAtMessage(j: AngleJoint, a: int): string {
    Title(j) + " already at " + IntToString(a) + " degrees"
  }

  function MovedMessage(j: AngleJoint, a: int): string {
    "Moved " + Name(j) + " to " + IntToString(a) + " degrees"
  }

  /** `value.lower() if value else None` checked against "open" and "closed"; a non-zero int has no `lower`. */
  datatype GripperRequest = Target(state: GripperState) | NotAState | NoLower

  function GripperRequestOf(v: Value): (r: GripperRequest)
    ensures r.Target? ==> v.Str? && StateName(r.state) == Lower(v.s)
    ensures r.NoLower? ==> v.Num?
  {
    match v
    case Null => NotAState
    case Num(n) => if n == 0 then NotAState else NoLower
    case Str(s) =>
      if s == "" then NotAState
      else if Lower(s) == "open" then Target(Open)
      else if Lower(s) == "closed" then Target(Closed)
      else NotAState
  }

  /** `int(value)`: an angle, a `ValueError`, or (for None) a `TypeError` nobody catches. */
  datatype AngleRequest = Angle(degrees: int) | NotAnInteger | NoInt

  function AngleRequestOf(v: Value): (r: AngleRequest)
    ensures r.NoInt? <==> v.Null?
    ensures v.Num? ==> r == Angle(v.n)
    ensures v.Str? ==> (r.Angle? <==> ParseInt(v.s).Some?) && (r.Angle? ==> ParseInt(v.s) == Some(r.degrees))
  {
    match v
    case Null => NoInt
    case Num(n) => Angle(n)
    case Str(s) => match ParseInt(s) case Some(n) => Angle(n) case None => NotAnInteger
  }

  function Abs(x: int): nat {
    if x < 0 then -x else x
  }

  /** `abs(target - current) // 5`: the number of whole 5-degree steps between the two angles. */
  function StepCount(target: int, current: int): (steps: nat)
    ensures steps * 5 <= Abs(target - current) < steps * 5 + 5
  {
    Abs(target - current) / 5
  }

  /** The device command that moves `j` one step up (RIGHT for base and wrist) or down (LEFT). */
  function StepCommand(j: AngleJoint, up: bool): (c: string)
    ensures c in Device.Vocabulary
  {
    match j
    case Base => if up then Device.WaistRight else Device.WaistLeft
    case Shoulder => if up then Device.ShoulderUp else Device.ShoulderDown
    case Elbow => if up then Device.ElbowUp else Device.ElbowDown
    case Wrist => if up then Device.WristRight else Device.WristLeft
  }

  /** The registry's new angle after `steps` successful steps: `min(current + 5*steps, max)` or `max(current - 5*steps, min)`. */
  function Moved(j: AngleJoint, current: int, steps: nat, up: bool): (r: int)
    ensures up ==> r <= MaxAngle(j) && r <= current + steps * 5 && (r == current + steps * 5 || r == MaxAngle(j))
    ensures !up ==> r >= MinAngle(j) && r >= current - steps * 5 && (r == current - steps * 5 || r == MinAngle(j))
  {
    if up then
      (if current + steps * 5 < MaxAngle(j) then current + steps * 5 else MaxAngle(j))
    else
      (if current - steps * 5 > MinAngle(j) then current - steps * 5 else MinAngle(j))
  }

  /** `n` copies of the command `c`. */
  function Repeat(c: string, n: nat): (r: seq<string>)
    ensures |r| == n && forall i :: 0 <= i < n ==> r[i] == c
  {
    if n == 0 then [] else [c] + Repeat(c, n - 1)
  }

  /** The first call in `[from, n)` the device did not accept, or `n` when it accepted them all. */
  function FirstRejection(device: nat -> DeviceReply, from: nat, n: nat): (k: nat)
    requires from <= n
    ensures from <= k <= n
    ensures forall i :: from <= i < k ==> device(i).Accepted?
    ensures k < n ==> !device(k).Accepted?
    decreases n - from
  {
    if from == n then n
    else if !device(from).Accepted? then from
    else FirstRejection(device, from + 1, n)
  }

  /** The first rejected call is the one before which every call was accepted and which was not. */
  lemma {:induction false} FirstRejectionIsFirst(device: nat -> DeviceReply, from: nat, n: nat, k: nat)
    requires from <= k <= n
    requires forall i :: from <= i < k ==> device(i).Accepted?
    requires k < n ==> !device(k).Accepted?
    ensures FirstRejection(device, from, n) == k
    decreases n - from
  {
    if from < k {
      FirstRejectionIsFirst(device, from + 1, n, k);
    }
  }

  /**
   * `send_to_esp32(cmd)` against the registry snapshot `t`, where `device(i)`
   * is the device's answer to the i-th call made while handling `cmd`.
   */
  function Dispatch(t: Tracked, cmd: Command, device: nat -> DeviceReply): (d: Dispatched)
    requires WellFormed(t)
    ensures WellFormed(d.after)
  {
    if cmd.joint == "error" then
      Dispatched(Reply(Error, Show(cmd.value)), t, [])
    else if cmd.joint == "emergency_stop" then
      DispatchStop(t, device)
    else if cmd.joint == "gripper" then
      DispatchGripper(t, cmd.value, device)
    else
      match JointNamed(cmd.joint)
      case None => Dispatched(Reply(Error, InvalidJointMessage), t, [])
      case Some(j) => DispatchMove(t, j, cmd.value, device)
  }

  /** The emergency-stop branch of `send_to_esp32`. */
  function DispatchStop(t: Tracked, device: nat -> DeviceReply): (d: Dispatched)
    requires WellFormed(t)
    ensures WellFormed(d.after)
  {
    InitialWellFormed();
    if device(0).Accepted? then
      Dispatched(Reply(Success, StopMessage), Initial, [Device.EmergencyStop])
    else
      Dispatched(Reply(Error, FailureMessage(device(0))), t, [Device.EmergencyStop])
  }

  /** The gripper branch of `send_to_esp32`. */
  function DispatchGripper(t: Tracked, v: Value, device: nat -> DeviceReply): (d: Dispatched)
    requires WellFormed(t)
    ensures WellFormed(d.after)
  {
    match GripperRequestOf(v)
    case NoLower => Dispatched(Crashed, t, [])
    case NotAState => Dispatched(Reply(Error, InvalidGripperMessage), t, [])
    case Target(g) =>
      if t.gripper != g then
        if device(0).Accepted? then
          Dispatched(Reply(Success, "Gripper is now " + StateName(g)), t.(gripper := g), [Device.GripperToggle])
        else
          Dispatched(Reply(Error, FailureMessage(device(0))), t, [Device.GripperToggle])
      else
        Dispatched(Reply(Success, "Gripper is already " + StateName(g)), t, [])
  }

  /** The angle-joint branch of `send_to_esp32`. */
  function DispatchMove(t: Tracked, j: AngleJoint, v: Value, device: nat -> DeviceReply): (d: Dispatched)
    requires WellFormed(t)
    ensures WellFormed(d.after)
  {
    match AngleRequestOf(v)
    case NoInt => Dispatched(Crashed, t, [])
    case NotAnInteger => Dispatched(Reply(Error, InvalidAngleMessage), t, [])
    case Angle(a) =>
      if !(MinAngle(j) <= a <= MaxAngle(j)) then
        Dispatched(Reply(Error, OutOfRangeMessage(j)), t, [])
      else
        DispatchInRange(t, j, a, device)
  }

  /** The angle branch once the target is known to lie within the joint's bounds: the step plan and the commit. */
  function DispatchInRange(t: Tracked, j: AngleJoint, a: int, device: nat -> DeviceReply): (d: Dispatched)
    requires WellFormed(t) && MinAngle(j) <= a <= MaxAngle(j)
    ensures WellFormed(d.after)
  {
    var current := t.angle[j];
    var steps := StepCount(a, current);
    if steps == 0 then
      Dispatched(Reply(Success, AlreadyAtMessage(j, a)), t, [])
    else
      var up := a > current;
      var command := StepCommand(j, up);
      var k := FirstRejection(device, 0, steps);
      if k < steps then
        Dispatched(Reply(Error, FailureMessage(device(k))), t, Repeat(command, k + 1))
      else
        Dispatched(Reply(Success, MovedMessage(j, a)),
                   t.(angle := t.angle[j := Moved(j, current, steps, up)]), Repeat(command, steps))
  }

  // ---------------------------------------------------------------------------
  // Properties of the translator.
  // ---------------------------------------------------------------------------

  /** An angle that `int()` accepts but that lies outside the joint's bounds is refused before any call, and nothing changes. */
  lemma OutOfRangeRejected(t: Tracked, j: AngleJoint, v: Value, device: nat -> DeviceReply)
    requires WellFormed(t)
    requires AngleRequestOf(v).Angle? && !(MinAngle(j) <= AngleRequestOf(v).degrees <= MaxAngle(j))
    ensures var d := Dispatch(t, Command(Name(j), v), device);
      d.outcome.Reply? && d.outcome.status == Error && d.sent == [] && d.after == t
  {
    DispatchOfAngleJoint(t, j, v, device);
  }

  /** A value `int()` refuses is an error before any call; a None value makes `int()` raise. Nothing changes either way. */
  lemma NonIntegerRejected(t: Tracked, j: AngleJoint, v: Value, device: nat -> DeviceReply)
    requires WellFormed(t)
    requires !AngleRequestOf(v).Angle?
    ensures var d := Dispatch(t, Command(Name(j), v), device);
      d.sent == [] && d.after == t
      && (v.Null? <==> d.outcome.Crashed?)
      && (!v.Null? ==> d.outcome == Reply(Error, InvalidAngleMessage))
  {
  }

  /** Any other joint name is refused before any call. */
  lemma UnknownJointRejected(t: Tracked, cmd: Command, device: nat -> DeviceReply)
    requires WellFormed(t)
    requires cmd.joint !in {"error", "emergency_stop", "gripper", "base", "shoulder", "elbow", "wrist"}
    ensures Dispatch(t, cmd, device) == Dispatched(Reply(Error, InvalidJointMessage), t, [])
  {
  }

  /**
   * The plan for an in-range target: `|target - current| // 5` copies of the
   * joint's command, RIGHT/UP exactly when the target lies above the tracked
   * angle; an empty plan succeeds at once. Without a rejected call all of
   * it is sent.
   */
  lemma MovePlan(t: Tracked, j: AngleJoint, a: int, device: nat -> DeviceReply)
    requires WellFormed(t) && MinAngle(j) <= a <= MaxAngle(j)
    requires forall i :: device(i).Accepted?
    ensures var d := Dispatch(t, Command(Name(j), Num(a)), device);
      && d.outcome.Reply? && d.outcome.status == Success
      && |d.sent| == Abs(a - t.angle[j]) / 5
      && forall i :: 0 <= i < |d.sent| ==> d.sent[i] == StepCommand(j, a > t.angle[j])
  {
    DispatchOfInRange(t, j, a, device);
    AcceptedPlan(t, j, a, device);
  }

  /** An integer target within the joint's bounds goes to the step plan. */
  lemma DispatchOfInRange(t: Tracked, j: AngleJoint, a: int, device: nat -> DeviceReply)
    requires WellFormed(t) && MinAngle(j) <= a <= MaxAngle(j)
    ensures Dispatch(t, Command(Name(j), Num(a)), device) == DispatchInRange(t, j, a, device)
  {
    DispatchOfAngleJoint(t, j, Num(a), device);
  }

  /** With every call accepted, the whole plan is sent and the one-shot update is committed. */
  lemma AcceptedPlan(t: Tracked, j: AngleJoint, a: int, device: nat -> DeviceReply)
    requires WellFormed(t) && MinAngle(j) <= a <= MaxAngle(j)
    requires forall i :: device(i).Accepted?
    ensures var d := DispatchInRange(t, j, a, device);
      var steps := StepCount(a, t.angle[j]);
      var up := a > t.angle[j];
      && d.outcome.Reply? && d.outcome.status == Success
      && d.sent == Repeat(StepCommand(j, up), steps)
      && d.after == t.(angle := t.angle[j := Moved(j, t.angle[j], steps, up)])
  {
    var steps := StepCount(a, t.angle[j]);
    if steps > 0 {
      FirstRejectionIsFirst(device, 0, steps, steps);
    } else {
      assert t.angle[j := t.angle[j]] == t.angle;
    }
  }

  /** A target less than one step away succeeds with no device call and no change. */
  lemma AlreadyThere(t: Tracked, j: AngleJoint, a: int, device: nat -> DeviceReply)
    requires WellFormed(t) && MinAngle(j) <= a <= MaxAngle(j) && -5 < a - t.angle[j] < 5
    ensures var d := Dispatch(t, Command(Name(j), Num(a)), device);
      d.outcome.Reply? && d.outcome.status == Success && d.sent == [] && d.after == t
  {
    DispatchOfInRange(t, j, a, device);
  }

  /** The step commands: WAIST/SHOULDER/ELBOW/WRIST by joint, RIGHT/UP for an upward move and LEFT/DOWN otherwise, all distinct. */
  lemma StepCommandNames(j: AngleJoint, up: bool)
    ensures StepCommand(j, up) == (match j case Base => "WAIST" case Shoulder => "SHOULDER" case Elbow => "ELBOW" case Wrist => "WRIST")
      + "_" + (match j
               case Base => if up then "RIGHT" else "LEFT"
               case Wrist => if up then "RIGHT" else "LEFT"
               case _ => if up then "UP" else "DOWN")
    ensures forall j', up' :: StepCommand(j', up') == StepCommand(j, up) ==> j' == j && up' == up
  {
  }

  /**
   * Once a call of the plan is rejected, the remaining steps are not sent
   * and the registry keeps its pre-call value; the reply reports that call.
   */
  lemma FailedStepKeepsRegistry(t: Tracked, j: AngleJoint, a: int, device: nat -> DeviceReply, k: nat)
    requires WellFormed(t) && MinAngle(j) <= a <= MaxAngle(j)
    requires k < StepCount(a, t.angle[j]) && !device(k).Accepted?
    requires forall i :: 0 <= i < k ==> device(i).Accepted?
    ensures var d := Dispatch(t, Command(Name(j), Num(a)), device);
      && d.outcome == Reply(Error, FailureMessage(device(k)))
      && d.after == t
      && d.sent == Repeat(StepCommand(j, a > t.angle[j]), k + 1)
  {
    DispatchOfInRange(t, j, a, device);
    FirstRejectionIsFirst(device, 0, StepCount(a, t.angle[j]), k);
  }

  /** `k = |a - c| // 5` is the largest number of whole steps that does not pass `a` from `c`. */
  /** A command naming an angle joint goes to that joint's branch. */
  lemma DispatchOfAngleJoint(t: Tracked, j: AngleJoint, v: Value, device: nat -> DeviceReply)
    requires WellFormed(t)
    ensures Dispatch(t, Command(Name(j), v), device) == DispatchMove(t, j, v, device)
  {
    assert JointNamed(Name(j)) == Some(j);
  }

  /**
   * After a fully accepted plan, the tracked angle has moved by whole steps
   * towards the target, stays within the bounds and ends less than 5 degrees
   * from the target, on the same side as the start; nothing else changes.
   */
  lemma SuccessfulMoveLandsNearTarget(t: Tracked, j: AngleJoint, a: int, device: nat -> DeviceReply)
    requires WellFormed(t) && MinAngle(j) <= a <= MaxAngle(j)
    requires forall i :: device(i).Accepted?
    ensures var d := Dispatch(t, Command(Name(j), Num(a)), device);
      var c := t.angle[j];
      var f := d.after.angle[j];
      && MinAngle(j) <= f <= MaxAngle(j)
      && (c <= a ==> c <= f <= a && a - f < 5 && f == c + 5 * StepCount(a, c))
      && (a <= c ==> a <= f <= c && f - a < 5 && f == c - 5 * StepCount(a, c))
      && d.after.gripper == t.gripper
      && forall j' :: j' in t.angle && j' != j ==> d.after.angle[j'] == t.angle[j']
  {
    DispatchOfInRange(t, j, a, device);
    AcceptedPlan(t, j, a, device);
  }

  /** A gripper target equal to the tracked state succeeds with zero device calls and no change. */
  lemma GripperAlreadyThere(t: Tracked, v: Value, device: nat -> DeviceReply)
    requires WellFormed(t) && GripperRequestOf(v) == Target(t.gripper)
    ensures var d := Dispatch(t, Command("gripper", v), device);
      d.outcome.Reply? && d.outcome.status == Success && d.sent == [] && d.after == t
  {
  }

  /** A different valid gripper target issues exactly one toggle; only an accepted toggle records the new state. */
  lemma GripperToggles(t: Tracked, v: Value, g: GripperState, device: nat -> DeviceReply)
    requires WellFormed(t) && GripperRequestOf(v) == Target(g) && g != t.gripper
    ensures var d := Dispatch(t, Command("gripper", v), device);
      && d.sent == [Device.GripperToggle]
      && (device(0).Accepted? ==> d.outcome.Reply? && d.outcome.status == Success && d.after == t.(gripper := g))
      && (!device(0).Accepted? ==> d.outcome == Reply(Error, FailureMessage(device(0))) && d.after == t)
  {
  }

  /** Only "open" and "closed", in any letter case, are gripper states; anything else is refused before any call. */
  lemma GripperValues(v: Value)
    ensures GripperRequestOf(v) == Target(Open) <==> v.Str? && Lower(v.s) == "open"
    ensures GripperRequestOf(v) == Target(Closed) <==> v.Str? && Lower(v.s) == "closed"
    ensures GripperRequestOf(v) == NoLower <==> v.Num? && v.n != 0
  {
    if v.Str? && v.s == "" {
      assert Lower(v.s) == "";
    }
  }

  /** Emergency stop sends one EMERGENCY_STOP; on success every angle is 90 and the gripper open, on failure nothing changes. */
  lemma EmergencyStopResetsRegistry(t: Tracked, v: Value, device: nat -> DeviceReply)
    requires WellFormed(t)
    ensures var d := Dispatch(t, Command("emergency_stop", v), device);
      && d.sent == [Device.EmergencyStop]
      && (device(0).Accepted? ==>
            d.outcome.Reply? && d.outcome.status == Success
            && (forall j :: j in AngleJoints ==> d.after.angle[j] == 90) && d.after.gripper == Open)
      && (!device(0).Accepted? ==> d.outcome.Reply? && d.outcome.status == Error && d.after == t)
  {
    InitialWellFormed();
    DispatchOfStop(t, v, device);
  }

  /** A command for "emergency_stop" goes to the emergency-stop branch, whatever its value. */
  lemma DispatchOfStop(t: Tracked, v: Value, device: nat -> DeviceReply)
    requires WellFormed(t)
    ensures Dispatch(t, Command("emergency_stop", v), device) == DispatchStop(t, device)
  {
  }

  /**
   * The registry is committed only after success: an error reply leaves it
   * as it was, and any change it undergoes follows a non-empty run of calls
   * that the device all accepted.
   */
  lemma RegistryChangesOnlyAfterAcceptedCalls(t: Tracked, cmd: Command, device: nat -> DeviceReply)
    requires WellFormed(t)
    ensures var d := Dispatch(t, cmd, device);
      && (d.outcome.Reply? && d.outcome.status == Error ==> d.after == t)
      && (d.outcome.Crashed? ==> d.after == t && d.sent == [])
      && (d.after != t ==>
            d.outcome.Reply? && d.outcome.status == Success && d.sent != []
            && forall i :: 0 <= i < |d.sent| ==> device(i).Accepted?)
  {
    if cmd.joint !in {"error", "emergency_stop", "gripper"} {
      match JointNamed(cmd.joint)
      case None =>
      case Some(j) =>
        DispatchOfAngleJoint(t, j, cmd.value, device);
        match AngleRequestOf(cmd.value)
        case Angle(a) =>
          if MinAngle(j) <= a <= MaxAngle(j) {
            InRangeCommitsOnlyAfterAcceptedCalls(t, j, a, device);
          }
        case _ =>
    }
  }

  /** The stepping part of the angle branch changes the registry only after a non-empty, fully accepted run of calls. */
  lemma InRangeCommitsOnlyAfterAcceptedCalls(t: Tracked, j: AngleJoint, a: int, device: nat -> DeviceReply)
    requires WellFormed(t) && MinAngle(j) <= a <= MaxAngle(j)
    ensures var d := DispatchInRange(t, j, a, device);
      && d.outcome.Reply?
      && (d.outcome.status == Error ==> d.after == t)
      && (d.after != t ==>
            d.outcome.status == Success && d.sent != []
            && forall i :: 0 <= i < |d.sent| ==> device(i).Accepted?)
  {
    var steps := StepCount(a, t.angle[j]);
    if steps > 0 {
      var k := FirstRejection(device, 0, steps);
    }
  }

  /** Every command sent to the device belongs to its vocabulary. */
  lemma SentCommandsAreValid(t: Tracked, cmd: Command, device: nat -> DeviceReply)
    requires WellFormed(t)
    ensures forall i :: 0 <= i < |Dispatch(t, cmd, device).sent| ==> Dispatch(t, cmd, device).sent[i] in Device.Vocabulary
  {
    match JointNamed(cmd.joint)
    case None =>
    case Some(j) =>
      if cmd.joint !in {"error", "emergency_stop", "gripper"} {
        MoveSendsValidCommands(t, j, cmd.value, device);
      }
  }

  /** The angle branch sends nothing but copies of one step command. */
  lemma MoveSendsValidCommands(t: Tracked, j: AngleJoint, v: Value, device: nat -> DeviceReply)
    requires WellFormed(t)
    ensures forall i :: 0 <= i < |DispatchMove(t, j, v, device).sent| ==> DispatchMove(t, j, v, device).sent[i] in Device.Vocabulary
  {
    match AngleRequestOf(v)
    case Angle(a) =>
      if MinAngle(j) <= a <= MaxAngle(j) {
        InRangePlanIsOneCommand(t, j, a, device);
      }
    case _ =>
  }

  /** Within the bounds, the plan sent is copies of the joint's step command in the direction of the target. */
  lemma InRangePlanIsOneCommand(t: Tracked, j: AngleJoint, a: int, device: nat -> DeviceReply)
    requires WellFormed(t) && MinAngle(j) <= a <= MaxAngle(j)
    ensures var c := StepCommand(j, a > t.angle[j]);
      c in Device.Vocabulary && forall i :: 0 <= i < |DispatchInRange(t, j, a, device).sent| ==> DispatchInRange(t, j, a, device).sent[i] == c
  {
  }

  // ---------------------------------------------------------------------------
  // The registry object and the imperative `send_to_esp32`.
  // ---------------------------------------------------------------------------

  /** The global `JOINTS` table: the fields `send_to_esp32` updates in place. */
  class JointRegistry {
    var currentAngle: map<AngleJoint, int>
    var gripperState: GripperState

    function State(): Tracked
      reads this
    {
      Tracked(currentAngle, gripperState)
    }

    ghost predicate Valid()
      reads this
    {
      WellFormed(State())
    }

    constructor ()
      ensures Valid() && State() == Initial
    {
      currentAngle := Initial.angle;
      gripperState := Initial.gripper;
    }

    /** `send_to_esp32(cmd)`, calling the device once per planned step and stopping at the first failed call. */
    method SendToEsp32(cmd: Command, device: nat -> DeviceReply) returns (outcome: Outcome, sent: seq<string>)
      requires Valid()
      modifies this
      ensures Valid()
      ensures var d := Dispatch(old(State()), cmd, device);
        outcome == d.outcome && sent == d.sent && State() == d.after
    {
      sent := [];
      if cmd.joint == "error" {
        return Reply(Error, Show(cmd.value)), sent;
      }
      if cmd.joint == "emergency_stop" {
        outcome, sent := EmergencyStop(device);
        return;
      }
      if cmd.joint == "gripper" {
        outcome, sent := SetGripper(cmd.value, device);
        return;
      }
      var joint := JointNamed(cmd.joint);
      if joint.None? {
        return Reply(Error, InvalidJointMessage), sent;
      }
      outcome, sent := MoveJoint(joint.value, cmd.value, device);
    }

    /** The emergency-stop branch of `send_to_esp32`: one call, then every angle joint back to 90 and the gripper open. */
    method EmergencyStop(device: nat -> DeviceReply) returns (outcome: Outcome, sent: seq<string>)
      requires Valid()
      modifies this
      ensures Valid()
      ensures var d := DispatchStop(old(State()), device);
        outcome == d.outcome && sent == d.sent && State() == d.after
    {
      var reply := device(0);
      sent := [Device.EmergencyStop];
      if !reply.Accepted? {
        return Reply(Error, FailureMessage(reply)), sent;
      }
      ResetToNinety(currentAngle);
      InitialWellFormed();
      currentAngle := currentAngle[Base := 90][Shoulder := 90][Elbow := 90][Wrist := 90];
      gripperState := Open;
      return Reply(Success, StopMessage), sent;
    }

    /** The gripper branch of `send_to_esp32`: at most one toggle, recorded only once the device accepted it. */
    method SetGripper(v: Value, device: nat -> DeviceReply) returns (outcome: Outcome, sent: seq<string>)
      requires Valid()
      modifies this
      ensures Valid()
      ensures var d := DispatchGripper(old(State()), v, device);
        outcome == d.outcome && sent == d.sent && State() == d.after
    {
      sent := [];
      var request := GripperRequestOf(v);
      if request.NoLower? {
        return Crashed, sent;
      }
      if request.NotAState? {
        return Reply(Error, InvalidGripperMessage), sent;
      }
      if gripperState == request.state {
        return Reply(Success, "Gripper is already " + StateName(request.state)), sent;
      }
      var reply := device(0);
      sent := [Device.GripperToggle];
      if !reply.Accepted? {
        return Reply(Error, FailureMessage(reply)), sent;
      }
      gripperState := request.state;
      return Reply(Success, "Gripper is now " + StateName(request.state)), sent;
    }

    /** The angle-joint branch of `send_to_esp32`: validation, then the step loop. */
    method MoveJoint(j: AngleJoint, v: Value, device: nat -> DeviceReply) returns (outcome: Outcome, sent: seq<string>)
      requires Valid()
      modifies this
      ensures Valid()
      ensures var d := DispatchMove(old(State()), j, v, device);
        outcome == d.outcome && sent == d.sent && State() == d.after
    {
      sent := [];
      var request := AngleRequestOf(v);
      if request.NoInt? {
        return Crashed, sent;
      }
      if request.NotAnInteger? {
        return Reply(Error, InvalidAngleMessage), sent;
      }
      var angle := request.degrees;
      if !(MinAngle(j) <= angle <= MaxAngle(j)) {
        return Reply(Error, OutOfRangeMessage(j)), sent;
      }
      outcome, sent := MoveInRange(j, angle, device);
    }

    /** The angle branch for a target within the joint's bounds: the steps, then the commit. */
    method MoveInRange(j: AngleJoint, angle: int, device: nat -> DeviceReply) returns (outcome: Outcome, sent: seq<string>)
      requires Valid() && MinAngle(j) <= angle <= MaxAngle(j)
      modifies this
      ensures Valid()
      ensures var d := DispatchInRange(old(State()), j, angle, device);
        outcome == d.outcome && sent == d.sent && State() == d.after
    {
      ghost var t := State();
      ghost var d := DispatchInRange(t, j, angle, device);
      sent := [];
      var current := currentAngle[j];
      var totalSteps := StepCount(angle, current);
      if totalSteps == 0 {
        return Reply(Success, AlreadyAtMessage(j, angle)), sent;
      }
      var up := angle > current;
      var command := StepCommand(j, up);
      var failedAt;
      failedAt, sent := SendSteps(command, totalSteps, device);
      if failedAt < totalSteps {
        return Reply(Error, FailureMessage(device(failedAt))), sent;
      }
      var moved := Moved(j, current, totalSteps, up);
      assert d.after == t.(angle := t.angle[j := moved]);
      currentAngle := currentAngle[j := moved];
      return Reply(Success, MovedMessage(j, angle)), sent;
    }

    /**
     * The step loop: one device call per step, stopping at the first call
     * that fails. Returns the index of that call (or `steps` when there is
     * none) and the commands sent, the failed one included.
     */
    static method SendSteps(command: string, steps: nat, device: nat -> DeviceReply) returns (failedAt: nat, sent: seq<string>)
      ensures failedAt == FirstRejection(device, 0, steps)
      ensures sent == Repeat(command, if failedAt < steps then failedAt + 1 else steps)
    {
      sent := [];
      var i := 0;
      while i < steps
        invariant 0 <= i <= steps
        invariant sent == Repeat(command, i)
        invariant forall m :: 0 <= m < i ==> device(m).Accepted?
      {
        var reply := device(i);
        sent := sent + [command];
        if !reply.Accepted? {
          FirstRejectionIsFirst(device, 0, steps, i);
          return i, sent;
        }
        i := i + 1;
      }
      FirstRejectionIsFirst(device, 0, steps, steps);
      return steps, sent;
    }
  }
}
