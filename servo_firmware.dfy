/**
 * The voice-relay firmware (Arduino_ide_code/chatbot.c): each accepted
 * command moves one logical angle by 5 degrees through Arduino's
 * `constrain`, toggles the gripper, or returns everything to the home pose.
 */
module ServoFirmware {
  import opened Device

  /** Arduino's `constrain(x, lo, hi)`. */
  function Constrain(x: int, lo: int, hi: int): (r: int)
    requires lo <= hi
    ensures lo <= r <= hi
    ensures lo <= x <= hi ==> r == x
    ensures x < lo ==> r == lo
    ensures x > hi ==> r == hi
  {
    if x < lo then lo else if x > hi then hi else x
  }

  /** The servo position written for a logical base or wrist angle. */
  function MapToServoAngle(logical: int): (servo: int)
    ensures 0 <= servo <= 180
    ensures -90 <= logical <= 90 ==> servo == logical + 90
    ensures logical <= -90 ==> servo == 0
    ensures logical >= 90 ==> servo == 180
  {
    Constrain(logical + 90, 0, 180)
  }

  /** The state change and response of `handleCommand` for one well-formed request carrying `command`. */
  function Transition(p: Pose, command: string): (h: Handled)
    ensures InRange(p) ==> InRange(h.pose)
    ensures h.response.code == 200 <==> command in Vocabulary
    ensures command !in Vocabulary ==> h == Handled(InvalidCommand, p)
  {
    if command == WaistLeft then Handled(Executing, p.(base := Constrain(p.base - 5, -180, 180)))
    else if command == WaistRight then Handled(Executing, p.(base := Constrain(p.base + 5, -180, 180)))
    else if command == ShoulderUp then Handled(Executing, p.(shoulder := Constrain(p.shoulder + 5, 0, 170)))
    else if command == ShoulderDown then Handled(Executing, p.(shoulder := Constrain(p.shoulder - 5, 0, 170)))
    else if command == ElbowUp then Handled(Executing, p.(elbow := Constrain(p.elbow + 5, 0, 170)))
    else if command == ElbowDown then Handled(Executing, p.(elbow := Constrain(p.elbow - 5, 0, 170)))
    else if command == WristLeft then Handled(Executing, p.(wrist := Constrain(p.wrist - 5, -180, 180)))
    else if command == WristRight then Handled(Executing, p.(wrist := Constrain(p.wrist + 5, -180, 180)))
    else if command == GripperToggle then Handled(Executing, p.(gripperClosed := !p.gripperClosed))
    else if command == EmergencyStop then Handled(Stopped, Home)
    else Handled(InvalidCommand, p)
  }

  /** The pose after the controller has handled `commands` in order. */
  function Run(p: Pose, commands: seq<string>): (q: Pose)
    ensures (forall k :: 0 <= k < |commands| ==> commands[k] !in Vocabulary) ==> q == p
    decreases |commands|
  {
    if commands == [] then p
    else
      assert forall k :: 0 <= k < |commands| - 1 ==> commands[1..][k] == commands[k + 1];
      Run(Transition(p, commands[0]).pose, commands[1..])
  }

  /** No sequence of commands can take an in-range controller out of range. */
  lemma {:induction false} RunStaysInRange(p: Pose, commands: seq<string>)
    requires InRange(p)
    ensures InRange(Run(p, commands))
    decreases |commands|
  {
    if commands != [] {
      RunStaysInRange(Transition(p, commands[0]).pose, commands[1..]);
    }
  }

  /** The waist and wrist commands move only their own angle, by 5 degrees unless that leaves [-180, 180], and always land inside it. */
  lemma LeftRightCommands(p: Pose)
    ensures var q := Transition(p, WaistLeft).pose; q.(base := p.base) == p && -180 <= q.base <= 180 && (-180 <= p.base - 5 <= 180 ==> q.base == p.base - 5)
    ensures var q := Transition(p, WaistRight).pose; q.(base := p.base) == p && -180 <= q.base <= 180 && (-180 <= p.base + 5 <= 180 ==> q.base == p.base + 5)
    ensures var q := Transition(p, WristLeft).pose; q.(wrist := p.wrist) == p && -180 <= q.wrist <= 180 && (-180 <= p.wrist - 5 <= 180 ==> q.wrist == p.wrist - 5)
    ensures var q := Transition(p, WristRight).pose; q.(wrist := p.wrist) == p && -180 <= q.wrist <= 180 && (-180 <= p.wrist + 5 <= 180 ==> q.wrist == p.wrist + 5)
  {
  }

  /** The shoulder and elbow commands move only their own angle, by 5 degrees unless that leaves [0, 170], and always land inside it. */
  lemma UpDownCommands(p: Pose)
    ensures var q := Transition(p, ShoulderUp).pose; q.(shoulder := p.shoulder) == p && 0 <= q.shoulder <= 170 && (0 <= p.shoulder + 5 <= 170 ==> q.shoulder == p.shoulder + 5)
    ensures var q := Transition(p, ShoulderDown).pose; q.(shoulder := p.shoulder) == p && 0 <= q.shoulder <= 170 && (0 <= p.shoulder - 5 <= 170 ==> q.shoulder == p.shoulder - 5)
    ensures var q := Transition(p, ElbowUp).pose; q.(elbow := p.elbow) == p && 0 <= q.elbow <= 170 && (0 <= p.elbow + 5 <= 170 ==> q.elbow == p.elbow + 5)
    ensures var q := Transition(p, ElbowDown).pose; q.(elbow := p.elbow) == p && 0 <= q.elbow <= 170 && (0 <= p.elbow - 5 <= 170 ==> q.elbow == p.elbow - 5)
  {
  }

  /** GRIPPER_TOGGLE flips only the gripper flag, so two toggles restore the pose. */
  lemma GripperToggleInvolution(p: Pose)
    ensures Transition(p, GripperToggle).pose.gripperClosed == !p.gripperClosed
    ensures Transition(p, GripperToggle).pose.(gripperClosed := p.gripperClosed) == p
    ensures Transition(Transition(p, GripperToggle).pose, GripperToggle).pose == p
  {
  }

  /** EMERGENCY_STOP returns every pose to the home pose, and repeating it changes nothing more. */
  lemma EmergencyStopResets(p: Pose)
    ensures Transition(p, EmergencyStop) == Handled(Stopped, Home)
    ensures Transition(Transition(p, EmergencyStop).pose, EmergencyStop).pose == Transition(p, EmergencyStop).pose
  {
  }

  /** The controller's globals, updated in place by each request. */
  class Controller {
    var baseAngle: int
    var shoulderAngle: int
    var elbowAngle: int
    var wristAngle: int
    var gripperState: bool

    function Current(): Pose
      reads this
    {
      Pose(baseAngle, shoulderAngle, elbowAngle, wristAngle, gripperState)
    }

    constructor ()
      ensures Current() == Home
    {
      baseAngle, shoulderAngle, elbowAngle, wristAngle := 90, 90, 90, 90;
      gripperState := false;
    }

    /** `handleCommand` once the request body has been parsed and its `command` field read. */
    method HandleCommand(command: string) returns (response: Response)
      modifies this
      ensures Handled(response, Current()) == Transition(old(Current()), command)
    {
      response := Executing;
      if command == WaistLeft {
        baseAngle := Constrain(baseAngle - 5, -180, 180);
      } else if command == WaistRight {
        baseAngle := Constrain(baseAngle + 5, -180, 180);
      } else if command == ShoulderUp {
        shoulderAngle := Constrain(shoulderAngle + 5, 0, 170);
      } else if command == ShoulderDown {
        shoulderAngle := Constrain(shoulderAngle - 5, 0, 170);
      } else if command == ElbowUp {
        elbowAngle := Constrain(elbowAngle + 5, 0, 170);
      } else if command == ElbowDown {
        elbowAngle := Constrain(elbowAngle - 5, 0, 170);
      } else if command == WristLeft {
        wristAngle := Constrain(wristAngle - 5, -180, 180);
      } else if command == WristRight {
        wristAngle := Constrain(wristAngle + 5, -180, 180);
      } else if command == GripperToggle {
        gripperState := !gripperState;
      } else if command == EmergencyStop {
        baseAngle, shoulderAngle, elbowAngle, wristAngle := 90, 90, 90, 90;
        gripperState := false;
        response := Stopped;
      } else {
        response := InvalidCommand;
        return;
      }
    }
  }
}
