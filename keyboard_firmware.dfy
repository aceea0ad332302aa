/**
 * The keyboard-control firmware (Arduino_ide_code/keyboard.c): the same
 * command vocabulary and globals as the voice-relay firmware, with each
 * 5-degree step bounded on one side only, through `min` or `max`.
 */
module KeyboardFirmware {
  import opened Device

  /** C's `min(a, b)`. */
  function Min(a: int, b: int): (r: int)
    ensures r <= a && r <= b && (r == a || r == b)
  {
    if a < b then a else b
  }

  /** C's `max(a, b)`. */
  function Max(a: int, b: int): (r: int)
    ensures r >= a && r >= b && (r == a || r == b)
  {
    if a < b then b else a
  }

  /** The state change and response of `handleCommand` for one well-formed request carrying `command`. */
  function Transition(p: Pose, command: string): (h: Handled)
    ensures InRange(p) ==> InRange(h.pose)
    ensures h.response.code == 200 <==> command in Vocabulary
    ensures command !in Vocabulary ==> h == Handled(InvalidCommand, p)
  {
    if command == WaistLeft then Handled(Executing, p.(base := Max(-180, p.base - 5)))
    else if command == WaistRight then Handled(Executing, p.(base := Min(180, p.base + 5)))
    else if command == ShoulderUp then Handled(Executing, p.(shoulder := Min(170, p.shoulder + 5)))
    else if command == ShoulderDown then Handled(Executing, p.(shoulder := Max(0, p.shoulder - 5)))
    else if command == ElbowUp then Handled(Executing, p.(elbow := Min(170, p.elbow + 5)))
    else if command == ElbowDown then Handled(Executing, p.(elbow := Max(0, p.elbow - 5)))
    else if command == WristLeft then Handled(Executing, p.(wrist := Max(-180, p.wrist - 5)))
    else if command == WristRight then Handled(Executing, p.(wrist := Min(180, p.wrist + 5)))
    else if command == GripperToggle then Handled(Executing, p.(gripperClosed := !p.gripperClosed))
    else if command == EmergencyStop then Handled(Stopped, Home)
    else Handled(InvalidCommand, p)
  }

  /** The pose after the controller has handled `commands` in order. */
  function Run(p: Pose, commands: seq<string>): (q: Pose)
    ensures (forall k :: 0 <= k < |commands| ==> commands[k] !in Vocabulary) ==> q == p
    decreases |commands|
  {
    if commands == [] then p
    else
      assert forall k :: 0 <= k < |commands| - 1 ==> commands[1..][k] == commands[k + 1];
      Run(Transition(p, commands[0]).pose, commands[1..])
  }

  /**
   * Each 5-degree command changes only its own angle and is bounded on the
   * side it moves towards only: it moves by exactly 5 unless that passes the
   * bound, and then lands on the bound (`min(x + 5, hi)` / `max(x - 5, lo)`).
   * Nothing pulls a value back from the other side.
   */
  lemma StepCommandsAreOneSided(p: Pose)
    ensures var q := Transition(p, WaistLeft).pose; q.(base := p.base) == p && q.base == (if p.base - 5 >= -180 then p.base - 5 else -180)
    ensures var q := Transition(p, WaistRight).pose; q.(base := p.base) == p && q.base == (if p.base + 5 <= 180 then p.base + 5 else 180)
    ensures var q := Transition(p, ShoulderUp).pose; q.(shoulder := p.shoulder) == p && q.shoulder == (if p.shoulder + 5 <= 170 then p.shoulder + 5 else 170)
    ensures var q := Transition(p, ShoulderDown).pose; q.(shoulder := p.shoulder) == p && q.shoulder == (if p.shoulder - 5 >= 0 then p.shoulder - 5 else 0)
    ensures var q := Transition(p, ElbowUp).pose; q.(elbow := p.elbow) == p && q.elbow == (if p.elbow + 5 <= 170 then p.elbow + 5 else 170)
    ensures var q := Transition(p, ElbowDown).pose; q.(elbow := p.elbow) == p && q.elbow == (if p.elbow - 5 >= 0 then p.elbow - 5 else 0)
    ensures var q := Transition(p, WristLeft).pose; q.(wrist := p.wrist) == p && q.wrist == (if p.wrist - 5 >= -180 then p.wrist - 5 else -180)
    ensures var q := Transition(p, WristRight).pose; q.(wrist := p.wrist) == p && q.wrist == (if p.wrist + 5 <= 180 then p.wrist + 5 else 180)
  {
  }

  /** GRIPPER_TOGGLE flips only the gripper flag; EMERGENCY_STOP always lands on the home pose. */
  lemma ToggleAndStop(p: Pose)
    ensures Transition(p, GripperToggle).pose == p.(gripperClosed := !p.gripperClosed)
    ensures Transition(p, EmergencyStop) == Handled(Stopped, Home)
  {
  }

  /** The controller's globals, updated in place by each request. */
  class Controller {
    var baseAngle: int
    var shoulderAngle: int
    var elbowAngle: int
    var wristAngle: int
    var gripperState: bool

    function Current(): Pose
      reads this
    {
      Pose(baseAngle, shoulderAngle, elbowAngle, wristAngle, gripperState)
    }

    constructor ()
      ensures Current() == Home
    {
      baseAngle, shoulderAngle, elbowAngle, wristAngle := 90, 90, 90, 90;
      gripperState := false;
    }

    /** `handleCommand` once the request body has been parsed and its `command` field read. */
    method HandleCommand(command: string) returns (response: Response)
      modifies this
      ensures Handled(response, Current()) == Transition(old(Current()), command)
    {
      response := Executing;
      if command == WaistLeft {
        baseAngle := Max(-180, baseAngle - 5);
      } else if command == WaistRight {
        baseAngle := Min(180, baseAngle + 5);
      } else if command == ShoulderUp {
        shoulderAngle := Min(170, shoulderAngle + 5);
      } else if command == ShoulderDown {
        shoulderAngle := Max(0, shoulderAngle - 5);
      } else if command == ElbowUp {
        elbowAngle := Min(170, elbowAngle + 5);
      } else if command == ElbowDown {
        elbowAngle := Max(0, elbowAngle - 5);
      } else if command == WristLeft {
        wristAngle := Max(-180, wristAngle - 5);
      } else if command == WristRight {
        wristAngle := Min(180, wristAngle + 5);
      } else if command == GripperToggle {
        gripperState := !gripperState;
      } else if command == EmergencyStop {
        baseAngle, shoulderAngle, elbowAngle, wristAngle := 90, 90, 90, 90;
        gripperState := false;
        response := Stopped;
      } else {
        response := InvalidCommand;
        return;
      }
    }
  }
}
