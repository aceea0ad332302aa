/**
 * How the backend's tracked registry relates to the firmware's state: the
 * one-shot clamped update of `send_to_esp32` equals the firmware stepping
 * through the plan it sent, and the two firmware variants agree on every
 * in-range pose.
 */
module Agreement {
  import opened Joints
  import opened Intent
  import opened Device
  import opened Translator
  import Servo = ServoFirmware
  import Keyboard = KeyboardFirmware

  /** The firmware variable that tracks joint `j`. */
  function AngleOf(p: Pose, j: AngleJoint): int {
    match j
    case Base => p.base
    case Shoulder => p.shoulder
    case Elbow => p.elbow
    case Wrist => p.wrist
  }

  /** `p` with the variable tracking `j` set to `v`. */
  function WithAngle(p: Pose, j: AngleJoint, v: int): (q: Pose)
    ensures AngleOf(q, j) == v
    ensures forall j' :: j' != j ==> AngleOf(q, j') == AngleOf(p, j')
    ensures q.gripperClosed == p.gripperClosed
  {
    match j
    case Base => p.(base := v)
    case Shoulder => p.(shoulder := v)
    case Elbow => p.(elbow := v)
    case Wrist => p.(wrist := v)
  }

  /** The registry and the firmware hold the same angles and the same gripper state. */
  predicate Agrees(t: Tracked, p: Pose) {
    && (forall j :: j in t.angle ==> t.angle[j] == AngleOf(p, j))
    && (p.gripperClosed <==> t.gripper == Closed)
  }

  /** The registry's bounds are the firmware's. */
  lemma AgreementKeepsRange(t: Tracked, p: Pose)
    requires WellFormed(t) && Agrees(t, p)
    ensures InRange(p)
  {
    assert Base in t.angle && Shoulder in t.angle && Elbow in t.angle && Wrist in t.angle;
  }

  /** The backend's initial registry and the firmware's initial globals agree. */
  lemma InitialStatesAgree()
    ensures WellFormed(Initial) && Agrees(Initial, Home)
  {
  }

  /** One firmware step on the joint the plan moves: the backend's update for a single step. */
  lemma OneStep(p: Pose, j: AngleJoint, up: bool)
    requires InRange(p)
    ensures Servo.Transition(p, StepCommand(j, up)).pose == WithAngle(p, j, Moved(j, AngleOf(p, j), 1, up))
  {
    Servo.LeftRightCommands(p);
    Servo.UpDownCommands(p);
  }

  /**
   * The firmware stepping `n` times from an in-range pose ends where the
   * backend's one-shot clamped update `min(x + 5n, max)` / `max(x - 5n, min)`
   * puts the joint; no other variable moves.
   */
  lemma {:induction false} RunOfStepsIsOneShotUpdate(p: Pose, j: AngleJoint, up: bool, n: nat)
    requires InRange(p)
    ensures Servo.Run(p, Repeat(StepCommand(j, up), n)) == WithAngle(p, j, Moved(j, AngleOf(p, j), n, up))
    decreases n
  {
    var x := AngleOf(p, j);
    if n == 0 {
      assert WithAngle(p, j, x) == p;
    } else {
      var c := StepCommand(j, up);
      var q := Servo.Transition(p, c).pose;
      OneStep(p, j, up);
      RunOfRepeat(p, c, n);
      RunOfStepsIsOneShotUpdate(q, j, up, n - 1);
      MovedCompose(j, x, n, up);
      WithAngleTwice(p, j, Moved(j, x, 1, up), Moved(j, x, n, up));
    }
  }

  /** Running `n > 0` copies of a command is one transition followed by the other `n - 1`. */
  lemma RunOfRepeat(p: Pose, c: string, n: nat)
    requires n > 0
    ensures Servo.Run(p, Repeat(c, n)) == Servo.Run(Servo.Transition(p, c).pose, Repeat(c, n - 1))
  {
    assert Repeat(c, n)[1..] == Repeat(c, n - 1);
  }

  /** One clamped step followed by `n - 1` more is `n` clamped steps, from a start within the bounds. */
  lemma MovedCompose(j: AngleJoint, x: int, n: nat, up: bool)
    requires MinAngle(j) <= x <= MaxAngle(j) && n > 0
    ensures Moved(j, Moved(j, x, 1, up), n - 1, up) == Moved(j, x, n, up)
  {
  }

  /** Setting a joint's variable twice keeps the second value only. */
  lemma WithAngleTwice(p: Pose, j: AngleJoint, v: int, w: int)
    ensures WithAngle(WithAngle(p, j, v), j, w) == WithAngle(p, j, w)
  {
  }

  /** The emergency-stop branch: both sides return to the home pose. */
  lemma StopFollowsDevice(t: Tracked, p: Pose, device: nat -> DeviceReply)
    requires WellFormed(t) && Agrees(t, p) && device(0).Accepted?
    ensures var d := DispatchStop(t, device); Agrees(d.after, Servo.Run(p, d.sent))
  {
    RunOne(p, EmergencyStop);
    Servo.EmergencyStopResets(p);
    InitialStatesAgree();
  }

  /** Running a single command is one transition. */
  lemma RunOne(p: Pose, c: string)
    ensures Servo.Run(p, [c]) == Servo.Transition(p, c).pose
  {
    assert [c][1..] == [];
  }

  /** The gripper branch: a toggle is sent exactly when the tracked state must flip. */
  lemma GripperFollowsDevice(t: Tracked, p: Pose, v: Value, device: nat -> DeviceReply)
    requires WellFormed(t) && Agrees(t, p) && device(0).Accepted?
    ensures var d := DispatchGripper(t, v, device); Agrees(d.after, Servo.Run(p, d.sent))
  {
    var d := DispatchGripper(t, v, device);
    if d.sent != [] {
      RunOne(p, GripperToggle);
    }
  }

  /** The angle branch: the whole plan applied by the firmware lands where the one-shot update does. */
  lemma MoveFollowsDevice(t: Tracked, p: Pose, j: AngleJoint, v: Value, device: nat -> DeviceReply)
    requires WellFormed(t) && Agrees(t, p)
    requires forall i :: device(i).Accepted?
    ensures var d := DispatchMove(t, j, v, device); Agrees(d.after, Servo.Run(p, d.sent))
  {
    AgreementKeepsRange(t, p);
    match AngleRequestOf(v)
    case Angle(a) =>
      if MinAngle(j) <= a <= MaxAngle(j) {
        var steps := StepCount(a, t.angle[j]);
        var up := a > t.angle[j];
        AcceptedPlan(t, j, a, device);
        RunOfStepsIsOneShotUpdate(p, j, up, steps);
        UpdateKeepsAgreement(t, p, j, Moved(j, t.angle[j], steps, up));
      }
    case _ =>
  }

  /** Setting the same joint to the same value on both sides keeps them in agreement. */
  lemma UpdateKeepsAgreement(t: Tracked, p: Pose, j: AngleJoint, v: int)
    requires Agrees(t, p)
    ensures Agrees(t.(angle := t.angle[j := v]), WithAngle(p, j, v))
  {
  }

  /**
   * When every device call succeeds, the registry after `send_to_esp32`
   * agrees with the firmware after it has handled exactly the commands sent:
   * tracked state follows device state.
   */
  lemma TrackedStateFollowsDevice(t: Tracked, p: Pose, cmd: Command, device: nat -> DeviceReply)
    requires WellFormed(t) && Agrees(t, p)
    requires forall i :: device(i).Accepted?
    ensures var d := Dispatch(t, cmd, device); Agrees(d.after, Servo.Run(p, d.sent))
  {
    if cmd.joint == "error" {
    } else if cmd.joint == "emergency_stop" {
      StopFollowsDevice(t, p, device);
    } else if cmd.joint == "gripper" {
      GripperFollowsDevice(t, p, cmd.value, device);
    } else if JointNamed(cmd.joint).Some? {
      MoveFollowsDevice(t, p, JointNamed(cmd.joint).value, cmd.value, device);
    }
  }

  /**
   * The accepted limitation: when step `k + 1` of a move fails after `k > 0`
   * accepted steps, the firmware has moved the joint by the first `k` steps
   * while the registry still holds the angle from before the request.
   */
  lemma PartialFailureLeavesRegistryBehind(t: Tracked, p: Pose, j: AngleJoint, a: int, device: nat -> DeviceReply, k: nat)
    requires WellFormed(t) && Agrees(t, p) && MinAngle(j) <= a <= MaxAngle(j)
    requires 0 < k < StepCount(a, t.angle[j]) && !device(k).Accepted?
    requires forall i :: 0 <= i < k ==> device(i).Accepted?
    ensures var d := Dispatch(t, Command(Name(j), Num(a)), device);
      var up := a > t.angle[j];
      && d.after == t
      && |d.sent| == k + 1
      && AngleOf(Servo.Run(p, d.sent[..k]), j) == Moved(j, t.angle[j], k, up)
      && Moved(j, t.angle[j], k, up) != t.angle[j]
  {
    AgreementKeepsRange(t, p);
    var up := a > t.angle[j];
    FailedStepKeepsRegistry(t, j, a, device, k);
    var d := Dispatch(t, Command(Name(j), Num(a)), device);
    assert d.sent[..k] == Repeat(StepCommand(j, up), k);
    RunOfStepsIsOneShotUpdate(p, j, up, k);
  }

  /** From an in-range pose, each keyboard-firmware transition is the voice-firmware transition. */
  lemma KeyboardMatchesServo(p: Pose, command: string)
    requires InRange(p)
    ensures Keyboard.Transition(p, command) == Servo.Transition(p, command)
  {
  }

  /**
   * Outside the range the two firmwares differ: a base angle of 200 stepped
   * left is 195 under keyboard.c's one-sided `max`, and 180 under
   * chatbot.c's two-sided `constrain`.
   */
  lemma FirmwaresDifferOutOfRange()
    ensures Keyboard.Transition(Pose(200, 90, 90, 90, false), WaistLeft).pose.base == 195
    ensures Servo.Transition(Pose(200, 90, 90, 90, false), WaistLeft).pose.base == 180
  {
  }

  /** Hence both firmwares follow the same path through any command sequence from an in-range start. */
  lemma {:induction false} KeyboardRunMatchesServo(p: Pose, commands: seq<string>)
    requires InRange(p)
    ensures Keyboard.Run(p, commands) == Servo.Run(p, commands)
    decreases |commands|
  {
    if commands != [] {
      KeyboardMatchesServo(p, commands[0]);
      KeyboardRunMatchesServo(Servo.Transition(p, commands[0]).pose, commands[1..]);
    }
  }
}
