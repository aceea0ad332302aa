/**
 * The wire contract between the relay and the arm controller: the ten
 * command strings the firmware accepts in the `command` field of a POST to
 * /api/arm/command, and the controller's state (four logical angles and the
 * gripper flag, `false` meaning open).
 */
module Device {
  const WaistLeft: string := "WAIST_LEFT"
  const WaistRight: string := "WAIST_RIGHT"
  const ShoulderUp: string := "SHOULDER_UP"
  const ShoulderDown: string := "SHOULDER_DOWN"
  const ElbowUp: string := "ELBOW_UP"
  const ElbowDown: string := "ELBOW_DOWN"
  const WristLeft: string := "WRIST_LEFT"
  const WristRight: string := "WRIST_RIGHT"
  const GripperToggle: string := "GRIPPER_TOGGLE"
  const EmergencyStop: string := "EMERGENCY_STOP"

  const Vocabulary: set<string> := {
    WaistLeft, WaistRight, ShoulderUp, ShoulderDown, ElbowUp, ElbowDown,
    WristLeft, WristRight, GripperToggle, EmergencyStop
  }

  /** The controller's globals `baseAngle`, `shoulderAngle`, `elbowAngle`, `wristAngle`, `gripperState`. */
  datatype Pose = Pose(base: int, shoulder: int, elbow: int, wrist: int, gripperClosed: bool)

  /** The power-on values of the globals, which EMERGENCY_STOP also restores. */
  const Home: Pose := Pose(90, 90, 90, 90, false)

  /** Base and wrist within [-180, 180], shoulder and elbow within [0, 170]. */
  predicate InRange(p: Pose) {
    && -180 <= p.base <= 180
    && 0 <= p.shoulder <= 170
    && 0 <= p.elbow <= 170
    && -180 <= p.wrist <= 180
  }

  /** The HTTP status code and the `status` field of the JSON body the controller sends back. */
  datatype Response = Response(code: nat, status: string)

  const Executing: Response := Response(200, "Executing")
  const Stopped: Response := Response(200, "Stopped")
  const InvalidCommand: Response := Response(400, "Invalid command")

  /** What one command does: the response and the new pose. */
  datatype Handled = Handled(response: Response, pose: Pose)
}
