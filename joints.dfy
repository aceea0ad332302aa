/**
 * The relay's joint registry (the `JOINTS` table): the bounds of the four
 * angle joints and the tracked position of every joint, kept for the whole
 * life of the process.
 */
module Joints {
  import opened Wrappers

  datatype AngleJoint = Base | Shoulder | Elbow | Wrist
  datatype GripperState = Open | Closed

  const AngleJoints: set<AngleJoint> := {Base, Shoulder, Elbow, Wrist}

  /** The order in which the keyword classifier looks for joint names. */
  const ScanOrder: seq<AngleJoint> := [Base, Shoulder, Elbow, Wrist]

  /** The joint's key in the registry, as users and the oracle spell it. */
  function Name(j: AngleJoint): string {
    match j
    case Base => "base"
    case Shoulder => "shoulder"
    case Elbow => "elbow"
    case Wrist => "wrist"
  }

  /** Python's `name.title()`. */
  function Title(j: AngleJoint): string {
    match j
    case Base => "Base"
    case Shoulder => "Shoulder"
    case Elbow => "Elbow"
    case Wrist => "Wrist"
  }

  /** The angle joint a registry key names, if any (the lookup `joint in JOINTS` for the angle joints). */
  function JointNamed(s: string): (r: Option<AngleJoint>)
    ensures r.Some? ==> Name(r.value) == s
    ensures r.None? ==> forall j :: Name(j) != s
  {
    if s == "base" then Some(Base)
    else if s == "shoulder" then Some(Shoulder)
    else if s == "elbow" then Some(Elbow)
    else if s == "wrist" then Some(Wrist)
    else None
  }

  function MinAngle(j: AngleJoint): int {
    match j
    case Base => -180
    case Shoulder => 0
    case Elbow => 0
    case Wrist => -180
  }

  function MaxAngle(j: AngleJoint): int {
    match j
    case Base => 180
    case Shoulder => 170
    case Elbow => 170
    case Wrist => 180
  }

  /** The registry's spelling of a gripper state. */
  function StateName(g: GripperState): string {
    match g
    case Open => "open"
    case Closed => "closed"
  }

  /** A snapshot of the registry's mutable part: `current_angle` of each angle joint and the gripper's `current_state`. */
  datatype Tracked = Tracked(angle: map<AngleJoint, int>, gripper: GripperState)

  /** Every angle joint is tracked, within its bounds. */
  predicate WellFormed(t: Tracked) {
    && t.angle.Keys == AngleJoints
    && forall j :: j in t.angle ==> MinAngle(j) <= t.angle[j] <= MaxAngle(j)
  }

  /** The registry at process start: every angle joint at 90 degrees, the gripper open. */
  const Initial: Tracked := Tracked(map[Base := 90, Shoulder := 90, Elbow := 90, Wrist := 90], Open)

  lemma InitialWellFormed()
    ensures WellFormed(Initial)
    ensures forall j :: j in AngleJoints ==> Initial.angle[j] == 90
    ensures Initial.gripper == Open
  {
  }

  /** Setting every angle joint of a full registry to 90 gives the initial angles. */
  lemma ResetToNinety(m: map<AngleJoint, int>)
    requires m.Keys == AngleJoints
    ensures m[Base := 90][Shoulder := 90][Elbow := 90][Wrist := 90] == Initial.angle
  {
  }
}
