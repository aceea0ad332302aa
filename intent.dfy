/**
 * The intent parser: free text becomes a `{joint, value}` command, either
 * from the external language oracle or from the deterministic keyword
 * classifier the relay falls back to.
 */
module Intent {
  import opened Wrappers
  import opened Text
  import opened Joints

  /** The `value` of a command: Python's None, an int, or a str. */
  datatype Value = Null | Num(n: int) | Str(s: string)

  /** A parsed command, the dictionary `{'joint': ..., 'value': ...}`. */
  datatype Command = Command(joint: string, value: Value)

  const HelpText: string := "This chatbot is for controlling the robotic arm. Try commands like: move base to 45 degrees, close gripper, or emergency stop."

  const ErrorCommand: Command := Command("error", Str(HelpText))

  // ---------------------------------------------------------------------------
  // The search `re.search(r'(\d+)\s*degrees?', text)` and its group 1.
  // ---------------------------------------------------------------------------

  /** The pattern matches with its digit group at `s[i..j]`, its `\s*` at `s[j..k]` and "degree" at `k`. */
  predicate RegexMatch(s: string, i: nat, j: nat, k: nat) {
    && i < j <= k
    && (forall m :: i <= m < j ==> m < |s| && IsDigit(s[m]))
    && (forall m :: j <= m < k ==> m < |s| && IsSpace(s[m]))
    && OccursAt(s, "degree", k)
  }

  /** The end of the run of digits that starts at `i`. */
  function DigitRunEnd(s: string, i: nat): (k: nat)
    requires i <= |s|
    ensures i <= k <= |s|
    ensures forall m :: i <= m < k ==> IsDigit(s[m])
    ensures k < |s| ==> !IsDigit(s[k])
    decreases |s| - i
  {
    if i < |s| && IsDigit(s[i]) then DigitRunEnd(s, i + 1) else i
  }

  /** The end of the run of spaces that starts at `i`. */
  function SpaceRunEnd(s: string, i: nat): (k: nat)
    requires i <= |s|
    ensures i <= k <= |s|
    ensures forall m :: i <= m < k ==> IsSpace(s[m])
    ensures k < |s| ==> !IsSpace(s[k])
    decreases |s| - i
  {
    if i < |s| && IsSpace(s[i]) then SpaceRunEnd(s, i + 1) else i
  }

  /** Whether the pattern matches starting at `i`, trying the greedy runs only. */
  predicate MatchesAt(s: string, i: nat)
    requires i <= |s|
  {
    i < |s| && IsDigit(s[i]) && OccursAt(s, "degree", SpaceRunEnd(s, DigitRunEnd(s, i)))
  }

  /** The bounds of group 1 of the leftmost match starting at or after `from`. */
  function FindDegrees(s: string, from: nat): (g: Option<(nat, nat)>)
    requires from <= |s|
    ensures g.Some? ==> from <= g.value.0 < g.value.1 <= |s|
    ensures g.Some? ==> forall m :: g.value.0 <= m < g.value.1 ==> IsDigit(s[m])
    decreases |s| - from
  {
    if from == |s| then None
    else if MatchesAt(s, from) then Some((from, DigitRunEnd(s, from)))
    else FindDegrees(s, from + 1)
  }

  /** Any match starting at `i` uses the whole digit run and the whole space run that follow `i`. */
  lemma MatchIsGreedy(s: string, i: nat, j: nat, k: nat)
    requires RegexMatch(s, i, j, k)
    ensures i < |s| && j == DigitRunEnd(s, i) && k == SpaceRunEnd(s, j)
  {
    assert OccursAt(s, "degree", k);
    assert |"degree"| == 6 && k + 6 <= |s|;
    assert s[k] == s[k..k + 6][0] == 'd';
    assert !IsDigit(s[k]) && !IsSpace(s[k]);
    assert !IsDigit(s[j]);
  }

  /** The greedy check at `i` succeeds exactly when the pattern has some match starting at `i`. */
  lemma MatchesAtIff(s: string, i: nat)
    requires i <= |s|
    ensures MatchesAt(s, i) <==> exists j, k :: RegexMatch(s, i, j, k)
  {
    if MatchesAt(s, i) {
      var j := DigitRunEnd(s, i);
      var k := SpaceRunEnd(s, j);
      assert RegexMatch(s, i, j, k);
    }
    if exists j, k :: RegexMatch(s, i, j, k) {
      var j, k :| RegexMatch(s, i, j, k);
      MatchIsGreedy(s, i, j, k);
    }
  }

  /**
   * The search finds the leftmost match, and its group is the only digit
   * group a match there can have; when it finds nothing, there is no match.
   */
  lemma {:induction false} FindDegreesIsLeftmostMatch(s: string, from: nat)
    requires from <= |s|
    ensures FindDegrees(s, from).None? ==> forall i, j, k :: from <= i ==> !RegexMatch(s, i, j, k)
    ensures FindDegrees(s, from).Some? ==>
      var (i, j) := FindDegrees(s, from).value;
      && (exists k :: RegexMatch(s, i, j, k))
      && (forall i', j', k' :: from <= i' < i ==> !RegexMatch(s, i', j', k'))
      && (forall j', k' :: RegexMatch(s, i, j', k') ==> j' == j)
    decreases |s| - from
  {
    if from == |s| {
      NoMatchAtEnd(s, from);
    } else if MatchesAt(s, from) {
      MatchHere(s, from);
      assert FindDegrees(s, from) == Some((from, DigitRunEnd(s, from)));
    } else {
      MatchesAtIff(s, from);
      FindDegreesIsLeftmostMatch(s, from + 1);
    }
  }

  /** No match starts at or after the end of the text. */
  lemma NoMatchAtEnd(s: string, from: nat)
    requires from == |s|
    ensures forall i, j, k :: from <= i ==> !RegexMatch(s, i, j, k)
  {
    forall i, j, k | from <= i && RegexMatch(s, i, j, k) ensures false {
      MatchIsGreedy(s, i, j, k);
    }
  }

  /** Where the greedy check succeeds, it yields a match, and every match there has the same group. */
  lemma MatchHere(s: string, from: nat)
    requires from < |s| && MatchesAt(s, from)
    ensures var j := DigitRunEnd(s, from);
      && RegexMatch(s, from, j, SpaceRunEnd(s, j))
      && forall j', k' :: RegexMatch(s, from, j', k') ==> j' == j
  {
    forall j', k' | RegexMatch(s, from, j', k') ensures j' == DigitRunEnd(s, from) {
      MatchIsGreedy(s, from, j', k');
    }
  }

  // ---------------------------------------------------------------------------
  // The keyword classifier `parse_command_simple`.
  // ---------------------------------------------------------------------------

  predicate IsEmergency(s: string) {
    Contains(s, "emergency") || Contains(s, "stop")
  }

  predicate SaysOpen(s: string) {
    Contains(s, "open") || Contains(s, "release")
  }

  predicate SaysClose(s: string) {
    Contains(s, "close") || Contains(s, "grip") || Contains(s, "grab")
  }

  predicate SaysUp(s: string) {
    Contains(s, "up") || Contains(s, "increase") || Contains(s, "raise")
  }

  predicate SaysDown(s: string) {
    Contains(s, "down") || Contains(s, "decrease") || Contains(s, "lower")
  }

  /** The angle clauses, tried for each joint of `order` whose name occurs in `s`, first success winning. */
  function ScanJoints(s: string, order: seq<AngleJoint>, angles: map<AngleJoint, int>): (r: Command)
    requires angles.Keys == AngleJoints
    ensures r == ErrorCommand || exists j :: j in order && r.joint == Name(j) && Contains(s, Name(j)) && r.value.Num?
    decreases |order|
  {
    if order == [] then ErrorCommand
    else
      assert forall j' :: j' in order[1..] ==> j' in order;
      var j := order[0];
      if Contains(s, Name(j)) then
        match FindDegrees(s, 0)
        case Some(g) => Command(Name(j), Num(DigitsValue(s[g.0..g.1])))
        case None =>
          if SaysUp(s) then Command(Name(j), Num(angles[j] + 30))
          else if SaysDown(s) then Command(Name(j), Num(angles[j] - 30))
          else ScanJoints(s, order[1..], angles)
      else ScanJoints(s, order[1..], angles)
  }

  /** `parse_command_simple(text)`, reading the tracked angles for relative moves and changing nothing. */
  function ParseCommandSimple(text: string, angles: map<AngleJoint, int>): (r: Command)
    requires angles.Keys == AngleJoints
    ensures r.joint in {"emergency_stop", "gripper", "error", "base", "shoulder", "elbow", "wrist"}
    ensures r.joint == "emergency_stop" ==> r.value == Null
    ensures r.joint == "gripper" ==> r.value in {Str("open"), Str("closed")}
    ensures r.joint == "error" ==> r.value == Str(HelpText)
    ensures JointNamed(r.joint).Some? ==> r.value.Num?
  {
    var s := Lower(text);
    if IsEmergency(s) then Command("emergency_stop", Null)
    else if Contains(s, "gripper") && SaysOpen(s) then Command("gripper", Str("open"))
    else if Contains(s, "gripper") && SaysClose(s) then Command("gripper", Str("closed"))
    else ScanJoints(s, ScanOrder, angles)
  }

  /** The position of a joint in the classifier's scan order. */
  function Rank(j: AngleJoint): nat {
    match j
    case Base => 0
    case Shoulder => 1
    case Elbow => 2
    case Wrist => 3
  }

  /** Text with "emergency" or "stop" in it is an emergency stop, whatever else it says, and nothing else is. */
  lemma EmergencyStopFirst(text: string, angles: map<AngleJoint, int>)
    requires angles.Keys == AngleJoints
    ensures ParseCommandSimple(text, angles).joint == "emergency_stop" <==> IsEmergency(Lower(text))
    ensures IsEmergency(Lower(text)) ==> ParseCommandSimple(text, angles) == Command("emergency_stop", Null)
  {
  }

  /**
   * With "gripper" in the text (and no emergency word) the command is always
   * for the gripper: "open" or "release" opens it, and otherwise it closes,
   * because "gripper" itself contains "grip".
   */
  lemma GripperNeverFallsThrough(text: string, angles: map<AngleJoint, int>)
    requires angles.Keys == AngleJoints
    requires !IsEmergency(Lower(text)) && Contains(Lower(text), "gripper")
    ensures ParseCommandSimple(text, angles) == Command("gripper", Str(if SaysOpen(Lower(text)) then "open" else "closed"))
  {
    assert StartsWith("gripper", "grip");
    ContainsTransitive(Lower(text), "gripper", "grip");
  }

  /** Without degrees, "up" or "down" words, no joint clause can succeed. */
  lemma {:induction false} ScanJointsNoAngleWord(s: string, order: seq<AngleJoint>, angles: map<AngleJoint, int>)
    requires angles.Keys == AngleJoints
    requires FindDegrees(s, 0).None? && !SaysUp(s) && !SaysDown(s)
    ensures ScanJoints(s, order, angles) == ErrorCommand
    decreases |order|
  {
    if order != [] {
      ScanJointsNoAngleWord(s, order[1..], angles);
    }
  }

  /** The scan settles on the first joint of `order` whose name occurs, once an angle word is present. */
  lemma {:induction false} ScanJointsFirstNamed(s: string, order: seq<AngleJoint>, p: nat, angles: map<AngleJoint, int>)
    requires angles.Keys == AngleJoints
    requires p < |order| && Contains(s, Name(order[p]))
    requires forall q :: 0 <= q < p ==> !Contains(s, Name(order[q]))
    requires FindDegrees(s, 0).Some? || SaysUp(s) || SaysDown(s)
    ensures var j := order[p];
      ScanJoints(s, order, angles) ==
        match FindDegrees(s, 0)
        case Some(g) => Command(Name(j), Num(DigitsValue(s[g.0..g.1])))
        case None => Command(Name(j), Num(if SaysUp(s) then angles[j] + 30 else angles[j] - 30))
    decreases p
  {
    if p > 0 {
      assert !Contains(s, Name(order[0]));
      assert ScanJoints(s, order, angles) == ScanJoints(s, order[1..], angles);
      assert forall q :: 0 <= q < p - 1 ==> order[1..][q] == order[q + 1];
      ScanJointsFirstNamed(s, order[1..], p - 1, angles);
    }
  }

  /**
   * The angle clauses of the classifier. For the first joint, in the order
   * base, shoulder, elbow, wrist, whose name occurs in the text: a
   * "<digits> degree" match gives the digits literally (never negative and
   * never clamped), otherwise an "up" word gives the tracked angle plus 30
   * and a "down" word the tracked angle minus 30; with none of these the
   * text is not understood.
   */
  lemma AngleClauses(text: string, angles: map<AngleJoint, int>, j: AngleJoint)
    requires angles.Keys == AngleJoints
    requires !IsEmergency(Lower(text)) && !Contains(Lower(text), "gripper")
    requires Contains(Lower(text), Name(j))
    requires forall j' :: Rank(j') < Rank(j) ==> !Contains(Lower(text), Name(j'))
    ensures var s := Lower(text); var r := ParseCommandSimple(text, angles);
      match FindDegrees(s, 0)
      case Some(g) => r == Command(Name(j), Num(DigitsValue(s[g.0..g.1]))) && DigitsValue(s[g.0..g.1]) >= 0
      case None =>
        if SaysUp(s) then r == Command(Name(j), Num(angles[j] + 30))
        else if SaysDown(s) then r == Command(Name(j), Num(angles[j] - 30))
        else r == ErrorCommand
  {
    FallsToScan(text, angles);
    ScanClauses(Lower(text), angles, j);
  }

  /** The angle clauses on the lowered text, for the joint scan itself. */
  lemma ScanClauses(s: string, angles: map<AngleJoint, int>, j: AngleJoint)
    requires angles.Keys == AngleJoints
    requires Contains(s, Name(j))
    requires forall j' :: Rank(j') < Rank(j) ==> !Contains(s, Name(j'))
    ensures var r := ScanJoints(s, ScanOrder, angles);
      match FindDegrees(s, 0)
      case Some(g) => r == Command(Name(j), Num(DigitsValue(s[g.0..g.1])))
      case None =>
        if SaysUp(s) then r == Command(Name(j), Num(angles[j] + 30))
        else if SaysDown(s) then r == Command(Name(j), Num(angles[j] - 30))
        else r == ErrorCommand
  {
    if FindDegrees(s, 0).Some? || SaysUp(s) || SaysDown(s) {
      FirstNamedInScanOrder(s, j);
      ScanJointsFirstNamed(s, ScanOrder, Rank(j), angles);
    } else {
      ScanJointsNoAngleWord(s, ScanOrder, angles);
    }
  }

  /** Without an emergency word or "gripper", the classifier is the joint scan. */
  lemma FallsToScan(text: string, angles: map<AngleJoint, int>)
    requires angles.Keys == AngleJoints
    requires !IsEmergency(Lower(text)) && !Contains(Lower(text), "gripper")
    ensures ParseCommandSimple(text, angles) == ScanJoints(Lower(text), ScanOrder, angles)
  {
  }

  /** A joint is at its rank in the scan order, and no joint ahead of it is named when none ranked lower is. */
  lemma FirstNamedInScanOrder(s: string, j: AngleJoint)
    requires forall j' :: Rank(j') < Rank(j) ==> !Contains(s, Name(j'))
    ensures Rank(j) < |ScanOrder| && ScanOrder[Rank(j)] == j
    ensures forall q :: 0 <= q < Rank(j) ==> !Contains(s, Name(ScanOrder[q]))
  {
    forall q | 0 <= q < Rank(j) ensures !Contains(s, Name(ScanOrder[q])) {
      assert Rank(ScanOrder[q]) == q;
    }
  }

  /** Text that names no joint and no emergency or gripper word is not understood. */
  lemma {:induction false} ScanJointsNoName(s: string, order: seq<AngleJoint>, angles: map<AngleJoint, int>)
    requires angles.Keys == AngleJoints
    requires forall j :: j in order ==> !Contains(s, Name(j))
    ensures ScanJoints(s, order, angles) == ErrorCommand
    decreases |order|
  {
    if order != [] {
      assert order[0] in order;
      ScanJointsNoName(s, order[1..], angles);
    }
  }

  lemma NothingRecognised(text: string, angles: map<AngleJoint, int>)
    requires angles.Keys == AngleJoints
    requires !IsEmergency(Lower(text)) && !Contains(Lower(text), "gripper")
    requires forall j :: !Contains(Lower(text), Name(j))
    ensures ParseCommandSimple(text, angles) == ErrorCommand
  {
    ScanJointsNoName(Lower(text), ScanOrder, angles);
  }

  // ---------------------------------------------------------------------------
  // `parse_command`: the oracle first, the classifier when the oracle fails.
  // ---------------------------------------------------------------------------

  /**
   * What the oracle call produced: it raised (no API key, a network error),
   * or its text was turned into a command, which is the error command when
   * no JSON object could be salvaged from it.
   */
  datatype OracleAnswer = Raised | Answered(command: Command)

  function ParseCommand(text: string, angles: map<AngleJoint, int>, oracle: OracleAnswer): (r: Command)
    requires angles.Keys == AngleJoints
    ensures oracle.Raised? ==> r == ParseCommandSimple(text, angles)
  {
    match oracle
    case Raised => ParseCommandSimple(text, angles)
    case Answered(c) => c
  }

  // ---------------------------------------------------------------------------
  // Worked inputs: the help reply's examples and the classifier's own
  // documented cases.
  // ---------------------------------------------------------------------------

  /** The search moves past characters that cannot start the digit group. */
  lemma {:induction false} FindDegreesSkipsNonDigits(s: string, from: nat, to: nat)
    requires from <= to <= |s|
    requires forall m :: from <= m < to ==> !IsDigit(s[m])
    ensures FindDegrees(s, from) == FindDegrees(s, to)
    decreases |s| - from
  {
    if from < to {
      FindDegreesSkipsNonDigits(s, from + 1, to);
    }
  }

  /** Digits at `[i, j)`, one space, then "degree": the search, once at `i`, matches there with group `[i, j)`. */
  lemma GreedyMatchAt(s: string, i: nat, j: nat)
    requires i < j < |s| && (forall m :: i <= m < j ==> IsDigit(s[m]))
    requires s[j] == ' ' && OccursAt(s, "degree", j + 1)
    ensures FindDegrees(s, i) == Some((i, j))
  {
    assert s[j + 1] == s[j + 1..j + 7][0] == 'd';
    assert DigitRunEnd(s, i) == j;
    assert SpaceRunEnd(s, j + 1) == j + 1;
    assert SpaceRunEnd(s, j) == j + 1;
    assert MatchesAt(s, i);
  }

  /** The first-named joint with a degree match takes the match's digits. */
  lemma DegreesClause(s: string, angles: map<AngleJoint, int>, joint: AngleJoint, i: nat, j: nat)
    requires angles.Keys == AngleJoints
    requires var l := Lower(s);
      && !IsEmergency(l) && !Contains(l, "gripper") && Contains(l, Name(joint))
      && (forall j' :: Rank(j') < Rank(joint) ==> !Contains(l, Name(j')))
      && FindDegrees(l, 0) == Some((i, j))
    ensures var l := Lower(s);
      && i <= j <= |l| && (forall m :: i <= m < j ==> IsDigit(l[m]))
      && ParseCommandSimple(s, angles) == Command(Name(joint), Num(DigitsValue(l[i..j])))
  {
    AngleClauses(s, angles, joint);
  }

  /** No joint ranked before the wrist is named. */
  lemma NoJointBeforeWrist(l: string)
    requires !Contains(l, "base") && !Contains(l, "shoulder") && !Contains(l, "elbow")
    ensures forall j' :: Rank(j') < Rank(Wrist) ==> !Contains(l, Name(j'))
  {
    forall j' | Rank(j') < Rank(Wrist)
      ensures !Contains(l, Name(j'))
    {
      match j'
      case Base =>
      case Shoulder =>
      case Elbow =>
    }
  }

  /** No joint is named. */
  lemma NoJointNamed(l: string)
    requires !Contains(l, "base") && !Contains(l, "shoulder") && !Contains(l, "elbow") && !Contains(l, "wrist")
    ensures forall j' :: !Contains(l, Name(j'))
  {
    forall j' ensures !Contains(l, Name(j')) {
      match j'
      case Base =>
      case Shoulder =>
      case Elbow =>
      case Wrist =>
    }
  }

  /** "emergency stop now" is an emergency stop. */
  lemma EmergencyExample(s: string, angles: map<AngleJoint, int>)
    requires s == "emergency stop now" && angles.Keys == AngleJoints
    ensures ParseCommandSimple(s, angles) == Command("emergency_stop", Null)
  {
    assert Lower(s) == s;
    assert s[..9] == "emergency";
    assert StartsWith(s, "emergency");
    EmergencyStopFirst(s, angles);
  }

  /** "close gripper" closes the gripper. */
  lemma CloseGripperExample(s: string, angles: map<AngleJoint, int>)
    requires s == "close gripper" && angles.Keys == AngleJoints
    ensures ParseCommandSimple(s, angles) == Command("gripper", Str("closed"))
  {
    CloseGripperIsLower(s);
    CloseGripperWords(s);
    GripperNeverFallsThrough(s, angles);
  }

  lemma CloseGripperWords(s: string)
    requires s == "close gripper"
    ensures !IsEmergency(s) && !SaysOpen(s) && Contains(s, "gripper")
  {
    CloseGripperLacksEmergency(s);
    CloseGripperLacksStop(s);
    CloseGripperLacksOpen(s);
    CloseGripperLacksRelease(s);
    CloseGripperNamesGripper(s);
  }

  lemma CloseGripperNamesGripper(s: string)
    requires s == "close gripper"
    ensures Contains(s, "gripper")
  {
    assert s[6..13] == "gripper";
    assert OccursAt(s, "gripper", 6);
    ContainsIff(s, "gripper");
  }

  lemma CloseGripperLacksEmergency(s: string)
    requires s == "close gripper"
    ensures !Contains(s, "emergency")
  {
    assert 'm' !in s;
    NotContainsMissingChar(s, "emergency", 'm');
  }

  lemma CloseGripperLacksStop(s: string)
    requires s == "close gripper"
    ensures !Contains(s, "stop")
  {
    assert 't' !in s;
    NotContainsMissingChar(s, "stop", 't');
  }

  lemma CloseGripperLacksOpen(s: string)
    requires s == "close gripper"
    ensures !Contains(s, "open")
  {
    assert 'n' !in s;
    NotContainsMissingChar(s, "open", 'n');
  }

  lemma CloseGripperLacksRelease(s: string)
    requires s == "close gripper"
    ensures !Contains(s, "release")
  {
    assert 'a' !in s;
    NotContainsMissingChar(s, "release", 'a');
  }

  lemma UnrelatedWords(s: string)
    requires s == "what is my name"
    ensures !IsEmergency(s) && !Contains(s, "gripper")
  {
    UnrelatedLacksEmergency(s);
    UnrelatedLacksStop(s);
    UnrelatedLacksGripper(s);
  }


  lemma UnrelatedJoints(s: string)
    requires s == "what is my name"
    ensures !Contains(s, "base") && !Contains(s, "shoulder") && !Contains(s, "elbow") && !Contains(s, "wrist")
  {
    UnrelatedLacksBase(s);
    UnrelatedLacksShoulder(s);
    UnrelatedLacksElbow(s);
    UnrelatedLacksWrist(s);
  }

  lemma UnrelatedLacksEmergency(s: string)
    requires s == "what is my name"
    ensures !Contains(s, "emergency")
  {
    assert 'r' !in s;
    NotContainsMissingChar(s, "emergency", 'r');
  }

  lemma UnrelatedLacksStop(s: string)
    requires s == "what is my name"
    ensures !Contains(s, "stop")
  {
    assert 'o' !in s;
    NotContainsMissingChar(s, "stop", 'o');
  }

  lemma UnrelatedLacksGripper(s: string)
    requires s == "what is my name"
    ensures !Contains(s, "gripper")
  {
    assert 'g' !in s;
    NotContainsMissingChar(s, "gripper", 'g');
  }

  lemma UnrelatedLacksBase(s: string)
    requires s == "what is my name"
    ensures !Contains(s, "base")
  {
    assert 'b' !in s;
    NotContainsMissingChar(s, "base", 'b');
  }

  lemma UnrelatedLacksShoulder(s: string)
    requires s == "what is my name"
    ensures !Contains(s, "shoulder")
  {
    assert 'o' !in s;
    NotContainsMissingChar(s, "shoulder", 'o');
  }

  lemma UnrelatedLacksElbow(s: string)
    requires s == "what is my name"
    ensures !Contains(s, "elbow")
  {
    assert 'o' !in s;
    NotContainsMissingChar(s, "elbow", 'o');
  }

  lemma UnrelatedLacksWrist(s: string)
    requires s == "what is my name"
    ensures !Contains(s, "wrist")
  {
    assert 'r' !in s;
    NotContainsMissingChar(s, "wrist", 'r');
  }

  /** "what is my name" is not understood. */
  lemma UnrelatedExample(s: string, angles: map<AngleJoint, int>)
    requires s == "what is my name" && angles.Keys == AngleJoints
    ensures ParseCommandSimple(s, angles) == ErrorCommand
  {
    UnrelatedIsLower(s);
    UnrelatedWords(s);
    UnrelatedJoints(s);
    NoJointNamed(s);
    NothingRecognised(s, angles);
  }

  lemma BaseExampleAbsentWords(s: string)
    requires s == "move base to 45 degrees"
    ensures !IsEmergency(s) && !Contains(s, "gripper")
  {
    BaseExampleLacksEmergency(s);
    BaseExampleLacksStop(s);
    BaseExampleLacksGripper(s);
  }

  lemma BaseExampleLacksEmergency(s: string)
    requires s == "move base to 45 degrees"
    ensures !Contains(s, "emergency")
  {
    assert 'y' !in s;
    NotContainsMissingChar(s, "emergency", 'y');
  }

  lemma BaseExampleLacksStop(s: string)
    requires s == "move base to 45 degrees"
    ensures !Contains(s, "stop")
  {
    assert 'p' !in s;
    NotContainsMissingChar(s, "stop", 'p');
  }

  lemma BaseExampleLacksGripper(s: string)
    requires s == "move base to 45 degrees"
    ensures !Contains(s, "gripper")
  {
    assert 'p' !in s;
    NotContainsMissingChar(s, "gripper", 'p');
  }

  lemma BaseExampleNamesBase(s: string)
    requires s == "move base to 45 degrees"
    ensures Contains(s, "base")
  {
    assert s[5] == 'b' && s[6] == 'a' && s[7] == 's' && s[8] == 'e';
    assert s[5..9] == "base";
    assert OccursAt(s, "base", 5);
    ContainsIff(s, "base");
  }

  lemma BaseExampleDegrees(s: string)
    requires s == "move base to 45 degrees"
    ensures FindDegrees(s, 0) == Some((13, 15)) && DigitsValue(s[13..15]) == 45
  {
    BaseExampleMatch(s);
    BaseExampleGroupValue(s);
  }

  lemma BaseExampleMatch(s: string)
    requires s == "move base to 45 degrees"
    ensures FindDegrees(s, 0) == Some((13, 15))
  {
    BaseExamplePrefix(s);
    FindDegreesSkipsNonDigits(s, 0, 13);
    BaseExampleSuffix(s);
    GreedyMatchAt(s, 13, 15);
  }

  lemma BaseExamplePrefix(s: string)
    requires s == "move base to 45 degrees"
    ensures forall m :: 0 <= m < 13 ==> !IsDigit(s[m])
  {
  }

  lemma BaseExampleSuffix(s: string)
    requires s == "move base to 45 degrees"
    ensures IsDigit(s[13]) && IsDigit(s[14]) && s[15] == ' ' && OccursAt(s, "degree", 16)
  {
    assert s[16..22] == "degree";
  }

  lemma BaseExampleGroupValue(s: string)
    requires s == "move base to 45 degrees"
    ensures DigitsValue(s[13..15]) == 45
  {
    var d := s[13..15];
    assert d == "45";
    assert d[..1] == "4";
    assert DigitsValue(d[..1][..0]) == 0;
  }

  /** "move base to 45 degrees" moves the base to 45. */
  lemma BaseExample(s: string, angles: map<AngleJoint, int>)
    requires s == "move base to 45 degrees" && angles.Keys == AngleJoints
    ensures ParseCommandSimple(s, angles) == Command("base", Num(45))
  {
    BaseExampleIsLower(s);
    BaseExampleAbsentWords(s);
    BaseExampleNamesBase(s);
    BaseExampleDegrees(s);
    DegreesClause(s, angles, Base, 13, 15);
  }

  /** The worked inputs have no capital letter. */
  lemma CloseGripperIsLower(s: string)
    requires s == "close gripper"
    ensures Lower(s) == s
  {
  }

  lemma UnrelatedIsLower(s: string)
    requires s == "what is my name"
    ensures Lower(s) == s
  {
  }

  lemma BaseExampleIsLower(s: string)
    requires s == "move base to 45 degrees"
    ensures Lower(s) == s
  {
  }

  lemma WristExampleIsLower(s: string)
    requires s == "move wrist to -30 degrees"
    ensures Lower(s) == s
  {
  }

  /** The emergency and gripper words are absent from the worked input. */
  lemma ExampleLacksKeywords(s: string)
    requires s == "move wrist to -30 degrees"
    ensures !IsEmergency(s) && !Contains(s, "gripper")
  {
    ExampleLacksEmergency(s);
    ExampleLacksStop(s);
    ExampleLacksGripper(s);
  }


  /** The worked input names no joint ahead of the wrist. */
  lemma ExampleLacksEarlierJoints(s: string)
    requires s == "move wrist to -30 degrees"
    ensures !Contains(s, "base") && !Contains(s, "shoulder") && !Contains(s, "elbow")
  {
    ExampleLacksBase(s);
    ExampleLacksShoulder(s);
    ExampleLacksElbow(s);
  }

  lemma ExampleLacksEmergency(s: string)
    requires s == "move wrist to -30 degrees"
    ensures !Contains(s, "emergency")
  {
    assert 'y' !in s;
    NotContainsMissingChar(s, "emergency", 'y');
  }

  lemma ExampleLacksStop(s: string)
    requires s == "move wrist to -30 degrees"
    ensures !Contains(s, "stop")
  {
    assert 'p' !in s;
    NotContainsMissingChar(s, "stop", 'p');
  }

  lemma ExampleLacksGripper(s: string)
    requires s == "move wrist to -30 degrees"
    ensures !Contains(s, "gripper")
  {
    assert 'p' !in s;
    NotContainsMissingChar(s, "gripper", 'p');
  }

  lemma ExampleLacksBase(s: string)
    requires s == "move wrist to -30 degrees"
    ensures !Contains(s, "base")
  {
    assert 'b' !in s;
    NotContainsMissingChar(s, "base", 'b');
  }

  lemma ExampleLacksShoulder(s: string)
    requires s == "move wrist to -30 degrees"
    ensures !Contains(s, "shoulder")
  {
    assert 'h' !in s;
    NotContainsMissingChar(s, "shoulder", 'h');
  }

  lemma ExampleLacksElbow(s: string)
    requires s == "move wrist to -30 degrees"
    ensures !Contains(s, "elbow")
  {
    assert 'l' !in s;
    NotContainsMissingChar(s, "elbow", 'l');
  }

  /** The worked input names the wrist. */
  lemma ExampleNamesWrist(s: string)
    requires s == "move wrist to -30 degrees"
    ensures Contains(s, "wrist")
  {
    assert s[5] == 'w' && s[6] == 'r' && s[7] == 'i' && s[8] == 's' && s[9] == 't';
    assert s[5..10] == "wrist";
    assert OccursAt(s, "wrist", 5);
    ContainsIff(s, "wrist");
  }

  /** Where the degree pattern matches in the worked input. */
  lemma ExampleDegrees(s: string)
    requires s == "move wrist to -30 degrees"
    ensures FindDegrees(s, 0) == Some((15, 17))
  {
    ExamplePrefix(s);
    FindDegreesSkipsNonDigits(s, 0, 15);
    ExampleSuffix(s);
    GreedyMatchAt(s, 15, 17);
  }

  lemma ExamplePrefix(s: string)
    requires s == "move wrist to -30 degrees"
    ensures forall m :: 0 <= m < 15 ==> !IsDigit(s[m])
  {
  }

  lemma ExampleSuffix(s: string)
    requires s == "move wrist to -30 degrees"
    ensures IsDigit(s[15]) && IsDigit(s[16]) && s[17] == ' ' && OccursAt(s, "degree", 18)
  {
    assert s[18..24] == "degree";
  }

  /** The digit group of the worked input is "30". */
  lemma ExampleGroupValue(s: string)
    requires s == "move wrist to -30 degrees"
    ensures DigitsValue(s[15..17]) == 30
  {
    var d := s[15..17];
    assert d == "30";
    assert d[..1] == "3";
    assert DigitsValue(d[..1][..0]) == 0;
  }

  /**
   * The help reply's own example "move wrist to -30 degrees", classified
   * without the oracle, targets +30: the pattern's digit group carries no
   * sign.
   */
  lemma NegativeExampleLosesItsSign(s: string, angles: map<AngleJoint, int>)
    requires s == "move wrist to -30 degrees" && angles.Keys == AngleJoints
    ensures ParseCommandSimple(s, angles) == Command("wrist", Num(30))
  {
    WristExampleIsLower(s);
    ExampleLacksKeywords(s);
    ExampleLacksEarlierJoints(s);
    ExampleNamesWrist(s);
    ExampleDegrees(s);
    ExampleGroupValue(s);
    NoJointBeforeWrist(s);
    DegreesClause(s, angles, Wrist, 15, 17);
  }
}
