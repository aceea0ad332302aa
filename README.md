# Vox_GPT robotic-arm relay, modelled in Dafny

Vox_GPT drives a five-servo robotic arm from chat messages. A Flask backend
receives `/chat` requests. It answers blank input, help requests and
greetings itself. Anything else is classified into a single intent
`{joint, value}`: first by a language model, with a keyword classifier as
fallback. The backend validates the intent against its joint registry
(`JOINTS`) and sends a plan of 5-degree step commands to an ESP8266, one
HTTP call per step. It updates the registry only once every step has been
accepted. The firmware (two variants) keeps four integer angles and a
gripper flag, and applies one of ten fixed commands per request with
saturating ±5 arithmetic.

The model has one module per part of the system:

- `Text`: the Python string operations the backend relies on. These are `sub in s`, `lower()`, `strip()`, `int(s)` and `str(n)`.
- `Joints`: the registry's joints, their bounds and the tracked state.
- `Intent`: the degree regex, the keyword classifier `parse_command_simple` and the oracle step of `parse_command`.
- `Translator`: `send_to_esp32`. It is a specification function `Dispatch` plus the class `JointRegistry`, whose fields are the registry and whose methods update them in place, with the step loop.
- `Routing`: `handle_help_request`, `handle_greeting` and `chat`. It is a function `ChatSpec` plus a `Chat` method on a live registry.
- `Device`: the firmware's wire vocabulary and pose.
- `ServoFirmware` (chatbot.c) and `KeyboardFirmware` (keyboard.c): each is a transition function plus a `Controller` class whose `HandleCommand` updates the five globals.
- `Agreement`: how the backend's registry relates to the firmware state.

External effects become parameters:

- The language model is an `OracleAnswer`: either it raised, or it produced a command.
- The device is a function `device: nat -> DeviceReply`, the reply to the i-th call made while handling one request.
- An exception that escapes `send_to_esp32` becomes `Crashed`. `chat` answers it with an HTTP 500 (`ServerError`).

The main cross-component results:

- `Agreement.TrackedStateFollowsDevice`: when every call succeeds, the registry after a request agrees with the firmware after it has handled exactly the commands that were sent.
- `Agreement.RunOfStepsIsOneShotUpdate`: the backend's clamped one-shot update equals `n` single firmware steps.
- `Agreement.PartialFailureLeavesRegistryBehind`: a failure part-way through a plan leaves the registry behind the arm.

Behaviour of the code worth knowing:

- The fallback classifier runs only when the oracle call raises. An oracle answer with no salvageable JSON becomes the error intent, so the reply is the help text.
- The help phrases are "help", "what can i do" and "how to use", and they are checked before greetings. `Routing.GreetingIsNotHelp` shows that no greeting contains a help phrase.
- Two inputs raise inside `send_to_esp32` and give an HTTP 500 rather than a chat reply:
  - an angle joint with value `None` (`int(None)`);
  - a gripper with a non-zero integer value (`.lower()` on an `int`).
- The fallback classifier drops the sign of a degree literal. The help reply's own example "move wrist to -30 degrees" targets +30 (`Intent.NegativeExampleLosesItsSign`).
- The classifier is a function of the text and the tracked angles. It cannot change the registry.

## Model

| member | source | states |
|---|---|---|
| Text.Lower | Vox_GPT/Backend/chatbot.py:35 | `lower()` keeps the length and lowers each character in place |
| Text.ContainsIff | Vox_GPT/Backend/chatbot.py:38 | the scan used for `sub in s` holds exactly when `sub` occurs at some index of `s` |
| Text.ContainsTransitive | Vox_GPT/Backend/chatbot.py:42-46 | a substring of a substring is a substring (used for "grip" inside "gripper") |
| Text.NotContainsMissingChar | Vox_GPT/Backend/chatbot.py:38 | a text lacking some character of a keyword does not contain the keyword |
| Text.ContainsInConcat | Vox_GPT/Backend/chatbot.py:131-135 | a substring of either part of a concatenation is a substring of the whole |
| Text.Strip | Vox_GPT/Backend/chatbot.py:276 | `strip()` is the slice `s[i..k]` with only whitespace before `i` and after `k`, has no edge whitespace, and is empty exactly when `s` is all whitespace |
| Text.StripTrimmed | Vox_GPT/Backend/chatbot.py:276 | stripping a string with no edge whitespace returns it unchanged |
| Text.LowerOfStrippedIsStripped | Vox_GPT/Backend/chatbot.py:140 | lowering a stripped message leaves nothing to strip, so `handle_greeting`'s `lower().strip()` is the stripped lowered message |
| Text.ParseIntOfIntToString | Vox_GPT/Backend/chatbot.py:208 | `int(str(i)) == i` for every integer |
| Text.ParseIntAccepts | Vox_GPT/Backend/chatbot.py:208 | `int(s)` succeeds exactly when the stripped text is a digit group with an optional `+`/`-` sign; a negative result comes from a leading `-` |
| Text.IntToString | Vox_GPT/Backend/chatbot.py:208 | `str(i)` starts with `-` exactly for a negative `i`, and the rest is a digit group whose value is `abs(i)` |
| Text.NatToStringIsDigitGroup | Vox_GPT/Backend/chatbot.py:208 | `str(n)` of a natural number is an unsigned, unpadded digit string whose value is `n` |
| Joints.JointNamed | Vox_GPT/Backend/chatbot.py:204-205 | the joint named by a string, or none exactly when it names no angle joint |
| Joints.InitialWellFormed | Vox_GPT/Backend/chatbot.py:25-31 | the initial registry has the four angle joints at 90, inside their bounds, gripper open |
| Joints.ResetToNinety | Vox_GPT/Backend/chatbot.py:164-166 | setting base, shoulder, elbow and wrist to 90 gives exactly the initial angles |
| Intent.FindDegrees | Vox_GPT/Backend/chatbot.py:52 | a found group lies inside the text and consists of digits |
| Intent.MatchIsGreedy | Vox_GPT/Backend/chatbot.py:52 | any match of `(\d+)\s*degree` at a position takes the whole digit run and the whole whitespace run there |
| Intent.MatchHere | Vox_GPT/Backend/chatbot.py:52 | where the pattern matches, the greedy digit and whitespace runs form a match, and every match there ends its group at the same place |
| Intent.GreedyMatchAt | Vox_GPT/Backend/chatbot.py:52 | a digit run followed by one space and "degree" is what the search returns from its first digit |
| Intent.FindDegreesIsLeftmostMatch | Vox_GPT/Backend/chatbot.py:52-55 | the search returns the leftmost match, with the only possible group at that position, and returns none exactly when there is no match |
| Intent.ParseCommandSimple | Vox_GPT/Backend/chatbot.py:33-62 | the joint is one of the seven intents; emergency stop has value None, the gripper "open" or "closed", an angle joint an integer, an error the fixed help text |
| Intent.EmergencyStopFirst | Vox_GPT/Backend/chatbot.py:38-39 | the result is an emergency stop with value None if and only if the lowered text contains "emergency" or "stop" |
| Intent.GripperNeverFallsThrough | Vox_GPT/Backend/chatbot.py:42-46 | with "gripper" present and no emergency word, the result is open when "open"/"release" occurs and closed otherwise |
| Intent.AngleClauses | Vox_GPT/Backend/chatbot.py:49-60 | for the first joint named in base, shoulder, elbow, wrist order: the degree literal, non-negative and unclamped; else tracked+30 on an up word; else tracked−30 on a down word; else the error intent |
| Intent.FallsToScan | Vox_GPT/Backend/chatbot.py:38-49 | with no emergency word and no "gripper", the classifier is the joint scan over the lowered text |
| Intent.ScanClauses | Vox_GPT/Backend/chatbot.py:49-60 | the joint scan returns the first named joint's clause: the degree literal, else tracked±30 on an up/down word, else nothing |
| Intent.ScanJoints | Vox_GPT/Backend/chatbot.py:49-60 | the scan returns the error intent or an integer command for a joint of the scan order whose name occurs in the text |
| Intent.NothingRecognised | Vox_GPT/Backend/chatbot.py:62 | with no emergency word, no "gripper" and no joint name, the result is the error intent with the help text |
| Intent.ScanJointsNoAngleWord | Vox_GPT/Backend/chatbot.py:49-60 | with no degree match and no up or down word, no joint clause returns |
| Intent.DegreesClause | Vox_GPT/Backend/chatbot.py:49-56 | the first-named joint with a degree match gets the match's digits as its value |
| Intent.EmergencyExample | Vox_GPT/Backend/chatbot.py:38-39 | "emergency stop now" classifies as an emergency stop |
| Intent.CloseGripperExample | Vox_GPT/Backend/chatbot.py:42-46 | "close gripper" classifies as gripper closed |
| Intent.UnrelatedExample | Vox_GPT/Backend/chatbot.py:62 | "what is my name" classifies as the error intent |
| Intent.BaseExample | Vox_GPT/Backend/chatbot.py:49-56 | "move base to 45 degrees" classifies as base 45 |
| Intent.NegativeExampleLosesItsSign | Vox_GPT/Backend/chatbot.py:52-55 | "move wrist to -30 degrees" classifies as wrist +30 |
| Intent.ParseCommand | Vox_GPT/Backend/chatbot.py:117-118 | when the oracle call raises, the keyword classifier decides |
| ServoFirmware.MapToServoAngle | Vox_GPT/Arduino_ide_code/chatbot.c:32-34 | the servo value is in [0,180]; it is logical+90 on [−90,90], 0 at or below −90 and 180 at or above 90 |
| ServoFirmware.Constrain | Vox_GPT/Arduino_ide_code/chatbot.c:95-123 | Arduino's `constrain` lands in [lo,hi]: the value itself inside, `lo` below, `hi` above |
| ServoFirmware.Transition | Vox_GPT/Arduino_ide_code/chatbot.c:90-148 | an in-range pose stays in range; the reply is 200 exactly for the ten commands; an unknown command gives 400 "Invalid command" and no change |
| ServoFirmware.Run | Vox_GPT/Arduino_ide_code/chatbot.c:90-148 | handling a run of commands none of which is in the vocabulary leaves the pose unchanged |
| ServoFirmware.RunStaysInRange | Vox_GPT/Arduino_ide_code/chatbot.c:94-146 | no sequence of commands takes an in-range pose out of range |
| ServoFirmware.LeftRightCommands | Vox_GPT/Arduino_ide_code/chatbot.c:94-125 | WAIST/WRIST LEFT/RIGHT change only their angle, land in [−180,180], and move by exactly ∓5/+5 when that stays in range |
| ServoFirmware.UpDownCommands | Vox_GPT/Arduino_ide_code/chatbot.c:102-117 | SHOULDER/ELBOW UP/DOWN change only their angle, land in [0,170], and move by exactly ±5 when that stays in range |
| ServoFirmware.GripperToggleInvolution | Vox_GPT/Arduino_ide_code/chatbot.c:126-129 | GRIPPER_TOGGLE negates only the gripper flag; two toggles restore the pose |
| ServoFirmware.EmergencyStopResets | Vox_GPT/Arduino_ide_code/chatbot.c:130-142 | EMERGENCY_STOP answers "Stopped" and resets to 90/90/90/90/open; repeating it changes nothing |
| ServoFirmware.Controller.constructor | Vox_GPT/Arduino_ide_code/chatbot.c:25-29 | the globals start at the home pose |
| ServoFirmware.Controller.HandleCommand | Vox_GPT/Arduino_ide_code/chatbot.c:90-148 | the reply and the new globals are those of `Transition` on the old globals |
| KeyboardFirmware.Transition | Vox_GPT/Arduino_ide_code/keyboard.c:82-130 | an in-range pose stays in range; the reply is 200 exactly for the ten commands; an unknown command gives 400 and no change |
| KeyboardFirmware.Run | Vox_GPT/Arduino_ide_code/keyboard.c:82-130 | handling a run of commands none of which is in the vocabulary leaves the pose unchanged |
| KeyboardFirmware.StepCommandsAreOneSided | Vox_GPT/Arduino_ide_code/keyboard.c:86-109 | each step command changes only its variable, to `min(x+5, hi)` or `max(x−5, lo)`: exactly ±5 unless that passes the bound it moves towards, then the bound; the far side is not clamped |
| KeyboardFirmware.ToggleAndStop | Vox_GPT/Arduino_ide_code/keyboard.c:110-124 | GRIPPER_TOGGLE flips only the flag; EMERGENCY_STOP answers "Stopped" and resets to 90/90/90/90/open |
| KeyboardFirmware.Controller.constructor | Vox_GPT/Arduino_ide_code/keyboard.c:25-29 | the globals start at the home pose |
| KeyboardFirmware.Controller.HandleCommand | Vox_GPT/Arduino_ide_code/keyboard.c:82-130 | the reply and the new globals are those of `Transition` on the old globals |
| Translator.StepCommand | Vox_GPT/Backend/chatbot.py:215-244 | every step command is in the firmware's vocabulary |
| Translator.StepCommandNames | Vox_GPT/Backend/chatbot.py:215-244 | the command is WAIST/SHOULDER/ELBOW/WRIST by joint, then RIGHT or UP upwards and LEFT or DOWN otherwise; distinct joints or directions give distinct commands |
| Translator.Repeat | Vox_GPT/Backend/chatbot.py:247-250 | the plan holds `n` copies of the step command and nothing else |
| Translator.GripperRequestOf | Vox_GPT/Backend/chatbot.py:179-183 | a gripper target comes only from a string and names the lowered string; the uncaught `.lower()` failure comes only from an integer |
| Translator.AngleRequestOf | Vox_GPT/Backend/chatbot.py:208 | `int(value)` raises the uncaught error exactly for None, keeps an integer, and for a string gives `int()`'s result or the `ValueError` |
| Translator.StepCount | Vox_GPT/Backend/chatbot.py:226 | the step count is the largest number of whole 5-degree steps that does not overshoot the target |
| Translator.Moved | Vox_GPT/Backend/chatbot.py:259-263 | the new angle is `min(current + 5·steps, max)` upwards and `max(current − 5·steps, min)` downwards |
| Translator.FirstRejection | Vox_GPT/Backend/chatbot.py:247-257 | the index of the first failed call: every earlier call was accepted, and that one was not unless it is the end |
| Translator.FirstRejectionIsFirst | Vox_GPT/Backend/chatbot.py:247-257 | an index before which every call was accepted and at which one failed is the first failure |
| Translator.Dispatch | Vox_GPT/Backend/chatbot.py:151-268 | `send_to_esp32` keeps the registry well formed: four angle joints, each inside its bounds |
| Translator.DispatchStop | Vox_GPT/Backend/chatbot.py:160-175 | the emergency branch keeps the registry well formed |
| Translator.DispatchGripper | Vox_GPT/Backend/chatbot.py:177-201 | the gripper branch keeps the registry well formed |
| Translator.DispatchMove | Vox_GPT/Backend/chatbot.py:203-213 | the angle branch keeps the registry well formed |
| Translator.DispatchOfAngleJoint | Vox_GPT/Backend/chatbot.py:203-205 | a command naming an angle joint takes the angle branch |
| Translator.DispatchOfInRange | Vox_GPT/Backend/chatbot.py:203-213 | an integer target inside the joint's bounds goes to the stepping part of the angle branch |
| Translator.DispatchInRange | Vox_GPT/Backend/chatbot.py:224-265 | the stepping part of the angle branch keeps the registry well formed |
| Translator.OutOfRangeRejected | Vox_GPT/Backend/chatbot.py:207-213 | an integer target outside the joint's bounds is an error, with no device call and no change |
| Translator.NonIntegerRejected | Vox_GPT/Backend/chatbot.py:207-208 | a value `int()` refuses gives "Invalid angle value"; None raises; neither calls the device nor changes anything |
| Translator.UnknownJointRejected | Vox_GPT/Backend/chatbot.py:204-205 | any other joint name gives "Invalid joint" with no call |
| Translator.MovePlan | Vox_GPT/Backend/chatbot.py:224-257 | for an in-range target with every call accepted, exactly `abs(target−current)//5` copies of the joint's command are sent, upwards exactly when target > current |
| Translator.AcceptedPlan | Vox_GPT/Backend/chatbot.py:224-265 | with every call accepted, the move succeeds, sends `steps` copies of one step command and records the clamped one-shot update on that joint only |
| Translator.InRangePlanIsOneCommand | Vox_GPT/Backend/chatbot.py:244-249 | every command a move sends is the same step command, and it is in the firmware's vocabulary |
| Translator.AlreadyThere | Vox_GPT/Backend/chatbot.py:226-228 | a target less than 5 degrees away succeeds with no call and no change |
| Translator.FailedStepKeepsRegistry | Vox_GPT/Backend/chatbot.py:247-257 | when call k fails, the reply reports that call, k+1 commands were sent, and the registry keeps its value from before the request |
| Translator.SuccessfulMoveLandsNearTarget | Vox_GPT/Backend/chatbot.py:259-263 | after all steps succeed, the angle is current ± 5·steps, inside the bounds, between start and target and less than 5 from the target; nothing else changes |
| Translator.GripperAlreadyThere | Vox_GPT/Backend/chatbot.py:185-201 | a gripper target equal to the tracked state succeeds with zero calls and no change |
| Translator.GripperToggles | Vox_GPT/Backend/chatbot.py:185-199 | a different valid target sends exactly one GRIPPER_TOGGLE; only an accepted toggle records the target |
| Translator.GripperValues | Vox_GPT/Backend/chatbot.py:180-183 | only "open" and "closed" in any case are gripper targets; a non-zero integer raises; everything else is invalid |
| Translator.EmergencyStopResetsRegistry | Vox_GPT/Backend/chatbot.py:160-175 | one EMERGENCY_STOP is sent; on success all angles are 90 and the gripper is open, on failure nothing changes |
| Translator.DispatchOfStop | Vox_GPT/Backend/chatbot.py:160-161 | a command naming the emergency stop takes the emergency branch whatever its value |
| Translator.RegistryChangesOnlyAfterAcceptedCalls | Vox_GPT/Backend/chatbot.py:151-268 | an error or a crash leaves the registry as it was; any change follows a non-empty run of calls that were all accepted |
| Translator.InRangeCommitsOnlyAfterAcceptedCalls | Vox_GPT/Backend/chatbot.py:224-265 | the stepping part answers with a result dictionary and changes the registry only after a non-empty run of calls that were all accepted |
| Translator.SentCommandsAreValid | Vox_GPT/Backend/chatbot.py:151-268 | every command sent belongs to the firmware's vocabulary |
| Translator.MoveSendsValidCommands | Vox_GPT/Backend/chatbot.py:203-268 | every command the angle branch sends belongs to the firmware's vocabulary |
| Translator.JointRegistry.constructor | Vox_GPT/Backend/chatbot.py:25-31 | the registry starts in the initial state |
| Translator.JointRegistry.SendToEsp32 | Vox_GPT/Backend/chatbot.py:151-268 | outcome, commands sent and new registry are those of `Dispatch` on the old registry |
| Translator.JointRegistry.EmergencyStop | Vox_GPT/Backend/chatbot.py:160-175 | the emergency branch updates the registry as `DispatchStop` says |
| Translator.JointRegistry.SetGripper | Vox_GPT/Backend/chatbot.py:177-201 | the gripper branch updates the registry as `DispatchGripper` says |
| Translator.JointRegistry.MoveJoint | Vox_GPT/Backend/chatbot.py:203-268 | the angle branch updates the registry as `DispatchMove` says |
| Translator.JointRegistry.MoveInRange | Vox_GPT/Backend/chatbot.py:224-265 | the stepping part updates the registry as `DispatchInRange` says |
| Translator.JointRegistry.SendSteps | Vox_GPT/Backend/chatbot.py:247-257 | the loop stops at the first failed call and reports it; the commands sent are the plan up to and including that call |
| Routing.BulletListListsItems | Vox_GPT/Backend/chatbot.py:131-135 | every item appears in the joined list behind its "- " bullet |
| Routing.HandleHelpRequest | Vox_GPT/Backend/chatbot.py:120-136 | the help result is a success whose message lists every example command |
| Routing.LookUp | Vox_GPT/Backend/chatbot.py:146-148 | the table lookup finds nothing exactly when no key matches, and otherwise returns a matching entry's reply |
| Routing.HandleGreeting | Vox_GPT/Backend/chatbot.py:138-149 | a greeting reply exists exactly when the lowered, stripped input is "hello", "hi" or "how are you", and it is the reply of the table entry with that key |
| Routing.GreetingKeysDistinct | Vox_GPT/Backend/chatbot.py:141-145 | no two greeting entries share a key |
| Routing.IsHelpRequest | Vox_GPT/Backend/chatbot.py:283 | the help check holds exactly when "help", "what can i do" or "how to use" occurs at some index of the lowered message |
| Routing.GreetingIsNotHelp | Vox_GPT/Backend/chatbot.py:140-144 | no greeting contains a help phrase |
| Routing.Decorate | Vox_GPT/Backend/chatbot.py:302-307 | a success gets "✅ " and an error gets "❌ " in front of its message |
| Routing.Respond | Vox_GPT/Backend/chatbot.py:302-309 | an escaped exception and only that gives the 500; a result dictionary gives a 200 JSON reply |
| Routing.ChatSpec | Vox_GPT/Backend/chatbot.py:273-309 | every route keeps the registry well formed |
| Routing.Chat | Vox_GPT/Backend/chatbot.py:273-309 | the reply, commands sent and new registry are those of `ChatSpec` on the old registry |
| Routing.BlankIsTheOnlyBadRequest | Vox_GPT/Backend/chatbot.py:276-279 | the 400 prompt is answered exactly when the stripped message is empty, with no call and no change |
| Routing.HelpNeverMoves | Vox_GPT/Backend/chatbot.py:281-284 | a help phrase gets the ✅ help text with no call and no change |
| Routing.GreetingNeverMoves | Vox_GPT/Backend/chatbot.py:286-289 | an exact greeting gets ✅ and the reply of the entry keyed by the lowered message, with no call and no change |
| Routing.GreetingRoute | Vox_GPT/Backend/chatbot.py:286-289 | a non-blank, non-help message with a greeting reply is answered with that reply, with no call and no change |
| Routing.ParseErrorShowsHelp | Vox_GPT/Backend/chatbot.py:295-300 | an error intent gets the ✅ help text with no call and no change |
| Routing.DeviceOnlyThroughTranslator | Vox_GPT/Backend/chatbot.py:290-300 | the device is called and the registry changed only through `send_to_esp32`, for a non-blank, non-help, non-greeting, non-error message |
| Routing.ReplyMarksStatus | Vox_GPT/Backend/chatbot.py:302-309 | a result dictionary gives a 200 reply that starts with "✅ " if and only if its status is success |
| Agreement.WithAngle | Vox_GPT/Arduino_ide_code/chatbot.c:25-29 | setting one joint's variable leaves the others and the gripper flag unchanged |
| Agreement.AgreementKeepsRange | Vox_GPT/Backend/chatbot.py:25-31 | a firmware pose that agrees with a well-formed registry is in range: the two sides have the same bounds |
| Agreement.InitialStatesAgree | Vox_GPT/Backend/chatbot.py:25-31 | the backend's initial registry agrees with the firmware's initial globals |
| Agreement.OneStep | Vox_GPT/Arduino_ide_code/chatbot.c:94-125 | one firmware step on an in-range pose is the backend's update for one step |
| Agreement.RunOne | Vox_GPT/Arduino_ide_code/chatbot.c:90-148 | the firmware handling one command is one transition |
| Agreement.RunOfStepsIsOneShotUpdate | Vox_GPT/Backend/chatbot.py:259-263 | `n` firmware steps from an in-range pose equal the one-shot `min(x+5n, max)` / `max(x−5n, min)` on that joint alone |
| Agreement.StopFollowsDevice | Vox_GPT/Backend/chatbot.py:160-167 | after an accepted emergency stop, registry and firmware agree |
| Agreement.GripperFollowsDevice | Vox_GPT/Backend/chatbot.py:185-192 | after an accepted gripper request, registry and firmware agree |
| Agreement.MoveFollowsDevice | Vox_GPT/Backend/chatbot.py:247-265 | after a fully accepted move, registry and firmware agree |
| Agreement.UpdateKeepsAgreement | Vox_GPT/Backend/chatbot.py:259-263 | setting the same joint to the same value on both sides keeps them in agreement |
| Agreement.TrackedStateFollowsDevice | Vox_GPT/Backend/chatbot.py:151-268 | when every call succeeds, the registry after `send_to_esp32` agrees with the firmware after handling exactly the commands sent |
| Agreement.PartialFailureLeavesRegistryBehind | Vox_GPT/Backend/chatbot.py:247-257 | when a step fails after k > 0 accepted steps, the firmware has moved the joint by k steps while the registry has not moved |
| Agreement.KeyboardMatchesServo | Vox_GPT/Arduino_ide_code/keyboard.c:86-128 | from an in-range pose, each keyboard transition equals the chatbot.c transition |
| Agreement.FirmwaresDifferOutOfRange | Vox_GPT/Arduino_ide_code/keyboard.c:86-87 | outside the range the firmwares differ: base 200 stepped left is 195 on keyboard.c and 180 on chatbot.c |
| Agreement.KeyboardRunMatchesServo | Vox_GPT/Arduino_ide_code/keyboard.c:86-128 | both firmwares follow the same path through any command sequence from an in-range start |

## Left out

- The language-model call in `parse_command` (Vox_GPT/Backend/chatbot.py:64-118) is an oracle. The prompt, the regex and `json.loads` salvage of its text, and the `float(value)` fallback are not modelled. The oracle's command is taken as given.
- A command the oracle produces whose joint or value is not a string, integer or None is not representable. Examples are a missing `joint` key, a float or a list. Floating point is not modelled at all.
- HTTP, Flask, CORS, `request.get_json()` and a non-string `message` field are not modelled. The device calls and their exception classes become `DeviceReply` values, and the reply for each is `FailureMessage`.
- The outer `requests.RequestException` handler (Vox_GPT/Backend/chatbot.py:270-271) is not modelled: every request error is already caught around each call.
- The `/telemetry` endpoint (Vox_GPT/Backend/chatbot.py:311-324) is not modelled. It writes unvalidated device data into `JOINTS`. Without it the registry keeps its bounds, which `Translator.Dispatch` proves.
- `Keyboard_Control.py` is not part of this model. It forwards HTTP requests and has no logic of its own.
- Firmware I/O is not modelled: WiFi setup, the web server, `deserializeJson`, `Servo.write`, `delay`, the telemetry handler and the "Invalid JSON"/"No command provided" replies. `HandleCommand` starts from the command string already read.
- Concurrent requests are not modelled. One sequential registry is updated by one request at a time.
- Text.Lower: lowers ASCII letters only. Python's `str.lower()` also lowers other Unicode letters, which matters only for non-ASCII input.
- Text.ParseIntAccepts: accepts ASCII digits only. Python's `int()` also accepts other Unicode decimal digits.
- Intent.FindDegrees: its `\d` matches ASCII digits only. Python's `\d` on a `str` matches every Unicode decimal digit, so a degree literal written in other digits (such as Arabic-Indic "٤٥") is found by the program but not by the model, which then falls through to the up/down words or the error intent.
- ServoFirmware.Transition and KeyboardFirmware.Transition: use unbounded integers. The firmware's `int` angles never leave [−180,180] from an in-range start, so 32-bit arithmetic never wraps there.
- Intent.ParseCommand: states only the fallback. What the oracle itself answers is arbitrary.
