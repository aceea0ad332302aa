/**
 * The `/chat` endpoint: the blank-input check, help, greetings, then the
 * parser and the translator, and the final ✅/❌ formatting of the reply.
 */
module Routing {
  import opened Wrappers
  import opened Text
  import opened Joints
  import opened Intent
  import opened Translator

  /** The example commands the help reply lists, in order. */
  const Examples: seq<string> := [
    "move base to 45 degrees",
    "move shoulder to 90 degrees",
    "move elbow to 120 degrees",
    "move wrist to -30 degrees",
    "open gripper",
    "close gripper",
    "emergency stop"
  ]

  /** `"\n".join(f"- {cmd}" for cmd in items)`. */
  function BulletList(items: seq<string>): string
    decreases |items|
  {
    if |items| == 0 then ""
    else if |items| == 1 then "- " + items[0]
    else "- " + items[0] + "\n" + BulletList(items[1..])
  }

  /** Every item appears in the list behind its bullet. */
  lemma {:induction false} BulletListListsItems(items: seq<string>)
    ensures forall i :: 0 <= i < |items| ==> Contains(BulletList(items), "- " + items[i])
    decreases |items|
  {
    if |items| > 0 {
      var head := "- " + items[0];
      assert StartsWith(head, head);
      if |items| == 1 {
        assert BulletList(items) == head;
      } else {
        var rest := BulletList(items[1..]);
        assert BulletList(items) == head + ("\n" + rest);
        BulletListListsItems(items[1..]);
        forall i | 0 <= i < |items|
          ensures Contains(BulletList(items), "- " + items[i])
        {
          if i == 0 {
            ContainsInConcat(head, "\n" + rest, head);
          } else {
            assert items[i] == items[1..][i - 1];
            ContainsInConcat("\n", rest, "- " + items[i]);
            ContainsInConcat(head, "\n" + rest, "- " + items[i]);
          }
        }
      }
    }
  }

  const HelpHeader: string := "This chatbot is designed to control a robotic arm. Try these example commands:\n"
  const HelpFooter: string := "\n\nJoints (base, wrist) range: -180 to 180 degrees. Shoulder, elbow range: 0 to 170 degrees."

  /** The help text: the header, the bulleted examples, then the joints' ranges. */
  const HelpMessage: string := HelpHeader + BulletList(Examples) + HelpFooter

  /** `handle_help_request()`: a success whose message lists every example command. */
  function HandleHelpRequest(): (r: Outcome)
    ensures r.Reply? && r.status == Success
    ensures forall i :: 0 <= i < |Examples| ==> Contains(r.message, "- " + Examples[i])
  {
    BulletListListsItems(Examples);
    forall i | 0 <= i < |Examples|
      ensures Contains(HelpMessage, "- " + Examples[i])
    {
      ContainsInConcat(HelpHeader, BulletList(Examples), "- " + Examples[i]);
      ContainsInConcat(HelpHeader + BulletList(Examples), HelpFooter, "- " + Examples[i]);
    }
    Reply(Success, HelpMessage)
  }

  /** The greeting table, in the order it is searched. */
  const Greetings: seq<(string, string)> := [("hello", HelloReply), ("hi", HiReply), ("how are you", HowAreYouReply)]

  const HelloReply: string := "Hello! I'm here to control your robotic arm. Try a command like 'move base to 45 degrees' or type 'help' for more examples."
  const HiReply: string := "Hi there! Ready to move the robotic arm? Try 'close gripper' or 'move shoulder to 90 degrees' to get started!"
  const HowAreYouReply: string := "I'm doing great, thanks for asking! I'm all set to control your robotic arm. Try 'open gripper' or 'emergency stop' to see me in action!"

  /** The reply of the first table entry whose key equals `key`. */
  function LookUp(table: seq<(string, string)>, key: string): (r: Option<string>)
    ensures r.None? <==> forall i :: 0 <= i < |table| ==> table[i].0 != key
    ensures r.Some? ==> exists i :: 0 <= i < |table| && table[i] == (key, r.value)
    decreases |table|
  {
    if |table| == 0 then None
    else if table[0].0 == key then Some(table[0].1)
    else
      var r := LookUp(table[1..], key);
      assert forall i :: 0 <= i < |table| - 1 ==> table[1..][i] == table[i + 1];
      r
  }

  /** `handle_greeting(text)`: the canned reply when the lowered, stripped input is exactly a greeting. */
  function HandleGreeting(text: string): (r: Option<string>)
    ensures r.Some? <==> Strip(Lower(text)) in {"hello", "hi", "how are you"}
    ensures forall i :: 0 <= i < |Greetings| && Greetings[i].0 == Strip(Lower(text)) ==> r == Some(Greetings[i].1)
  {
    var key := Strip(Lower(text));
    assert Greetings[0].0 == "hello" && Greetings[1].0 == "hi" && Greetings[2].0 == "how are you";
    GreetingKeysDistinct();
    LookUp(Greetings, key)
  }

  /** No two greeting entries share a key, so the entry for a key is unique. */
  lemma GreetingKeysDistinct()
    ensures forall i, k :: 0 <= i < k < |Greetings| ==> Greetings[i].0 != Greetings[k].0
  {
    assert |Greetings[0].0| == 5 && |Greetings[1].0| == 2 && |Greetings[2].0| == 11;
  }

  /** The help check, on the lowered message. */
  function IsHelpRequest(lowered: string): (b: bool)
    ensures b <==> exists i: nat ::
      || OccursAt(lowered, "help", i)
      || OccursAt(lowered, "what can i do", i)
      || OccursAt(lowered, "how to use", i)
  {
    ContainsIff(lowered, "help");
    ContainsIff(lowered, "what can i do");
    ContainsIff(lowered, "how to use");
    Contains(lowered, "help") || Contains(lowered, "what can i do") || Contains(lowered, "how to use")
  }

  /** The HTTP reply: a JSON body `{"response": ...}` with its status code, or the 500 of an uncaught exception. */
  datatype HttpReply = Json(code: nat, response: string) | ServerError

  /** The reply to one request, the registry afterwards and the commands sent to the device. */
  datatype Exchange = Exchange(reply: HttpReply, after: Tracked, sent: seq<string>)

  const BlankReply: string := "Please provide a command or type 'help' for examples."

  /** The final formatting: a check mark for a success, a cross for anything else. */
  function Decorate(status: Status, message: string): (text: string)
    ensures status == Success ==> text == "✅ " + message
    ensures status == Error ==> text == "❌ " + message
  {
    (if status == Success then "✅ " else "❌ ") + message
  }

  /** How a result dictionary becomes the reply; an escaped exception becomes a 500. */
  function Respond(outcome: Outcome): (r: HttpReply)
    ensures r.ServerError? <==> outcome.Crashed?
    ensures outcome.Reply? ==> r.Json? && r.code == 200
  {
    match outcome
    case Crashed => ServerError
    case Reply(status, message) => Json(200, Decorate(status, message))
  }

  /**
   * `chat()` on the raw `message` field against the registry snapshot `t`;
   * `oracle` is what the language model does with the message and
   * `device(i)` the device's answer to the i-th call made on its behalf.
   */
  function ChatSpec(raw: string, t: Tracked, oracle: OracleAnswer, device: nat -> DeviceReply): (x: Exchange)
    requires WellFormed(t)
    ensures WellFormed(x.after)
  {
    var message := Strip(raw);
    if message == [] then
      Exchange(Json(400, BlankReply), t, [])
    else if IsHelpRequest(Lower(message)) then
      Exchange(Respond(HandleHelpRequest()), t, [])
    else
      match HandleGreeting(message)
      case Some(greeting) => Exchange(Respond(Reply(Success, greeting)), t, [])
      case None =>
        var command := ParseCommand(message, t.angle, oracle);
        if command.joint == "error" then
          Exchange(Respond(HandleHelpRequest()), t, [])
        else
          var d := Dispatch(t, command, device);
          Exchange(Respond(d.outcome), d.after, d.sent)
  }

  /** `chat()` against the live registry. */
  method Chat(registry: JointRegistry, raw: string, oracle: OracleAnswer, device: nat -> DeviceReply) returns (reply: HttpReply, sent: seq<string>)
    requires registry.Valid()
    modifies registry
    ensures registry.Valid()
    ensures Exchange(reply, registry.State(), sent) == ChatSpec(raw, old(registry.State()), oracle, device)
  {
    var message := Strip(raw);
    if message == [] {
      return Json(400, BlankReply), [];
    }
    var result: Outcome;
    sent := [];
    if IsHelpRequest(Lower(message)) {
      result := HandleHelpRequest();
    } else {
      var greeting := HandleGreeting(message);
      if greeting.Some? {
        result := Reply(Success, greeting.value);
      } else {
        var command := ParseCommand(message, registry.currentAngle, oracle);
        if command.joint != "error" {
          result, sent := registry.SendToEsp32(command, device);
        } else {
          result := HandleHelpRequest();
        }
      }
    }
    reply := Respond(result);
  }

  // ---------------------------------------------------------------------------
  // Properties of the routing.
  // ---------------------------------------------------------------------------

  /** The 400 reply is given exactly for a message that is empty once stripped. */
  lemma BlankIsTheOnlyBadRequest(raw: string, t: Tracked, oracle: OracleAnswer, device: nat -> DeviceReply)
    requires WellFormed(t)
    ensures var x := ChatSpec(raw, t, oracle, device);
      (x.reply.Json? && x.reply.code == 400) <==> Strip(raw) == []
    ensures Strip(raw) == [] ==> ChatSpec(raw, t, oracle, device) == Exchange(Json(400, BlankReply), t, [])
  {
  }

  /** A help request never reaches the parser or the device: the reply is the help text with a check mark. */
  lemma HelpNeverMoves(raw: string, t: Tracked, oracle: OracleAnswer, device: nat -> DeviceReply)
    requires WellFormed(t) && Strip(raw) != [] && IsHelpRequest(Lower(Strip(raw)))
    ensures ChatSpec(raw, t, oracle, device) == Exchange(Json(200, "✅ " + HelpMessage), t, [])
  {
  }

  /** A greeting is answered with its canned text and moves nothing. */
  lemma GreetingNeverMoves(raw: string, t: Tracked, oracle: OracleAnswer, device: nat -> DeviceReply)
    requires WellFormed(t)
    requires Lower(Strip(raw)) in {"hello", "hi", "how are you"}
    ensures var x := ChatSpec(raw, t, oracle, device);
      && x.after == t && x.sent == [] && x.reply.Json? && x.reply.code == 200
      && forall i :: 0 <= i < |Greetings| && Greetings[i].0 == Lower(Strip(raw)) ==> x.reply.response == "✅ " + Greetings[i].1
  {
    var m := Strip(raw);
    LowerOfStrippedIsStripped(raw);
    assert Strip(Lower(m)) == Lower(m);
    GreetingIsNotHelp(Lower(m));
    GreetingRoute(raw, t, oracle, device);
  }

  /** A non-blank, non-help message with a greeting reply is answered with that reply and nothing else. */
  lemma GreetingRoute(raw: string, t: Tracked, oracle: OracleAnswer, device: nat -> DeviceReply)
    requires WellFormed(t) && Strip(raw) != [] && !IsHelpRequest(Lower(Strip(raw)))
    requires HandleGreeting(Strip(raw)).Some?
    ensures ChatSpec(raw, t, oracle, device) == Exchange(Json(200, "✅ " + HandleGreeting(Strip(raw)).value), t, [])
  {
  }

  /** None of the greetings contains a help phrase, so checking greetings before help would route the same. */
  lemma GreetingIsNotHelp(key: string)
    requires key in {"hello", "hi", "how are you"}
    ensures !IsHelpRequest(key)
  {
    NotContainsLonger(key, "what can i do");
    if key == "hello" {
      HelloIsNotHelp();
    } else if key == "how are you" {
      HowAreYouIsNotHelp();
    } else {
      NotContainsLonger(key, "help");
      NotContainsLonger(key, "how to use");
    }
  }

  lemma HelloIsNotHelp()
    ensures !Contains("hello", "help") && !Contains("hello", "how to use")
  {
    var s := "hello";
    NotContainsLonger(s, "how to use");
    NotContainsLonger(s[2..], "help");
    assert s[1..][1..] == s[2..];
    assert s[1..][0] != "help"[0];
    assert !StartsWith(s, "help") by {
      assert s[3] != "help"[3];
    }
  }

  lemma HowAreYouIsNotHelp()
    ensures !Contains("how are you", "help") && !Contains("how are you", "how to use")
  {
    var s := "how are you";
    NotContainsLonger(s[2..], "how to use");
    assert s[1..][1..] == s[2..];
    assert s[1..][0] != "how to use"[0];
    assert !StartsWith(s, "how to use") by {
      assert s[4] != "how to use"[4];
    }
    HowAreYouHasNoHelp(s, 0);
  }

  /** No suffix of "how are you" starts with "help": it has no 'p'. */
  lemma {:induction false} HowAreYouHasNoHelp(s: string, i: nat)
    requires s == "how are you" && i <= |s|
    ensures !Contains(s[i..], "help")
    decreases |s| - i
  {
    if i + 4 <= |s| {
      assert s[i..][..4][3] == s[i + 3] != 'p';
      assert s[i..][1..] == s[i + 1..];
      HowAreYouHasNoHelp(s, i + 1);
    } else {
      NotContainsLonger(s[i..], "help");
    }
  }

  /** A string never contains a longer one. */
  lemma {:induction false} NotContainsLonger(s: string, sub: string)
    requires |s| < |sub|
    ensures !Contains(s, sub)
    decreases |s|
  {
    if |s| > 0 {
      NotContainsLonger(s[1..], sub);
    }
  }

  /** An unparseable or unrelated message is answered with the help text, as a success, and moves nothing. */
  lemma ParseErrorShowsHelp(raw: string, t: Tracked, oracle: OracleAnswer, device: nat -> DeviceReply)
    requires WellFormed(t)
    requires Strip(raw) != [] && !IsHelpRequest(Lower(Strip(raw))) && HandleGreeting(Strip(raw)).None?
    requires ParseCommand(Strip(raw), t.angle, oracle).joint == "error"
    ensures ChatSpec(raw, t, oracle, device) == Exchange(Json(200, "✅ " + HelpMessage), t, [])
  {
  }

  /**
   * The device is reached only through the translator, with a command
   * that is not an error: every other route sends nothing and keeps the
   * registry.
   */
  lemma DeviceOnlyThroughTranslator(raw: string, t: Tracked, oracle: OracleAnswer, device: nat -> DeviceReply)
    requires WellFormed(t)
    ensures var x := ChatSpec(raw, t, oracle, device);
      var m := Strip(raw);
      (x.sent != [] || x.after != t) ==>
        && m != [] && !IsHelpRequest(Lower(m)) && HandleGreeting(m).None?
        && ParseCommand(m, t.angle, oracle).joint != "error"
        && x.sent == Dispatch(t, ParseCommand(m, t.angle, oracle), device).sent
        && x.after == Dispatch(t, ParseCommand(m, t.angle, oracle), device).after
  {
  }

  /** A 200 reply starts with a check mark exactly when the result it reports was a success. */
  lemma ReplyMarksStatus(outcome: Outcome)
    requires outcome.Reply?
    ensures Respond(outcome).Json? && Respond(outcome).code == 200
    ensures Respond(outcome).response[..2] == "✅ " <==> outcome.status == Success
  {
    var r := Respond(outcome).response;
    if outcome.status == Error {
      assert r[0] == '❌';
    }
  }
}
