/**
  dungeon-crawler's `play_game` loop. It runs each tool_use of a response
  through the lenient ToolCollection, with no screenshot fallback. The
  response is appended as an assistant message. Then one user message is
  appended: the tool results if there are any, otherwise the keep-playing
  nudge if some text block is free of "exit" and "quit", otherwise none.
  The loop breaks once any text block mentions "exit" or "quit", in any case.
 */
module Crawler {
  import opened Blocks
  import opened Registry
  import opened Packaging
  import opened Dispatch
  import opened PyStr

  /** The continuation message sent after a response that chats without
      calling a tool. */
  const Nudge := "just keep playing the game and don't ask questions. if you want to exit, type 'exit' or 'quit' in a text message response"

  /** A text mentions "exit" or "quit" after ASCII lower-casing. */
  predicate MentionsStop(text: string)
  {
    Contains(Lower(text), "exit") || Contains(Lower(text), "quit")
  }

  /** `has_non_exit_text`: some text block mentions neither word. */
  predicate HasNonExitText(blocks: seq<Block>)
  {
    exists k | 0 <= k < |blocks| :: blocks[k].Text? && !MentionsStop(blocks[k].text)
  }

  /** The break condition: some text block mentions one of the words. */
  predicate SaysStop(blocks: seq<Block>)
  {
    exists k | 0 <= k < |blocks| :: blocks[k].Text? && MentionsStop(blocks[k].text)
  }

  /** The user message that follows the response, if any. */
  function Reply(c: ToolCollection, response: seq<Block>): (m: Option<Message>)
    ensures m.Some? <==> LenientResults(c, response, false) != [] || HasNonExitText(response)
    ensures m.Some? ==> m.value.role == User
    ensures LenientResults(c, response, false) != [] ==> m == Some(Message(User, LenientResults(c, response, false)))
    ensures LenientResults(c, response, false) == [] && HasNonExitText(response) ==>
      m == Some(Message(User, [Text(Nudge)]))
  {
    var results := LenientResults(c, response, false);
    if results != [] then Some(Message(User, results))
    else if HasNonExitText(response) then Some(Message(User, [Text(Nudge)]))
    else None
  }

  /** One iteration once the model has answered `response`: the new history
      and whether the loop breaks. */
  function Turn(c: ToolCollection, history: seq<Message>, response: seq<Block>): (t: (seq<Message>, bool))
    ensures t.1 <==> SaysStop(response)
    ensures t.0 == history + [Message(Assistant, response)] + (match Reply(c, response) case Some(m) => [m] case None => [])
  {
    var withResponse := history + [Message(Assistant, response)];
    var withReply := match Reply(c, response)
      case Some(m) => withResponse + [m]
      case None => withResponse;
    (withReply, SaysStop(response))
  }

  /** At most `fuel` iterations from `history`: the final history and whether
      the loop broke. */
  function Run(c: ToolCollection, model: Model, history: seq<Message>, fuel: nat): (seq<Message>, bool)
    decreases fuel
  {
    if fuel == 0 then (history, false)
    else
      var t := Turn(c, history, model(ToParams(c), history));
      if t.1 then t else Run(c, model, t.0, fuel - 1)
  }

  /** `play_game` with at most `maxTurns` model calls. */
  method PlayGame(tools: seq<Tool>, resultTruth: ToolResult -> bool, model: Model, initialPrompt: string, maxTurns: nat)
    returns (messages: seq<Message>, finished: bool)
    ensures (messages, finished) == Run(Collect(tools, resultTruth), model, [Message(User, [Text(initialPrompt)])], maxTurns)
  {
    var toolCollection := Collect(tools, resultTruth);
    var seed := [Message(User, [Text(initialPrompt)])];
    messages := seed;
    finished := false;
    var turns := 0;
    while turns < maxTurns && !finished
      invariant 0 <= turns <= maxTurns
      invariant Run(toolCollection, model, seed, maxTurns) ==
        if finished then (messages, true) else Run(toolCollection, model, messages, maxTurns - turns)
    {
      var response := model(ToParams(toolCollection), messages);
      var toolResultContent := CollectResults(toolCollection, response, false);
      messages := messages + [Message(Assistant, response)];
      if toolResultContent != [] {
        messages := messages + [Message(User, toolResultContent)];
      } else if HasNonExitText(response) {
        messages := messages + [Message(User, [Text(Nudge)])];
      }
      if SaysStop(response) {
        finished := true;
      }
      turns := turns + 1;
    }
  }

  /** The words are found anywhere and in any case: "QUIT", "Exit!" and
      "quite" all stop the game. */
  lemma StopWordAnywhere(pre: string, word: string, post: string)
    requires Lower(word) == "exit" || Lower(word) == "quit"
    ensures MentionsStop(pre + word + post)
  {
    var s := pre + word + post;
    LowerSlice(s, |pre|, |pre| + |word|);
    assert s[|pre|..|pre| + |word|] == word;
    assert OccursAt(Lower(s), Lower(word), |pre|);
  }

  /** A text with no letter x and no letter q, in either case, never stops
      the game. */
  lemma NoStopWithoutXOrQ(text: string)
    requires forall k :: 0 <= k < |text| ==> text[k] !in "xXqQ"
    ensures !MentionsStop(text)
  {
    var low := Lower(text);
    forall i | 0 <= i && i + 4 <= |low| ensures !OccursAt(low, "exit", i) && !OccursAt(low, "quit", i) {
      assert low[i..i + 4][1] == LowerChar(text[i + 1]) != 'x';
      assert low[i..i + 4][0] == LowerChar(text[i]) != 'q';
    }
  }

  /** A response counts as chatter or as a stop signal by its text blocks
      only: with no text block it is neither, and the loop goes on. A
      response with a plain text block and a stop word in another block is
      both: it is nudged and ends the game in the same turn. */
  lemma TextBlocksDecide(response: seq<Block>)
    ensures (forall k :: 0 <= k < |response| ==> !response[k].Text?) ==>
      !HasNonExitText(response) && !SaysStop(response)
    ensures (exists k :: 0 <= k < |response| && response[k].Text?) ==> HasNonExitText(response) || SaysStop(response)
  {
  }

  /** A turn whose response says "quit" ends the game even when it also
      called tools: their results are appended first. */
  lemma StopAfterResults(c: ToolCollection, history: seq<Message>, response: seq<Block>)
    requires SaysStop(response) && LenientResults(c, response, false) != []
    ensures Turn(c, history, response) ==
      (history + [Message(Assistant, response)] + [Message(User, LenientResults(c, response, false))], true)
  {
  }

  /** A response with neither a tool result nor a stop-free text block (all
      its tool calls failed, or it is empty) adds only the assistant message,
      so the model is asked again, with the conversation ending in its own
      message. */
  lemma SilentTurn(c: ToolCollection, model: Model, history: seq<Message>, fuel: nat)
    requires fuel > 0
    requires LenientResults(c, model(ToParams(c), history), false) == []
    requires !HasNonExitText(model(ToParams(c), history)) && !SaysStop(model(ToParams(c), history))
    ensures var h := history + [Message(Assistant, model(ToParams(c), history))];
      Run(c, model, history, fuel) == Run(c, model, h, fuel - 1) &&
      h[|h| - 1].role == Assistant
  {
  }

  /** What every message the loop added from index `h0` on says, while the
      game goes on: an assistant message is the model's answer to the history
      before it and has no stop word; a user message follows an assistant
      message and is that message's reply; an assistant message is followed
      by a user message exactly when it has a reply. */
  ghost predicate Played(c: ToolCollection, model: Model, h0: nat, ms: seq<Message>)
  {
    h0 <= |ms| &&
    ModelAnswers(c, model, h0, ms) &&
    RepliesFollow(c, h0, ms) &&
    RepliesPresent(c, h0, ms) &&
    (|ms| > h0 ==> ms[h0].role == Assistant)
  }

  ghost predicate ModelAnswers(c: ToolCollection, model: Model, h0: nat, ms: seq<Message>)
  {
    forall i :: h0 <= i < |ms| ==> ms[i].role == Assistant ==>
      ms[i].content == model(ToParams(c), ms[..i]) && !SaysStop(ms[i].content)
  }

  predicate RepliesFollow(c: ToolCollection, h0: nat, ms: seq<Message>)
  {
    forall i :: h0 < i < |ms| ==> ms[i].role == User ==>
      ms[i - 1].role == Assistant && Reply(c, ms[i - 1].content) == Some(ms[i])
  }

  predicate RepliesPresent(c: ToolCollection, h0: nat, ms: seq<Message>)
  {
    (forall i :: h0 <= i < |ms| - 1 ==> ms[i].role == Assistant ==>
      (ms[i + 1].role == User <==> Reply(c, ms[i].content).Some?)) &&
    (|ms| > h0 && ms[|ms| - 1].role == Assistant ==> Reply(c, ms[|ms| - 1].content).None?)
  }

  /** The message a turn adds after the response. */
  function ReplyTail(c: ToolCollection, response: seq<Block>): (tail: seq<Message>)
    ensures |tail| <= 1
    ensures tail != [] <==> Reply(c, response).Some?
    ensures tail != [] ==> tail[0] == Reply(c, response).value && tail[0].role == User
  {
    match Reply(c, response) case Some(m) => [m] case None => []
  }

  lemma TurnKeepsPlayed(c: ToolCollection, model: Model, h0: nat, ms: seq<Message>)
    requires Played(c, model, h0, ms)
    requires !SaysStop(model(ToParams(c), ms))
    ensures Played(c, model, h0, Turn(c, ms, model(ToParams(c), ms)).0)
  {
    var response := model(ToParams(c), ms);
    var tail := ReplyTail(c, response);
    assert Turn(c, ms, response).0 == ms + [Message(Assistant, response)] + tail;
    KeepsModelAnswers(c, model, h0, ms, tail);
    KeepsRepliesFollow(c, h0, ms, response);
    KeepsRepliesPresent(c, h0, ms, response);
    assert |ms| > h0 ==> (ms + [Message(Assistant, response)] + tail)[h0] == ms[h0];
  }

  lemma KeepsModelAnswers(c: ToolCollection, model: Model, h0: nat, ms: seq<Message>, tail: seq<Message>)
    requires h0 <= |ms| && ModelAnswers(c, model, h0, ms)
    requires !SaysStop(model(ToParams(c), ms))
    requires forall k :: 0 <= k < |tail| ==> tail[k].role == User
    ensures ModelAnswers(c, model, h0, ms + [Message(Assistant, model(ToParams(c), ms))] + tail)
  {
    var ms' := ms + [Message(Assistant, model(ToParams(c), ms))] + tail;
    forall k | |ms| < k < |ms'| ensures ms'[k].role == User {
      assert ms'[k] == tail[k - |ms| - 1];
    }
    forall i | h0 <= i < |ms'| && ms'[i].role == Assistant
      ensures ms'[i].content == model(ToParams(c), ms'[..i]) && !SaysStop(ms'[i].content)
    {
      if i < |ms| {
        assert ms'[..i] == ms[..i];
        assert ms'[i] == ms[i];
      } else {
        assert i == |ms|;
        assert ms'[..i] == ms;
      }
    }
  }

  lemma KeepsRepliesFollow(c: ToolCollection, h0: nat, ms: seq<Message>, response: seq<Block>)
    requires h0 <= |ms| && RepliesFollow(c, h0, ms)
    ensures RepliesFollow(c, h0, ms + [Message(Assistant, response)] + ReplyTail(c, response))
  {
    var ms' := ms + [Message(Assistant, response)] + ReplyTail(c, response);
    forall i | h0 < i < |ms'| && ms'[i].role == User
      ensures ms'[i - 1].role == Assistant && Reply(c, ms'[i - 1].content) == Some(ms'[i])
    {
      if i < |ms| {
        assert ms'[i] == ms[i] && ms'[i - 1] == ms[i - 1];
      } else {
        assert i == |ms| + 1;
      }
    }
  }

  lemma KeepsRepliesPresent(c: ToolCollection, h0: nat, ms: seq<Message>, response: seq<Block>)
    requires h0 <= |ms| && RepliesPresent(c, h0, ms)
    ensures RepliesPresent(c, h0, ms + [Message(Assistant, response)] + ReplyTail(c, response))
  {
    var ms' := ms + [Message(Assistant, response)] + ReplyTail(c, response);
    forall i | h0 <= i < |ms'| - 1 && ms'[i].role == Assistant
      ensures ms'[i + 1].role == User <==> Reply(c, ms'[i].content).Some?
    {
      if i < |ms| - 1 {
        assert ms'[i] == ms[i] && ms'[i + 1] == ms[i + 1];
      } else if i == |ms| - 1 {
        assert ms'[i] == ms[i];
      }
    }
  }

  /** How a run from `ms` ends: `ms` kept as it is; while the game goes on
      every added message is as `Played` says; a run that broke is a played
      history followed by one turn whose response has a stop word. */
  ghost predicate EndsWell(c: ToolCollection, model: Model, h0: nat, ms: seq<Message>, r: (seq<Message>, bool))
  {
    |ms| <= |r.0| && r.0[..|ms|] == ms && Ending(c, model, h0, r)
  }

  /** The part of `EndsWell` that does not depend on where the run started. */
  ghost predicate Ending(c: ToolCollection, model: Model, h0: nat, r: (seq<Message>, bool))
  {
    (!r.1 ==> Played(c, model, h0, r.0)) &&
    (r.1 ==> (exists p :: Played(c, model, h0, p) && SaysStop(model(ToParams(c), p)) &&
               r.0 == Turn(c, p, model(ToParams(c), p)).0))
  }

  /** The shape of a run: see `EndsWell`. */
  lemma RunShape(c: ToolCollection, model: Model, history: seq<Message>, fuel: nat)
    ensures EndsWell(c, model, |history|, history, Run(c, model, history, fuel))
  {
    RunShapeFrom(c, model, |history|, history, fuel);
  }

  lemma {:induction false} RunShapeFrom(c: ToolCollection, model: Model, h0: nat, ms: seq<Message>, fuel: nat)
    requires Played(c, model, h0, ms)
    ensures EndsWell(c, model, h0, ms, Run(c, model, ms, fuel))
    decreases fuel
  {
    if fuel == 0 {
      assert ms[..|ms|] == ms;
    } else {
      var response := model(ToParams(c), ms);
      var t := Turn(c, ms, response);
      if !t.1 {
        TurnKeepsPlayed(c, model, h0, ms);
        RunShapeFrom(c, model, h0, t.0, fuel - 1);
        var r := Run(c, model, t.0, fuel - 1);
        assert Run(c, model, ms, fuel) == r;
        assert t.0[..|ms|] == ms;
        PrefixOfPrefix(r.0, t.0, ms);
      } else {
        assert Run(c, model, ms, fuel) == t;
        assert t.0[..|ms|] == ms;
      }
    }
  }

  /** A single tool that succeeds with some output, for the scenarios. */
  function NoopTool(): Tool
  {
    Tool(ToolParam("noop", "{}"), (input: ToolInput) => Returned(ToolResult(Some("done"), None, None)))
  }

  /** A model that always answers "quit now". */
  function QuitNowModel(params: seq<ToolParam>, history: seq<Message>): seq<Block>
  {
    [Text("quit now")]
  }

  /** Scenario: seeded with "ping", a model that answers "quit now" ends the
      game after one turn with two messages. */
  lemma QuitNowScenario(truth: ToolResult -> bool, fuel: nat)
    requires fuel > 0
    ensures Run(Collect([NoopTool()], truth), QuitNowModel, [Message(User, [Text("ping")])], fuel) ==
      ([Message(User, [Text("ping")]), Message(Assistant, [Text("quit now")])], true)
  {
    StopWordAnywhere("", "quit", " now");
    assert "" + "quit" + " now" == "quit now";
    var response := [Text("quit now")];
    var c := Collect([NoopTool()], truth);
    var seed := [Message(User, [Text("ping")])];
    assert response[0].Text? && MentionsStop(response[0].text);
    assert !HasNonExitText(response);
    assert LenientResults(c, response, false) == [] by {
      assert response[..0] == [];
    }
    assert QuitNowModel(ToParams(c), seed) == response;
    assert Turn(c, seed, response) == (seed + [Message(Assistant, response)], true);
    assert Run(c, QuitNowModel, seed, fuel) == Turn(c, seed, response);
    assert seed + [Message(Assistant, response)] == [Message(User, [Text("ping")]), Message(Assistant, [Text("quit now")])];
  }

  /** A model that first calls the no-op tool, then answers "pong". */
  function PongModel(params: seq<ToolParam>, history: seq<Message>): seq<Block>
  {
    if |history| == 1 then [ToolUse("t1", "noop", map[])] else [Text("pong")]
  }

  /** Scenario: a tool_use of a working tool whose result is true, then
      plain text "pong". The
      nudge is appended in the turn that answered "pong", so after two turns
      the conversation holds five messages and the game goes on. */
  lemma PongScenario(truth: ToolResult -> bool, task: string)
    requires truth(ToolResult(Some("done"), None, None))
    ensures Run(Collect([NoopTool()], truth), PongModel, [Message(User, [Text(task)])], 2) ==
      ([Message(User, [Text(task)]),
        Message(Assistant, [ToolUse("t1", "noop", map[])]),
        Message(User, [ToolResultBlock("t1", Parts([TextPart("done")]), false)]),
        Message(Assistant, [Text("pong")]),
        Message(User, [Text(Nudge)])], false)
  {
    var call := [ToolUse("t1", "noop", map[])];
    var c := Collect([NoopTool()], truth);
    var done := ToolResult(Some("done"), None, None);
    assert c.toolMap["noop"] == NoopTool();
    assert RunLenient(c, "noop", map[]) == Some(done);
    assert TextPartOf(done) + ImagePartOf(done) == [TextPart("done")];
    assert LenientResults(c, call, false) == [ToolResultBlock("t1", Parts([TextPart("done")]), false)] by {
      assert call[..0] == [];
    }
    assert !SaysStop(call);
    NoStopWithoutXOrQ("pong");
    var pong := [Text("pong")];
    assert pong[0].Text? && !MentionsStop(pong[0].text);
    assert !SaysStop(pong);
    assert LenientResults(c, pong, false) == [] by {
      assert pong[..0] == [];
    }
    var seed := [Message(User, [Text(task)])];
    var t1 := Turn(c, seed, call);
    assert PongModel(ToParams(c), seed) == call;
    assert t1 == (seed + [Message(Assistant, call)] + [Message(User, LenientResults(c, call, false))], false);
    assert PongModel(ToParams(c), t1.0) == pong;
    var t2 := Turn(c, t1.0, pong);
    assert t2 == (t1.0 + [Message(Assistant, pong)] + [Message(User, [Text(Nudge)])], false);
    assert Run(c, PongModel, seed, 2) == Run(c, PongModel, t1.0, 1);
    assert Run(c, PongModel, t1.0, 1) == Run(c, PongModel, t2.0, 0);
    assert t2.0 == [Message(User, [Text(task)]),
        Message(Assistant, call),
        Message(User, [ToolResultBlock("t1", Parts([TextPart("done")]), false)]),
        Message(Assistant, pong),
        Message(User, [Text(Nudge)])];
  }
}
