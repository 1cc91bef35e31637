/**
  website-copycat's `replicate_website` loop: ask the model, answer its
  tool_use blocks (with the bash screenshot fallback), append the response
  as an assistant message and the tool results, if any, as a user message;
  stop as soon as a response yields no tool result.
 */
module Copycat {
  import opened Blocks
  import opened Registry
  import opened Dispatch

  /** The first message: the intro text and the screenshot of the site. */
  function Seed(intro: string, screenshot: string): Message
  {
    Message(User, [Text(intro), Image(screenshot)])
  }

  /** One iteration once the model has answered `response`: the new history
      and whether the loop breaks. */
  function Turn(c: ToolCollection, history: seq<Message>, response: seq<Block>): (t: (seq<Message>, bool))
    ensures |t.0| == |history| + (if t.1 then 1 else 2)
    ensures t.0[..|history|] == history
    ensures t.0[|history|] == Message(Assistant, response)
    ensures t.1 <==> LenientResults(c, response, true) == []
    ensures !t.1 ==> t.0[|history| + 1] == Message(User, LenientResults(c, response, true))
  {
    var results := LenientResults(c, response, true);
    var withResponse := history + [Message(Assistant, response)];
    if results != [] then (withResponse + [Message(User, results)], false)
    else (withResponse, true)
  }

  /** At most `fuel` iterations from `history`: the final history and whether
      the loop broke (rather than running out of turns). */
  function Run(c: ToolCollection, model: Model, history: seq<Message>, fuel: nat): (seq<Message>, bool)
    decreases fuel
  {
    if fuel == 0 then (history, false)
    else
      var t := Turn(c, history, model(ToParams(c), history));
      if t.1 then t else Run(c, model, t.0, fuel - 1)
  }

  /** `replicate_website` with at most `maxTurns` model calls. */
  method ReplicateWebsite(tools: seq<Tool>, resultTruth: ToolResult -> bool, model: Model, intro: string, screenshot: string, maxTurns: nat)
    returns (messages: seq<Message>, finished: bool)
    ensures (messages, finished) == Run(Collect(tools, resultTruth), model, [Seed(intro, screenshot)], maxTurns)
  {
    var toolCollection := Collect(tools, resultTruth);
    var seed := [Seed(intro, screenshot)];
    messages := seed;
    finished := false;
    var turns := 0;
    while turns < maxTurns && !finished
      invariant 0 <= turns <= maxTurns
      invariant Run(toolCollection, model, seed, maxTurns) ==
        if finished then (messages, true) else Run(toolCollection, model, messages, maxTurns - turns)
    {
      var response := model(ToParams(toolCollection), messages);
      var toolResultContent := CollectResults(toolCollection, response, true);
      messages := messages + [Message(Assistant, response)];
      if toolResultContent != [] {
        messages := messages + [Message(User, toolResultContent)];
      } else {
        finished := true;
      }
      turns := turns + 1;
    }
  }

  /** What every message the loop added says, from index `h0` on: an
      assistant message is the model's response to the history before it,
      and the message after it is the user message holding exactly the
      (non-empty) tool results of that response. */
  ghost predicate WellFormed(c: ToolCollection, model: Model, h0: nat, ms: seq<Message>)
  {
    h0 <= |ms| &&
    Alternates(ms) &&
    ModelAnswers(c, model, h0, ms) &&
    ResultsFollow(c, h0, ms) &&
    (|ms| > h0 ==> ms[h0].role == Assistant)
  }

  /** Every assistant message from `h0` on is the model's answer to the
      history before it. */
  ghost predicate ModelAnswers(c: ToolCollection, model: Model, h0: nat, ms: seq<Message>)
  {
    forall i :: h0 <= i < |ms| ==> ms[i].role == Assistant ==> ms[i].content == model(ToParams(c), ms[..i])
  }

  /** Every assistant message from `h0` on that is not the last is followed
      by the user message holding its (non-empty) tool results. */
  ghost predicate ResultsFollow(c: ToolCollection, h0: nat, ms: seq<Message>)
  {
    forall i :: h0 <= i < |ms| - 1 ==> ms[i].role == Assistant ==>
      LenientResults(c, ms[i].content, true) != [] && ms[i + 1] == Message(User, LenientResults(c, ms[i].content, true))
  }

  lemma TurnKeepsWellFormed(c: ToolCollection, model: Model, h0: nat, ms: seq<Message>)
    requires WellFormed(c, model, h0, ms) && |ms| > 0 && ms[|ms| - 1].role == User
    ensures var t := Turn(c, ms, model(ToParams(c), ms));
      WellFormed(c, model, h0, t.0) && t.0[|t.0| - 1].role == (if t.1 then Assistant else User)
  {
    var t := Turn(c, ms, model(ToParams(c), ms));
    KeepsModelAnswers(c, model, h0, ms);
    KeepsResultsFollow(c, model, h0, ms);
    assert |ms| > h0 ==> t.0[h0] == ms[h0];
  }

  lemma KeepsModelAnswers(c: ToolCollection, model: Model, h0: nat, ms: seq<Message>)
    requires ModelAnswers(c, model, h0, ms)
    ensures ModelAnswers(c, model, h0, Turn(c, ms, model(ToParams(c), ms)).0)
  {
    var ms' := Turn(c, ms, model(ToParams(c), ms)).0;
    forall i | h0 <= i < |ms'| && ms'[i].role == Assistant
      ensures ms'[i].content == model(ToParams(c), ms'[..i])
    {
      if i < |ms| {
        assert ms'[..i] == ms[..i];
        assert ms'[i] == ms[i];
      } else {
        assert i == |ms|;
        assert ms'[..i] == ms;
      }
    }
  }

  lemma KeepsResultsFollow(c: ToolCollection, model: Model, h0: nat, ms: seq<Message>)
    requires ResultsFollow(c, h0, ms) && |ms| > 0 && ms[|ms| - 1].role == User
    ensures ResultsFollow(c, h0, Turn(c, ms, model(ToParams(c), ms)).0)
  {
    var ms' := Turn(c, ms, model(ToParams(c), ms)).0;
    forall i | h0 <= i < |ms'| - 1 && ms'[i].role == Assistant
      ensures LenientResults(c, ms'[i].content, true) != [] &&
        ms'[i + 1] == Message(User, LenientResults(c, ms'[i].content, true))
    {
      if i < |ms| - 1 {
        assert ms'[i] == ms[i] && ms'[i + 1] == ms[i + 1];
      } else {
        assert i == |ms|;
      }
    }
  }

  /** How a run from `ms` may end: `ms` kept as it is, the added messages
      well formed, the last message the assistant's exactly when the loop
      broke, and then after a response with no tool result. */
  ghost predicate EndsWell(c: ToolCollection, model: Model, h0: nat, ms: seq<Message>, r: (seq<Message>, bool))
  {
    |ms| <= |r.0| && r.0[..|ms|] == ms && Ending(c, model, h0, r)
  }

  /** The part of `EndsWell` that does not depend on where the run started. */
  ghost predicate Ending(c: ToolCollection, model: Model, h0: nat, r: (seq<Message>, bool))
  {
    0 < |r.0| &&
    WellFormed(c, model, h0, r.0) &&
    r.0[|r.0| - 1].role == (if r.1 then Assistant else User) &&
    (r.1 ==> LenientResults(c, r.0[|r.0| - 1].content, true) == [])
  }

  /** The shape of a run from a history that ends with a user message: the
      history is kept as it is; the roles alternate; every assistant message
      is the model's answer to what precedes it, and is followed by the user
      message holding that answer's tool results; the loop breaks exactly
      after a response with no tool result, leaving the assistant's message
      last, and a run cut short by the turn bound ends with a user message. */
  lemma RunShape(c: ToolCollection, model: Model, history: seq<Message>, fuel: nat)
    requires |history| > 0 && history[|history| - 1].role == User && Alternates(history)
    ensures EndsWell(c, model, |history|, history, Run(c, model, history, fuel))
  {
    RunShapeFrom(c, model, |history|, history, fuel);
  }

  lemma {:induction false} RunShapeFrom(c: ToolCollection, model: Model, h0: nat, ms: seq<Message>, fuel: nat)
    requires WellFormed(c, model, h0, ms) && |ms| > 0 && ms[|ms| - 1].role == User
    ensures EndsWell(c, model, h0, ms, Run(c, model, ms, fuel))
    decreases fuel
  {
    if fuel == 0 {
      assert ms[..|ms|] == ms;
    } else {
      var t := Turn(c, ms, model(ToParams(c), ms));
      if !t.1 {
        TurnKeepsWellFormed(c, model, h0, ms);
        RunShapeFrom(c, model, h0, t.0, fuel - 1);
        ContinueEndsWell(c, model, h0, ms, t.0, Run(c, model, t.0, fuel - 1));
        assert Run(c, model, ms, fuel) == Run(c, model, t.0, fuel - 1);
      } else {
        BreakEndsWell(c, model, h0, ms);
        assert Run(c, model, ms, fuel) == t;
      }
    }
  }

  /** A run that goes on from the next history `next` of `ms` ends well from
      `ms` when it ends well from `next`. */
  lemma ContinueEndsWell(c: ToolCollection, model: Model, h0: nat, ms: seq<Message>, next: seq<Message>, r: (seq<Message>, bool))
    requires next == Turn(c, ms, model(ToParams(c), ms)).0
    requires EndsWell(c, model, h0, next, r)
    ensures EndsWell(c, model, h0, ms, r)
  {
    PrefixOfPrefix(r.0, next, ms);
  }

  /** A turn that breaks ends the run well. */
  lemma BreakEndsWell(c: ToolCollection, model: Model, h0: nat, ms: seq<Message>)
    requires WellFormed(c, model, h0, ms) && |ms| > 0 && ms[|ms| - 1].role == User
    requires Turn(c, ms, model(ToParams(c), ms)).1
    ensures EndsWell(c, model, h0, ms, Turn(c, ms, model(ToParams(c), ms)))
  {
    TurnKeepsWellFormed(c, model, h0, ms);
  }

  /** A response with no tool_use block ends the run after that one turn,
      whatever its text says. */
  lemma NoToolUseStops(c: ToolCollection, model: Model, history: seq<Message>, fuel: nat)
    requires fuel > 0
    requires forall k :: 0 <= k < |model(ToParams(c), history)| ==> !model(ToParams(c), history)[k].ToolUse?
    ensures Run(c, model, history, fuel) == (history + [Message(Assistant, model(ToParams(c), history))], true)
  {
    NoToolUseNoResults(c, model(ToParams(c), history));
  }

  lemma {:induction false} NoToolUseNoResults(c: ToolCollection, blocks: seq<Block>)
    requires forall k :: 0 <= k < |blocks| ==> !blocks[k].ToolUse?
    ensures LenientResults(c, blocks, true) == []
  {
    if |blocks| > 0 {
      NoToolUseNoResults(c, blocks[..|blocks| - 1]);
    }
  }

  /** In a well-formed run, the user message after an assistant message holds
      only tool_result blocks, answering that message's tool_uses at most once
      each and in their order. */
  lemma TurnResultsAnswerInOrder(c: ToolCollection, model: Model, h0: nat, ms: seq<Message>, i: nat)
    requires WellFormed(c, model, h0, ms) && h0 <= i < |ms| - 1 && ms[i].role == Assistant
    ensures AllToolResults(ms[i + 1].content)
    ensures IsSubsequence(ResultIds(ms[i + 1].content), ToolUseIds(ms[i].content))
    ensures 0 < |ms[i + 1].content| <= |ToolUseIds(ms[i].content)|
  {
    ResultsAreToolResults(c, ms[i].content, true);
    ResultsAnswerInOrder(c, ms[i].content, true);
  }
}
