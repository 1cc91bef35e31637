/**
  scrapybara-cli's `run_agent`. For each tool_use of a response it first
  works out the line it displays, then runs the tool through the strict
  ToolCollection and packages the result with `make_tool_result`. An
  exception from either step leaves the function, so the turn's response
  is never recorded. Otherwise the response is appended as an assistant
  message and the results as a user message; a response without tool_use
  ends the loop.
 */
module CliAgent {
  import opened Blocks
  import opened Registry
  import opened Packaging
  import opened PyStr

  /** The line displayed for a tool call, as a value rather than markup. */
  datatype Label =
    | Running(name: string, input: ToolInput)
    | TakingScreenshot
    | Clicking
    | Typing
    | Scrolling
    | PressingKey(key: string)
    | MovingMouse
    | ShellPrompt(host: string, command: Value)

  function KeyError(key: string): PyException
  {
    PyException("KeyError", key)
  }

  /** `stream_url.replace('http://', '').split(':')[0]`. */
  function HostOf(streamUrl: string): string
  {
    BeforeFirst(Replace(streamUrl, "http://", ""), ':')
  }

  /** Looking up a key the display needs fails: "action" for the computer
      tool, "text" for its key action (or a "text" that is not a string,
      which has no `upper`), "command" for bash. */
  predicate LabelRaises(name: string, input: ToolInput)
  {
    (name == "computer" && "action" !in input) ||
    (name == "computer" && "action" in input && input["action"] == Str("key") &&
     ("text" !in input || !input["text"].Str?)) ||
    (name == "bash" && "command" !in input)
  }

  /** The display line for a tool_use, or the exception working it out raises. */
  function ToolLabel(name: string, input: ToolInput, streamUrl: string): (r: Result<Label, PyException>)
    ensures r.Err? <==> LabelRaises(name, input)
    ensures name == "computer" && "action" !in input ==> r == Err(KeyError("action"))
    ensures name == "computer" && "action" in input && input["action"] == Str("key") && "text" !in input ==>
      r == Err(KeyError("text"))
    ensures name == "computer" && "action" in input && input["action"] == Str("key") && "text" in input && !input["text"].Str? ==>
      r.Err? && r.error.kind == "AttributeError"
    ensures name == "bash" && "command" !in input ==> r == Err(KeyError("command"))
    ensures name != "computer" && name != "bash" ==> r == Ok(Running(name, input))
    ensures r.Ok? && r.value.PressingKey? ==>
      "text" in input && input["text"].Str? && Lower(r.value.key) == Lower(input["text"].s) &&
      forall i :: 0 <= i < |r.value.key| ==> !('a' <= r.value.key[i] <= 'z')
    ensures r.Ok? && r.value.ShellPrompt? ==>
      "command" in input && r.value == ShellPrompt(HostOf(streamUrl), input["command"])
    ensures name == "bash" && "command" in input ==> r == Ok(ShellPrompt(HostOf(streamUrl), input["command"]))
    ensures name == "computer" && "action" in input && input["action"] == Str("key") && "text" in input && input["text"].Str? ==>
      r == Ok(PressingKey(Upper(input["text"].s)))
    ensures name == "computer" && "action" in input ==>
      var action := input["action"];
      (action == Str("screenshot") ==> r == Ok(TakingScreenshot)) &&
      (action == Str("left_click") || action == Str("right_click") ==> r == Ok(Clicking)) &&
      (action == Str("type") ==> r == Ok(Typing)) &&
      (action == Str("scroll") ==> r == Ok(Scrolling)) &&
      (action == Str("mouse_move") ==> r == Ok(MovingMouse)) &&
      (action !in {Str("screenshot"), Str("left_click"), Str("right_click"), Str("type"), Str("scroll"), Str("key"), Str("mouse_move")} ==>
        r == Ok(Running(name, input)))
  {
    if name == "computer" then
      if "action" !in input then Err(KeyError("action"))
      else
        var action := input["action"];
        if action == Str("screenshot") then Ok(TakingScreenshot)
        else if action == Str("left_click") || action == Str("right_click") then Ok(Clicking)
        else if action == Str("type") then Ok(Typing)
        else if action == Str("scroll") then Ok(Scrolling)
        else if action == Str("key") then
          if "text" !in input then Err(KeyError("text"))
          else match input["text"]
            case Str(t) => Ok(PressingKey(Upper(t)))
            case Int(_) => Err(PyException("AttributeError", "'int' object has no attribute 'upper'"))
            case IntList(_) => Err(PyException("AttributeError", "'list' object has no attribute 'upper'"))
        else if action == Str("mouse_move") then Ok(MovingMouse)
        else Ok(Running(name, input))
    else if name == "bash" then
      if "command" !in input then Err(KeyError("command"))
      else Ok(ShellPrompt(HostOf(streamUrl), input["command"]))
    else Ok(Running(name, input))
  }

  /** `replace` leaves the host of `host:rest` in front when the host has no
      colon and `rest` (a port) does not start with a slash. */
  lemma {:induction false} ReplaceKeepsHost(host: string, rest: string)
    requires ':' !in host
    requires |rest| > 0 && rest[0] != '/'
    ensures var r := Replace(host + ":" + rest, "http://", "");
      |host| < |r| && r[..|host| + 1] == host + ":"
    decreases |host|
  {
    var s := host + ":" + rest;
    if |s| >= 7 {
      assert s[..7] != "http://" by {
        if |host| > 4 {
          assert s[..7][4] == host[4] != ':';
        } else if |host| == 4 {
          assert s[..7][5] == rest[0];
        } else {
          assert s[..7][|host|] == ':';
        }
      }
      var tail := Replace(s[1..], "http://", "");
      assert Replace(s, "http://", "") == [s[0]] + tail;
      if |host| > 0 {
        assert s[1..] == host[1..] + ":" + rest;
        ReplaceKeepsHost(host[1..], rest);
        assert ([s[0]] + tail)[..|host| + 1] == [s[0]] + tail[..|host|];
        assert host + ":" == [host[0]] + (host[1..] + ":");
      }
    }
  }

  /** A leading "http://" is removed. */
  lemma ReplaceDropsScheme(s: string)
    ensures Replace("http://" + s, "http://", "") == Replace(s, "http://", "")
  {
    var u := "http://" + s;
    assert u[..7] == "http://";
    assert u[7..] == s;
  }

  /** `split(':')[0]` of a text that starts with `host:` is the host. */
  lemma {:induction false} BeforeColon(host: string, r: string)
    requires ':' !in host
    requires |host| < |r| && r[..|host| + 1] == host + ":"
    ensures BeforeFirst(r, ':') == host
    decreases |host|
  {
    assert r[0] == (host + ":")[0];
    if host != [] {
      assert r[0] == host[0] != ':';
      assert r[1..][..|host|] == r[..|host| + 1][1..] == host[1..] + ":";
      BeforeColon(host[1..], r[1..]);
      assert host == [host[0]] + host[1..];
    }
  }

  /** The displayed host of `http://<host>:<port...>` is the host. */
  lemma HostOfStreamUrl(host: string, rest: string)
    requires ':' !in host
    requires |rest| > 0 && rest[0] != '/'
    ensures HostOf("http://" + host + ":" + rest) == host
  {
    var s := host + ":" + rest;
    assert "http://" + host + ":" + rest == "http://" + s;
    ReplaceDropsScheme(s);
    ReplaceKeepsHost(host, rest);
    BeforeColon(host, Replace(s, "http://", ""));
  }

  /** What one block contributes: nothing for a block that is not a
      tool_use; for a tool_use its display line is worked out, then the tool
      runs, and either step may raise. */
  function StepFor(c: ToolCollection, b: Block, streamUrl: string): (r: Result<seq<Block>, PyException>)
    ensures r.Ok? <==> !b.ToolUse? || (ToolLabel(b.name, b.input, streamUrl).Ok? && RunStrict(c, b.name, b.input).Ok?)
    ensures r.Ok? && !b.ToolUse? ==> r.value == []
    ensures r.Ok? && b.ToolUse? ==> r.value == [ToolResultOf(RunStrict(c, b.name, b.input).value, b.id)]
    ensures r.Err? && b.ToolUse? && ToolLabel(b.name, b.input, streamUrl).Err? ==>
      r.error == ToolLabel(b.name, b.input, streamUrl).error
    ensures b.ToolUse? && ToolLabel(b.name, b.input, streamUrl).Ok? && RunStrict(c, b.name, b.input).Err? ==>
      r == Err(RunStrict(c, b.name, b.input).error)
  {
    if !b.ToolUse? then Ok([])
    else match ToolLabel(b.name, b.input, streamUrl)
      case Err(e) => Err(e)
      case Ok(_) =>
        match RunStrict(c, b.name, b.input)
          case Err(e) => Err(e)
          case Ok(result) => Ok([ToolResultOf(result, b.id)])
  }

  /** The `tool_results` list after the loop over `blocks`, or the first
      exception raised on the way. */
  function StrictResults(c: ToolCollection, blocks: seq<Block>, streamUrl: string): Result<seq<Block>, PyException>
  {
    if |blocks| == 0 then Ok([])
    else match StrictResults(c, blocks[..|blocks| - 1], streamUrl)
      case Err(e) => Err(e)
      case Ok(rs) =>
        match StepFor(c, blocks[|blocks| - 1], streamUrl)
          case Err(e) => Err(e)
          case Ok(extra) => Ok(rs + extra)
  }

  /** The loop over the response blocks; an exception ends it at once. */
  method CollectStrictResults(c: ToolCollection, blocks: seq<Block>, streamUrl: string)
    returns (r: Result<seq<Block>, PyException>)
    ensures r == StrictResults(c, blocks, streamUrl)
  {
    var toolResults: seq<Block> := [];
    var i := 0;
    while i < |blocks|
      invariant 0 <= i <= |blocks|
      invariant StrictResults(c, blocks[..i], streamUrl) == Ok(toolResults)
    {
      var content := blocks[i];
      assert blocks[..i + 1][..i] == blocks[..i];
      if content.ToolUse? {
        var display := ToolLabel(content.name, content.input, streamUrl);
        if display.Err? {
          StrictErrorStays(c, blocks, i + 1, streamUrl);
          return Err(display.error);
        }
        var result := RunStrict(c, content.name, content.input);
        if result.Err? {
          StrictErrorStays(c, blocks, i + 1, streamUrl);
          return Err(result.error);
        }
        var toolResult := MakeToolResult(result.value, content.id);
        toolResults := toolResults + [toolResult];
      } else {
        assert toolResults + [] == toolResults;
      }
      i := i + 1;
    }
    assert blocks[..i] == blocks;
    r := Ok(toolResults);
  }

  /** Once a prefix has raised, every longer prefix raises the same. */
  lemma {:induction false} StrictErrorStays(c: ToolCollection, blocks: seq<Block>, i: nat, streamUrl: string)
    requires i <= |blocks| && StrictResults(c, blocks[..i], streamUrl).Err?
    ensures StrictResults(c, blocks, streamUrl) == StrictResults(c, blocks[..i], streamUrl)
    decreases |blocks| - i
  {
    if i < |blocks| {
      assert blocks[..i + 1][..i] == blocks[..i];
      StrictErrorStays(c, blocks, i + 1, streamUrl);
    } else {
      assert blocks[..i] == blocks;
    }
  }

  /** The loop completes iff every block's step does; then there is exactly
      one tool_result per tool_use, each answering its own call, in order. */
  lemma {:induction false} StrictResultsComplete(c: ToolCollection, blocks: seq<Block>, streamUrl: string)
    ensures StrictResults(c, blocks, streamUrl).Ok? <==>
      forall k :: 0 <= k < |blocks| ==> StepFor(c, blocks[k], streamUrl).Ok?
    ensures StrictResults(c, blocks, streamUrl).Ok? ==>
      AllToolResults(StrictResults(c, blocks, streamUrl).value) &&
      ResultIds(StrictResults(c, blocks, streamUrl).value) == ToolUseIds(blocks)
  {
    if |blocks| > 0 {
      var front, b := blocks[..|blocks| - 1], blocks[|blocks| - 1];
      StrictResultsComplete(c, front, streamUrl);
      assert forall k :: 0 <= k < |front| ==> front[k] == blocks[k];
      if StrictResults(c, blocks, streamUrl).Ok? {
        var rs := StrictResults(c, front, streamUrl).value;
        var extra := StepFor(c, b, streamUrl).value;
        assert StrictResults(c, blocks, streamUrl).value == rs + extra;
        if b.ToolUse? {
          assert (rs + extra)[..|rs|] == rs;
        } else {
          assert rs + extra == rs;
        }
      }
    }
  }

  /** An exception comes from the first block whose step raises. */
  lemma {:induction false} StrictResultsFirstError(c: ToolCollection, blocks: seq<Block>, streamUrl: string)
    requires StrictResults(c, blocks, streamUrl).Err?
    ensures exists k :: (0 <= k < |blocks| && blocks[k].ToolUse? &&
      StepFor(c, blocks[k], streamUrl) == Err(StrictResults(c, blocks, streamUrl).error) &&
      forall j :: 0 <= j < k ==> StepFor(c, blocks[j], streamUrl).Ok?)
  {
    var front, b := blocks[..|blocks| - 1], blocks[|blocks| - 1];
    assert forall k :: 0 <= k < |front| ==> front[k] == blocks[k];
    if StrictResults(c, front, streamUrl).Err? {
      StrictResultsFirstError(c, front, streamUrl);
    } else {
      StrictResultsComplete(c, front, streamUrl);
      assert StepFor(c, blocks[|blocks| - 1], streamUrl) == Err(StrictResults(c, blocks, streamUrl).error);
    }
  }

  /** How a run ends. */
  datatype Status = Finished | OutOfTurns | Aborted(exception: PyException)

  /** At most `fuel` iterations from `history`. An exception leaves the
      history as it was before that turn. */
  function Run(c: ToolCollection, model: Model, streamUrl: string, history: seq<Message>, fuel: nat): (seq<Message>, Status)
    decreases fuel
  {
    if fuel == 0 then (history, OutOfTurns)
    else
      var response := model(ToParams(c), history);
      match StrictResults(c, response, streamUrl)
        case Err(e) => (history, Aborted(e))
        case Ok(toolResults) =>
          var withResponse := history + [Message(Assistant, response)];
          if toolResults != [] then Run(c, model, streamUrl, withResponse + [Message(User, toolResults)], fuel - 1)
          else (withResponse, Finished)
  }

  /** `run_agent` with at most `maxTurns` model calls. The strict loop
      never tests the truth value of a result, so `resultTruth` is free. */
  method RunAgent(tools: seq<Tool>, resultTruth: ToolResult -> bool, model: Model, streamUrl: string, prompt: string, maxTurns: nat)
    returns (messages: seq<Message>, status: Status)
    ensures (messages, status) == Run(Collect(tools, resultTruth), model, streamUrl, [Message(User, [Text(prompt)])], maxTurns)
  {
    var toolCollection := Collect(tools, resultTruth);
    var seed := [Message(User, [Text(prompt)])];
    messages := seed;
    status := OutOfTurns;
    var stopped := false;
    var turns := 0;
    while turns < maxTurns && !stopped
      invariant 0 <= turns <= maxTurns
      invariant !stopped ==> status == OutOfTurns
      invariant Run(toolCollection, model, streamUrl, seed, maxTurns) ==
        if stopped then (messages, status) else Run(toolCollection, model, streamUrl, messages, maxTurns - turns)
    {
      var response := model(ToParams(toolCollection), messages);
      var toolResults := CollectStrictResults(toolCollection, response, streamUrl);
      if toolResults.Err? {
        status := Aborted(toolResults.error);
        stopped := true;
      } else {
        messages := messages + [Message(Assistant, response)];
        if toolResults.value != [] {
          messages := messages + [Message(User, toolResults.value)];
        } else {
          status := Finished;
          stopped := true;
        }
      }
      turns := turns + 1;
    }
  }

  /** What every message the loop added from index `h0` on says: the roles
      alternate and start with the assistant; each assistant message is the
      model's answer to the history before it, and the next message is the
      user message holding that answer's (non-empty) tool results. */
  ghost predicate WellFormed(c: ToolCollection, model: Model, streamUrl: string, h0: nat, ms: seq<Message>)
  {
    h0 <= |ms| &&
    Alternates(ms) &&
    (|ms| > h0 ==> ms[h0].role == Assistant) &&
    (forall i :: h0 <= i < |ms| ==> ms[i].role == Assistant ==> ms[i].content == model(ToParams(c), ms[..i])) &&
    (forall i :: h0 <= i < |ms| - 1 ==> ms[i].role == Assistant ==>
      StrictResults(c, ms[i].content, streamUrl).Ok? && StrictResults(c, ms[i].content, streamUrl).value != [] &&
      ms[i + 1] == Message(User, StrictResults(c, ms[i].content, streamUrl).value))
  }

  /** How a run from `ms` ends: `ms` kept; the added messages well formed; a
      finished run ends with an assistant message whose response has no
      tool_use; an aborted or cut-short run ends with a user message, and an
      aborted one with the exception that model's next answer raises. */
  ghost predicate EndsWell(c: ToolCollection, model: Model, streamUrl: string, h0: nat, ms: seq<Message>, r: (seq<Message>, Status))
  {
    |ms| <= |r.0| && r.0[..|ms|] == ms && Ending(c, model, streamUrl, h0, r)
  }

  /** The part of `EndsWell` that does not depend on where the run started. */
  ghost predicate Ending(c: ToolCollection, model: Model, streamUrl: string, h0: nat, r: (seq<Message>, Status))
  {
    0 < |r.0| &&
    WellFormed(c, model, streamUrl, h0, r.0) &&
    r.0[|r.0| - 1].role == (if r.1.Finished? then Assistant else User) &&
    (r.1.Finished? ==> StrictResults(c, r.0[|r.0| - 1].content, streamUrl) == Ok([]) &&
                       ToolUseIds(r.0[|r.0| - 1].content) == []) &&
    (r.1.Aborted? ==> StrictResults(c, model(ToParams(c), r.0), streamUrl) == Err(r.1.exception))
  }

  lemma TurnKeepsWellFormed(c: ToolCollection, model: Model, streamUrl: string, h0: nat, ms: seq<Message>)
    requires WellFormed(c, model, streamUrl, h0, ms) && |ms| > 0 && ms[|ms| - 1].role == User
    requires StrictResults(c, model(ToParams(c), ms), streamUrl).Ok?
    ensures var response := model(ToParams(c), ms);
      var withResponse := ms + [Message(Assistant, response)];
      WellFormed(c, model, streamUrl, h0, withResponse) &&
      (StrictResults(c, response, streamUrl).value != [] ==>
        WellFormed(c, model, streamUrl, h0, withResponse + [Message(User, StrictResults(c, response, streamUrl).value)]))
  {
    var response := model(ToParams(c), ms);
    var withResponse := ms + [Message(Assistant, response)];
    var rs := StrictResults(c, response, streamUrl).value;
    var ms' := withResponse + [Message(User, rs)];
    forall i | h0 <= i < |ms'| && ms'[i].role == Assistant
      ensures ms'[i].content == model(ToParams(c), ms'[..i]) && withResponse[i].content == model(ToParams(c), withResponse[..i])
    {
      if i < |ms| {
        assert ms'[..i] == ms[..i] == withResponse[..i];
        assert ms'[i] == ms[i] == withResponse[i];
      } else {
        assert i == |ms|;
        assert ms'[..i] == ms == withResponse[..i];
      }
    }
    forall i | h0 <= i < |withResponse| - 1 && withResponse[i].role == Assistant
      ensures StrictResults(c, withResponse[i].content, streamUrl).Ok? &&
        StrictResults(c, withResponse[i].content, streamUrl).value != [] &&
        withResponse[i + 1] == Message(User, StrictResults(c, withResponse[i].content, streamUrl).value)
    {
      assert withResponse[i] == ms[i] && withResponse[i + 1] == ms[i + 1];
    }
    if rs != [] {
      forall i | h0 <= i < |ms'| - 1 && ms'[i].role == Assistant
        ensures StrictResults(c, ms'[i].content, streamUrl).Ok? && StrictResults(c, ms'[i].content, streamUrl).value != [] &&
          ms'[i + 1] == Message(User, StrictResults(c, ms'[i].content, streamUrl).value)
      {
        if i < |ms| - 1 {
          assert ms'[i] == ms[i] && ms'[i + 1] == ms[i + 1];
        } else {
          assert i == |ms|;
        }
      }
    }
    assert |ms| > h0 ==> ms'[h0] == ms[h0] == withResponse[h0];
  }

  /** The shape of a run from a history that ends with a user message and
      alternates: see `EndsWell`. */
  lemma RunShape(c: ToolCollection, model: Model, streamUrl: string, history: seq<Message>, fuel: nat)
    requires |history| > 0 && history[|history| - 1].role == User && Alternates(history)
    ensures EndsWell(c, model, streamUrl, |history|, history, Run(c, model, streamUrl, history, fuel))
  {
    RunShapeFrom(c, model, streamUrl, |history|, history, fuel);
  }

  lemma {:induction false} RunShapeFrom(c: ToolCollection, model: Model, streamUrl: string, h0: nat, ms: seq<Message>, fuel: nat)
    requires WellFormed(c, model, streamUrl, h0, ms) && |ms| > 0 && ms[|ms| - 1].role == User
    ensures EndsWell(c, model, streamUrl, h0, ms, Run(c, model, streamUrl, ms, fuel))
    decreases fuel
  {
    assert ms[..|ms|] == ms;
    if fuel > 0 {
      var response := model(ToParams(c), ms);
      if StrictResults(c, response, streamUrl).Ok? {
        var rs := StrictResults(c, response, streamUrl).value;
        var withResponse := ms + [Message(Assistant, response)];
        TurnKeepsWellFormed(c, model, streamUrl, h0, ms);
        StrictResultsComplete(c, response, streamUrl);
        assert withResponse[..|ms|] == ms;
        if rs != [] {
          var next := withResponse + [Message(User, rs)];
          RunShapeFrom(c, model, streamUrl, h0, next, fuel - 1);
          var r := Run(c, model, streamUrl, next, fuel - 1);
          assert Run(c, model, streamUrl, ms, fuel) == r;
          assert next[..|ms|] == ms;
          PrefixOfPrefix(r.0, next, ms);
        } else {
          assert Run(c, model, streamUrl, ms, fuel) == (withResponse, Finished);
        }
      }
    }
  }

  /** The loop stops with `Finished` exactly after a response without
      tool_use, and carries on after a response with one that raises nothing. */
  lemma FinishIffNoToolUse(c: ToolCollection, response: seq<Block>, streamUrl: string)
    requires StrictResults(c, response, streamUrl).Ok?
    ensures StrictResults(c, response, streamUrl).value == [] <==> ToolUseIds(response) == []
  {
    StrictResultsComplete(c, response, streamUrl);
    ResultIdsEmpty(StrictResults(c, response, streamUrl).value);
  }

  lemma ResultIdsEmpty(rs: seq<Block>)
    requires AllToolResults(rs)
    ensures ResultIds(rs) == [] <==> rs == []
  {
    if rs != [] {
      assert rs[|rs| - 1].ToolResultBlock?;
    }
  }

  /** A failed call is never packaged as an error result: the strict loop
      raises instead. This is where scrapybara-cli differs from the lenient
      scripts, which drop the call, except website-copycat's bash call,
      which is answered by the screenshot's result with no sign of the
      failure. */
  lemma RaisingToolAborts(c: ToolCollection, model: Model, streamUrl: string, history: seq<Message>, fuel: nat)
    requires fuel > 0
    requires var response := model(ToParams(c), history);
      exists k :: 0 <= k < |response| && response[k].ToolUse? &&
        ToolLabel(response[k].name, response[k].input, streamUrl).Ok? &&
        RunStrict(c, response[k].name, response[k].input).Err?
    ensures Run(c, model, streamUrl, history, fuel).0 == history
    ensures Run(c, model, streamUrl, history, fuel).1.Aborted?
  {
    var response := model(ToParams(c), history);
    var k :| 0 <= k < |response| && response[k].ToolUse? &&
      ToolLabel(response[k].name, response[k].input, streamUrl).Ok? &&
      RunStrict(c, response[k].name, response[k].input).Err?;
    assert StepFor(c, response[k], streamUrl).Err?;
    StrictResultsComplete(c, response, streamUrl);
  }
}
