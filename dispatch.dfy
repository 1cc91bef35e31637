/**
  The inner loop of website-copycat and dungeon-crawler: each tool_use block
  of a response is run through the lenient ToolCollection and, when a result
  comes back, packaged inline into one tool_result block. website-copycat
  also replaces an empty or missing bash result by a screenshot; the flag
  `screenshotFallback` says whether that rule applies.
 */
module Dispatch {
  import opened Blocks
  import opened Registry
  import opened Packaging

  /** The input of the fallback call: `{"action": "screenshot"}`. */
  const ScreenshotInput: ToolInput := map["action" := Str("screenshot")]

  /** `if result:`: a result came back and the collection's truth value
      holds of it. */
  predicate IsTrue(c: ToolCollection, r: Option<ToolResult>)
  {
    r.Some? && c.resultTruth(r.value)
  }

  /** `not result or (output == "" and error == "" and base64_image is None)`:
      no result or a false one, or a result whose output and error are both
      the empty string (not `None`) and whose image is `None`. */
  predicate NeedsScreenshot(c: ToolCollection, r: Option<ToolResult>)
  {
    !IsTrue(c, r) || (r.value.output == Some("") && r.value.error == Some("") && r.value.base64Image.None?)
  }

  /** The truth value of the computer-use reference ToolResult dataclass:
      true iff some field is truthy. */
  predicate AnyFieldSet(r: ToolResult)
  {
    Truthy(r.output) || Truthy(r.error) || Truthy(r.base64Image)
  }

  /** The result a tool_use ends up with, after the fallback if it applies. */
  function FinalResult(c: ToolCollection, name: string, input: ToolInput, screenshotFallback: bool): Option<ToolResult>
  {
    var r := RunLenient(c, name, input);
    if screenshotFallback && name == "bash" && NeedsScreenshot(c, r) then RunLenient(c, "computer", ScreenshotInput)
    else r
  }

  /** The tool_result a single block contributes: none for a non-tool_use
      block or a result that is `None` or false, otherwise one, packaged
      inline. */
  function ResultFor(c: ToolCollection, b: Block, screenshotFallback: bool): (rs: seq<Block>)
    ensures |rs| <= 1
    ensures |rs| == 1 <==> b.ToolUse? && IsTrue(c, FinalResult(c, b.name, b.input, screenshotFallback))
    ensures |rs| == 1 ==> rs[0].ToolResultBlock? && rs[0].toolUseId == b.id
    ensures |rs| == 1 ==> rs[0] == InlineToolResult(FinalResult(c, b.name, b.input, screenshotFallback).value, b.id)
  {
    if !b.ToolUse? then []
    else
      var r := FinalResult(c, b.name, b.input, screenshotFallback);
      if IsTrue(c, r) then [InlineToolResult(r.value, b.id)] else []
  }

  /** The list `tool_result_content` holds after the loop over `blocks`. */
  function LenientResults(c: ToolCollection, blocks: seq<Block>, screenshotFallback: bool): seq<Block>
  {
    if |blocks| == 0 then []
    else LenientResults(c, blocks[..|blocks| - 1], screenshotFallback) + ResultFor(c, blocks[|blocks| - 1], screenshotFallback)
  }

  /** The loop over the response blocks, appending to `tool_result_content`. */
  method CollectResults(c: ToolCollection, blocks: seq<Block>, screenshotFallback: bool) returns (results: seq<Block>)
    ensures results == LenientResults(c, blocks, screenshotFallback)
  {
    results := [];
    var i := 0;
    while i < |blocks|
      invariant 0 <= i <= |blocks|
      invariant results == LenientResults(c, blocks[..i], screenshotFallback)
    {
      var block := blocks[i];
      LenientResultsStep(c, blocks, i, screenshotFallback);
      if block.ToolUse? {
        var result := RunLenient(c, block.name, block.input);
        if screenshotFallback && block.name == "bash" && NeedsScreenshot(c, result) {
          result := RunLenient(c, "computer", ScreenshotInput);
        }
        assert result == FinalResult(c, block.name, block.input, screenshotFallback);
        if result.Some? && c.resultTruth(result.value) {
          var toolResult := BuildInlineToolResult(result.value, block.id);
          assert ResultFor(c, block, screenshotFallback) == [toolResult];
          results := results + [toolResult];
        } else {
          assert ResultFor(c, block, screenshotFallback) == [];
          assert results + [] == results;
        }
      } else {
        assert results + [] == results;
      }
      i := i + 1;
    }
    assert blocks[..i] == blocks;
  }

  /** One more block of the response adds its own contribution at the end. */
  lemma LenientResultsStep(c: ToolCollection, blocks: seq<Block>, i: nat, screenshotFallback: bool)
    requires i < |blocks|
    ensures LenientResults(c, blocks[..i + 1], screenshotFallback) ==
      LenientResults(c, blocks[..i], screenshotFallback) + ResultFor(c, blocks[i], screenshotFallback)
  {
    assert blocks[..i + 1][..i] == blocks[..i];
  }

  /** Every element of the list is a tool_result block. */
  lemma {:induction false} ResultsAreToolResults(c: ToolCollection, blocks: seq<Block>, screenshotFallback: bool)
    ensures AllToolResults(LenientResults(c, blocks, screenshotFallback))
  {
    if |blocks| > 0 {
      ResultsAreToolResults(c, blocks[..|blocks| - 1], screenshotFallback);
    }
  }

  /** Every tool_use is answered at most once, in tool_use order, with its own
      id; blocks that are not tool_use blocks are never answered. */
  lemma {:induction false} ResultsAnswerInOrder(c: ToolCollection, blocks: seq<Block>, screenshotFallback: bool)
    ensures IsSubsequence(ResultIds(LenientResults(c, blocks, screenshotFallback)), ToolUseIds(blocks))
    ensures |LenientResults(c, blocks, screenshotFallback)| <= |ToolUseIds(blocks)|
  {
    if |blocks| > 0 {
      var front, b := blocks[..|blocks| - 1], blocks[|blocks| - 1];
      var rs := LenientResults(c, front, screenshotFallback);
      ResultsAnswerInOrder(c, front, screenshotFallback);
      var extra := ResultFor(c, b, screenshotFallback);
      assert LenientResults(c, blocks, screenshotFallback) == rs + extra;
      ResultIdsAppend(rs, extra);
      if b.ToolUse? {
        assert ToolUseIds(blocks) == ToolUseIds(front) + [b.id];
        if extra == [] {
          assert ResultIds(extra) == [];
          assert ResultIds(rs) + [] == ResultIds(rs);
          SubsequenceExtend(ResultIds(rs), ToolUseIds(front), b.id);
        } else {
          assert ResultIds(extra) == [b.id];
          SubsequenceAppend(ResultIds(rs), ToolUseIds(front), b.id);
        }
      } else {
        assert extra == [];
        assert rs + [] == rs;
        assert ResultIds(LenientResults(c, blocks, screenshotFallback)) == ResultIds(rs);
        assert ToolUseIds(front) + [] == ToolUseIds(front);
        assert ToolUseIds(blocks) == ToolUseIds(front);
      }
    }
  }

  lemma ResultIdsAppend(rs: seq<Block>, extra: seq<Block>)
    requires |extra| <= 1
    ensures ResultIds(rs + extra) == ResultIds(rs) + ResultIds(extra)
  {
    if |extra| == 1 {
      assert (rs + extra)[..|rs|] == rs;
    } else {
      assert rs + extra == rs;
    }
  }

  /** Every tool_use of `blocks` ends up with a true result. */
  predicate AllAnswered(c: ToolCollection, blocks: seq<Block>, screenshotFallback: bool)
  {
    forall i :: 0 <= i < |blocks| && blocks[i].ToolUse? ==>
      IsTrue(c, FinalResult(c, blocks[i].name, blocks[i].input, screenshotFallback))
  }

  /** There is a tool_result for every tool_use iff every tool_use got a
      result; then the results answer the tool_uses one to one, in order. */
  lemma {:induction false} ResultsCompleteIff(c: ToolCollection, blocks: seq<Block>, screenshotFallback: bool)
    ensures |LenientResults(c, blocks, screenshotFallback)| == |ToolUseIds(blocks)| <==> AllAnswered(c, blocks, screenshotFallback)
    ensures AllAnswered(c, blocks, screenshotFallback) ==> ResultIds(LenientResults(c, blocks, screenshotFallback)) == ToolUseIds(blocks)
  {
    if |blocks| > 0 {
      var front, b := blocks[..|blocks| - 1], blocks[|blocks| - 1];
      var rs := LenientResults(c, front, screenshotFallback);
      ResultsCompleteIff(c, front, screenshotFallback);
      ResultsAnswerInOrder(c, front, screenshotFallback);
      var extra := ResultFor(c, b, screenshotFallback);
      ResultIdsAppend(rs, extra);
      assert AllAnswered(c, blocks, screenshotFallback) ==> AllAnswered(c, front, screenshotFallback) by {
        if AllAnswered(c, blocks, screenshotFallback) {
          forall i | 0 <= i < |front| && front[i].ToolUse?
            ensures IsTrue(c, FinalResult(c, front[i].name, front[i].input, screenshotFallback))
          {
            assert blocks[i] == front[i];
          }
        }
      }
      if AllAnswered(c, front, screenshotFallback) && (b.ToolUse? ==> IsTrue(c, FinalResult(c, b.name, b.input, screenshotFallback))) {
        forall i | 0 <= i < |blocks| && blocks[i].ToolUse?
          ensures IsTrue(c, FinalResult(c, blocks[i].name, blocks[i].input, screenshotFallback))
        {
          if i < |front| {
            assert blocks[i] == front[i];
          }
        }
      }
      if b.ToolUse? && !IsTrue(c, FinalResult(c, b.name, b.input, screenshotFallback)) {
        assert !AllAnswered(c, blocks, screenshotFallback) by {
          assert blocks[|blocks| - 1] == b;
        }
      }
    }
  }

  /** website-copycat's bash rule: a true bash result that carries anything
      is delivered as it is; a missing, raising, false or empty bash call is
      answered by whatever a screenshot from the "computer" tool gives. Other
      tools, and all tools when the rule is off, are never redirected. */
  lemma FallbackRule(c: ToolCollection, name: string, input: ToolInput, screenshotFallback: bool)
    ensures !(screenshotFallback && name == "bash") ==>
      FinalResult(c, name, input, screenshotFallback) == RunLenient(c, name, input)
    ensures (screenshotFallback && name == "bash" && IsTrue(c, RunLenient(c, name, input)) &&
             (Truthy(RunLenient(c, name, input).value.output) || Truthy(RunLenient(c, name, input).value.error) ||
              RunLenient(c, name, input).value.base64Image.Some?)) ==>
      FinalResult(c, name, input, screenshotFallback) == RunLenient(c, name, input)
    ensures screenshotFallback && name == "bash" && !IsTrue(c, RunLenient(c, name, input)) ==>
      FinalResult(c, name, input, screenshotFallback) == RunLenient(c, "computer", ScreenshotInput)
    ensures screenshotFallback && name == "bash" && NeedsScreenshot(c, RunLenient(c, name, input)) ==>
      FinalResult(c, name, input, screenshotFallback) == RunLenient(c, "computer", ScreenshotInput)
  {
  }

  /** A bash call that raises, or names no tool, is not dropped when the
      rule is on: it is answered under its own id by the screenshot's result,
      with no error flag unless the screenshot carries one. */
  lemma RaisingBashGetsScreenshot(c: ToolCollection, input: ToolInput, id: string)
    requires RunLenient(c, "bash", input).None?
    requires IsTrue(c, RunLenient(c, "computer", ScreenshotInput))
    ensures ResultFor(c, ToolUse(id, "bash", input), true) ==
      [InlineToolResult(RunLenient(c, "computer", ScreenshotInput).value, id)]
    ensures ResultFor(c, ToolUse(id, "bash", input), true)[0].isError <==>
      Truthy(RunLenient(c, "computer", ScreenshotInput).value.error)
  {
  }

  /** The fallback looks at the exact values: a bash result whose fields are
      all `None` is not replaced when it is true, and is then delivered as an
      empty tool_result. */
  lemma AllNoneBashResultIsKept(c: ToolCollection, input: ToolInput, id: string)
    requires RunLenient(c, "bash", input) == Some(ToolResult(None, None, None))
    requires c.resultTruth(ToolResult(None, None, None))
    ensures ResultFor(c, ToolUse(id, "bash", input), true) == [ToolResultBlock(id, Parts([]), false)]
  {
  }

  /** When an all-`None` result is false, as with the reference dataclass, an
      all-`None` bash result is replaced by the screenshot. */
  lemma AllNoneBashResultIsReplaced(c: ToolCollection, input: ToolInput)
    requires RunLenient(c, "bash", input) == Some(ToolResult(None, None, None))
    requires !c.resultTruth(ToolResult(None, None, None))
    ensures FinalResult(c, "bash", input, true) == RunLenient(c, "computer", ScreenshotInput)
  {
  }

  /** With the reference dataclass's truth value, an empty result is never
      delivered: every tool_result carries a text part, an image part or the
      error flag. */
  lemma AnyFieldSetDeliversContent(c: ToolCollection, b: Block, screenshotFallback: bool)
    requires forall r :: c.resultTruth(r) == AnyFieldSet(r)
    ensures |ResultFor(c, b, screenshotFallback)| == 1 ==>
      ResultFor(c, b, screenshotFallback)[0].isError || ResultFor(c, b, screenshotFallback)[0].content.parts != []
  {
  }
}
