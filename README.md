# scrapybara-demos agent loops, modelled in Dafny

The scripts in scrapybara-demos drive a remote desktop through a language
model that calls tools: "computer", "bash" and an editing tool. This project models
the parts of the scripts that decide what goes into the conversation:

- **ToolCollection** (`registry.dfy`) is the name-to-tool registry. It is
  built the same way in all three copies, and its `run` exists in two forms:
  - the lenient one (website-copycat, dungeon-crawler) answers a missing or
    raising tool with `None`;
  - the strict one (scrapybara-cli) raises.
- **Tool-result packaging** (`packaging.dfy`) turns a `ToolResult` into a
  tool_result block. The two scripts do it inline; scrapybara-cli uses
  `make_tool_result`, which differs when the result carries an error.
- **The lenient per-response loop** (`dispatch.dfy`) runs every tool_use
  block of a response. It includes website-copycat's rule that an empty or
  missing bash result is replaced by a screenshot.
- **The three conversation loops**:
  - `copycat.dfy`: `replicate_website`.
  - `crawler.dfy`: `play_game`, with `has_non_exit_text`, the keep-playing
    nudge and the exit/quit break.
  - `cli_agent.dfy`: `run_agent`, with the display line chosen for each
    tool call.
- **LaTeX extraction** (`resume.dfy`) takes resume-builder's text between
  the first "```latex" and the last "```".
- **Python's string operations** (`py_str.dfy`) are what these parts rely
  on: `in`, `find`, `rfind`, slicing, `strip`, `lower`, `upper`, `replace`
  and `split`.

The model and the tools are parameters.
- The model is a function from the advertised tool parameters and the
  conversation so far to the blocks of its response.
- A tool is its parameters plus a function from its input to an outcome:
  it either returns a result or raises.
- The truth value of a returned ToolResult, which the lenient scripts test
  with `if result:`, is a predicate carried by the collection.
- Each `while True` loop is a method with a turn bound. It is proved equal
  to a recursive `Run` function, and the shape of every run is proved about
  `Run`:
  - the history is only extended;
  - each assistant message is the model's answer to what precedes it;
  - each user message is that answer's tool results (or the nudge);
  - the loop breaks exactly when the source breaks.

Where the code does something other than one might expect, the model
follows the code:

- A tool that raises is not answered with an error-flagged tool_result.
  The lenient scripts drop the call: the tool_use stays unanswered
  (`Dispatch.ResultsCompleteIff`). The exception is website-copycat's bash
  call: it is answered by the screenshot's result, with no sign of the
  failure (`Dispatch.FallbackRule`, `Dispatch.RaisingBashGetsScreenshot`). scrapybara-cli lets the exception leave
  `run_agent` before the turn is recorded (`CliAgent.RaisingToolAborts`).
- In dungeon-crawler the nudge is appended in the same turn as the plain
  text that causes it. A run of one tool call followed by "pong" therefore
  holds five messages after two turns, not four (`Crawler.PongScenario`).
  A response can also be nudged and end the game in the same turn.
- The stop words are matched as substrings after lower-casing. "quite" and
  "Exit!" stop the game (`Crawler.StopWordAnywhere`).
- In resume-builder, an opening "```latex" with no closing fence gives an
  empty document, not the whole reply. The last "```" is then the opening
  fence's own (`Resume.UnclosedFenceGivesEmpty`).
- A duplicate tool name is not rejected. The later tool shadows the earlier
  one in the map, while `to_params` still advertises both
  (`Registry.ParamsMatchMap`, `Registry.NamesSizeIffDistinct`).

## Model

| member | source | states |
|---|---|---|
| Registry.LastIndex | website-copycat/main.py:245 | -1 exactly when no tool has the name; otherwise the index of the last tool with that name |
| Registry.ToolMap | website-copycat/main.py:243-245 | a name is a key iff some tool is advertised under it, and maps to the last such tool |
| Registry.LastWithNameUnique | website-copycat/main.py:245 | the last tool with a given name is unique |
| Registry.ParamsMatchMap | website-copycat/main.py:247-248 | `to_params` lists every tool's parameters in order, duplicates included; its names are exactly the map's keys |
| Registry.KeysAreNames | scrapybara-cli/src/helpers.py:6-8 | the map's key set is the set of advertised names |
| Registry.NamesMembership | scrapybara-cli/src/helpers.py:8 | a name is among the names iff some tool has it |
| Registry.DistinctStep | scrapybara-cli/src/helpers.py:8 | adding a tool keeps names distinct iff its name is new |
| Registry.NamesSizeIffDistinct | dungeon-crawler/main.py:201-203 | the map has at most one entry per tool, and exactly one per tool iff no two tools share a name |
| Registry.LenientRunUsesLastTool | website-copycat/main.py:250-258 | lenient `run`: `None` for an unknown name; otherwise the last tool of that name is called and an exception becomes `None` |
| Registry.StrictRunUsesLastTool | scrapybara-cli/src/helpers.py:13-21 | strict `run`: the ValueError for an unknown name; otherwise the last tool of that name is called and its exception re-raised |
| Registry.LenientIsContainedStrict | dungeon-crawler/main.py:208-216 | the lenient and strict `run` agree on every call that returns; every error of the strict one is `None` in the lenient one |
| Packaging.InlineToolResult | website-copycat/main.py:197-219 | the block answers the given id; a text part iff the output is non-empty, first; an image part iff the image is non-empty, last; no other part, so one part per truthy field; `is_error` iff the error is non-empty |
| Packaging.BuildInlineToolResult | website-copycat/main.py:197-219 | the step-by-step inline construction yields `InlineToolResult` |
| Packaging.ToolResultOf | scrapybara-cli/src/helpers.py:24-56 | with a non-empty error: an error block whose content is the error string alone; otherwise the inline parts and no error; an all-empty result gives empty content |
| Packaging.MakeToolResult | scrapybara-cli/src/helpers.py:24-56 | the step-by-step construction yields `ToolResultOf` |
| Packaging.PackagingsAgreeIffNoError | dungeon-crawler/main.py:139-161 | the inline and `make_tool_result` blocks are equal iff the error is empty |
| Dispatch.ResultFor | dungeon-crawler/main.py:132-163 | a block yields at most one tool_result, and one iff it is a tool_use whose (final) result is true; that tool_result answers the block's id and is the inline packaging of the result |
| Dispatch.CollectResults | website-copycat/main.py:172-221 | the loop over the response blocks builds exactly `LenientResults` |
| Dispatch.LenientResultsStep | website-copycat/main.py:172-221 | one more response block appends its own contribution at the end |
| Dispatch.ResultsAreToolResults | website-copycat/main.py:197-221 | every collected block is a tool_result |
| Dispatch.ResultsAnswerInOrder | website-copycat/main.py:172-221 | the result ids are a subsequence of the tool_use ids: no tool_use is answered twice, none out of order, no other block answered |
| Dispatch.ResultsCompleteIff | website-copycat/main.py:172-221 | there are as many results as tool_uses iff every tool_use got a true result, and then the ids match one to one |
| Dispatch.FallbackRule | website-copycat/main.py:184-195 | only bash is redirected, only with the rule on; a true bash result with any content is kept; a missing, false or all-empty one is replaced by the screenshot call's result |
| Dispatch.AllNoneBashResultIsKept | website-copycat/main.py:185-207 | when an all-`None` result is true, such a bash result is not replaced and is delivered as an empty, non-error tool_result |
| Dispatch.AllNoneBashResultIsReplaced | website-copycat/main.py:185-195 | when an all-`None` result is false, such a bash result is replaced by the screenshot call's result |
| Dispatch.RaisingBashGetsScreenshot | website-copycat/main.py:179-221 | a bash call that raises or names no tool is answered under its own id by the inline packaging of the screenshot's result, flagged as an error only if the screenshot's error is |
| Dispatch.AnyFieldSetDeliversContent | website-copycat/main.py:197-221 | with the truth value "some field is truthy", every delivered tool_result has a text part, an image part or the error flag |
| Copycat.Turn | website-copycat/main.py:223-230 | the history grows by the assistant message, then by the user message with the results iff there are results; the loop breaks iff there are none |
| Copycat.ReplicateWebsite | website-copycat/main.py:136-230 | the loop's final history and break flag are `Run` from the seed message |
| Copycat.TurnKeepsWellFormed | website-copycat/main.py:156-230 | a turn keeps the message invariant and ends with the assistant message iff it broke |
| Copycat.KeepsModelAnswers | website-copycat/main.py:156-224 | after a turn every assistant message is still the model's answer to the history before it |
| Copycat.KeepsResultsFollow | website-copycat/main.py:172-230 | after a turn every non-final assistant message is still followed by its non-empty tool results |
| Copycat.BreakEndsWell | website-copycat/main.py:226-230 | a turn that breaks leaves a well-formed history ending with the assistant message of a response without results |
| Copycat.ContinueEndsWell | website-copycat/main.py:156-230 | a run that ends well from the next history ends well from the current one |
| Copycat.RunShape | website-copycat/main.py:156-230 | a run keeps the history; roles alternate; each assistant message is the model's answer to its prefix, followed by its non-empty results; a run that broke ends with a response yielding no result |
| Copycat.RunShapeFrom | website-copycat/main.py:156-230 | the same, from any well-formed history ending with a user message |
| Copycat.NoToolUseStops | website-copycat/main.py:226-230 | a response with no tool_use ends the run after one turn, whatever its text says |
| Copycat.NoToolUseNoResults | website-copycat/main.py:172-175 | blocks without tool_use yield no tool_result |
| Copycat.TurnResultsAnswerInOrder | website-copycat/main.py:172-227 | in a run, each user message after an assistant message holds only tool_results answering that message's tool_uses in their order, at least one, at most one each |
| Crawler.Reply | dungeon-crawler/main.py:168-182 | a user message follows iff there are results or some text block is free of both words; results take precedence over the nudge |
| Crawler.Turn | dungeon-crawler/main.py:165-190 | the history grows by the assistant message and its reply, if any; the loop breaks iff a text block mentions "exit" or "quit" |
| Crawler.PlayGame | dungeon-crawler/main.py:102-190 | the loop's final history and break flag are `Run` from the initial prompt |
| Crawler.StopWordAnywhere | dungeon-crawler/main.py:185-189 | any text containing "exit" or "quit" in any case stops the game |
| Crawler.NoStopWithoutXOrQ | dungeon-crawler/main.py:120-126 | a text with no x and no q, in either case, mentions no stop word |
| Crawler.TextBlocksDecide | dungeon-crawler/main.py:119-189 | a response without text blocks is neither chatter nor a stop; one with text blocks is at least one of them |
| Crawler.StopAfterResults | dungeon-crawler/main.py:165-190 | a stop word ends the game even after tool calls, whose results are appended first |
| Crawler.SilentTurn | dungeon-crawler/main.py:165-190 | a response with no result, no plain text and no stop word adds only the assistant message, and the model is asked again |
| Crawler.ReplyTail | dungeon-crawler/main.py:168-182 | a turn adds at most one message after the response, a user message, exactly when there is a reply |
| Crawler.TurnKeepsPlayed | dungeon-crawler/main.py:106-182 | a turn without a stop word keeps the message invariant |
| Crawler.KeepsModelAnswers | dungeon-crawler/main.py:106-166 | after a turn every assistant message is still the model's answer to its prefix, without a stop word |
| Crawler.KeepsRepliesFollow | dungeon-crawler/main.py:166-182 | after a turn every user message still follows the assistant message it replies to |
| Crawler.KeepsRepliesPresent | dungeon-crawler/main.py:166-182 | after a turn an assistant message is still followed by a user message exactly when it has a reply |
| Crawler.RunShape | dungeon-crawler/main.py:106-190 | a run keeps the history; every assistant message is the model's answer to its prefix with no stop word, and every user message is the reply to the message before; a run that broke ends with one turn whose response has a stop word |
| Crawler.RunShapeFrom | dungeon-crawler/main.py:106-190 | the same, from any played history |
| Crawler.QuitNowScenario | dungeon-crawler/main.py:106-190 | seeded with "ping", a model answering "quit now" ends the game after one turn with two messages |
| Crawler.PongScenario | dungeon-crawler/main.py:106-190 | a tool call then "pong": after two turns five messages, the last the nudge, and the game goes on |
| CliAgent.ToolLabel | scrapybara-cli/src/agent.py:33-50 | the display line raises iff a key it reads is missing (a KeyError naming "action", "text" or "command") or "text" has no `upper` (an AttributeError); tools other than computer and bash, and computer actions outside the listed six, get the default line; screenshot, left/right click, type, scroll and mouse_move get their fixed lines; a key press with a string "text" shows that text in upper case; bash with a command shows the stream URL's host and the command |
| CliAgent.ReplaceKeepsHost | scrapybara-cli/src/agent.py:50 | removing "http://" from `host:port` leaves `host:` in front |
| CliAgent.ReplaceDropsScheme | scrapybara-cli/src/agent.py:50 | a leading "http://" is removed |
| CliAgent.BeforeColon | scrapybara-cli/src/agent.py:50 | `split(':')[0]` of `host:...` is the host |
| CliAgent.HostOfStreamUrl | scrapybara-cli/src/agent.py:50 | the host shown for `http://host:port...` is the host |
| CliAgent.StepFor | scrapybara-cli/src/agent.py:29-59 | a block succeeds iff it is not a tool_use, or both its display line and its tool run succeed; then it yields `make_tool_result` of the result; a display failure is the error raised, and otherwise the tool's own exception is |
| CliAgent.CollectStrictResults | scrapybara-cli/src/agent.py:28-59 | the loop yields exactly `StrictResults`, stopping at the first exception |
| CliAgent.StrictErrorStays | scrapybara-cli/src/agent.py:28-59 | once a prefix of the blocks raised, the whole loop raises the same |
| CliAgent.StrictResultsComplete | scrapybara-cli/src/agent.py:28-59 | the loop completes iff every block's step does, and then yields one tool_result per tool_use, answering the ids in order |
| CliAgent.StrictResultsFirstError | scrapybara-cli/src/agent.py:28-59 | an exception is that of the first tool_use block whose step raises |
| CliAgent.RunAgent | scrapybara-cli/src/agent.py:13-74 | the loop's final history and status are `Run` from the prompt |
| CliAgent.TurnKeepsWellFormed | scrapybara-cli/src/agent.py:66-74 | a turn that raises nothing keeps the message invariant |
| CliAgent.RunShape | scrapybara-cli/src/agent.py:16-74 | a run keeps the history; roles alternate; each assistant message is the model's answer to its prefix, followed by its tool_results; finishing happens exactly after a response without tool_use; an abort carries the exception the next response raises |
| CliAgent.RunShapeFrom | scrapybara-cli/src/agent.py:16-74 | the same, from any well-formed history ending with a user message |
| CliAgent.FinishIffNoToolUse | scrapybara-cli/src/agent.py:71-74 | a response that raises nothing yields no result iff it has no tool_use |
| CliAgent.ResultIdsEmpty | scrapybara-cli/src/agent.py:71-74 | a list of tool_results answers no id iff it is empty |
| CliAgent.RaisingToolAborts | scrapybara-cli/src/agent.py:54-56 | a tool that raises aborts the run without recording the turn |
| Resume.ExtractLatex | resume-builder/main.py:70-76 | without "```latex" the reply is returned whole; with it, the result has no edge whitespace and is a contiguous piece of the reply |
| Resume.StripSliceIsPiece | resume-builder/main.py:74 | the stripped slice occurs in the reply |
| Resume.FenceBounds | resume-builder/main.py:71-73 | whenever "```latex" occurs, the last "```" exists and is the opening fence's own or lies after it |
| Resume.OpenFenceHoldsFence | resume-builder/main.py:71-72 | "```latex" contains "```" at its start and at no other position |
| Resume.UnclosedFenceGivesEmpty | resume-builder/main.py:71-74 | an opening fence with no "```" after it gives the empty document |
| Resume.FindIsFirst | resume-builder/main.py:71 | `find` gives the earliest occurrence |
| Resume.RFindIsLast | resume-builder/main.py:72 | `rfind` gives the latest occurrence |
| Resume.ExtractBetweenFirstAndLast | resume-builder/main.py:71-74 | the result is the stripped text between the first opening fence and the last fence |
| Resume.NoFenceInPlainPrefix | resume-builder/main.py:71 | no fence starts inside text without backticks |
| Resume.LastFenceBeforePlainSuffix | resume-builder/main.py:72 | a fence followed by text without backticks is the last one |
| Resume.FencedBlockFacts | resume-builder/main.py:71-72 | in a fenced block between backtick-free text, the first opening fence and the last fence are the block's own |
| Resume.FencedBody | resume-builder/main.py:74 | the slice between the fences of a block is the block's body |
| Resume.ExtractBlock | resume-builder/main.py:71-74 | such a block is extracted as its stripped body |
| Resume.ExtractFenced | resume-builder/main.py:70-76 | round trip: a document without edge whitespace, fenced with any padding and any backtick-free text around it, is extracted unchanged |
| PyStr.FindFrom | resume-builder/main.py:71 | the first occurrence at or after the start, or -1 when there is none |
| PyStr.Find | resume-builder/main.py:71 | -1 iff the text does not occur; otherwise its lowest index |
| PyStr.RFindUpTo | resume-builder/main.py:72 | the last occurrence at or before the bound, or -1 when there is none |
| PyStr.RFind | resume-builder/main.py:72 | -1 iff the text does not occur; otherwise its highest index |
| PyStr.Slice | resume-builder/main.py:74 | Python slicing: the plain slice within bounds, empty when the end is not after the start |
| PyStr.SkipSpace | resume-builder/main.py:74 | the first index from the start on that is not whitespace, everything skipped being whitespace |
| PyStr.SkipSpaceBack | resume-builder/main.py:74 | the end of the last character that is not whitespace, everything skipped being whitespace |
| PyStr.SkipSpaceAt | resume-builder/main.py:74 | the first non-whitespace index is the one the text determines |
| PyStr.SkipSpaceBackAt | resume-builder/main.py:74 | the end of the last non-whitespace character is the one the text determines |
| PyStr.StripOffset | resume-builder/main.py:74 | the start of what `strip` leaves lies within the text |
| PyStr.Strip | resume-builder/main.py:74 | a contiguous piece of the text with no whitespace at either edge |
| PyStr.StripRemovesSpace | resume-builder/main.py:74 | what `strip` removes on both sides is whitespace |
| PyStr.SliceOfSlice | resume-builder/main.py:74 | a piece of a slice is a slice of the text |
| PyStr.StripOfSliceOccurs | resume-builder/main.py:74 | what `strip` leaves of a slice occurs in the text |
| PyStr.StripPadded | resume-builder/main.py:74 | `strip` removes exactly surrounding whitespace |
| PyStr.Upper | scrapybara-cli/src/agent.py:45 | same length, no lower-case letter, equal to the input up to case |
| PyStr.LowerSlice | dungeon-crawler/main.py:123 | lower-casing commutes with slicing |
| PyStr.Replace | scrapybara-cli/src/agent.py:50 | replacing by the empty string never lengthens the text |
| PyStr.ReplaceAbsent | scrapybara-cli/src/agent.py:50 | a text without the pattern is unchanged |
| PyStr.BeforeFirst | scrapybara-cli/src/agent.py:50 | `split(c)[0]`: a prefix without `c`, followed by `c` unless it is the whole text |

## Left out

- Network access, the Scrapybara and Anthropic SDKs, asyncio and `await`, browser capture, file writes and `instance.stop()` in `finally`: these are I/O. The model and the tools are parameters.
- Printing, including the rich markup of scrapybara-cli: the display line is modelled as a `Label` value, without its markup text.
- The system prompts and the intro text: they are content, not logic, and are parameters. The keep-playing nudge is kept verbatim because the loop compares nothing against it.
- The 50000-character truncation of website-copycat's HTML: it is part of building the system prompt (website-copycat/main.py:117), which the loop does each turn (line 162); prompt construction is absorbed into the model parameter.
- `while True`: each loop takes a turn bound `maxTurns`, and a run that reaches it reports that it did not finish.
- A raising model call, and the SDK's own exceptions: the model is a total function here, so these are not modelled.
- ToolCollection: the source class sets its fields once in `__init__` and never updates them, so it is a datatype value.
- Dispatch.FallbackRule, Dispatch.AllNoneBashResultIsKept, Dispatch.ResultFor: the truth value of a `ToolResult` (`if result:`, `not result`) is not fixed. ToolResult is defined in the scrapybara SDK, which is not part of this model, so the collection carries the truth value as a predicate (`resultTruth`) and the lemmas hold for any predicate; `Dispatch.AnyFieldSet` is the one of the computer-use reference dataclass.
- Registry.RunLenient, Registry.LenientRunUsesLastTool, Registry.LenientIsContainedStrict: `BaseException` subclasses that `except Exception` does not catch (KeyboardInterrupt, SystemExit, asyncio.CancelledError) escape the lenient `run` instead of becoming `None`; the model turns every exception into `None`.
- CliAgent.StepFor: rich's `print` parses markup, and text with an unmatched closing tag makes it raise; that can happen for a model text block, the default label, a bash command and tool output or error (scrapybara-cli/src/agent.py:31, 33, 50, 62, 64). The model treats printing as never raising.
- CliAgent.ToolLabel: the message of the AttributeError is an approximation; the contract fixes only its class (and, for a KeyError, the key).
- PyStr.Lower, PyStr.Upper and PyStr.Strip cover ASCII only; Unicode case mapping and Unicode whitespace are not modelled.
- Tool inputs hold strings, integers and integer lists only, which is what the computer, bash and edit tools take.
- w25-scraping/main.py, teleo/main.js and scrapybara-cli/src/main.py are not part of this model: they only set up and call the parts above.
