/**
  The values the agent loops pass around: tool inputs and results, content
  blocks, messages, and the two external collaborators (the model and the
  tools) as functions.
 */
module Blocks {

  datatype Option<+T> = None | Some(value: T)

  datatype Result<+T, +E> = Ok(value: T) | Err(error: E)

  /** A Python exception: its class name and its message. */
  datatype PyException = PyException(kind: string, message: string)

  /** One argument value of a tool call's `input` mapping. */
  datatype Value = Str(s: string) | Int(n: int) | IntList(ns: seq<int>)

  /** The keyword arguments a tool call is made with. */
  type ToolInput = map<string, Value>

  /** What a tool returns: each of the three fields may be absent (`None`). */
  datatype ToolResult = ToolResult(output: Option<string>, error: Option<string>, base64Image: Option<string>)

  /** Python truthiness of an optional string: present and not empty. */
  predicate Truthy(o: Option<string>)
  {
    o.Some? && o.value != ""
  }

  /** Calling a tool either returns a result or raises. */
  datatype Outcome = Returned(result: ToolResult) | Raised(exception: PyException)

  /** What `tool.to_params()` gives: the name the tool is advertised under
      and the rest of its parameter schema. */
  datatype ToolParam = ToolParam(name: string, schema: string)

  /** A tool: its parameters and what calling it with an input does. */
  datatype Tool = Tool(params: ToolParam, call: ToolInput -> Outcome)

  /** A sub-block of a tool_result's content. */
  datatype Part = TextPart(text: string) | ImagePart(data: string)

  /** A tool_result's content: a list of sub-blocks, or a bare error string. */
  datatype ResultContent = Parts(parts: seq<Part>) | ErrorText(error: string)

  datatype Block =
    | Text(text: string)
    | Image(data: string)
    | ToolUse(id: string, name: string, input: ToolInput)
    | ToolResultBlock(toolUseId: string, content: ResultContent, isError: bool)

  datatype Role = User | Assistant

  datatype Message = Message(role: Role, content: seq<Block>)

  /** The model: given the advertised tool parameters and the conversation so
      far, the content blocks of its response. */
  type Model = (seq<ToolParam>, seq<Message>) -> seq<Block>

  /** The ids of the tool_use blocks, in order. */
  function ToolUseIds(blocks: seq<Block>): seq<string>
  {
    if |blocks| == 0 then []
    else
      var b := blocks[|blocks| - 1];
      ToolUseIds(blocks[..|blocks| - 1]) + (if b.ToolUse? then [b.id] else [])
  }

  /** The tool_use ids the tool_result blocks answer, in order. */
  function ResultIds(blocks: seq<Block>): seq<string>
  {
    if |blocks| == 0 then []
    else
      var b := blocks[|blocks| - 1];
      ResultIds(blocks[..|blocks| - 1]) + (if b.ToolResultBlock? then [b.toolUseId] else [])
  }

  predicate AllToolResults(blocks: seq<Block>)
  {
    forall i :: 0 <= i < |blocks| ==> blocks[i].ToolResultBlock?
  }

  /** `a` is `b` with some elements left out, the rest in their order. */
  predicate IsSubsequence<T(==)>(a: seq<T>, b: seq<T>)
  {
    if a == [] then true
    else if b == [] then false
    else if a[|a| - 1] == b[|b| - 1] then IsSubsequence(a[..|a| - 1], b[..|b| - 1])
    else IsSubsequence(a, b[..|b| - 1])
  }

  lemma {:induction false} SubsequenceDropLast<T>(a: seq<T>, b: seq<T>)
    requires |a| > 0 && IsSubsequence(a, b)
    ensures IsSubsequence(a[..|a| - 1], b)
  {
    var a', b' := a[..|a| - 1], b[..|b| - 1];
    if a' != [] {
      if a[|a| - 1] == b[|b| - 1] {
        if a'[|a'| - 1] != b[|b| - 1] {
          assert IsSubsequence(a', b');
        } else {
          SubsequenceDropLast(a', b');
          assert a'[..|a'| - 1] == a[..|a| - 2];
        }
      } else {
        SubsequenceDropLast(a, b');
        if a'[|a'| - 1] == b[|b| - 1] {
          SubsequenceDropLast(a', b');
        }
      }
    }
  }

  /** Leaving out one more element at the end keeps a subsequence. */
  lemma SubsequenceExtend<T>(a: seq<T>, b: seq<T>, x: T)
    requires IsSubsequence(a, b)
    ensures IsSubsequence(a, b + [x])
  {
    assert (b + [x])[..|b|] == b;
    if a != [] && a[|a| - 1] == x {
      SubsequenceDropLast(a, b);
    }
  }

  /** Keeping the same element at the end of both keeps a subsequence. */
  lemma SubsequenceAppend<T>(a: seq<T>, b: seq<T>, x: T)
    requires IsSubsequence(a, b)
    ensures IsSubsequence(a + [x], b + [x])
  {
    assert (a + [x])[..|a|] == a;
    assert (b + [x])[..|b|] == b;
  }

  /** A prefix of a prefix is a prefix. */
  lemma PrefixOfPrefix<T>(a: seq<T>, b: seq<T>, c: seq<T>)
    requires |b| <= |a| && a[..|b|] == b
    requires |c| <= |b| && b[..|c|] == c
    ensures a[..|c|] == c
  {
    assert a[..|c|] == a[..|b|][..|c|];
  }

  /** Consecutive messages have different roles. */
  predicate Alternates(ms: seq<Message>)
  {
    forall i :: 0 <= i < |ms| - 1 ==> ms[i].role != ms[i + 1].role
  }
}
