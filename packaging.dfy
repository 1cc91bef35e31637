/**
  Turning a ToolResult into a tool_result block. website-copycat and
  dungeon-crawler build it inline; scrapybara-cli uses `make_tool_result`.
  They differ only when the result carries an error.
 */
module Packaging {
  import opened Blocks

  /** The image sub-block of a truthy `base64_image`, else nothing. */
  function ImagePartOf(r: ToolResult): seq<Part>
  {
    if Truthy(r.base64Image) then [ImagePart(r.base64Image.value)] else []
  }

  /** The text sub-block of a truthy `output`, else nothing. */
  function TextPartOf(r: ToolResult): seq<Part>
  {
    if Truthy(r.output) then [TextPart(r.output.value)] else []
  }

  /** The inline packaging: a text sub-block iff the output is non-empty, an
      image sub-block after it iff an image is present, and `is_error` iff the
      error is non-empty. The error text itself is not part of the block. */
  function InlineToolResult(r: ToolResult, toolUseId: string): (b: Block)
    ensures b.ToolResultBlock? && b.toolUseId == toolUseId && b.content.Parts?
    ensures b.isError <==> Truthy(r.error)
    ensures |b.content.parts| <= 2
    ensures (exists k :: 0 <= k < |b.content.parts| && b.content.parts[k].TextPart?) <==> Truthy(r.output)
    ensures (exists k :: 0 <= k < |b.content.parts| && b.content.parts[k].ImagePart?) <==> Truthy(r.base64Image)
    ensures Truthy(r.output) ==> b.content.parts[0] == TextPart(r.output.value)
    ensures Truthy(r.base64Image) ==> b.content.parts[|b.content.parts| - 1] == ImagePart(r.base64Image.value)
    ensures |b.content.parts| == (if Truthy(r.output) then 1 else 0) + (if Truthy(r.base64Image) then 1 else 0)
  {
    var parts := TextPartOf(r) + ImagePartOf(r);
    assert Truthy(r.output) ==> parts[0].TextPart?;
    assert Truthy(r.base64Image) ==> parts[|parts| - 1].ImagePart?;
    ToolResultBlock(toolUseId, Parts(parts), Truthy(r.error))
  }

  /** The inline packaging, step by step as the two scripts build it: the
      text part first, then the image part appended to the content. */
  method BuildInlineToolResult(result: ToolResult, toolUseId: string) returns (b: Block)
    ensures b == InlineToolResult(result, toolUseId)
  {
    var content: seq<Part> := if Truthy(result.output) then [TextPart(result.output.value)] else [];
    if Truthy(result.base64Image) {
      content := content + [ImagePart(result.base64Image.value)];
    } else {
      assert content == content + [];
    }
    b := ToolResultBlock(toolUseId, Parts(content), Truthy(result.error));
  }

  /** What `make_tool_result` returns: with a non-empty error, an error block
      whose content is the error string alone (output and image dropped);
      otherwise the same sub-blocks as the inline packaging and no error. */
  function ToolResultOf(r: ToolResult, toolUseId: string): (b: Block)
    ensures b.ToolResultBlock? && b.toolUseId == toolUseId
    ensures b.isError <==> Truthy(r.error)
    ensures b.isError <==> b.content.ErrorText?
    ensures b.isError ==> b.content.error == r.error.value
    ensures !b.isError ==> b.content.parts == TextPartOf(r) + ImagePartOf(r)
    ensures !Truthy(r.error) && !Truthy(r.output) && !Truthy(r.base64Image) ==> b.content == Parts([])
  {
    if Truthy(r.error) then ToolResultBlock(toolUseId, ErrorText(r.error.value), true)
    else ToolResultBlock(toolUseId, Parts(TextPartOf(r) + ImagePartOf(r)), false)
  }

  /** `make_tool_result`, step by step as `make_tool_result` builds it. */
  method MakeToolResult(result: ToolResult, toolUseId: string) returns (b: Block)
    ensures b == ToolResultOf(result, toolUseId)
  {
    var content := Parts([]);
    var isError := false;
    if Truthy(result.error) {
      isError := true;
      content := ErrorText(result.error.value);
    } else {
      var parts: seq<Part> := [];
      if Truthy(result.output) {
        parts := parts + [TextPart(result.output.value)];
      }
      if Truthy(result.base64Image) {
        parts := parts + [ImagePart(result.base64Image.value)];
      }
      content := Parts(parts);
    }
    b := ToolResultBlock(toolUseId, content, isError);
  }

  /** The two packagings give the same block exactly when the error is empty. */
  lemma PackagingsAgreeIffNoError(r: ToolResult, toolUseId: string)
    ensures InlineToolResult(r, toolUseId) == ToolResultOf(r, toolUseId) <==> !Truthy(r.error)
  {
  }
}
