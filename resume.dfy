/**
  resume-builder's extraction of the LaTeX document from the model's reply:
  the text between the first "```latex" and the last "```", stripped, or
  the whole reply when either marker is missing.
 */
module Resume {
  import opened PyStr

  const OpenFence := "```latex"
  const Fence := "```"

  /** The extracted LaTeX source. */
  function ExtractLatex(message: string): (r: string)
    ensures !Contains(message, OpenFence) ==> r == message
    ensures Contains(message, OpenFence) ==> NoEdgeSpace(r) && Contains(message, r)
  {
    var latexStart := Find(message, OpenFence);
    var latexEnd := RFind(message, Fence);
    if latexStart != -1 && latexEnd != -1 then
      StripSliceIsPiece(message, latexStart + 8, latexEnd);
      Strip(Slice(message, latexStart + 8, latexEnd))
    else
      FenceBounds(message);
      message
  }

  /** What `strip` leaves of a slice is a contiguous piece of the text. */
  lemma StripSliceIsPiece(s: string, lo: nat, hi: nat)
    ensures Contains(s, Strip(Slice(s, lo, hi)))
  {
    var h := if hi <= |s| then hi else |s|;
    var l := if lo <= h then lo else h;
    assert Slice(s, lo, hi) == s[l..h];
    StripOfSliceOccurs(s, l, h);
  }

  /** The opening fence itself contains "```", so whenever it occurs the last
      "```" exists; it is the opening fence's own or lies wholly after it. */
  lemma FenceBounds(message: string)
    ensures Contains(message, OpenFence) ==> RFind(message, Fence) != -1
    ensures Contains(message, OpenFence) ==>
      RFind(message, Fence) == Find(message, OpenFence) || RFind(message, Fence) >= Find(message, OpenFence) + 8
  {
    if Contains(message, OpenFence) {
      OpenFenceHoldsFence(message, Find(message, OpenFence));
    }
  }

  /** "```latex" begins with "```" and has no other backtick. */
  lemma OpenFenceHoldsFence(message: string, start: nat)
    requires OccursAt(message, OpenFence, start)
    ensures OccursAt(message, Fence, start)
    ensures forall k :: start < k < start + 8 ==> !OccursAt(message, Fence, k)
  {
    var w := message[start..start + 8];
    assert message[start..start + 3] == w[..3];
    forall k | start < k < start + 8 ensures !OccursAt(message, Fence, k) {
      var p := if k < start + 3 then start + 3 else k;
      assert message[p] == w[p - start];
      if k + 3 <= |message| {
        assert message[k..k + 3][p - k] == message[p];
      }
    }
  }

  /** An opening fence that is never closed gives an empty document. */
  lemma UnclosedFenceGivesEmpty(message: string)
    requires Contains(message, OpenFence)
    requires forall k :: Find(message, OpenFence) < k ==> !OccursAt(message, Fence, k)
    ensures ExtractLatex(message) == ""
  {
    FenceBounds(message);
  }

  /** `find` is the earliest occurrence. */
  lemma FindIsFirst(s: string, sub: string, i: nat)
    requires OccursAt(s, sub, i) && forall k :: 0 <= k < i ==> !OccursAt(s, sub, k)
    ensures Find(s, sub) == i
  {
    assert Contains(s, sub);
  }

  /** `rfind` is the latest occurrence. */
  lemma RFindIsLast(s: string, sub: string, j: nat)
    requires OccursAt(s, sub, j) && forall k :: j < k ==> !OccursAt(s, sub, k)
    ensures RFind(s, sub) == j
  {
    assert Contains(s, sub);
  }

  /** Extraction takes the text between the earliest opening fence and the
      latest fence, whatever lies in between. */
  lemma ExtractBetweenFirstAndLast(message: string, i: nat, j: nat)
    requires OccursAt(message, OpenFence, i) && forall k :: 0 <= k < i ==> !OccursAt(message, OpenFence, k)
    requires OccursAt(message, Fence, j) && forall k :: j < k ==> !OccursAt(message, Fence, k)
    requires i + 8 <= j
    ensures ExtractLatex(message) == Strip(message[i + 8..j])
  {
    FindIsFirst(message, OpenFence, i);
    RFindIsLast(message, Fence, j);
    assert Slice(message, i + 8, j) == message[i + 8..j];
  }

  /** No fence starts inside a text without backticks. */
  lemma NoFenceInPlainPrefix(pre: string, rest: string)
    requires '`' !in pre
    ensures forall k :: 0 <= k < |pre| ==> !OccursAt(pre + rest, OpenFence, k)
  {
    var s := pre + rest;
    forall k | 0 <= k < |pre| ensures !OccursAt(s, OpenFence, k) {
      assert s[k] == pre[k];
      if k + 8 <= |s| {
        assert s[k..k + 8][0] == s[k];
      }
    }
  }

  /** The fence in front of a text without backticks is the last one. */
  lemma LastFenceBeforePlainSuffix(front: string, post: string)
    requires '`' !in post
    ensures OccursAt(front + Fence + post, Fence, |front|)
    ensures forall k :: |front| < k ==> !OccursAt(front + Fence + post, Fence, k)
  {
    var s := front + Fence + post;
    assert s[|front|..|front| + 3] == Fence;
    forall k | |front| < k ensures !OccursAt(s, Fence, k) {
      if k + 3 <= |s| {
        assert s[k + 2] == post[k + 2 - |front| - 3];
        assert s[k..k + 3][2] == s[k + 2];
      }
    }
  }

  /** Where the fences of a fenced block lie, when the text around the block
      has no backticks. */
  lemma FencedBlockFacts(pre: string, body: string, post: string, message: string)
    requires '`' !in pre && '`' !in post
    requires message == pre + OpenFence + body + Fence + post
    ensures OccursAt(message, OpenFence, |pre|)
    ensures forall k :: 0 <= k < |pre| ==> !OccursAt(message, OpenFence, k)
    ensures OccursAt(message, Fence, |pre| + 8 + |body|)
    ensures forall k :: |pre| + 8 + |body| < k ==> !OccursAt(message, Fence, k)
  {
    assert message[|pre|..|pre| + 8] == OpenFence;
    assert message == pre + (OpenFence + body + Fence + post);
    NoFenceInPlainPrefix(pre, OpenFence + body + Fence + post);
    var front := pre + OpenFence + body;
    assert message == front + Fence + post;
    LastFenceBeforePlainSuffix(front, post);
  }

  /** Extraction of a fenced block is its stripped body; `i` and `j` are
      where its fences start. */
  lemma ExtractBlock(pre: string, body: string, post: string, message: string, i: nat, j: nat)
    requires '`' !in pre && '`' !in post
    requires message == pre + OpenFence + body + Fence + post
    requires i == |pre| && j == |pre| + 8 + |body|
    ensures ExtractLatex(message) == Strip(body)
  {
    FencedBlockFacts(pre, body, post, message);
    ExtractBetweenFirstAndLast(message, i, j);
    FencedBody(pre, body, post, message, i, j);
  }

  /** Between the two fences of a block lies exactly its body. */
  lemma FencedBody(pre: string, body: string, post: string, message: string, i: nat, j: nat)
    requires message == pre + OpenFence + body + Fence + post
    requires i == |pre| && j == |pre| + 8 + |body|
    ensures message[i + 8..j] == body
  {
  }

  /** The round trip: a document without edge whitespace, put in a fenced
      block with any whitespace around it and any text without backticks
      before and after, is extracted as it was. */
  lemma ExtractFenced(pre: string, ws1: string, doc: string, ws2: string, post: string)
    requires '`' !in pre && '`' !in post
    requires AllSpace(ws1) && AllSpace(ws2) && NoEdgeSpace(doc)
    ensures ExtractLatex(pre + OpenFence + ws1 + doc + ws2 + Fence + post) == doc
  {
    var body := ws1 + doc + ws2;
    var message := pre + OpenFence + body + Fence + post;
    assert pre + OpenFence + ws1 + doc + ws2 + Fence + post == message;
    ExtractBlock(pre, body, post, message, |pre|, |pre| + 8 + |body|);
    StripPadded(ws1, doc, ws2);
  }
}
