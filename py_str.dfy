/**
  The Python `str` operations the scripts rely on: `in`, `find`, `rfind`,
  slicing, `strip`, `lower`, `upper`, `replace` and `split(c)[0]`.
  Case mapping and whitespace are the ASCII part of Python's definitions.
 */
module PyStr {

  /** `sub` occurs in `s` starting at index `i`. */
  predicate OccursAt(s: string, sub: string, i: int)
  {
    0 <= i && i + |sub| <= |s| && s[i..i + |sub|] == sub
  }

  /** Python's `sub in s`. */
  predicate Contains(s: string, sub: string)
  {
    exists i | 0 <= i <= |s| - |sub| :: OccursAt(s, sub, i)
  }

  /** The first occurrence of `sub` in `s` at or after `i`, or -1. */
  function FindFrom(s: string, sub: string, i: nat): (r: int)
    requires i <= |s|
    decreases |s| - i
    ensures r == -1 || (i <= r && OccursAt(s, sub, r))
    ensures r == -1 ==> forall k :: i <= k ==> !OccursAt(s, sub, k)
    ensures r != -1 ==> forall k :: i <= k < r ==> !OccursAt(s, sub, k)
  {
    if i + |sub| > |s| then -1
    else if s[i..i + |sub|] == sub then i
    else FindFrom(s, sub, i + 1)
  }

  /** Python's `s.find(sub)`: the lowest index where `sub` occurs, or -1. */
  function Find(s: string, sub: string): (r: int)
    ensures r == -1 <==> !Contains(s, sub)
    ensures r != -1 ==> OccursAt(s, sub, r) && forall k :: 0 <= k < r ==> !OccursAt(s, sub, k)
  {
    FindFrom(s, sub, 0)
  }

  /** The last occurrence of `sub` in `s` at or before `i`, or -1. */
  function RFindUpTo(s: string, sub: string, i: int): (r: int)
    decreases i + 1
    ensures r == -1 || (0 <= r <= i && OccursAt(s, sub, r))
    ensures forall k :: r < k <= i ==> !OccursAt(s, sub, k)
  {
    if i < 0 then -1
    else if OccursAt(s, sub, i) then i
    else RFindUpTo(s, sub, i - 1)
  }

  /** Python's `s.rfind(sub)`: the highest index where `sub` occurs, or -1. */
  function RFind(s: string, sub: string): (r: int)
    ensures r == -1 <==> !Contains(s, sub)
    ensures r != -1 ==> OccursAt(s, sub, r) && forall k :: r < k ==> !OccursAt(s, sub, k)
  {
    RFindUpTo(s, sub, |s| - |sub|)
  }

  /** Python's `s[lo:hi]` for non-negative bounds: both are clamped to `len(s)`,
      and a slice whose end is not after its start is empty. */
  function Slice(s: string, lo: nat, hi: nat): (r: string)
    ensures |r| <= |s|
    ensures lo <= hi <= |s| ==> r == s[lo..hi]
    ensures hi <= lo ==> r == ""
  {
    var h := if hi <= |s| then hi else |s|;
    var l := if lo <= h then lo else h;
    s[l..h]
  }

  /** The ASCII characters for which Python's `str.isspace()` holds:
      tab, line feed, vertical tab, form feed, carriage return, the four
      information separators 0x1c-0x1f, and space. */
  predicate IsSpace(c: char)
  {
    c == ' ' || (9 <= c as int <= 13) || (28 <= c as int <= 31)
  }

  predicate AllSpace(s: string)
  {
    forall i :: 0 <= i < |s| ==> IsSpace(s[i])
  }

  /** Neither the first nor the last character of `s` is whitespace. */
  predicate NoEdgeSpace(s: string)
  {
    s == [] || (!IsSpace(s[0]) && !IsSpace(s[|s| - 1]))
  }

  /** The index of the first character at or after `i` that is not
      whitespace, or `|s|`. */
  function SkipSpace(s: string, i: nat): (r: nat)
    requires i <= |s|
    decreases |s| - i
    ensures i <= r <= |s|
    ensures forall k :: i <= k < r ==> IsSpace(s[k])
    ensures r < |s| ==> !IsSpace(s[r])
  {
    if i == |s| || !IsSpace(s[i]) then i else SkipSpace(s, i + 1)
  }

  /** The index just after the last character before `j` that is not
      whitespace, or 0. */
  function SkipSpaceBack(s: string, j: nat): (r: nat)
    requires j <= |s|
    decreases j
    ensures r <= j
    ensures forall k :: r <= k < j ==> IsSpace(s[k])
    ensures r > 0 ==> !IsSpace(s[r - 1])
  {
    if j == 0 || !IsSpace(s[j - 1]) then j else SkipSpaceBack(s, j - 1)
  }

  /** Where the text left by `strip` begins: after the leading whitespace. */
  function StripOffset(s: string): nat
    ensures StripOffset(s) <= |s|
  {
    SkipSpace(s, 0)
  }

  /** Python's `s.strip()`: the contiguous part of `s` left once the
      whitespace on both ends is removed. */
  function Strip(s: string): (r: string)
    ensures NoEdgeSpace(r)
    ensures StripOffset(s) + |r| <= |s| && r == s[StripOffset(s)..StripOffset(s) + |r|]
  {
    var a := SkipSpace(s, 0);
    var e := SkipSpaceBack(s, |s|);
    if e <= a then
      assert a == |s|;
      s[a..a]
    else s[a..e]
  }

  /** What `strip` removes on both sides is whitespace. */
  lemma StripRemovesSpace(s: string)
    ensures forall k :: 0 <= k < StripOffset(s) ==> IsSpace(s[k])
    ensures forall k :: StripOffset(s) + |Strip(s)| <= k < |s| ==> IsSpace(s[k])
  {
    var a := SkipSpace(s, 0);
    var e := SkipSpaceBack(s, |s|);
    if e > a {
      assert |Strip(s)| == e - a;
    }
  }

  /** The first non-space index is determined by the text: whitespace up to
      `p`, and then none or a non-space character. */
  lemma SkipSpaceAt(s: string, i: nat, p: nat)
    requires i <= p <= |s|
    requires forall k :: i <= k < p ==> IsSpace(s[k])
    requires p == |s| || !IsSpace(s[p])
    ensures SkipSpace(s, i) == p
  {
  }

  lemma SkipSpaceBackAt(s: string, j: nat, p: nat)
    requires p <= j <= |s|
    requires forall k :: p <= k < j ==> IsSpace(s[k])
    requires p == 0 || !IsSpace(s[p - 1])
    ensures SkipSpaceBack(s, j) == p
  {
  }

  /** A piece of a slice is a slice of the text. */
  lemma SliceOfSlice(s: string, l: nat, h: nat, a: nat, b: nat)
    requires l <= h <= |s| && a <= b <= h - l
    ensures s[l..h][a..b] == s[l + a..l + b]
  {
    assert |s[l..h][a..b]| == |s[l + a..l + b]|;
    forall k | 0 <= k < b - a ensures s[l..h][a..b][k] == s[l + a..l + b][k] {
    }
  }

  /** What `strip` leaves of `s[l:h]` occurs in `s`. */
  lemma StripOfSliceOccurs(s: string, l: nat, h: nat)
    requires l <= h <= |s|
    ensures OccursAt(s, Strip(s[l..h]), l + StripOffset(s[l..h]))
  {
    var t := s[l..h];
    var u, o := Strip(t), StripOffset(t);
    SliceOfSlice(s, l, h, o, o + |u|);
  }

  /** `strip` removes exactly the surrounding whitespace: a text without
      whitespace at its edges survives any padding unchanged. */
  lemma StripPadded(a: string, b: string, c: string)
    requires AllSpace(a) && AllSpace(c) && NoEdgeSpace(b)
    ensures Strip(a + b + c) == b
  {
    var s := a + b + c;
    assert forall k :: 0 <= k < |a| ==> s[k] == a[k];
    assert forall k :: |a| + |b| <= k < |s| ==> s[k] == c[k - |a| - |b|];
    if b == [] {
      SkipSpaceAt(s, 0, |s|);
      assert Strip(s) == [];
    } else {
      assert s[|a|] == b[0] && s[|a| + |b| - 1] == b[|b| - 1];
      SkipSpaceAt(s, 0, |a|);
      SkipSpaceBackAt(s, |s|, |a| + |b|);
      assert s[|a|..|a| + |b|] == b;
    }
  }

  function LowerChar(c: char): char
  {
    if 'A' <= c <= 'Z' then (c as int + 32) as char else c
  }

  function UpperChar(c: char): char
  {
    if 'a' <= c <= 'z' then (c as int - 32) as char else c
  }

  /** Python's `s.lower()` over ASCII letters. */
  function Lower(s: string): string
  {
    seq(|s|, i requires 0 <= i < |s| => LowerChar(s[i]))
  }

  /** Python's `s.upper()` over ASCII letters: same length, no lower-case
      letter left, and equal to `s` up to case. */
  function Upper(s: string): (r: string)
    ensures |r| == |s|
    ensures forall i :: 0 <= i < |r| ==> !('a' <= r[i] <= 'z')
    ensures Lower(r) == Lower(s)
  {
    seq(|s|, i requires 0 <= i < |s| => UpperChar(s[i]))
  }

  /** Lower-casing commutes with taking a piece of the text. */
  lemma LowerSlice(s: string, i: int, j: int)
    requires 0 <= i <= j <= |s|
    ensures Lower(s)[i..j] == Lower(s[i..j])
  {
  }

  /** Python's `s.replace(pat, rep)`: every occurrence of `pat`, scanning left
      to right without overlap, is replaced by `rep`. */
  function Replace(s: string, pat: string, rep: string): (r: string)
    requires |pat| > 0
    decreases |s|
    ensures rep == "" ==> |r| <= |s|
  {
    if |s| < |pat| then s
    else if s[..|pat|] == pat then rep + Replace(s[|pat|..], pat, rep)
    else [s[0]] + Replace(s[1..], pat, rep)
  }

  /** A text in which `pat` never occurs is left unchanged by `replace`. */
  lemma {:induction false} ReplaceAbsent(s: string, pat: string, rep: string)
    requires |pat| > 0 && !Contains(s, pat)
    ensures Replace(s, pat, rep) == s
  {
    if |s| >= |pat| {
      assert !OccursAt(s, pat, 0);
      assert s[..|pat|] != pat;
      forall k | OccursAt(s[1..], pat, k) ensures false {
        assert s[1..][k..k + |pat|] == s[k + 1..k + 1 + |pat|];
        assert OccursAt(s, pat, k + 1);
      }
      ReplaceAbsent(s[1..], pat, rep);
    }
  }

  /** Python's `s.split(c)[0]`: the part of `s` before the first `c`, or
      all of `s` when `c` does not occur. */
  function BeforeFirst(s: string, c: char): (r: string)
    ensures c !in r
    ensures |r| <= |s| && r == s[..|r|]
    ensures |r| < |s| ==> s[|r|] == c
  {
    if |s| == 0 then ""
    else if s[0] == c then ""
    else [s[0]] + BeforeFirst(s[1..], c)
  }
}
