/**
 * The string arithmetic of the inline rewrite page
 * (app/inline-auto-suggest/page.tsx): JavaScript's `slice`, the split of a
 * text node around a selection, the leading and trailing white-space counts
 * of the selection, and the removal of quotes around the model's reply.
 */
module SuggestText {

  /** A character that JavaScript's `\s` matches: white space and line terminators. */
  predicate IsWhite(c: char)
  {
    c == ' ' || c == '\t' || c == '\n' || c == '\U{000B}' || c == '\U{000C}' || c == '\r'
    || c == '\U{00A0}' || c == '\U{1680}' || ('\U{2000}' <= c <= '\U{200A}')
    || c == '\U{2028}' || c == '\U{2029}' || c == '\U{202F}' || c == '\U{205F}'
    || c == '\U{3000}' || c == '\U{FEFF}'
  }

  predicate AllWhite(s: string)
  {
    forall k :: 0 <= k < |s| ==> IsWhite(s[k])
  }

  /** The length of the match of `/^(\s*)/`: the longest white prefix. */
  function LeadingSpaces(s: string): (n: nat)
    ensures n <= |s|
    ensures forall k :: 0 <= k < n ==> IsWhite(s[k])
    ensures n < |s| ==> !IsWhite(s[n])
  {
    if |s| == 0 || !IsWhite(s[0]) then 0
    else 1 + LeadingSpaces(s[1..])
  }

  /** The length of the match of `/(\s*)$/`: the longest white suffix (the
      first position from which the rest of the string is white). */
  function TrailingSpaces(s: string): (n: nat)
    ensures n <= |s|
    ensures forall k :: |s| - n <= k < |s| ==> IsWhite(s[k])
    ensures n < |s| ==> !IsWhite(s[|s| - n - 1])
  {
    if |s| == 0 || !IsWhite(s[|s| - 1]) then 0
    else 1 + TrailingSpaces(s[..|s| - 1])
  }

  /** `selectedText.length - leadingSpaces - trailingSpaces`. */
  function ContentLength(s: string): int
  {
    |s| - LeadingSpaces(s) - TrailingSpaces(s)
  }

  /** For a selection holding a non-white character, the leading white space,
      the content and the trailing white space partition it, and the content
      starts and ends with a non-white character. */
  lemma ContentSplit(s: string)
    requires !AllWhite(s)
    ensures var lead, content := LeadingSpaces(s), ContentLength(s);
      content >= 1 && lead + content + TrailingSpaces(s) == |s|
      && !IsWhite(s[lead]) && !IsWhite(s[lead + content - 1])
  {
    var lead, trail := LeadingSpaces(s), TrailingSpaces(s);
    var k :| 0 <= k < |s| && !IsWhite(s[k]);
    LeadingBound(s, k);
    TrailingBound(s, k);
  }

  /** The white prefix stops at or before any non-white character. */
  lemma LeadingBound(s: string, k: nat)
    requires k < |s| && !IsWhite(s[k])
    ensures LeadingSpaces(s) <= k
  {
    if k < LeadingSpaces(s) { assert false; }
  }

  /** The white suffix starts after any non-white character. */
  lemma TrailingBound(s: string, k: nat)
    requires k < |s| && !IsWhite(s[k])
    ensures k < |s| - TrailingSpaces(s)
  {
    if k >= |s| - TrailingSpaces(s) { assert false; }
  }

  /** For an all-white selection both counts are its length, so the content
      length is minus the length and no index is ever activated. */
  lemma WhiteSelection(s: string)
    requires AllWhite(s)
    ensures LeadingSpaces(s) == |s| && TrailingSpaces(s) == |s|
    ensures ContentLength(s) == -|s|
  {
  }

  /** `s.trim()`: the text without its leading and trailing white space;
      for a selection holding a non-white character, exactly its content. */
  function Trimmed(s: string): (r: string)
    ensures |r| <= |s|
    ensures |r| > 0 ==> !IsWhite(r[0]) && !IsWhite(r[|r| - 1])
    ensures AllWhite(s) <==> r == ""
    ensures !AllWhite(s) ==> |r| == ContentLength(s) && r == s[LeadingSpaces(s)..|s| - TrailingSpaces(s)]
  {
    if AllWhite(s) then ""
    else
      ContentSplit(s);
      s[LeadingSpaces(s)..|s| - TrailingSpaces(s)]
  }

  /** The selection is its leading white space, its trimmed text and its
      trailing white space, in that order. */
  lemma {:induction false} TrimmedSplit(s: string)
    requires !AllWhite(s)
    ensures s == s[..LeadingSpaces(s)] + Trimmed(s) + s[|s| - TrailingSpaces(s)..]
  {
    ThreeParts(s, LeadingSpaces(s), |s| - TrailingSpaces(s), Trimmed(s));
  }

  lemma ThreeParts(s: string, a: nat, b: nat, middle: string)
    requires a <= b <= |s| && middle == s[a..b]
    ensures s == s[..a] + middle + s[b..]
  {
  }

  /** Where `String.prototype.slice` puts an index: a negative index counts
      from the end, and the result is clamped to [0, len]. */
  function SliceIndex(len: nat, i: int): (r: nat)
    ensures r <= len
    ensures 0 <= i <= len ==> r == i
  {
    if i < 0 then (if len + i < 0 then 0 else len + i)
    else if i > len then len
    else i
  }

  /** `s.slice(start, end)`. */
  function Slice(s: string, start: int, end: int): (r: string)
    ensures 0 <= start <= end <= |s| ==> r == s[start..end]
  {
    var a, b := SliceIndex(|s|, start), SliceIndex(|s|, end);
    if a < b then s[a..b] else ""
  }

  /** `s.slice(start)`. */
  function SliceFrom(s: string, start: int): (r: string)
    ensures 0 <= start <= |s| ==> r == s[start..]
    ensures start > |s| ==> r == ""
  {
    Slice(s, start, |s|)
  }

  /** The text of the node before and after a selection starting at
      `startOffset`, as `startSpinning` computes them. */
  datatype Split = Split(before: string, selected: string, after: string)

  function SplitAround(fullText: string, startOffset: nat, selected: string): Split
  {
    Split(Slice(fullText, 0, startOffset), selected, SliceFrom(fullText, startOffset + |selected|))
  }

  /** When the selection lies inside the node, the three pieces reconstruct the node's text. */
  lemma SplitReconstructs(fullText: string, startOffset: nat, selected: string)
    requires startOffset + |selected| <= |fullText|
    requires fullText[startOffset..startOffset + |selected|] == selected
    ensures var p := SplitAround(fullText, startOffset, selected);
      p.before + p.selected + p.after == fullText
      && |p.before| == startOffset
  {
    var p := SplitAround(fullText, startOffset, selected);
    assert p.before == fullText[..startOffset];
    assert fullText == fullText[..startOffset] + fullText[startOffset..startOffset + |selected|] + fullText[startOffset + |selected|..];
  }

  /** `improvedText.replace(/^"|"$/g, "")`: one leading and one trailing `"` go. */
  function StripQuotes(s: string): (r: string)
    ensures |s| - 2 <= |r| <= |s|
    ensures |s| > 0 && s[0] == '"' ==> |r| < |s| && r == s[1..1 + |r|]
    ensures !(|s| > 0 && s[0] == '"') ==> r == s[..|r|]
    ensures |s| > 0 && s[0] != '"' ==> |r| > 0 && r[0] == s[0]
    ensures |s| > 0 && s[|s| - 1] != '"' ==> |r| > 0 && r[|r| - 1] == s[|s| - 1]
  {
    var a := if |s| > 0 && s[0] == '"' then 1 else 0;
    var b := if |s| > a && s[|s| - 1] == '"' then 1 else 0;
    s[a..|s| - b]
  }

  /** A reply wrapped in quotes loses exactly that pair. */
  lemma StripQuotedReply(t: string)
    ensures StripQuotes("\"" + t + "\"") == t
  {
    var s := "\"" + t + "\"";
    assert s[1..|s| - 1] == t;
  }

  /** A reply that neither starts nor ends with a quote is unchanged. */
  lemma StripUnquotedReply(t: string)
    requires |t| == 0 || (t[0] != '"' && t[|t| - 1] != '"')
    ensures StripQuotes(t) == t
  {
  }

  /** A reply with a quote only at its start loses just that quote. */
  lemma StripLeadingOnly(t: string)
    requires t == "" || t[|t| - 1] != '"'
    ensures StripQuotes("\"" + t) == t
  {
    var s := "\"" + t;
    assert s[1..] == t;
  }

  /** A reply with a quote only at its end loses just that quote. */
  lemma StripTrailingOnly(t: string)
    requires t == "" || t[0] != '"'
    ensures StripQuotes(t + "\"") == t
  {
    var s := t + "\"";
    assert s[..|s| - 1] == t;
  }

  /** Only one quote goes at each end: inner and doubled quotes stay. */
  lemma StripKeepsInnerQuotes(t: string)
    ensures StripQuotes("\"\"" + t + "\"\"") == "\"" + t + "\""
  {
    var s := "\"\"" + t + "\"\"";
    assert s[1..|s| - 1] == "\"" + t + "\"";
  }

  /** The replies that strip to nothing: the empty reply, a lone quote and
      an empty quoted string. */
  lemma StripToEmpty(t: string)
    ensures StripQuotes(t) == "" <==> t == "" || t == "\"" || t == "\"\""
  {
    if |t| == 2 && t[0] == '"' && t[1] == '"' {
      assert t == "\"\"";
    }
  }

  /** A lone quote is removed once; it is not also taken as the trailing one. */
  lemma StripLoneQuote()
    ensures StripQuotes("\"") == ""
  {
  }
}
