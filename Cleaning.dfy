/** clean_text (convert-md.py:23-36): eleven `re.sub` passes followed by
    `strip()`.  `Sub` is `re.sub` itself: scan left to right, and where the
    pattern matches, emit the replacement and resume after the match,
    otherwise copy one character.  Each pattern is a matcher anchored at a
    position that gives the end of the match and the replacement. */
module Cleaning {
  import opened Wrappers
  import opened Strings
  import opened Patterns

  /** A match found at some position: where it ends and what replaces it. */
  datatype Hit = Hit(end: nat, replacement: string)

  /** A matcher never matches the empty string and never reads past the end
      of the string. */
  ghost predicate Advances(m: (string, nat) -> Option<Hit>) {
    forall s: string, i: nat :: m(s, i).Some? ==> i < m(s, i).value.end <= |s|
  }

  /** `re.sub(pattern, repl, s[i..])` for a pattern given by its matcher. */
  function Sub(s: string, i: nat, m: (string, nat) -> Option<Hit>): string
    requires Advances(m)
    decreases |s| - i
  {
    if i >= |s| then ""
    else match m(s, i)
      case Some(h) => h.replacement + Sub(s, h.end, m)
      case None => [s[i]] + Sub(s, i + 1, m)
  }

  /** Where a pattern matches nowhere, `re.sub` changes nothing. */
  lemma {:induction false} SubNoMatch(s: string, i: nat, m: (string, nat) -> Option<Hit>)
    requires Advances(m) && i <= |s|
    requires forall k :: i <= k < |s| ==> m(s, k).None?
    ensures Sub(s, i, m) == s[i..]
    decreases |s| - i
  {
    if i < |s| {
      SubNoMatch(s, i + 1, m);
      assert s[i..] == [s[i]] + s[i + 1..];
    }
  }

  // ---------------------------------------------------------------- the passes

  /** `!\[.*?\]\(.*?\)` -> "" (line 25) */
  function Image(s: string, i: nat): (h: Option<Hit>)
    ensures h.Some? ==> i < h.value.end <= |s|
  {
    match ImageAt(s, i)
    case None => None
    case Some(n) => Some(Hit(n, ""))
  }

  /** `\\"` -> `"` (line 26) */
  function EscapedQuote(s: string, i: nat): (h: Option<Hit>)
    ensures h.Some? ==> i < h.value.end <= |s|
  {
    if LookingAt(s, i, "\\\"") then Some(Hit(i + 2, "\"")) else None
  }

  /** `\[\*.*?\*\]` -> "" (line 27) */
  function StarBracket(s: string, i: nat): (h: Option<Hit>)
    ensures h.Some? ==> i < h.value.end <= |s|
  {
    if !LookingAt(s, i, "[*") then None
    else match FindClose(s, "*]", i + 2)
      case None => None
      case Some(e) => Some(Hit(e + 2, ""))
  }

  /** `\*\*\*.*?\*\*\*` -> "" (line 28) */
  function TripleStar(s: string, i: nat): (h: Option<Hit>)
    ensures h.Some? ==> i < h.value.end <= |s|
  {
    if !LookingAt(s, i, "***") then None
    else match FindClose(s, "***", i + 3)
      case None => None
      case Some(e) => Some(Hit(e + 3, ""))
  }

  /** `<sup>.*?</sup>` -> "" (line 29) */
  function Superscript(s: string, i: nat): (h: Option<Hit>)
    ensures h.Some? ==> i < h.value.end <= |s|
  {
    if !LookingAt(s, i, "<sup>") then None
    else match FindClose(s, "</sup>", i + 5)
      case None => None
      case Some(e) => Some(Hit(e + 6, ""))
  }

  /** First position at or after `i` holding `c`, line feeds included. */
  function IndexFrom(s: string, i: nat, c: char): (e: Option<nat>)
    ensures e.Some? ==> i <= e.value < |s| && s[e.value] == c
    decreases |s| - i
  {
    if i >= |s| then None else if s[i] == c then Some(i) else IndexFrom(s, i + 1, c)
  }

  /** `<[^>]+>` -> "" (line 30): `[^>]` also takes line feeds, and the match
      ends at the first '>' after at least one other character. */
  function Tag(s: string, i: nat): (h: Option<Hit>)
    ensures h.Some? ==> i < h.value.end <= |s|
  {
    if !(i + 1 < |s| && s[i] == '<' && s[i + 1] != '>') then None
    else match IndexFrom(s, i + 2, '>')
      case None => None
      case Some(e) => Some(Hit(e + 1, ""))
  }

  /** `\*\*(.*?)\*\*` -> `\1` (line 31) */
  function Bold(s: string, i: nat): (h: Option<Hit>)
    ensures h.Some? ==> i < h.value.end <= |s|
  {
    if !LookingAt(s, i, "**") then None
    else match FindClose(s, "**", i + 2)
      case None => None
      case Some(e) => Some(Hit(e + 2, s[i + 2..e]))
  }

  /** `\*(.*?)\*` -> `\1` (line 32) */
  function Italic(s: string, i: nat): (h: Option<Hit>)
    ensures h.Some? ==> i < h.value.end <= |s|
  {
    if !LookingAt(s, i, "*") then None
    else match FindClose(s, "*", i + 1)
      case None => None
      case Some(e) => Some(Hit(e + 1, s[i + 1..e]))
  }

  predicate IsEscapable(c: char) {
    c == '*' || c == '_' || c == '`'
  }

  /** First position at or after `i` that is not one of "*_`". */
  function SkipEscapable(s: string, i: nat): (j: nat)
    requires i <= |s|
    ensures i <= j <= |s| && (forall k :: i <= k < j ==> IsEscapable(s[k])) && (j == |s| || !IsEscapable(s[j]))
    decreases |s| - i
  {
    if i < |s| && IsEscapable(s[i]) then SkipEscapable(s, i + 1) else i
  }

  /** `\\[*_`]+` -> "" (line 33): a backslash and the whole run of markup
      characters after it. */
  function EscapedMarkup(s: string, i: nat): (h: Option<Hit>)
    ensures h.Some? ==> i + 1 < h.value.end <= |s| && s[i] == '\\' && h.value.replacement == ""
    ensures h.Some? ==>
      (forall k :: i < k < h.value.end ==> IsEscapable(s[k]))
      && (h.value.end == |s| || !IsEscapable(s[h.value.end]))
  {
    if i + 1 < |s| && s[i] == '\\' && IsEscapable(s[i + 1]) then
      Some(Hit(SkipEscapable(s, i + 1), ""))
    else None
  }

  /** ` {2,}` -> " " (line 34): a run of two or more spaces, taken whole,
      becomes one space. */
  function SpaceRun(s: string, i: nat): (h: Option<Hit>)
    ensures h.Some? <==> i + 1 < |s| && s[i] == ' ' && s[i + 1] == ' '
    ensures h.Some? ==> i + 2 <= h.value.end <= |s| && h.value.replacement == " "
    ensures h.Some? ==>
      (forall k :: i <= k < h.value.end ==> s[k] == ' ')
      && (h.value.end == |s| || s[h.value.end] != ' ')
  {
    if i + 1 < |s| && s[i] == ' ' && s[i + 1] == ' ' then Some(Hit(SkipChar(s, i, ' '), " "))
    else None
  }

  predicate IsCrOrLf(c: char) {
    c == '\r' || c == '\n'
  }

  /** First position at or after `i` that is neither '\r' nor '\n'. */
  function SkipCrLf(s: string, i: nat): (j: nat)
    requires i <= |s|
    ensures i <= j <= |s| && (forall k :: i <= k < j ==> IsCrOrLf(s[k])) && (j == |s| || !IsCrOrLf(s[j]))
    decreases |s| - i
  {
    if i < |s| && IsCrOrLf(s[i]) then SkipCrLf(s, i + 1) else i
  }

  /** `[\r\n]+` -> " " (line 35): the whole run of carriage returns and
      line feeds becomes one space. */
  function LineBreakRun(s: string, i: nat): (h: Option<Hit>)
    ensures h.Some? ==> i < h.value.end <= |s|
    ensures i < |s| && IsCrOrLf(s[i]) <==> h.Some?
    ensures h.Some? ==> h.value.replacement == " "
    ensures h.Some? ==>
      (forall k :: i <= k < h.value.end ==> IsCrOrLf(s[k]))
      && (h.value.end == |s| || !IsCrOrLf(s[h.value.end]))
  {
    if i < |s| && IsCrOrLf(s[i]) then Some(Hit(SkipCrLf(s, i), " ")) else None
  }

  /** After the last pass no carriage return or line feed is left. */
  lemma {:induction false} NoLineBreaksLeft(s: string, i: nat)
    ensures forall c :: c in Sub(s, i, LineBreakRun) ==> !IsCrOrLf(c)
    decreases |s| - i
  {
    if i < |s| {
      match LineBreakRun(s, i)
      case Some(h) => NoLineBreaksLeft(s, h.end);
      case None => NoLineBreaksLeft(s, i + 1);
    }
  }

  /** The markup-removal passes of lines 25-33, in order. */
  function RemoveMarkup(text: string): string {
    var t1 := Sub(text, 0, Image);
    var t2 := Sub(t1, 0, EscapedQuote);
    var t3 := Sub(t2, 0, StarBracket);
    var t4 := Sub(t3, 0, TripleStar);
    var t5 := Sub(t4, 0, Superscript);
    var t6 := Sub(t5, 0, Tag);
    var t7 := Sub(t6, 0, Bold);
    var t8 := Sub(t7, 0, Italic);
    Sub(t8, 0, EscapedMarkup)
  }

  /** clean_text: the markup passes, then runs of two or more spaces become
      one, then runs of line breaks become one space, then `strip()`.  The
      result holds no line break and no whitespace at either end. */
  function CleanText(text: string): (r: string)
    ensures '\r' !in r && '\n' !in r
    ensures r == [] || (!IsSpace(r[0]) && !IsSpace(r[|r| - 1]))
  {
    var collapsed := Sub(RemoveMarkup(text), 0, SpaceRun);
    var oneLine := Sub(collapsed, 0, LineBreakRun);
    NoLineBreaksLeft(collapsed, 0);
    Strip(oneLine)
  }

  // ---------------------------------------------------------------- properties

  /** A character some markup pass could start a match on. */
  predicate IsMarkupChar(c: char) {
    c == '!' || c == '\\' || c == '[' || c == '*' || c == '<'
  }

  /** A pattern cannot match where the string does not hold its first character. */
  lemma {:induction false} NotLookingAt(s: string, i: nat, pat: string)
    requires pat != [] && (i < |s| ==> s[i] != pat[0])
    ensures !LookingAt(s, i, pat)
  {
  }

  /** No markup pass matches where the text holds none of '!', '\\', '[',
      '*', '<'. */
  lemma {:induction false} NoMarkupAt(s: string, k: nat)
    requires k < |s| && !IsMarkupChar(s[k])
    ensures Image(s, k).None? && EscapedQuote(s, k).None? && StarBracket(s, k).None?
    ensures TripleStar(s, k).None? && Superscript(s, k).None? && Tag(s, k).None?
    ensures Bold(s, k).None? && Italic(s, k).None? && EscapedMarkup(s, k).None?
  {
    NotLookingAt(s, k, "![");
    NotLookingAt(s, k, "\\\"");
    NotLookingAt(s, k, "[*");
    NotLookingAt(s, k, "***");
    NotLookingAt(s, k, "<sup>");
    NotLookingAt(s, k, "**");
    NotLookingAt(s, k, "*");
  }

  /** Text holding none of '!', '\\', '[', '*', '<' goes through the
      markup passes of lines 25-33 unchanged. */
  lemma {:induction false} RemoveMarkupFree(s: string)
    requires forall k :: 0 <= k < |s| ==> !IsMarkupChar(s[k])
    ensures RemoveMarkup(s) == s
  {
    forall k | 0 <= k < |s|
      ensures Image(s, k).None? && EscapedQuote(s, k).None? && StarBracket(s, k).None?
      ensures TripleStar(s, k).None? && Superscript(s, k).None? && Tag(s, k).None?
      ensures Bold(s, k).None? && Italic(s, k).None? && EscapedMarkup(s, k).None?
    {
      NoMarkupAt(s, k);
    }
    assert s[0..] == s;
    SubNoMatch(s, 0, Image);
    SubNoMatch(s, 0, EscapedQuote);
    SubNoMatch(s, 0, StarBracket);
    SubNoMatch(s, 0, TripleStar);
    SubNoMatch(s, 0, Superscript);
    SubNoMatch(s, 0, Tag);
    SubNoMatch(s, 0, Bold);
    SubNoMatch(s, 0, Italic);
    SubNoMatch(s, 0, EscapedMarkup);
  }

  /** On text without markup characters, clean_text is the space and
      line-break passes, which here leave no whitespace at either end. */
  lemma {:induction false} CleanPlain(s: string, t: string)
    requires forall k :: 0 <= k < |s| ==> !IsMarkupChar(s[k])
    requires t == Sub(Sub(s, 0, SpaceRun), 0, LineBreakRun)
    requires t == [] || (!IsSpace(t[0]) && !IsSpace(t[|t| - 1]))
    ensures CleanText(s) == t
  {
    RemoveMarkupFree(s);
    StripOfStripped(t);
  }

  /** "a \n b", character by character. */
  predicate IsLineFeedSample(s: string) {
    |s| == 5 && s[0] == 'a' && s[1] == ' ' && s[2] == '\n' && s[3] == ' ' && s[4] == 'b'
  }

  /** "a   b", character by character. */
  predicate IsSpacedSample(t: string) {
    |t| == 5 && t[0] == 'a' && t[1] == ' ' && t[2] == ' ' && t[3] == ' ' && t[4] == 'b'
  }

  /** "a b", character by character. */
  predicate IsPlainSample(u: string) {
    |u| == 3 && u[0] == 'a' && u[1] == ' ' && u[2] == 'b'
  }

  /** The line feed of "a \n b" becomes one space, after a space-run pass
      that finds nothing to collapse. */
  lemma {:induction false} LineFeedToSpace(s: string)
    requires IsLineFeedSample(s)
    ensures IsSpacedSample(Sub(Sub(s, 0, SpaceRun), 0, LineBreakRun))
  {
    assert forall k :: 0 <= k < |s| ==> SpaceRun(s, k).None?;
    SubNoMatch(s, 0, SpaceRun);
    assert s[0..] == s;
    assert LineBreakRun(s, 2) == Some(Hit(3, " ")) by {
      assert SkipCrLf(s, 3) == 3;
    }
    assert Sub(s, 4, LineBreakRun) == [s[4]] + Sub(s, 5, LineBreakRun);
    assert Sub(s, 3, LineBreakRun) == [s[3]] + Sub(s, 4, LineBreakRun);
    assert Sub(s, 2, LineBreakRun) == " " + Sub(s, 3, LineBreakRun);
    assert Sub(s, 1, LineBreakRun) == [s[1]] + Sub(s, 2, LineBreakRun);
    assert Sub(s, 0, LineBreakRun) == [s[0]] + Sub(s, 1, LineBreakRun);
  }

  /** The run of three spaces of "a   b" becomes one, and the line-break
      pass finds nothing after it. */
  lemma {:induction false} SpacesToOne(t: string)
    requires IsSpacedSample(t)
    ensures IsPlainSample(Sub(Sub(t, 0, SpaceRun), 0, LineBreakRun))
  {
    assert SpaceRun(t, 1) == Some(Hit(4, " ")) by {
      assert SkipChar(t, 4, ' ') == 4;
      assert SkipChar(t, 3, ' ') == 4;
      assert SkipChar(t, 2, ' ') == 4;
    }
    assert Sub(t, 4, SpaceRun) == [t[4]] + Sub(t, 5, SpaceRun);
    assert Sub(t, 1, SpaceRun) == " " + Sub(t, 4, SpaceRun);
    assert Sub(t, 0, SpaceRun) == [t[0]] + Sub(t, 1, SpaceRun);
    var u := Sub(t, 0, SpaceRun);
    assert forall k :: 0 <= k < |u| ==> LineBreakRun(u, k).None?;
    SubNoMatch(u, 0, LineBreakRun);
    assert u[0..] == u;
  }

  /** Cleaning "a \n b" gives "a   b". */
  lemma {:induction false} CleanLineFeed(s: string)
    requires IsLineFeedSample(s)
    ensures IsSpacedSample(CleanText(s))
  {
    LineFeedToSpace(s);
    CleanPlain(s, Sub(Sub(s, 0, SpaceRun), 0, LineBreakRun));
  }

  /** Cleaning "a   b" gives "a b". */
  lemma {:induction false} CleanSpaces(t: string)
    requires IsSpacedSample(t)
    ensures IsPlainSample(CleanText(t))
  {
    SpacesToOne(t);
    CleanPlain(t, Sub(Sub(t, 0, SpaceRun), 0, LineBreakRun));
  }

  /** clean_text is not idempotent: the line feed of "a \n b" becomes a
      space only after runs of spaces have been collapsed, so cleaning the
      result once more collapses the three spaces it leaves. */
  lemma {:induction false} CleanTextNotIdempotent(s: string)
    requires IsLineFeedSample(s)
    ensures IsSpacedSample(CleanText(s))
    ensures IsPlainSample(CleanText(CleanText(s)))
  {
    CleanLineFeed(s);
    CleanSpaces(CleanText(s));
  }

  /** Where the pattern does not match at the start, `re.sub` keeps the
      first character. */
  lemma {:induction false} SubKeepsFirst(s: string, m: (string, nat) -> Option<Hit>)
    requires Advances(m) && s != [] && m(s, 0).None?
    ensures Sub(s, 0, m) != [] && Sub(s, 0, m)[0] == s[0]
  {
  }

  /** The markup passes keep a first character that none of them can
      start on. */
  lemma {:induction false} RemoveMarkupKeepsFirst(s: string)
    requires s != [] && !IsMarkupChar(s[0])
    ensures RemoveMarkup(s) != [] && RemoveMarkup(s)[0] == s[0]
  {
    NoMarkupAt(s, 0);
    SubKeepsFirst(s, Image);
    var t1 := Sub(s, 0, Image);
    NoMarkupAt(t1, 0);
    SubKeepsFirst(t1, EscapedQuote);
    var t2 := Sub(t1, 0, EscapedQuote);
    NoMarkupAt(t2, 0);
    SubKeepsFirst(t2, StarBracket);
    var t3 := Sub(t2, 0, StarBracket);
    NoMarkupAt(t3, 0);
    SubKeepsFirst(t3, TripleStar);
    var t4 := Sub(t3, 0, TripleStar);
    NoMarkupAt(t4, 0);
    SubKeepsFirst(t4, Superscript);
    var t5 := Sub(t4, 0, Superscript);
    NoMarkupAt(t5, 0);
    SubKeepsFirst(t5, Tag);
    var t6 := Sub(t5, 0, Tag);
    NoMarkupAt(t6, 0);
    SubKeepsFirst(t6, Bold);
    var t7 := Sub(t6, 0, Bold);
    NoMarkupAt(t7, 0);
    SubKeepsFirst(t7, Italic);
    var t8 := Sub(t7, 0, Italic);
    NoMarkupAt(t8, 0);
    SubKeepsFirst(t8, EscapedMarkup);
  }

  /** A text that opens with a character no pass can start on or remove
      (no markup character, no whitespace) still opens with it once
      cleaned. */
  lemma {:induction false} CleanKeepsFirst(s: string)
    requires s != [] && !IsMarkupChar(s[0]) && !IsSpace(s[0])
    ensures CleanText(s) != [] && CleanText(s)[0] == s[0]
  {
    RemoveMarkupKeepsFirst(s);
    var t9 := RemoveMarkup(s);
    SubKeepsFirst(t9, SpaceRun);
    var t10 := Sub(t9, 0, SpaceRun);
    SubKeepsFirst(t10, LineBreakRun);
    StripKeepsFirst(Sub(t10, 0, LineBreakRun));
  }
}
