/** The regular expressions of convert-md.py, each written out as a
    deterministic matcher over positions of the string.  Python's
    `re.match` anchors a pattern at the start of the string; `.` matches any
    character but '\n'; `$` matches at the end or just before a final '\n';
    `\s` is `Strings.IsSpace`.  Where a pattern could backtrack, the comment
    says why the first candidate found here is the one the regex engine
    settles on. */
module Patterns {
  import opened Wrappers
  import opened Strings

  /** `\d`, restricted to the ASCII digits. */
  predicate IsDigit(c: char) {
    '0' <= c <= '9'
  }

  /** `[A-Z]` */
  predicate IsUpper(c: char) {
    'A' <= c <= 'Z'
  }

  function Min(a: nat, b: nat): nat {
    if a < b then a else b
  }

  /** `s` holds `pat` at position `i`. */
  predicate LookingAt(s: string, i: nat, pat: string) {
    i + |pat| <= |s| && s[i..i + |pat|] == pat
  }

  /** First position at or after `i` that is not whitespace (`\s*`). */
  function SkipSpace(s: string, i: nat): (j: nat)
    requires i <= |s|
    ensures i <= j <= |s| && (forall k :: i <= k < j ==> IsSpace(s[k])) && (j == |s| || !IsSpace(s[j]))
    decreases |s| - i
  {
    if i < |s| && IsSpace(s[i]) then SkipSpace(s, i + 1) else i
  }

  /** First position at or after `i` that does not hold `c` (`c*`). */
  function SkipChar(s: string, i: nat, c: char): (j: nat)
    requires i <= |s|
    ensures i <= j <= |s| && (forall k :: i <= k < j ==> s[k] == c) && (j == |s| || s[j] != c)
    decreases |s| - i
  {
    if i < |s| && s[i] == c then SkipChar(s, i + 1, c) else i
  }

  /** First position at or after `i` that is not a digit (`\d*`). */
  function SkipDigits(s: string, i: nat): (j: nat)
    requires i <= |s|
    ensures i <= j <= |s| && (forall k :: i <= k < j ==> IsDigit(s[k])) && (j == |s| || !IsDigit(s[j]))
    decreases |s| - i
  {
    if i < |s| && IsDigit(s[i]) then SkipDigits(s, i + 1) else i
  }

  /** A lazy `.*?` starting at `from` and followed by the literal `pat`: the
      first position `e >= from` where `pat` occurs, provided no '\n' lies
      in between (`.` cannot cross a line feed).  There is no match exactly
      when every occurrence of `pat` lies past a line feed. */
  function FindClose(s: string, pat: string, from: nat): (e: Option<nat>)
    requires pat != []
    ensures e.Some? ==> from <= e.value && LookingAt(s, e.value, pat)
    ensures e.Some? ==> forall k :: from <= k < e.value ==> s[k] != '\n' && !LookingAt(s, k, pat)
    ensures e.None? ==> forall k :: from <= k && LookingAt(s, k, pat) ==> exists x :: from <= x < k && s[x] == '\n'
    decreases |s| - from
  {
    if from + |pat| > |s| then None
    else if LookingAt(s, from, pat) then Some(from)
    else if s[from] == '\n' then None
    else FindClose(s, pat, from + 1)
  }

  /** `.*$` from position `k`: the text up to the end, or up to a final
      '\n'; no match when a line feed comes earlier. */
  function DotStarEnd(s: string, k: nat): (r: Option<string>)
    requires k <= |s|
    ensures r.Some? ==> '\n' !in r.value
    ensures (forall x :: k <= x < |s| ==> s[x] != '\n') ==> r == Some(s[k..])
  {
    if forall x :: k <= x < |s| ==> s[x] != '\n' then
      assert forall x :: 0 <= x < |s| - k ==> s[k..][x] == s[k + x];
      Some(s[k..])
    else if s[|s| - 1] == '\n' && forall x :: k <= x < |s| - 1 ==> s[x] != '\n' then
      var t := s[k..|s| - 1];
      assert forall x :: 0 <= x < |t| ==> t[x] == s[k + x];
      Some(t)
    else None
  }

  // ---------------------------------------------------------------- lines

  /** `!\[.*?\]\(.*?\)` at position `i`, giving the end of the match.
      Taking the first "](" is enough: when no ")" follows it on the same
      line, none follows a later "](" on that line either. */
  function ImageAt(s: string, i: nat): (n: Option<nat>)
    ensures n.Some? ==> i + 5 <= n.value <= |s| && LookingAt(s, i, "![") && s[n.value - 1] == ')'
  {
    if !LookingAt(s, i, "![") then None
    else match FindClose(s, "](", i + 2)
      case None => None
      case Some(j) =>
        match FindClose(s, ")", j + 2)
        case None => None
        case Some(k) => Some(k + 1)
  }

  /** The image line test of parse_markdown. */
  predicate IsImageLine(line: string) {
    ImageAt(line, 0).Some?
  }

  predicate AllChar(s: string, c: char) {
    forall k :: 0 <= k < |s| ==> s[k] == c
  }

  predicate AllDigits(s: string) {
    forall k :: 0 <= k < |s| ==> IsDigit(s[k])
  }

  /** The decorative-line test `^\*+\s*\d*\s*\*+\s*\*+$`: the line (less a
      final '\n', before which `$` also matches) cuts into star run,
      spaces, digits, spaces, star run, spaces, star run. */
  predicate IsNoiseLine(line: string) {
    var u := if |line| > 0 && line[|line| - 1] == '\n' then line[..|line| - 1] else line;
    exists a, b, c, d, e, f |
      0 < a <= b <= c <= d < e <= f < |u| ::
        AllChar(u[..a], '*') && AllSpace(u[a..b]) && AllDigits(u[b..c]) && AllSpace(u[c..d])
        && AllChar(u[d..e], '*') && AllSpace(u[e..f]) && AllChar(u[f..], '*')
  }

  /** Index one past the last non-whitespace character of `s`. */
  function ContentEnd(s: string): (e: nat)
    ensures e <= |s| && (forall k :: e <= k < |s| ==> IsSpace(s[k])) && (e == 0 || !IsSpace(s[e - 1]))
  {
    |StripRight(s)|
  }

  /** TABLE_ROW_RE `^\s*\|.*\|\s*$`: after the leading whitespace a '|',
      the last non-whitespace character another '|', and no line feed
      between the two. */
  predicate IsTableRow(s: string) {
    var i, e := SkipSpace(s, 0), ContentEnd(s);
    i + 2 <= e && s[i] == '|' && s[e - 1] == '|' && forall k :: i < k < e - 1 ==> s[k] != '\n'
  }

  predicate IsSeparatorChar(c: char) {
    IsSpace(c) || c == '-' || c == ':' || c == '|'
  }

  /** The separator test `^\s*\|[\s\-:|]+\|\s*$`: like a table row, with at
      least one character between the outer pipes and every such character
      whitespace, '-', ':' or '|'. */
  predicate IsSeparatorRow(s: string) {
    var i, e := SkipSpace(s, 0), ContentEnd(s);
    i + 3 <= e && s[i] == '|' && s[e - 1] == '|'
    && forall k :: i < k < e - 1 ==> IsSeparatorChar(s[k])
  }

  // ---------------------------------------------------------------- headings

  /** What MARKDOWN_HEADING_RE captures: the level (group 1's length) and
      the heading text (group 2). */
  datatype Heading = Heading(level: nat, text: string)

  /** MARKDOWN_HEADING_RE `^\s*(#{1,6})\s*(.*)$`.  Group 1 takes at most six
      '#', so the hashes of a deeper heading stay at the front of the text;
      giving back a '#' or a space would leave a character the next item
      cannot match, so there is no other way to match. */
  function HeadingMatch(s: string): (m: Option<Heading>)
    ensures m.Some? ==> '\n' !in m.value.text
  {
    var i := SkipSpace(s, 0);
    var h := SkipChar(s, i, '#') - i;
    if h == 0 then None
    else
      var level := Min(h, 6);
      match DotStarEnd(s, SkipSpace(s, i + level))
      case None => None
      case Some(text) => Some(Heading(level, text))
  }

  /** The number of '#' that open the line once leading whitespace is
      skipped. */
  function HashCount(s: string): nat {
    var i := SkipSpace(s, 0);
    SkipChar(s, i, '#') - i
  }

  /** On a line without a line feed, MARKDOWN_HEADING_RE matches exactly
      when the first non-blank character is '#'; the level is the number of
      leading '#' capped at 6, and beyond six the remaining '#' open the
      heading text. */
  lemma {:induction false} HeadingShape(s: string)
    ensures (forall k :: 0 <= k < |s| ==> s[k] != '\n') ==>
      (HeadingMatch(s).Some? <==> (SkipSpace(s, 0) < |s| && s[SkipSpace(s, 0)] == '#'))
    ensures HeadingMatch(s).Some? ==>
      var m := HeadingMatch(s).value;
      1 <= m.level <= 6 && m.level == Min(HashCount(s), 6)
    ensures HeadingMatch(s).Some? && HashCount(s) > 6 ==>
      var m := HeadingMatch(s).value;
      m.text != [] && m.text[0] == '#'
  {
    var i := SkipSpace(s, 0);
    var h := SkipChar(s, i, '#') - i;
    if h > 6 {
      var j := i + 6;
      assert s[j] == '#';
      assert SkipSpace(s, j) == j;
      var d := DotStarEnd(s, j);
      if d.Some? {
        assert d.value == s[j..] || d.value == s[j..|s| - 1];
        assert d.value[0] == s[j];
      }
    }
  }

  /** `\d+[A-Z]?\. ` at position `p`: the section number, an optional
      capital letter, a full stop and a space; gives the position after
      them.  `\d+` and `[A-Z]?` are each followed by a character they cannot
      take, so they never give anything back. */
  function NumberAt(s: string, p: nat): (r: Option<nat>)
    requires p <= |s|
    ensures r.Some? ==> p < r.value <= |s| && IsDigit(s[p])
    ensures r.Some? ==> forall y :: p <= y < r.value ==> s[y] != '\n'
  {
    var d := SkipDigits(s, p);
    if d == p then None
    else
      var q := if d < |s| && IsUpper(s[d]) then d + 1 else d;
      if q + 2 <= |s| && s[q] == '.' && s[q + 1] == ' ' then Some(q + 2) else None
  }

  /** `.+?\*\*` at position `r`: at least one character other than '\n',
      then up to the first "**"; gives the position of that "**". */
  function LazyBoldClose(s: string, r: nat): (e: Option<nat>)
    ensures e.Some? ==> r < e.value <= |s| && forall y :: r <= y < e.value ==> s[y] != '\n'
  {
    if r >= |s| || s[r] == '\n' then None else FindClose(s, "**", r + 1)
  }

  /** SECTION_RE `^\s*#+\s*\*\*(\d+[A-Z]?\. .+?)\*\*`, giving group 1: a
      heading whose text opens in bold with a section number ("2A. Title").
      `#+` and `\s*` are each followed by a character they cannot take, so
      backtracking never helps; the lazy `.+?` takes at least one character
      and stops before the first "**" after it. */
  function SectionMatch(s: string): (m: Option<string>)
  {
    var i := SkipSpace(s, 0);
    var j := SkipChar(s, i, '#');
    if j == i then None
    else
      var k := SkipSpace(s, j);
      if !LookingAt(s, k, "**") then None
      else match NumberAt(s, k + 2)
        case None => None
        case Some(r) =>
          match LazyBoldClose(s, r)
          case None => None
          case Some(e) => Some(s[k + 2..e])
  }

  /** A numbered-section line is heading-shaped (so its pattern must be
      tried first), and group 1 opens with a digit and ends before a line
      feed. */
  lemma {:induction false} SectionShape(s: string)
    ensures SectionMatch(s).Some? ==> SkipSpace(s, 0) < |s| && s[SkipSpace(s, 0)] == '#'
    ensures SectionMatch(s).Some? ==>
      var t := SectionMatch(s).value;
      |t| >= 4 && IsDigit(t[0]) && '\n' !in t
  {
    if SectionMatch(s).Some? {
      var i := SkipSpace(s, 0);
      var j := SkipChar(s, i, '#');
      var k := SkipSpace(s, j);
      var p := k + 2;
      var r := NumberAt(s, p).value;
      var e := LazyBoldClose(s, r).value;
      var t := s[p..e];
      assert SectionMatch(s).value == t;
      forall x | 0 <= x < |t| ensures t[x] != '\n' {
        assert t[x] == s[p + x];
      }
      assert t[0] == s[p];
    }
  }
}
