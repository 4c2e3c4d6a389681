/** The Python string primitives the converter relies on: `str.isspace`,
    `str.strip`, `str.split()`, `sep.join(parts)`, `str.split('|')` and
    `str.splitlines()`, each written out over `seq<char>`. */
module Strings {

  /** Python's `str.isspace` (also what `\s` matches in a `str` pattern):
      tab, line feed, vertical tab, form feed, carriage return, the four
      information separators 0x1C-0x1F, space, and the Unicode spaces. */
  predicate IsSpace(c: char) {
    var n := c as int;
    (9 <= n <= 13) || (28 <= n <= 32) || n == 0x85 || n == 0xA0 || n == 0x1680
    || (0x2000 <= n <= 0x200A) || n == 0x2028 || n == 0x2029 || n == 0x202F
    || n == 0x205F || n == 0x3000
  }

  predicate AllSpace(s: string) {
    forall k :: 0 <= k < |s| ==> IsSpace(s[k])
  }

  predicate NoSpace(s: string) {
    forall k :: 0 <= k < |s| ==> !IsSpace(s[k])
  }

  /** A word as `str.split()` produces it: non-empty, no whitespace. */
  predicate IsWord(w: string) {
    w != [] && NoSpace(w)
  }

  predicate AllWords(g: seq<string>) {
    forall i :: 0 <= i < |g| ==> IsWord(g[i])
  }

  // ---------------------------------------------------------------- strip

  /** `s.lstrip()` */
  function StripLeft(s: string): (r: string)
    ensures |r| <= |s|
    ensures forall k :: 0 <= k < |s| - |r| ==> IsSpace(s[k])
    ensures r == [] || !IsSpace(r[0])
  {
    if |s| > 0 && IsSpace(s[0]) then StripLeft(s[1..]) else s
  }

  /** What `lstrip` leaves is a suffix.  (Kept out of StripLeft's contract:
      stated there it would make every unchanged string equal to a slice of
      itself wherever StripLeft appears.) */
  lemma {:induction false} StripLeftSuffix(s: string)
    ensures StripLeft(s) == s[|s| - |StripLeft(s)|..]
  {
    if |s| > 0 && IsSpace(s[0]) {
      StripLeftSuffix(s[1..]);
      assert s[1..][|s| - 1 - |StripLeft(s)|..] == s[|s| - |StripLeft(s)|..];
    }
  }

  /** `s.rstrip()` */
  function StripRight(s: string): (r: string)
    ensures |r| <= |s| && r == s[..|r|]
    ensures forall k :: |r| <= k < |s| ==> IsSpace(s[k])
    ensures r == [] || !IsSpace(r[|r| - 1])
  {
    if |s| > 0 && IsSpace(s[|s| - 1]) then StripRight(s[..|s| - 1]) else s
  }

  /** Number of leading whitespace characters of `s`. */
  function LeadingSpaces(s: string): (n: nat)
    ensures n <= |s| && (forall k :: 0 <= k < n ==> IsSpace(s[k])) && (n == |s| || !IsSpace(s[n]))
  {
    StripLeftSuffix(s);
    |s| - |StripLeft(s)|
  }

  /** `s.strip()`: whitespace removed from both ends; empty exactly when `s`
      is all whitespace; no new characters. */
  function Strip(s: string): (r: string)
    ensures r == [] || (!IsSpace(r[0]) && !IsSpace(r[|r| - 1]))
    ensures r == [] <==> AllSpace(s)
    ensures forall c :: c in r ==> c in s
  {
    var t := StripLeft(s);
    var r := StripRight(t);
    StripInfix(s, t, r);
    r
  }

  /** `s.strip()` is the infix of `s` that starts after the leading
      whitespace, and everything after it is whitespace. */
  lemma {:induction false} StripIsInfix(s: string)
    ensures LeadingSpaces(s) + |Strip(s)| <= |s|
    ensures Strip(s) == s[LeadingSpaces(s)..LeadingSpaces(s) + |Strip(s)|]
    ensures forall k :: LeadingSpaces(s) + |Strip(s)| <= k < |s| ==> IsSpace(s[k])
  {
    var t := StripLeft(s);
    var r := StripRight(t);
    var a := |s| - |t|;
    StripLeftSuffix(s);
    assert Strip(s) == r && LeadingSpaces(s) == a;
    assert t == s[a..] && r == t[..|r|];
    assert r == s[a..a + |r|];
    forall k | a + |r| <= k < |s| ensures IsSpace(s[k]) {
      assert s[k] == t[k - a];
    }
  }

  lemma {:induction false} StripInfix(s: string, t: string, r: string)
    requires t == StripLeft(s) && r == StripRight(t)
    ensures r == [] <==> AllSpace(s)
    ensures forall c :: c in r ==> c in s
  {
    var a := |s| - |t|;
    StripLeftSuffix(s);
    if r == [] {
      StripEmptyAllSpace(s, t);
    } else {
      assert s[a] == t[0] == r[0];
    }
    forall c | c in r ensures c in s {
      var k :| 0 <= k < |r| && r[k] == c;
      assert s[a + k] == c;
    }
  }

  /** `strip()` keeps a first character that is not whitespace. */
  lemma {:induction false} StripKeepsFirst(s: string)
    requires s != [] && !IsSpace(s[0])
    ensures Strip(s) != [] && Strip(s)[0] == s[0]
  {
    StripIsInfix(s);
    assert LeadingSpaces(s) == 0;
    assert !AllSpace(s);
  }

  lemma {:induction false} StripEmptyAllSpace(s: string, t: string)
    requires t == StripLeft(s) && StripRight(t) == []
    ensures AllSpace(s)
  {
    assert t == [];
  }

  lemma {:induction false} StripOfStripped(s: string)
    requires s == [] || (!IsSpace(s[0]) && !IsSpace(s[|s| - 1]))
    ensures Strip(s) == s
  {
  }

  // ---------------------------------------------------------------- split()

  /** Length of the run of non-whitespace characters at the front of `s`. */
  function WordLength(s: string): (n: nat)
    ensures n <= |s| && NoSpace(s[..n]) && (n == |s| || IsSpace(s[n]))
  {
    if |s| == 0 || IsSpace(s[0]) then 0
    else
      var n := 1 + WordLength(s[1..]);
      assert s[..n] == [s[0]] + s[1..][..n - 1];
      n
  }

  /** `s.split()` with no argument: the maximal runs of non-whitespace
      characters, in order. */
  function Words(s: string): (ws: seq<string>)
    ensures AllWords(ws)
    decreases |s|
  {
    var t := StripLeft(s);
    if t == [] then []
    else
      var n := WordLength(t);
      [t[..n]] + Words(t[n..])
  }

  lemma {:induction false} WordsEmptyIffAllSpace(s: string)
    ensures Words(s) == [] <==> AllSpace(s)
  {
    var t := StripLeft(s);
    if t == [] {
      assert s == s[..|s| - |t|];
    } else {
      StripLeftSuffix(s);
      assert !IsSpace(s[|s| - |t|]);
    }
  }

  // ---------------------------------------------------------------- join

  /** `sep.join(parts)` */
  function Join(sep: string, parts: seq<string>): string {
    if |parts| == 0 then ""
    else if |parts| == 1 then parts[0]
    else parts[0] + sep + Join(sep, parts[1..])
  }

  /** A join with a non-empty part is not empty. */
  lemma {:induction false} JoinNonEmpty(sep: string, parts: seq<string>, k: nat)
    requires k < |parts| && parts[k] != ""
    ensures Join(sep, parts) != ""
  {
    if k > 0 {
      JoinNonEmpty(sep, parts[1..], k - 1);
    }
  }

  lemma {:induction false} JoinAppend(sep: string, parts: seq<string>, p: string)
    requires parts != []
    ensures Join(sep, parts + [p]) == Join(sep, parts) + sep + p
  {
    if |parts| > 1 {
      assert (parts + [p])[1..] == parts[1..] + [p];
      JoinAppend(sep, parts[1..], p);
    }
  }

  /** Joining words with single spaces gives a string that starts and ends
      with a word character, and is empty only for no words. */
  lemma {:induction false} JoinedWordsStripped(g: seq<string>)
    requires AllWords(g)
    ensures Join(" ", g) == [] <==> g == []
    ensures g != [] ==> !IsSpace(Join(" ", g)[0]) && !IsSpace(Join(" ", g)[|Join(" ", g)| - 1])
  {
    if |g| > 1 {
      JoinedWordsStripped(g[1..]);
      var j := Join(" ", g[1..]);
      assert Join(" ", g) == g[0] + " " + j;
      assert Join(" ", g)[0] == g[0][0];
      assert Join(" ", g)[|Join(" ", g)| - 1] == j[|j| - 1];
    }
  }

  /** Round trip: re-splitting words joined by single spaces gives back the
      words. */
  lemma {:induction false} WordsOfJoin(g: seq<string>)
    requires AllWords(g)
    ensures Words(Join(" ", g)) == g
  {
    if |g| == 0 {
      assert Join(" ", g) == "";
      assert StripLeft("") == "";
      assert Words(Join(" ", g)) == g;
    } else if |g| == 1 {
      assert g == [g[0]];
      WordsOfOneWord(g[0]);
    } else {
      WordsOfJoin(g[1..]);
      WordsOfJoinStep(g);
    }
  }

  lemma {:induction false} WordsOfJoinStep(g: seq<string>)
    requires |g| > 1 && AllWords(g)
    requires Words(Join(" ", g[1..])) == g[1..]
    ensures Words(Join(" ", g)) == g
  {
    assert [g[0]] + g[1..] == g;
    var j := Join(" ", g[1..]);
    assert Join(" ", g) == g[0] + (" " + j);
    WordsOfWordThen(g[0], " " + j);
    WordsAfterSpace(j);
  }

  lemma {:induction false} WordsOfOneWord(w: string)
    requires IsWord(w)
    ensures Words(Join(" ", [w])) == [w]
  {
    WordsOfWordThen(w, "");
    assert w + "" == w;
  }

  lemma {:induction false} WordsOfWordThen(w: string, rest: string)
    requires IsWord(w)
    requires rest == [] || IsSpace(rest[0])
    ensures Words(w + rest) == [w] + Words(rest)
  {
    var s := w + rest;
    assert StripLeft(s) == s;
    WordLengthOfPrefix(w, rest);
    assert s[..|w|] == w && s[|w|..] == rest;
  }

  lemma {:induction false} WordsAfterSpace(j: string)
    ensures Words(" " + j) == Words(j)
  {
    assert StripLeft(" " + j) == StripLeft(j) by {
      assert (" " + j)[1..] == j;
    }
  }

  lemma {:induction false} WordLengthOfPrefix(w: string, rest: string)
    requires NoSpace(w)
    requires rest == [] || IsSpace(rest[0])
    ensures WordLength(w + rest) == |w|
  {
    if |w| > 0 {
      assert (w + rest)[1..] == w[1..] + rest;
      WordLengthOfPrefix(w[1..], rest);
    }
  }

  // ---------------------------------------------------------------- split('|')

  /** Number of occurrences of `c` in `s`. */
  function Count(s: string, c: char): nat {
    if s == [] then 0 else (if s[0] == c then 1 else 0) + Count(s[1..], c)
  }

  /** `s.split(sep)` for a one-character separator: the pieces between the
      separators, so one more piece than there are separators, none of them
      containing the separator, and joining them back with the separator
      restores `s`. */
  function Split(s: string, sep: char): (parts: seq<string>)
    ensures |parts| == Count(s, sep) + 1
    ensures forall p :: p in parts ==> sep !in p
    ensures Join([sep], parts) == s
  {
    if s == [] then [""]
    else
      var rest := Split(s[1..], sep);
      if s[0] == sep then
        assert s == [sep] + s[1..];
        [""] + rest
      else
        var parts := [[s[0]] + rest[0]] + rest[1..];
        assert parts[1..] == rest[1..];
        assert Join([sep], parts) == s by {
          if |rest| > 1 {
            assert Join([sep], rest) == rest[0] + [sep] + Join([sep], rest[1..]);
          }
        }
        assert forall p :: p in parts ==> sep !in p by {
          forall p | p in parts ensures sep !in p {
            if p != parts[0] { assert p in rest; }
          }
        }
        parts
  }

  // ---------------------------------------------------------------- splitlines()

  /** The line boundaries of Python's `str.splitlines()`. */
  predicate IsLineBreak(c: char) {
    var n := c as int;
    n == 10 || n == 11 || n == 12 || n == 13 || n == 0x1C || n == 0x1D || n == 0x1E
    || n == 0x85 || n == 0x2028 || n == 0x2029
  }

  /** Index of the first line boundary in `s`, or `|s|`. */
  function LineEnd(s: string): (i: nat)
    ensures i <= |s| && (i < |s| ==> IsLineBreak(s[i]))
    ensures forall k :: 0 <= k < i ==> !IsLineBreak(s[k])
  {
    if s == [] || IsLineBreak(s[0]) then 0 else 1 + LineEnd(s[1..])
  }

  /** `s.splitlines()`: "\r\n" is one boundary and a boundary at the very end
      does not start an extra empty line. */
  function SplitLines(s: string): (lines: seq<string>)
    ensures forall l, k :: l in lines && 0 <= k < |l| ==> !IsLineBreak(l[k])
    ensures lines == [] <==> s == []
    decreases |s|
  {
    if s == [] then []
    else
      var i := LineEnd(s);
      if i == |s| then [s]
      else
        var skip := if s[i] == '\r' && i + 1 < |s| && s[i + 1] == '\n' then 2 else 1;
        [s[..i]] + SplitLines(s[i + skip..])
  }

  // ---------------------------------------------------------------- flatten

  /** Concatenation of a sequence of sequences, in order. */
  function Flatten<T>(ss: seq<seq<T>>): seq<T> {
    if ss == [] then [] else Flatten(ss[..|ss| - 1]) + ss[|ss| - 1]
  }

  lemma {:induction false} FlattenConcat<T>(a: seq<seq<T>>, b: seq<seq<T>>)
    ensures Flatten(a + b) == Flatten(a) + Flatten(b)
    decreases |b|
  {
    if b == [] {
      assert a + b == a;
    } else {
      var n, ab := |b| - 1, a + b;
      assert ab[..|ab| - 1] == a + b[..n];
      assert ab[|ab| - 1] == b[n];
      FlattenConcat(a, b[..n]);
      calc {
        Flatten(ab);
        Flatten(a + b[..n]) + b[n];
        (Flatten(a) + Flatten(b[..n])) + b[n];
        Flatten(a) + (Flatten(b[..n]) + b[n]);
        Flatten(a) + Flatten(b);
      }
    }
  }
}
