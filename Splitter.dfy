/** split_by_tokens (convert-md.py:63-75): greedy packing of the words of a
    text into chunks.  A word joins the current chunk when the chunk with
    that word still fits the token budget; otherwise the current chunk is
    closed (even when it is empty) and the word starts the next one.  The
    token counter is a parameter: any function from text to a count. */
module Splitter {
  import opened Strings

  // ---------------------------------------------------------------- specification

  /** One turn of the loop.  `groups` holds the closed chunks, as word
      lists, followed by the current one. */
  function Step(groups: seq<seq<string>>, w: string, maxTokens: int, count: string -> nat): (r: seq<seq<string>>)
    requires groups != []
    ensures r != []
  {
    var current := groups[|groups| - 1];
    if count(Join(" ", current + [w])) <= maxTokens then groups[..|groups| - 1] + [current + [w]]
    else groups + [[w]]
  }

  /** The loop over `words`, from the state `chunks, current = [], []`. */
  function Fold(words: seq<string>, maxTokens: int, count: string -> nat): (r: seq<seq<string>>)
    ensures r != []
  {
    if words == [] then [[]]
    else Step(Fold(words[..|words| - 1], maxTokens, count), words[|words| - 1], maxTokens, count)
  }

  /** The word lists of the chunks: the current chunk is kept only when it
      is non-empty (`if current:`). */
  function Groups(words: seq<string>, maxTokens: int, count: string -> nat): seq<seq<string>> {
    var f := Fold(words, maxTokens, count);
    if f[|f| - 1] == [] then f[..|f| - 1] else f
  }

  /** `" ".join(g)` for every group. */
  function JoinEach(groups: seq<seq<string>>): (chunks: seq<string>)
    ensures |chunks| == |groups|
    ensures forall i :: 0 <= i < |groups| ==> chunks[i] == Join(" ", groups[i])
  {
    seq(|groups|, i requires 0 <= i < |groups| => Join(" ", groups[i]))
  }

  /** What split_by_tokens returns. */
  function Chunks(text: string, maxTokens: int, count: string -> nat): seq<string> {
    JoinEach(Groups(Words(text), maxTokens, count))
  }

  /** Every group whose last word was accepted against the budget fits it:
      a non-empty first group, and every group of two words or more. */
  ghost predicate WithinBudget(groups: seq<seq<string>>, maxTokens: int, count: string -> nat) {
    forall i :: 0 <= i < |groups| && groups[i] != [] && (i == 0 || |groups[i]| >= 2) ==>
      count(Join(" ", groups[i])) <= maxTokens
  }

  /** Every group after the first is non-empty, and the group before it
      could not have taken its first word without going over the budget. */
  ghost predicate Maximal(groups: seq<seq<string>>, maxTokens: int, count: string -> nat) {
    forall i :: 0 < i < |groups| ==>
      groups[i] != [] && count(Join(" ", groups[i - 1] + [groups[i][0]])) > maxTokens
  }

  /** What the loop keeps true, for the groups including the current one. */
  ghost predicate FoldInv(words: seq<string>, groups: seq<seq<string>>, maxTokens: int, count: string -> nat) {
    && groups != []
    && Flatten(groups) == words
    && (words == [] ==> groups == [[]])
    && (words != [] ==> groups[|groups| - 1] != [] && (groups[0] == [] <==> count(words[0]) > maxTokens))
    && WithinBudget(groups, maxTokens, count)
    && Maximal(groups, maxTokens, count)
  }

  /** The first word: kept when it fits alone, otherwise an empty chunk is
      closed first. */
  lemma {:induction false} StepFirst(w: string, maxTokens: int, count: string -> nat)
    ensures FoldInv([w], Step([[]], w, maxTokens, count), maxTokens, count)
  {
    var next := Step([[]], w, maxTokens, count);
    assert [] + [w] == [w];
    assert Join(" ", [w]) == w;
    if count(w) <= maxTokens {
      assert next == [[w]];
      assert next[..0] == [];
      assert Flatten(next) == Flatten(next[..0]) + [w];
    } else {
      assert next == [[], [w]];
      assert next[..1] == [[]];
      assert next[..1][..0] == [];
      assert Flatten(next[..1]) == Flatten(next[..1][..0]) + [];
      assert Flatten(next) == Flatten(next[..1]) + [w];
    }
  }

  /** A later word that fits joins the current chunk. */
  lemma {:induction false} StepAccept(words: seq<string>, groups: seq<seq<string>>, w: string, maxTokens: int, count: string -> nat)
    requires FoldInv(words, groups, maxTokens, count) && words != []
    requires count(Join(" ", groups[|groups| - 1] + [w])) <= maxTokens
    ensures FoldInv(words + [w], groups[..|groups| - 1] + [groups[|groups| - 1] + [w]], maxTokens, count)
  {
    var m := |groups| - 1;
    var current := groups[m];
    var next := groups[..m] + [current + [w]];
    assert next[..m] == groups[..m];
    assert Flatten(next) == Flatten(groups[..m]) + (current + [w]);
    assert Flatten(groups) == Flatten(groups[..m]) + current;
    assert (words + [w])[0] == words[0];
    assert next[0] == [] <==> groups[0] == [];
    AcceptWithinBudget(groups, w, maxTokens, count);
    AcceptMaximal(groups, w, maxTokens, count);
  }

  lemma {:induction false} AcceptWithinBudget(groups: seq<seq<string>>, w: string, maxTokens: int, count: string -> nat)
    requires groups != [] && WithinBudget(groups, maxTokens, count)
    requires count(Join(" ", groups[|groups| - 1] + [w])) <= maxTokens
    ensures WithinBudget(groups[..|groups| - 1] + [groups[|groups| - 1] + [w]], maxTokens, count)
  {
    var m := |groups| - 1;
    var next := groups[..m] + [groups[m] + [w]];
    assert forall i :: 0 <= i < m ==> next[i] == groups[i];
  }

  lemma {:induction false} AcceptMaximal(groups: seq<seq<string>>, w: string, maxTokens: int, count: string -> nat)
    requires groups != [] && Maximal(groups, maxTokens, count)
    ensures Maximal(groups[..|groups| - 1] + [groups[|groups| - 1] + [w]], maxTokens, count)
  {
    var m := |groups| - 1;
    var next := groups[..m] + [groups[m] + [w]];
    assert forall i :: 0 <= i < m ==> next[i] == groups[i];
    if m > 0 {
      assert next[m][0] == groups[m][0];
    }
  }

  /** A later word that does not fit closes the current chunk and starts
      the next one. */
  lemma {:induction false} StepReject(words: seq<string>, groups: seq<seq<string>>, w: string, maxTokens: int, count: string -> nat)
    requires FoldInv(words, groups, maxTokens, count) && words != []
    requires count(Join(" ", groups[|groups| - 1] + [w])) > maxTokens
    ensures FoldInv(words + [w], groups + [[w]], maxTokens, count)
  {
    var next := groups + [[w]];
    assert next[..|groups|] == groups;
    assert Flatten(next) == Flatten(groups) + [w];
    assert (words + [w])[0] == words[0];
    assert forall i :: 0 <= i < |groups| ==> next[i] == groups[i];
  }

  lemma {:induction false} StepPreserves(words: seq<string>, groups: seq<seq<string>>, w: string, maxTokens: int, count: string -> nat)
    requires FoldInv(words, groups, maxTokens, count)
    ensures FoldInv(words + [w], Step(groups, w, maxTokens, count), maxTokens, count)
  {
    if words == [] {
      assert words + [w] == [w];
      StepFirst(w, maxTokens, count);
    } else if count(Join(" ", groups[|groups| - 1] + [w])) <= maxTokens {
      StepAccept(words, groups, w, maxTokens, count);
    } else {
      StepReject(words, groups, w, maxTokens, count);
    }
  }

  /** The loop invariant holds of the whole fold. */
  lemma {:induction false} FoldInvariant(words: seq<string>, maxTokens: int, count: string -> nat)
    ensures FoldInv(words, Fold(words, maxTokens, count), maxTokens, count)
  {
    if words != [] {
      var n := |words| - 1;
      FoldInvariant(words[..n], maxTokens, count);
      assert words[..n] + [words[n]] == words;
      StepPreserves(words[..n], Fold(words[..n], maxTokens, count), words[n], maxTokens, count);
    }
  }

  // ---------------------------------------------------------------- properties

  /** The groups of split_by_tokens: they hold every word once, in order;
      there are none exactly when there are no words; they keep to the
      budget wherever a word was accepted against it; no group after the
      first is empty or could have been taken into the one before it; the
      first group is empty exactly when the first word alone exceeds the
      budget. */
  lemma {:induction false} GroupsProperties(words: seq<string>, maxTokens: int, count: string -> nat)
    ensures var g := Groups(words, maxTokens, count);
      && Flatten(g) == words
      && (g == [] <==> words == [])
      && WithinBudget(g, maxTokens, count)
      && Maximal(g, maxTokens, count)
      && (words != [] ==> (g[0] == [] <==> count(words[0]) > maxTokens))
  {
    FoldInvariant(words, maxTokens, count);
    var f := Fold(words, maxTokens, count);
    if words == [] {
      assert f == [[]];
      assert Groups(words, maxTokens, count) == [];
    } else {
      assert Groups(words, maxTokens, count) == f;
    }
  }

  /** Each element of each part is an element of the flattened sequence. */
  lemma {:induction false} InFlatten<T>(ss: seq<seq<T>>, i: nat, j: nat)
    requires i < |ss| && j < |ss[i]|
    ensures ss[i][j] in Flatten(ss)
  {
    var n := |ss| - 1;
    if i < n {
      InFlatten(ss[..n], i, j);
    } else {
      assert Flatten(ss) == Flatten(ss[..n]) + ss[n];
      assert Flatten(ss)[|Flatten(ss[..n])| + j] == ss[i][j];
    }
  }

  /** The groups of a text's words are made of words. */
  lemma {:induction false} GroupsAreWords(text: string, maxTokens: int, count: string -> nat)
    ensures forall i :: 0 <= i < |Groups(Words(text), maxTokens, count)| ==>
      AllWords(Groups(Words(text), maxTokens, count)[i])
  {
    var ws := Words(text);
    var g := Groups(ws, maxTokens, count);
    GroupsProperties(ws, maxTokens, count);
    forall i, j | 0 <= i < |g| && 0 <= j < |g[i]| ensures IsWord(g[i][j]) {
      InFlatten(g, i, j);
    }
  }

  /** Re-splitting every chunk gives back its group of words. */
  lemma {:induction false} ChunkWords(text: string, maxTokens: int, count: string -> nat)
    ensures var c, g := Chunks(text, maxTokens, count), Groups(Words(text), maxTokens, count);
      |c| == |g| && forall i :: 0 <= i < |c| ==> Words(c[i]) == g[i]
  {
    var g := Groups(Words(text), maxTokens, count);
    GroupsAreWords(text, maxTokens, count);
    forall i | 0 <= i < |g| ensures Words(Join(" ", g[i])) == g[i] {
      WordsOfJoin(g[i]);
    }
  }

  /** The words of a text, re-split from each chunk in turn. */
  function WordsOfEach(chunks: seq<string>): (r: seq<seq<string>>)
    ensures |r| == |chunks| && forall i :: 0 <= i < |chunks| ==> r[i] == Words(chunks[i])
  {
    seq(|chunks|, i requires 0 <= i < |chunks| => Words(chunks[i]))
  }

  /** No word is lost, added or reordered: the words of the chunks, in
      order, are the words of the text. */
  lemma {:induction false} ChunksKeepWords(text: string, maxTokens: int, count: string -> nat)
    ensures Flatten(WordsOfEach(Chunks(text, maxTokens, count))) == Words(text)
  {
    ChunkWords(text, maxTokens, count);
    GroupsProperties(Words(text), maxTokens, count);
    assert WordsOfEach(Chunks(text, maxTokens, count)) == Groups(Words(text), maxTokens, count);
  }

  /** A text gives no chunk exactly when it is all whitespace. */
  lemma {:induction false} NoChunksIffBlank(text: string, maxTokens: int, count: string -> nat)
    ensures Chunks(text, maxTokens, count) == [] <==> AllSpace(text)
  {
    GroupsProperties(Words(text), maxTokens, count);
    WordsEmptyIffAllSpace(text);
  }

  /** The first word of the text alone exceeds the budget. */
  predicate FirstWordOverBudget(text: string, maxTokens: int, count: string -> nat) {
    var ws := Words(text);
    ws != [] && count(ws[0]) > maxTokens
  }

  lemma {:induction false} ChunkShapeAt(text: string, maxTokens: int, count: string -> nat, i: nat)
    requires i < |Chunks(text, maxTokens, count)|
    ensures var c := Chunks(text, maxTokens, count);
      Strip(c[i]) == c[i] && (c[i] == "" <==> i == 0 && FirstWordOverBudget(text, maxTokens, count))
  {
    var g := Groups(Words(text), maxTokens, count);
    var c := Chunks(text, maxTokens, count);
    GroupsProperties(Words(text), maxTokens, count);
    GroupsAreWords(text, maxTokens, count);
    assert c[i] == Join(" ", g[i]);
    JoinedWordsStripped(g[i]);
    StripOfStripped(c[i]);
  }

  /** Chunks have no whitespace at either end, so the `chunk.strip()` of
      md_to_json leaves them as they are; only the first chunk can be empty,
      and it is empty exactly when the first word alone exceeds the budget. */
  lemma {:induction false} ChunkShape(text: string, maxTokens: int, count: string -> nat)
    ensures var c := Chunks(text, maxTokens, count);
      forall i :: 0 <= i < |c| ==>
        Strip(c[i]) == c[i] && (c[i] == "" <==> i == 0 && FirstWordOverBudget(text, maxTokens, count))
  {
    var c := Chunks(text, maxTokens, count);
    forall i | 0 <= i < |c|
      ensures Strip(c[i]) == c[i] && (c[i] == "" <==> i == 0 && FirstWordOverBudget(text, maxTokens, count))
    {
      ChunkShapeAt(text, maxTokens, count, i);
    }
  }

  /** Every chunk whose last word was accepted against the budget fits it:
      a non-empty first chunk and every chunk of two words or more.  (A
      single word over the budget still makes a chunk of its own.) */
  lemma {:induction false} ChunkBudget(text: string, maxTokens: int, count: string -> nat)
    ensures var c := Chunks(text, maxTokens, count);
      forall i :: 0 <= i < |c| && c[i] != "" && (i == 0 || |Words(c[i])| >= 2) ==> count(c[i]) <= maxTokens
  {
    var g := Groups(Words(text), maxTokens, count);
    var c := Chunks(text, maxTokens, count);
    GroupsProperties(Words(text), maxTokens, count);
    ChunkWords(text, maxTokens, count);
    forall i | 0 <= i < |c| && c[i] != "" && (i == 0 || |Words(c[i])| >= 2)
      ensures count(c[i]) <= maxTokens
    {
      assert c[i] == Join(" ", g[i]);
      assert g[i] != [];
    }
  }

  /** `c + " " + w`, or `w` alone when `c` is empty. */
  function Extend(c: string, w: string): (r: string)
    ensures c == "" ==> r == w
    ensures c != "" ==> |r| == |c| + 1 + |w| && r[..|c|] == c && r[|c|] == ' ' && r[|c| + 1..] == w
  {
    if c == "" then w else c + " " + w
  }

  lemma {:induction false} ChunkMaximalAt(text: string, maxTokens: int, count: string -> nat, i: nat)
    requires 0 < i < |Chunks(text, maxTokens, count)|
    ensures var c := Chunks(text, maxTokens, count);
      Words(c[i]) != [] && count(Extend(c[i - 1], Words(c[i])[0])) > maxTokens
  {
    var g := Groups(Words(text), maxTokens, count);
    var c := Chunks(text, maxTokens, count);
    GroupsProperties(Words(text), maxTokens, count);
    GroupsAreWords(text, maxTokens, count);
    ChunkWords(text, maxTokens, count);
    assert g[i] != [] && count(Join(" ", g[i - 1] + [g[i][0]])) > maxTokens;
    assert c[i - 1] == Join(" ", g[i - 1]);
    JoinedWordsStripped(g[i - 1]);
    if g[i - 1] == [] {
      assert g[i - 1] + [g[i][0]] == [g[i][0]];
    } else {
      JoinAppend(" ", g[i - 1], g[i][0]);
    }
  }

  /** Greedy packing: every chunk after the first is non-empty, and the
      chunk before it could not have taken its first word without going over
      the budget. */
  lemma {:induction false} ChunksMaximal(text: string, maxTokens: int, count: string -> nat)
    ensures var c := Chunks(text, maxTokens, count);
      forall i :: 0 < i < |c| ==> Words(c[i]) != [] && count(Extend(c[i - 1], Words(c[i])[0])) > maxTokens
  {
    var c := Chunks(text, maxTokens, count);
    forall i | 0 < i < |c|
      ensures Words(c[i]) != [] && count(Extend(c[i - 1], Words(c[i])[0])) > maxTokens
    {
      ChunkMaximalAt(text, maxTokens, count, i);
    }
  }

  // ---------------------------------------------------------------- the loop

  lemma {:induction false} JoinEachSnoc(groups: seq<seq<string>>, g: seq<string>)
    ensures JoinEach(groups + [g]) == JoinEach(groups) + [Join(" ", g)]
  {
  }

  /** One more word that fits: the closed chunks stay, the current chunk
      takes the word. */
  lemma {:induction false} FoldAccepts(words: seq<string>, i: nat, maxTokens: int, count: string -> nat)
    requires i < |words|
    requires var f := Fold(words[..i], maxTokens, count);
      count(Join(" ", f[|f| - 1] + [words[i]])) <= maxTokens
    ensures var f, f' := Fold(words[..i], maxTokens, count), Fold(words[..i + 1], maxTokens, count);
      f'[..|f'| - 1] == f[..|f| - 1] && f'[|f'| - 1] == f[|f| - 1] + [words[i]]
  {
    assert words[..i + 1][..i] == words[..i];
  }

  /** One more word that does not fit: the current chunk is closed, the
      word starts the next one. */
  lemma {:induction false} FoldRejects(words: seq<string>, i: nat, maxTokens: int, count: string -> nat)
    requires i < |words|
    requires var f := Fold(words[..i], maxTokens, count);
      count(Join(" ", f[|f| - 1] + [words[i]])) > maxTokens
    ensures var f, f' := Fold(words[..i], maxTokens, count), Fold(words[..i + 1], maxTokens, count);
      f'[..|f'| - 1] == f && f'[|f'| - 1] == [words[i]]
  {
    assert words[..i + 1][..i] == words[..i];
  }

  /** Closing the current group adds its joined text to the chunks. */
  lemma {:induction false} CloseGroup(f: seq<seq<string>>)
    requires f != []
    ensures JoinEach(f) == JoinEach(f[..|f| - 1]) + [Join(" ", f[|f| - 1])]
  {
    JoinEachSnoc(f[..|f| - 1], f[|f| - 1]);
    assert f[..|f| - 1] + [f[|f| - 1]] == f;
  }

  /** split_by_tokens (lines 63-75). */
  method SplitByTokens(text: string, maxTokens: int, count: string -> nat) returns (chunks: seq<string>)
    ensures chunks == Chunks(text, maxTokens, count)
  {
    var words := Words(text);
    chunks := [];
    var current: seq<string> := [];
    for i := 0 to |words|
      invariant var f := Fold(words[..i], maxTokens, count);
        chunks == JoinEach(f[..|f| - 1]) && current == f[|f| - 1]
    {
      ghost var f := Fold(words[..i], maxTokens, count);
      var w := words[i];
      var candidate := Join(" ", current + [w]);
      if count(candidate) <= maxTokens {
        FoldAccepts(words, i, maxTokens, count);
        current := current + [w];
      } else {
        FoldRejects(words, i, maxTokens, count);
        CloseGroup(f);
        chunks := chunks + [Join(" ", current)];
        current := [w];
      }
    }
    assert words[..|words|] == words;
    ghost var f := Fold(words, maxTokens, count);
    if current != [] {
      CloseGroup(f);
      chunks := chunks + [Join(" ", current)];
    }
  }
}
