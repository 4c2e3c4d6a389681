/** parse_markdown (convert-md.py:83-135): one pass over the lines of a
    document with a heading stack and a line buffer.  Headings and numbered
    sections flush the buffer and update the stack; other lines go to the
    buffer; each flush turns the buffer into a table section or a cleaned
    prose section titled by the stack joined with " / ". */
module Sections {
  import opened Wrappers
  import opened Strings
  import opened Patterns
  import opened Cleaning
  import opened Tables

  /** A section of the document.  A table section's `lines` is the
      `"content"` entry of its dict, which is the `buffer` list object
      itself (line 94): `buffer.clear()` (line 99) empties it straight after,
      and the final flush leaves it empty, so every table section
      parse_markdown returns has empty `lines`; the model stores that value.
      Its `rows` are the rows parsed from the buffer at flush time.  Prose
      keeps its cleaned text. */
  datatype Section =
    | TableSection(title: string, lines: seq<string>, rows: seq<seq<string>>)
    | ProseSection(title: string, content: string)

  /** What one line does to the parser. */
  datatype LineKind =
    | Skip
    | HeadingLine(level: nat, title: string)
    | NumberedLine(title: string)
    | ContentLine(line: string)

  /** The parser's state: the heading stack, the line buffer and the
      sections emitted so far. */
  datatype Parser = Parser(stack: seq<string>, buffer: seq<string>, sections: seq<Section>)

  predicate OneLine(s: string) {
    '\r' !in s && '\n' !in s
  }

  /** A trimmed, non-empty line that is neither an image, nor noise, nor a
      heading of either kind: the lines that reach the buffer. */
  predicate IsContentLine(l: string) {
    && l != []
    && Strip(l) == l
    && !IsImageLine(l)
    && !IsNoiseLine(l)
    && HeadingMatch(l).None?
    && SectionMatch(l).None?
  }

  /** Every line is a content line with no line feed: what the buffer holds. */
  ghost predicate ContentLines(lines: seq<string>) {
    forall k :: 0 <= k < |lines| ==> IsContentLine(lines[k]) && '\n' !in lines[k]
  }

  // ---------------------------------------------------------------- specification

  /** The tests of lines 102-132 on one raw line, in the source's order. */
  function Classify(rawLine: string): (k: LineKind)
    ensures k.HeadingLine? ==> 1 <= k.level <= 6
  {
    var line := Strip(rawLine);
    if line == [] || IsImageLine(line) || IsNoiseLine(line) then Skip
    else
      var h, sec := HeadingMatch(line), SectionMatch(line);
      HeadingShape(line);
      if h.Some? && sec.None? then HeadingLine(h.value.level, CleanText(h.value.text))
      else if sec.Some? then NumberedLine(CleanText(sec.value))
      else ContentLine(line)
  }

  /** What each kind of line is: a blank, image or noise line is skipped; a
      heading that is not a numbered section sets a level, its number of
      leading '#' capped at 6; a numbered section takes precedence over the
      plain heading it also is; everything else is content, trimmed, and
      reaches the buffer as it is.  Titles are cleaned and on one line. */
  lemma {:induction false} ClassifyShape(rawLine: string)
    ensures var k, line := Classify(rawLine), Strip(rawLine);
      && (k.Skip? <==> line == [] || IsImageLine(line) || IsNoiseLine(line))
      && (k.HeadingLine? <==> !k.Skip? && HeadingMatch(line).Some? && SectionMatch(line).None?)
      && (!k.Skip? && SectionMatch(line).Some? ==> k == NumberedLine(CleanText(SectionMatch(line).value)))
      && (k.HeadingLine? ==>
            k.level == Min(HashCount(line), 6) && k.title == CleanText(HeadingMatch(line).value.text))
      && (k.ContentLine? ==> k.line == line && IsContentLine(line))
      && (k.HeadingLine? || k.NumberedLine? ==> OneLine(k.title))
  {
    var line := Strip(rawLine);
    HeadingShape(line);
    StripOfStripped(line);
  }

  /** Beyond six '#' the heading is still of level 6, and the '#' past the
      sixth survive cleaning at the head of its title. */
  lemma {:induction false} DeepHeadingTitle(rawLine: string)
    requires Classify(rawLine).HeadingLine? && HashCount(Strip(rawLine)) > 6
    ensures Classify(rawLine).level == 6
    ensures var t := Classify(rawLine).title; t != [] && t[0] == '#'
  {
    var line := Strip(rawLine);
    ClassifyShape(rawLine);
    HeadingShape(line);
    CleanKeepsFirst(HeadingMatch(line).value.text);
  }

  function Title(stack: seq<string>): string {
    Join(" / ", stack)
  }

  /** The section a flush of `buffer` under `stack` emits, if any. */
  function Flushed(stack: seq<string>, buffer: seq<string>): (r: seq<Section>)
    ensures |r| <= 1
  {
    if buffer == [] then []
    else if IsTable(buffer) then [TableSection(Title(stack), [], TableRows(buffer))]
    else
      var content := CleanText(Join(" ", buffer));
      if content == [] then [] else [ProseSection(Title(stack), content)]
  }

  /** flush_buffer (lines 88-99). */
  function Flush(p: Parser): Parser {
    Parser(p.stack, [], p.sections + Flushed(p.stack, p.buffer))
  }

  /** What a line of the given kind does to the parser. */
  function Apply(p: Parser, k: LineKind): Parser
    requires k.HeadingLine? ==> k.level >= 1
  {
    match k
    case Skip => p
    case HeadingLine(level, title) =>
      var q := Flush(p);
      q.(stack := q.stack[..Min(|q.stack|, level - 1)] + [title])
    case NumberedLine(title) =>
      var q := Flush(p);
      q.(stack := q.stack[..Min(|q.stack|, 3)] + [title])
    case ContentLine(line) => p.(buffer := p.buffer + [line])
  }

  /** One turn of the loop of lines 101-132. */
  function Step(p: Parser, rawLine: string): Parser {
    Apply(p, Classify(rawLine))
  }

  /** The loop over `lines`. */
  function Run(p: Parser, lines: seq<string>): Parser {
    if lines == [] then p else Step(Run(p, lines[..|lines| - 1]), lines[|lines| - 1])
  }

  /** One more line is one more step. */
  lemma {:induction false} RunSnoc(p: Parser, lines: seq<string>, i: nat)
    requires i < |lines|
    ensures Run(p, lines[..i + 1]) == Step(Run(p, lines[..i]), lines[i])
  {
    assert lines[..i + 1][..i] == lines[..i];
  }

  const Initial := Parser([], [], [])

  /** What parse_markdown returns: the loop over the lines of the text,
      then the final flush. */
  function Parse(text: string): seq<Section> {
    Flush(Run(Initial, SplitLines(text))).sections
  }

  // ---------------------------------------------------------------- properties

  /** What every emitted section looks like: its title is on one line; a
      prose section is non-empty cleaned text on one line with no whitespace
      at either end; a table section's `lines` is the emptied buffer, and
      each of its rows is a row of cells. */
  ghost predicate WellFormed(s: Section) {
    match s
    case ProseSection(title, content) =>
      OneLine(title) && content != [] && OneLine(content) && Strip(content) == content
    case TableSection(title, lines, rows) =>
      && OneLine(title)
      && lines == []
      && forall r :: 0 <= r < |rows| ==> IsCellRow(rows[r])
  }

  /** What parse_table_rows keeps: at least one cell, a non-empty one among
      them, every cell trimmed and free of '|'. */
  ghost predicate IsCellRow(row: seq<string>) {
    && |row| >= 1
    && HasContent(row)
    && forall c :: 0 <= c < |row| ==> '|' !in row[c] && Strip(row[c]) == row[c]
  }

  /** What the loop keeps true of the parser. */
  ghost predicate Good(p: Parser) {
    && |p.stack| <= 6
    && (forall k :: 0 <= k < |p.stack| ==> OneLine(p.stack[k]))
    && ContentLines(p.buffer)
    && (forall k :: 0 <= k < |p.sections| ==> WellFormed(p.sections[k]))
  }

  /** Joining one-line parts with a one-line separator gives one line. */
  lemma {:induction false} JoinOneLine(sep: string, parts: seq<string>)
    requires OneLine(sep) && forall k :: 0 <= k < |parts| ==> OneLine(parts[k])
    ensures OneLine(Join(sep, parts))
  {
    if |parts| > 1 {
      JoinOneLine(sep, parts[1..]);
    }
  }

  /** flush_buffer: it always leaves the buffer empty and the stack as it
      was; it appends nothing for an empty buffer and at most one section
      otherwise, titled by the stack; that section is a table exactly when
      the buffer is a table. */
  lemma {:induction false} FlushProperties(p: Parser)
    ensures var q := Flush(p);
      && q.buffer == [] && q.stack == p.stack
      && p.sections <= q.sections && |q.sections| <= |p.sections| + 1
      && (p.buffer == [] ==> q.sections == p.sections)
      && (forall k :: |p.sections| <= k < |q.sections| ==> q.sections[k].title == Join(" / ", p.stack))
      && ((|q.sections| > |p.sections| && q.sections[|p.sections|].TableSection?) <==> p.buffer != [] && IsTable(p.buffer))
  {
    var q := Flush(p);
    assert q.sections[..|p.sections|] == p.sections;
  }

  /** A buffer in which two lines are shaped like table rows flushes to one
      table section: its rows are parse_table_rows of the buffer, each a row
      of cells taken from a kept line of it, and its `lines` is the list the
      flush then clears. */
  lemma {:induction false} TableFlushed(stack: seq<string>, buffer: seq<string>)
    requires OneLine(Title(stack))
    requires exists i, j :: 0 <= i < j < |buffer| && IsTableRow(buffer[i]) && IsTableRow(buffer[j])
    ensures var s := TableSection(Title(stack), [], TableRows(buffer));
      Flushed(stack, buffer) == [s] && WellFormed(s)
    ensures forall r :: 0 <= r < |TableRows(buffer)| ==>
      r < |KeptIndices(buffer)| && TableRows(buffer)[r] == Cells(buffer[KeptIndices(buffer)[r]])
  {
    TableIffTwoRows(buffer);
    TableRowsFromKeptLines(buffer);
    var rows := TableRows(buffer);
    forall r | 0 <= r < |rows| ensures IsCellRow(rows[r]) {
      TableRowShape(buffer, r);
    }
  }

  /** Any other non-empty buffer flushes to nothing or to one well-formed
      prose section. */
  lemma {:induction false} ProseFlushed(stack: seq<string>, buffer: seq<string>)
    requires OneLine(Title(stack)) && buffer != [] && !IsTable(buffer)
    ensures var content := CleanText(Join(" ", buffer));
      Flushed(stack, buffer) == (if content == [] then [] else [ProseSection(Title(stack), content)])
      && (content != [] ==> WellFormed(ProseSection(Title(stack), content)))
  {
  }

  /** The section a flush emits from content lines under a one-line stack
      is well formed. */
  lemma {:induction false} FlushedWellFormed(stack: seq<string>, buffer: seq<string>)
    requires forall k :: 0 <= k < |stack| ==> OneLine(stack[k])
    requires ContentLines(buffer)
    ensures forall k :: 0 <= k < |Flushed(stack, buffer)| ==> WellFormed(Flushed(stack, buffer)[k])
  {
    JoinOneLine(" / ", stack);
    if buffer != [] && IsTable(buffer) {
      TableIffTwoRows(buffer);
      TableFlushed(stack, buffer);
    } else if buffer != [] {
      ProseFlushed(stack, buffer);
    }
  }

  /** A flush keeps the parser good. */
  lemma {:induction false} FlushGood(p: Parser)
    requires Good(p)
    ensures Good(Flush(p))
  {
    var added := Flushed(p.stack, p.buffer);
    FlushedWellFormed(p.stack, p.buffer);
    AppendWellFormed(p.sections, added);
  }

  lemma {:induction false} AppendWellFormed(a: seq<Section>, b: seq<Section>)
    requires forall k :: 0 <= k < |a| ==> WellFormed(a[k])
    requires forall k :: 0 <= k < |b| ==> WellFormed(b[k])
    ensures forall k :: 0 <= k < |a + b| ==> WellFormed((a + b)[k])
  {
    forall k | 0 <= k < |a + b| ensures WellFormed((a + b)[k]) {
      if k < |a| {
        assert (a + b)[k] == a[k];
      } else {
        assert (a + b)[k] == b[k - |a|];
      }
    }
  }

  /** How a line of each kind changes the heading stack: a heading of level
      L keeps the first min(|stack|, L - 1) entries and pushes its title, so
      it ends up at depth at most L; a numbered section keeps the first
      min(|stack|, 3) entries and pushes its title, so it ends up at depth
      at most 4; other lines leave the stack alone.  Entries only ever leave
      from the end. */
  lemma {:induction false} ApplyStack(p: Parser, k: LineKind)
    requires k.HeadingLine? ==> k.level >= 1
    ensures var q := Apply(p, k).stack;
      && (k.HeadingLine? ==> q == p.stack[..Min(|p.stack|, k.level - 1)] + [k.title] && |q| <= k.level)
      && (k.NumberedLine? ==> q == p.stack[..Min(|p.stack|, 3)] + [k.title] && |q| <= 4)
      && (k.Skip? || k.ContentLine? ==> q == p.stack)
      && (q == p.stack || (q != [] && q[..|q| - 1] <= p.stack))
  {
    var q := Apply(p, k).stack;
    if k.HeadingLine? {
      assert q[..|q| - 1] == p.stack[..Min(|p.stack|, k.level - 1)];
    } else if k.NumberedLine? {
      assert q[..|q| - 1] == p.stack[..Min(|p.stack|, 3)];
    }
  }

  /** The heading stack after one raw line: the level of a heading line is
      its number of leading '#' capped at 6; a line that matches the
      numbered-section pattern is never treated as a plain heading. */
  lemma {:induction false} StepStack(p: Parser, rawLine: string)
    ensures var k, q, line := Classify(rawLine), Step(p, rawLine).stack, Strip(rawLine);
      && (k.HeadingLine? ==>
            k.level == Min(HashCount(line), 6) && SectionMatch(line).None?
            && q == p.stack[..Min(|p.stack|, k.level - 1)] + [k.title] && |q| <= k.level)
      && (!k.Skip? && SectionMatch(line).Some? ==>
            k.NumberedLine? && q == p.stack[..Min(|p.stack|, 3)] + [k.title] && |q| <= 4)
      && (k.Skip? || k.ContentLine? ==> q == p.stack)
      && (q == p.stack || (q != [] && q[..|q| - 1] <= p.stack))
  {
    ClassifyShape(rawLine);
    ApplyStack(p, Classify(rawLine));
  }

  /** Replacing the stack by a kept prefix plus a one-line title keeps the
      parser good, while the stack stays within six entries. */
  lemma {:induction false} PushGood(p: Parser, n: nat, title: string)
    requires Good(p) && n <= |p.stack| && n <= 5 && OneLine(title)
    ensures Good(p.(stack := p.stack[..n] + [title]))
  {
    var s := p.stack[..n] + [title];
    assert forall k :: 0 <= k < n ==> s[k] == p.stack[k];
  }

  /** Buffering a content line with no line feed keeps the parser good. */
  lemma {:induction false} BufferGood(p: Parser, line: string)
    requires Good(p) && IsContentLine(line) && '\n' !in line
    ensures Good(p.(buffer := p.buffer + [line]))
  {
    var b := p.buffer + [line];
    assert forall k :: 0 <= k < |p.buffer| ==> b[k] == p.buffer[k];
  }

  /** The line kinds Classify produces from a line with no line feed. */
  ghost predicate GoodKind(k: LineKind) {
    match k
    case Skip => true
    case HeadingLine(level, title) => 1 <= level <= 6 && OneLine(title)
    case NumberedLine(title) => OneLine(title)
    case ContentLine(line) => IsContentLine(line) && '\n' !in line
  }

  /** Closing the buffer and opening a heading keeps the parser good. */
  lemma {:induction false} OpenGood(p: Parser, n: nat, title: string)
    requires Good(p) && n <= 5 && OneLine(title)
    ensures var q := Flush(p); Good(q.(stack := q.stack[..Min(|q.stack|, n)] + [title]))
  {
    FlushGood(p);
    var q := Flush(p);
    PushGood(q, Min(|q.stack|, n), title);
  }

  lemma {:induction false} ApplyGood(p: Parser, k: LineKind)
    requires Good(p) && GoodKind(k)
    ensures Good(Apply(p, k))
  {
    match k
    case HeadingLine(level, title) => HeadingGood(p, level, title);
    case NumberedLine(title) => NumberedGood(p, title);
    case ContentLine(line) => BufferGood(p, line);
    case Skip =>
  }

  lemma {:induction false} HeadingGood(p: Parser, level: nat, title: string)
    requires Good(p) && 1 <= level <= 6 && OneLine(title)
    ensures Good(Apply(p, HeadingLine(level, title)))
  {
    var q := Flush(p);
    assert Apply(p, HeadingLine(level, title)) == q.(stack := q.stack[..Min(|q.stack|, level - 1)] + [title]);
    OpenGood(p, level - 1, title);
  }

  lemma {:induction false} NumberedGood(p: Parser, title: string)
    requires Good(p) && OneLine(title)
    ensures Good(Apply(p, NumberedLine(title)))
  {
    var q := Flush(p);
    assert Apply(p, NumberedLine(title)) == q.(stack := q.stack[..Min(|q.stack|, 3)] + [title]);
    OpenGood(p, 3, title);
  }

  /** One line keeps the parser good, as long as it holds no line feed. */
  lemma {:induction false} StepGood(p: Parser, rawLine: string)
    requires Good(p) && '\n' !in rawLine
    ensures Good(Step(p, rawLine))
  {
    var k := Classify(rawLine);
    ClassifyShape(rawLine);
    assert GoodKind(k);
    ApplyGood(p, k);
  }

  /** A line never removes or changes an emitted section. */
  lemma {:induction false} ApplyAppends(p: Parser, k: LineKind)
    requires k.HeadingLine? ==> k.level >= 1
    ensures p.sections <= Apply(p, k).sections
  {
    if k.HeadingLine? || k.NumberedLine? {
      FlushProperties(p);
    }
  }

  /** The loop only ever appends sections. */
  lemma {:induction false} RunAppends(p: Parser, lines: seq<string>)
    ensures p.sections <= Run(p, lines).sections
  {
    if lines != [] {
      var n := |lines| - 1;
      RunAppends(p, lines[..n]);
      ApplyAppends(Run(p, lines[..n]), Classify(lines[n]));
    }
  }

  /** The loop keeps the parser good over lines with no line feed. */
  lemma {:induction false} RunGood(p: Parser, lines: seq<string>)
    requires Good(p) && forall k :: 0 <= k < |lines| ==> '\n' !in lines[k]
    ensures Good(Run(p, lines))
  {
    if lines != [] {
      var n := |lines| - 1;
      assert forall k :: 0 <= k < n ==> lines[..n][k] == lines[k];
      RunGood(p, lines[..n]);
      StepGood(Run(p, lines[..n]), lines[n]);
    }
  }

  /** Every section parse_markdown returns is well formed, and the heading
      stack it works with never holds more than six titles. */
  lemma {:induction false} ParseWellFormed(text: string)
    ensures forall k :: 0 <= k < |Parse(text)| ==> WellFormed(Parse(text)[k])
    ensures |Run(Initial, SplitLines(text)).stack| <= 6
  {
    var lines := SplitLines(text);
    forall k | 0 <= k < |lines| ensures '\n' !in lines[k] {
      assert lines[k] in lines;
    }
    RunGood(Initial, lines);
    FlushGood(Run(Initial, lines));
  }

  /** A content line starts with neither whitespace nor '#': no heading
      line, however written, reaches the buffer. */
  lemma {:induction false} ContentLineStart(l: string)
    requires IsContentLine(l) && '\n' !in l
    ensures !IsSpace(l[0]) && l[0] != '#'
  {
    HeadingShape(l);
    assert SkipSpace(l, 0) == 0;
  }

  // ---------------------------------------------------------------- the tracker

  /** The mutable state of parse_markdown and its flush_buffer closure. */
  class SectionTracker {
    var stack: seq<string>
    var buffer: seq<string>
    var sections: seq<Section>

    function State(): Parser
      reads this
    {
      Parser(stack, buffer, sections)
    }

    constructor ()
      ensures State() == Initial
    {
      stack := [];
      buffer := [];
      sections := [];
    }

    /** flush_buffer (lines 88-99). */
    method FlushBuffer()
      modifies this
      ensures State() == Flush(old(State()))
    {
      if buffer != [] {
        var title := Join(" / ", stack);
        if IsTable(buffer) {
          var tableRows := ParseTableRows(buffer);
          // The dict's "content" is the buffer list itself, which the
          // clear below empties: the section keeps that empty list.
          assert Flushed(stack, buffer) == [TableSection(title, [], tableRows)];
          sections := sections + [TableSection(title, [], tableRows)];
        } else {
          var content := CleanText(Join(" ", buffer));
          if content != [] {
            assert Flushed(stack, buffer) == [ProseSection(title, content)];
            sections := sections + [ProseSection(title, content)];
          } else {
            assert Flushed(stack, buffer) == [];
          }
        }
        buffer := [];
      }
    }

    /** The body of the loop of lines 101-132 for one raw line. */
    method Feed(rawLine: string)
      modifies this
      ensures State() == Step(old(State()), rawLine)
    {
      var kind := Classify(rawLine);
      match kind
      case Skip =>
      case HeadingLine(level, titleText) =>
        FlushBuffer();
        OpenHeading(level, titleText);
      case NumberedLine(titleText) =>
        FlushBuffer();
        OpenNumbered(titleText);
      case ContentLine(line) =>
        buffer := buffer + [line];
    }

    /** Lines 117-121: pop every entry at depth `level` or deeper, then push
        the heading's title. */
    method OpenHeading(level: nat, titleText: string)
      requires level >= 1
      modifies this
      ensures stack == old(stack)[..Min(|old(stack)|, level - 1)] + [titleText]
      ensures buffer == old(buffer) && sections == old(sections)
    {
      while |stack| >= level
        invariant |stack| <= |old(stack)| && stack == old(stack)[..|stack|]
        invariant |stack| >= Min(|old(stack)|, level - 1)
        invariant buffer == old(buffer) && sections == old(sections)
        decreases |stack|
      {
        stack := stack[..|stack| - 1];
      }
      stack := stack + [titleText];
    }

    /** Lines 127-129: keep at most three entries, then push the numbered
        section's title. */
    method OpenNumbered(titleText: string)
      modifies this
      ensures stack == old(stack)[..Min(|old(stack)|, 3)] + [titleText]
      ensures buffer == old(buffer) && sections == old(sections)
    {
      while |stack| > 3
        invariant |stack| <= |old(stack)| && stack == old(stack)[..|stack|]
        invariant |stack| >= Min(|old(stack)|, 3)
        invariant buffer == old(buffer) && sections == old(sections)
        decreases |stack|
      {
        stack := stack[..|stack| - 1];
      }
      stack := stack + [titleText];
    }
  }

  /** parse_markdown (lines 83-135). */
  method ParseMarkdown(text: string) returns (sections: seq<Section>)
    ensures sections == Parse(text)
  {
    var lines := SplitLines(text);
    var tracker := new SectionTracker();
    for i := 0 to |lines|
      invariant tracker.State() == Run(Initial, lines[..i])
    {
      RunSnoc(Initial, lines, i);
      tracker.Feed(lines[i]);
    }
    assert lines[..|lines|] == lines;
    tracker.FlushBuffer();
    sections := tracker.sections;
  }
}
