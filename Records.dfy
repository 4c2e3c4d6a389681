/** The section-to-record expansion of md_to_json (convert-md.py:142-163):
    a table section gives one record per parsed row, its cells joined with
    " | "; a prose section gives one record per chunk of at most MaxTokens
    tokens.  Reading the file and writing the JSON are not modelled. */
module Records {
  import opened Strings
  import opened Tables
  import opened Splitter
  import opened Sections

  /** MAX_TOKENS (line 9). */
  const MaxTokens := 200

  /** One JSON object of the output. */
  datatype Record = Record(title: string, content: string, isTable: bool)

  // ---------------------------------------------------------------- specification

  /** The record of one table row: its cells joined with " | ". */
  function RowRecordOf(title: string): seq<string> -> Record {
    row => Record(title, Join(" | ", row), true)
  }

  /** One record per row (lines 147-154). */
  function RowRecords(title: string, rows: seq<seq<string>>): (rs: seq<Record>)
    ensures |rs| == |rows|
  {
    MapSeq(rows, RowRecordOf(title))
  }

  /** The record of one chunk: stripped, under the section's title. */
  function ChunkRecordOf(title: string): string -> Record {
    chunk => Record(title, Strip(chunk), false)
  }

  /** One record per chunk, stripped (lines 155-163). */
  function ChunkRecords(title: string, chunks: seq<string>): (rs: seq<Record>)
    ensures |rs| == |chunks|
  {
    MapSeq(chunks, ChunkRecordOf(title))
  }

  /** The records of one section, in order (lines 146-163). */
  function SectionRecords(s: Section, count: string -> nat): seq<Record> {
    match s
    case TableSection(title, _, rows) => RowRecords(title, rows)
    case ProseSection(title, content) => ChunkRecords(title, Chunks(content, MaxTokens, count))
  }

  /** `f` applied to every element, the results concatenated in order. */
  function FlatMap<T, U>(xs: seq<T>, f: T -> seq<U>): seq<U> {
    if xs == [] then [] else FlatMap(xs[..|xs| - 1], f) + f(xs[|xs| - 1])
  }

  /** SectionRecords for a given token counter, as a function value. */
  function RecordsOf(count: string -> nat): Section -> seq<Record> {
    s => SectionRecords(s, count)
  }

  /** The records of a list of sections: the loop of lines 145-163. */
  function Records(sections: seq<Section>, count: string -> nat): seq<Record> {
    FlatMap(sections, RecordsOf(count))
  }

  /** What md_to_json writes for a document, as a list of records. */
  function Converted(text: string, count: string -> nat): seq<Record> {
    Records(Parse(text), count)
  }

  function Contents(rs: seq<Record>): (cs: seq<string>)
    ensures |cs| == |rs| && forall i :: 0 <= i < |rs| ==> cs[i] == rs[i].content
  {
    seq(|rs|, i requires 0 <= i < |rs| => rs[i].content)
  }

  // ---------------------------------------------------------------- properties

  /** `[f(x) for x in xs]` */
  function MapSeq<T, U>(xs: seq<T>, f: T -> U): (r: seq<U>)
    ensures |r| == |xs| && forall i :: 0 <= i < |xs| ==> r[i] == f(xs[i])
  {
    seq(|xs|, i requires 0 <= i < |xs| => f(xs[i]))
  }

  /** Mapping one more element adds its image at the end. */
  lemma {:induction false} MapSeqSnoc<T, U>(xs: seq<T>, f: T -> U, c: nat)
    requires c < |xs|
    ensures MapSeq(xs[..c + 1], f) == MapSeq(xs[..c], f) + [f(xs[c])]
  {
    var a, b := MapSeq(xs[..c + 1], f), MapSeq(xs[..c], f);
    assert forall i :: 0 <= i < c ==> a[i] == b[i];
  }

  lemma {:induction false} FlatMapIsFlatten<T, U>(xs: seq<T>, f: T -> seq<U>)
    ensures FlatMap(xs, f) == Flatten(MapSeq(xs, f))
  {
    if xs != [] {
      var n := |xs| - 1;
      FlatMapIsFlatten(xs[..n], f);
      assert MapSeq(xs, f)[..n] == MapSeq(xs[..n], f);
    }
  }

  lemma {:induction false} FlatMapConcat<T, U>(a: seq<T>, b: seq<T>, f: T -> seq<U>)
    ensures FlatMap(a + b, f) == FlatMap(a, f) + FlatMap(b, f)
    decreases |b|
  {
    if b == [] {
      assert a + b == a;
    } else {
      var n := |b| - 1;
      assert (a + b)[..|a + b| - 1] == a + b[..n];
      FlatMapConcat(a, b[..n], f);
    }
  }

  /** The records of each section, one list per section. */
  function PerSection(sections: seq<Section>, count: string -> nat): (r: seq<seq<Record>>)
    ensures |r| == |sections| && forall i :: 0 <= i < |sections| ==> r[i] == SectionRecords(sections[i], count)
  {
    seq(|sections|, i requires 0 <= i < |sections| => SectionRecords(sections[i], count))
  }

  /** The records come section by section, in section order: they are the
      records of each section, concatenated. */
  lemma {:induction false} RecordsInSectionOrder(sections: seq<Section>, count: string -> nat)
    ensures Records(sections, count) == Flatten(PerSection(sections, count))
  {
    var f := RecordsOf(count);
    FlatMapIsFlatten(sections, f);
    assert MapSeq(sections, f) == PerSection(sections, count);
  }

  /** Expanding two lists of sections one after the other. */
  lemma {:induction false} RecordsConcat(a: seq<Section>, b: seq<Section>, count: string -> nat)
    ensures Records(a + b, count) == Records(a, count) + Records(b, count)
  {
    FlatMapConcat(a, b, RecordsOf(count));
  }

  /** A table section gives exactly one record per parsed row, in row
      order, each carrying the section's title, the row's cells joined with
      " | " and the table flag.  For the rows parsed from a flushed buffer,
      record i comes from the i-th buffer line that is a row shape, not a
      separator and has a non-empty cell. */
  lemma {:induction false} TableRecords(title: string, lines: seq<string>, rows: seq<seq<string>>, buffer: seq<string>, count: string -> nat)
    ensures var rs := SectionRecords(TableSection(title, lines, rows), count);
      |rs| == |rows| && forall i :: 0 <= i < |rs| ==> rs[i] == Record(title, Join(" | ", rows[i]), true)
    ensures rows == TableRows(buffer) ==>
      var rs := SectionRecords(TableSection(title, lines, rows), count);
      |rs| == |KeptIndices(buffer)| &&
      forall i :: 0 <= i < |rs| ==> rs[i].content == Join(" | ", Cells(buffer[KeptIndices(buffer)[i]]))
  {
    if rows == TableRows(buffer) {
      TableRowsFromKeptLines(buffer);
    }
  }

  /** A table whose row lines are all separators or empty rows emits
      nothing at all. */
  lemma {:induction false} NoKeptRowNoRecords(title: string, buffer: seq<string>, count: string -> nat)
    requires forall k :: 0 <= k < |buffer| ==> !IsKeptRow(buffer[k])
    ensures SectionRecords(TableSection(title, [], TableRows(buffer)), count) == []
  {
    TableRowsFromKeptLines(buffer);
    PositionsNone(buffer, IsKeptRow);
  }

  /** A prose section gives one record per chunk of its content, each
      carrying the section's title and no table flag; the `strip()` leaves
      every chunk as it is. */
  lemma {:induction false} ProseRecordChunks(title: string, content: string, count: string -> nat)
    ensures var rs, chunks := SectionRecords(ProseSection(title, content), count), Chunks(content, MaxTokens, count);
      |rs| == |chunks| && forall i :: 0 <= i < |rs| ==> rs[i] == Record(title, chunks[i], false)
  {
    ChunkShape(content, MaxTokens, count);
  }

  /** The records of a prose section hold exactly the words of its
      content, in order; only the first record can be empty, exactly when
      the first word alone is over the budget. */
  lemma {:induction false} ProseRecords(title: string, content: string, count: string -> nat)
    ensures var rs := SectionRecords(ProseSection(title, content), count);
      && Flatten(WordsOfEach(Contents(rs))) == Words(content)
      && (forall i :: 0 <= i < |rs| ==>
            (rs[i].content == "" <==> i == 0 && FirstWordOverBudget(content, MaxTokens, count)))
  {
    var rs := SectionRecords(ProseSection(title, content), count);
    var chunks := Chunks(content, MaxTokens, count);
    ProseRecordChunks(title, content, count);
    ChunkShape(content, MaxTokens, count);
    ChunksKeepWords(content, MaxTokens, count);
    assert Contents(rs) == chunks;
  }

  /** A prose section parse_markdown builds (non-empty, no whitespace at
      either end) gives at least one record. */
  lemma {:induction false} ProseNotDropped(title: string, content: string, count: string -> nat)
    requires content != [] && Strip(content) == content
    ensures SectionRecords(ProseSection(title, content), count) != []
  {
    StripOfNonBlank(content);
    NoChunksIffBlank(content, MaxTokens, count);
  }

  /** A non-empty string equal to its own strip is not all whitespace. */
  lemma {:induction false} StripOfNonBlank(s: string)
    requires s != [] && Strip(s) == s
    ensures !AllSpace(s)
  {
  }

  /** In a section parse_markdown can emit, a record is empty only as the
      first record of a prose section whose first word alone is over the
      budget: a table row always has a non-empty cell, so its join is not
      empty. */
  lemma {:induction false} SectionRecordEmpty(s: Section, count: string -> nat)
    requires WellFormed(s)
    ensures var rs := SectionRecords(s, count);
      forall i :: 0 <= i < |rs| ==>
        (rs[i].content == "" <==> s.ProseSection? && i == 0 && FirstWordOverBudget(s.content, MaxTokens, count))
  {
    match s
    case TableSection(title, lines, rows) =>
      TableRecords(title, lines, rows, [], count);
      forall i | 0 <= i < |rows|
        ensures Join(" | ", rows[i]) != ""
      {
        assert IsCellRow(rows[i]);
        var c :| 0 <= c < |rows[i]| && rows[i][c] != "";
        JoinNonEmpty(" | ", rows[i], c);
      }
    case ProseSection(title, content) =>
      ProseRecords(title, content, count);
  }

  /** Over a whole document: the records of each parsed section are empty
      only where a prose section's first word alone is over the budget. */
  lemma {:induction false} ConvertedRecordEmpty(text: string, count: string -> nat)
    ensures var sections := Parse(text); var ps := PerSection(sections, count);
      && Converted(text, count) == Flatten(ps)
      && forall j, i :: 0 <= j < |ps| && 0 <= i < |ps[j]| ==>
           (ps[j][i].content == "" <==>
              sections[j].ProseSection? && i == 0 && FirstWordOverBudget(sections[j].content, MaxTokens, count))
  {
    var sections := Parse(text);
    RecordsInSectionOrder(sections, count);
    ParseWellFormed(text);
    forall j | 0 <= j < |sections|
      ensures var rs := SectionRecords(sections[j], count);
        forall i :: 0 <= i < |rs| ==>
          (rs[i].content == "" <==>
             sections[j].ProseSection? && i == 0 && FirstWordOverBudget(sections[j].content, MaxTokens, count))
    {
      SectionRecordEmpty(sections[j], count);
    }
  }

  // ---------------------------------------------------------------- the loop

  /** The loop of lines 145-163 over parsed sections. */
  method ExpandSections(sections: seq<Section>, count: string -> nat) returns (jsonData: seq<Record>)
    ensures jsonData == Records(sections, count)
  {
    jsonData := [];
    for s := 0 to |sections|
      invariant jsonData == Records(sections[..s], count)
    {
      assert sections[..s + 1][..s] == sections[..s];
      jsonData := AppendSection(jsonData, sections[s], count);
    }
    assert sections[..|sections|] == sections;
  }

  /** The body of that loop for one section (lines 146-163). */
  method AppendSection(jsonData: seq<Record>, sec: Section, count: string -> nat) returns (out: seq<Record>)
    ensures out == jsonData + SectionRecords(sec, count)
  {
    match sec
    case TableSection(title, lines, tableRows) =>
      out := AppendRows(jsonData, title, lines, tableRows, count);
    case ProseSection(title, content) =>
      out := AppendChunks(jsonData, title, content, count);
  }

  /** Lines 147-154: one record per row of a table section. */
  method AppendRows(jsonData: seq<Record>, title: string, lines: seq<string>, tableRows: seq<seq<string>>, count: string -> nat)
    returns (out: seq<Record>)
    ensures out == jsonData + SectionRecords(TableSection(title, lines, tableRows), count)
  {
    out := jsonData;
    for r := 0 to |tableRows|
      invariant out == jsonData + RowRecords(title, tableRows[..r])
    {
      MapSeqSnoc(tableRows, RowRecordOf(title), r);
      out := out + [Record(title, Join(" | ", tableRows[r]), true)];
    }
    assert tableRows[..|tableRows|] == tableRows;
  }

  /** Lines 155-163: one record per chunk of a prose section. */
  method AppendChunks(jsonData: seq<Record>, title: string, content: string, count: string -> nat)
    returns (out: seq<Record>)
    ensures out == jsonData + SectionRecords(ProseSection(title, content), count)
  {
    var chunks := SplitByTokens(content, MaxTokens, count);
    out := AppendChunkRecords(jsonData, title, chunks);
  }

  /** The inner loop of lines 157-163 over the chunks. */
  method AppendChunkRecords(jsonData: seq<Record>, title: string, chunks: seq<string>) returns (out: seq<Record>)
    ensures out == jsonData + ChunkRecords(title, chunks)
  {
    out := jsonData;
    for c := 0 to |chunks|
      invariant out == jsonData + ChunkRecords(title, chunks[..c])
    {
      MapSeqSnoc(chunks, ChunkRecordOf(title), c);
      out := out + [Record(title, Strip(chunks[c]), false)];
    }
    assert chunks[..|chunks|] == chunks;
  }

  /** md_to_json (lines 142-163), from the text of the file to the records
      it would write; `count` stands for the tokenizer. */
  method MdToJson(text: string, count: string -> nat) returns (jsonData: seq<Record>)
    ensures jsonData == Converted(text, count)
  {
    var sections := ParseMarkdown(text);
    jsonData := ExpandSections(sections, count);
  }
}
