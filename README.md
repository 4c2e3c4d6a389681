# convert-md: markdown to retrieval chunks, modelled in Dafny

`convert-md.py` prepares a markdown book for dense retrieval. It turns the
book into a flat list of JSON records `{title, content, is_table}`, where
each record is a chunk of text that fits in an embedding window. This
project models the converter's logic and proves what it guarantees.

The model follows the converter's own stages:

- **Strings** (`Strings.dfy`). The Python string primitives the converter
  relies on, written out over `seq<char>`:
  - `str.isspace`;
  - `strip`;
  - `split()`, `split('|')` and `" ".join`;
  - `splitlines()`.
- **Patterns** (`Patterns.dfy`). Every regular expression of the file is a
  deterministic matcher:
  - the heading, numbered-section and table-row patterns (lines 78-80);
  - the separator-row pattern (line 54);
  - the image-line and noise-line patterns (lines 107, 109).
  Each matcher's comment says why the first match it finds is the one
  Python's backtracking engine settles on.
- **Cleaning** (`Cleaning.dfy`). `clean_text` (lines 23-36) is the eleven
  `re.sub` passes followed by `strip()`. `Sub` is `re.sub` over a matcher:
  it scans left to right, replaces each match and resumes after it.
- **Tables** (`Tables.dfy`). `is_table` (lines 39-45) and `parse_table_rows`
  (lines 48-60). `ParseTableRows` keeps the source's loop.
- **Splitter** (`Splitter.dfy`). `split_by_tokens` (lines 63-75) is the
  greedy packing of words under a token budget.
  - The pure fold `Chunks` specifies it.
  - The method `SplitByTokens` keeps the source's loop, with its `chunks`
    and `current` lists.
- **Sections** (`Sections.dfy`). `parse_markdown` (lines 83-135) has a state
  function `Run` over a `Parser` value, for the proofs. It also has the
  class `SectionTracker`, whose fields `stack`, `buffer` and `sections` are
  updated in place, as the source updates its lists. Its methods
  `FlushBuffer`, `Feed`, `OpenHeading` and `OpenNumbered` are proved against
  `Flush` and `Step`.
- **Records** (`Records.dfy`). The expansion loop of `md_to_json`
  (lines 142-163):
  - a table section gives one record per parsed row;
  - a prose section gives one record per stripped chunk.
  `MdToJson` chains `ParseMarkdown` with that loop. It is proved to return
  `Converted(text, count)`.

Whitespace is one set throughout: `\s`, `strip()` and `split()` all use
the `str.isspace` set, which is also the set Python's `re` uses for `\s` in
a `str` pattern.

The tokenizer becomes a parameter `count: string -> nat`. No property of
it is assumed: not monotonicity, and not that the count of a join relates
to the counts of its parts. So the budget results hold for any tokenizer.

Behaviour of the source that the model keeps, and proves where it matters:

- A line with seven or more `#` is a level-6 heading, and the extra hashes
  open its title, even after cleaning (`Sections.DeepHeadingTitle`).
  `#word` with no space is a heading too.
- A line that matches the numbered-section pattern is always handled as a
  numbered section, never as a plain heading (`Sections.StepStack`).
- A table section's `"content"` is the buffer list itself, not a copy.
  `buffer.clear()` empties that list at the flush, so every table section
  returned has empty content. Its rows are parsed from the buffer before
  the clear (`Sections.TableFlushed`). A prose line mixed into a table
  buffer gives no row and is lost.
- A table whose row lines are all separators or empty rows emits no record
  (`Records.NoKeptRowNoRecords`).
- When the first word of a prose section alone is over the budget,
  `split_by_tokens` first closes the still-empty current chunk. The first
  record of that section then has empty content (`Splitter.ChunkShape`,
  `Records.ProseRecords`). That is the only way a record can be empty: a
  table row always has a non-empty cell (`Records.SectionRecordEmpty`,
  `Records.ConvertedRecordEmpty`).
- `clean_text` is not idempotent. Line breaks become spaces after runs of
  spaces have already been collapsed, so `"a \n b"` cleans to `"a   b"`,
  which cleans again to `"a b"` (`Cleaning.CleanTextNotIdempotent`).
  One might expect cleaning to be idempotent; it is not.

## Model

| member | source | states |
|---|---|---|
| Strings.Words | convert-md.py:64 | `text.split()`: the maximal runs of non-whitespace characters, in order |
| Strings.Join | convert-md.py:67 | `sep.join(parts)`: the parts in order with `sep` between consecutive ones (also used at lines 90, 96 and 152) |
| Strings.Strip | convert-md.py:36 | `strip()` leaves no whitespace at either end; it is empty exactly when the input is all whitespace; it adds no character |
| Strings.StripIsInfix | convert-md.py:36 | `strip()` is the infix that starts after the leading whitespace, and only whitespace follows it |
| Strings.StripKeepsFirst | convert-md.py:36 | `strip()` keeps a first character that is not whitespace |
| Strings.WordsEmptyIffAllSpace | convert-md.py:64 | `text.split()` is empty exactly when the text is all whitespace |
| Strings.WordsOfJoin | convert-md.py:67-74 | re-splitting a chunk joined with " " from words gives back exactly those words |
| Strings.JoinNonEmpty | convert-md.py:152 | a join with a non-empty part is not empty |
| Strings.JoinedWordsStripped | convert-md.py:161 | a chunk joined from words has no whitespace at either end, and is empty only when there are no words |
| Strings.Split | convert-md.py:57 | splitting a line at its pipe characters gives one more piece than the line has pipes; no piece holds a pipe; joining the pieces with a pipe restores the line |
| Strings.SplitLines | convert-md.py:84 | `splitlines()` gives lines without line boundaries, and no line at all only for the empty text |
| Strings.FlattenConcat | convert-md.py:145-163 | flattening distributes over concatenation, the basis of the in-order results |
| Patterns.FindClose | convert-md.py:27-32 | a lazy `.*?` before a literal stops at the first occurrence of the literal, and never crosses a line feed; there is no match exactly when every occurrence lies past a line feed |
| Patterns.DotStarEnd | convert-md.py:78 | `.*$` takes the rest of a line-feed-free text, and never yields a line feed |
| Patterns.ImageAt | convert-md.py:25 | an image match starts with "![", ends with ')' and spans at least five characters |
| Patterns.IsImageLine | convert-md.py:107 | `re.match` of the image pattern at the start of the line |
| Patterns.IsNoiseLine | convert-md.py:109 | the whole line is one or more '*', optional blanks, optional digits, optional blanks, then two runs of '*' with optional blanks between |
| Patterns.HeadingMatch | convert-md.py:78 | the heading text never holds a line feed |
| Patterns.HeadingShape | convert-md.py:78 | on a line without a line feed, the heading pattern matches iff the first non-blank character is '#'; level = min(number of leading '#', 6), between 1 and 6; past six '#', the text opens with '#' |
| Patterns.SectionMatch | convert-md.py:79 | SECTION_RE: blanks, one or more '#', blanks, "**", digits, an optional capital, ". ", then the shortest non-empty text before the next "**"; group 1 is that numbered title |
| Patterns.SectionShape | convert-md.py:79 | a numbered-section match is a line whose first non-blank character is '#'; group 1 opens with a digit, has at least four characters and no line feed |
| Patterns.ContentEnd | convert-md.py:80 | the end of the line's content: only whitespace follows it, and the character before it is not whitespace |
| Patterns.IsTableRow | convert-md.py:80 | TABLE_ROW_RE: after leading whitespace a pipe opens the line, and its content, trailing whitespace aside, ends with another pipe |
| Patterns.IsSeparatorRow | convert-md.py:54 | the separator pattern: a row whose characters between the outer pipes are only whitespace, '-', ':' and pipes, at least one of them |
| Cleaning.Sub | convert-md.py:25-35 | `re.sub` over a matcher: scan left to right, replace each match and resume after it, copy unmatched characters |
| Cleaning.Image | convert-md.py:25 | the image pattern is removed: "![", lazily to the first "](" on the line, lazily to the first ')' |
| Cleaning.EscapedQuote | convert-md.py:26 | a backslash before '"' is dropped |
| Cleaning.StarBracket | convert-md.py:27 | "[*" lazily to the first "*]" on the line is removed |
| Cleaning.TripleStar | convert-md.py:28 | "***" lazily to the next "***" on the line is removed |
| Cleaning.Superscript | convert-md.py:29 | "<sup>" lazily to the first "</sup>" on the line is removed |
| Cleaning.Tag | convert-md.py:30 | '<', one or more characters other than '>', then '>' is removed |
| Cleaning.Bold | convert-md.py:31 | "**" lazily to the next "**" on the line is replaced by the text between |
| Cleaning.Italic | convert-md.py:32 | '*' lazily to the next '*' on the line is replaced by the text between |
| Cleaning.EscapedMarkup | convert-md.py:33 | a backslash followed by the whole run of '*', '_' and '`' after it is removed |
| Cleaning.SpaceRun | convert-md.py:34 | matches exactly where two spaces start; the whole run of spaces becomes one space |
| Cleaning.SubNoMatch | convert-md.py:25-35 | where a pattern matches nowhere, `re.sub` leaves the text unchanged |
| Cleaning.LineBreakRun | convert-md.py:35 | `[\r\n]+` matches exactly at a carriage return or line feed; the match covers the whole run of them and is replaced by one space |
| Cleaning.NoLineBreaksLeft | convert-md.py:35 | after the `[\r\n]+` pass the text holds no carriage return or line feed |
| Cleaning.RemoveMarkup | convert-md.py:25-33 | the nine markup passes, in the source's order |
| Cleaning.CleanText | convert-md.py:23-36 | cleaned text holds no '\r' or '\n' and has no whitespace at either end |
| Cleaning.RemoveMarkupFree | convert-md.py:25-33 | text with none of `! \ [ * <` passes all nine markup passes unchanged |
| Cleaning.NoMarkupAt | convert-md.py:25-33 | none of the nine markup patterns matches at a character that is not one of `! \ [ * <` |
| Cleaning.CleanPlain | convert-md.py:23-36 | on text without markup characters, cleaning is the space-run pass, then the line-break pass, then a `strip()` that finds nothing to remove when the ends are not whitespace |
| Cleaning.LineFeedToSpace | convert-md.py:34-35 | on "a \n b" the space-run pass finds no run and the line-break pass gives "a   b" |
| Cleaning.SpacesToOne | convert-md.py:34-35 | on "a   b" the space-run pass gives "a b", which the line-break pass leaves alone |
| Cleaning.CleanLineFeed | convert-md.py:23-36 | "a \n b" cleans to "a   b": the line feed turns into a space only after the space-run pass |
| Cleaning.CleanSpaces | convert-md.py:23-36 | "a   b" cleans to "a b" |
| Cleaning.CleanTextNotIdempotent | convert-md.py:23-36 | cleaning "a \n b" gives "a   b", and cleaning that again gives "a b": clean_text is not idempotent |
| Cleaning.SubKeepsFirst | convert-md.py:25-35 | where a pattern does not match at the start, `re.sub` keeps the first character |
| Cleaning.RemoveMarkupKeepsFirst | convert-md.py:25-33 | the nine markup passes keep a first character that is not one of `! \ [ * <` |
| Cleaning.CleanKeepsFirst | convert-md.py:23-36 | text opening with a character that is neither whitespace nor one of `! \ [ * <` still opens with it once cleaned |
| Tables.IsTable | convert-md.py:39-45 | `is_table`: the buffer is non-empty and at least two of its lines have the table-row shape |
| Tables.TableIffTwoRows | convert-md.py:39-45 | `is_table` holds iff two distinct lines of the buffer have the table-row shape (so false for an empty buffer) |
| Tables.OneRowLine | convert-md.py:44 | the comprehension of row-shaped lines is non-empty iff some line has the row shape |
| Tables.Cells | convert-md.py:57 | a line with k >= 1 pipes has k - 1 cells, none holding a pipe and each stripped |
| Tables.Positions | convert-md.py:51-59 | the positions kept by a filter are in range, strictly increasing, and include every position that satisfies the test |
| Tables.FilterMapPositions | convert-md.py:51-59 | the k-th result of a filtered map is the image of the k-th element that passes the filter |
| Tables.TableRows | convert-md.py:48-60 | `parse_table_rows`: the cells of every row-shaped, non-separator line with a non-empty cell, in order |
| Tables.TableRowsFromKeptLines | convert-md.py:51-59 | row k of `parse_table_rows` is the cells of the k-th row-shaped, non-separator line with a non-empty cell, in input order, and nothing else is kept |
| Tables.TableRowShape | convert-md.py:52-59 | every row comes from a row-shaped, non-separator line; it has (pipes - 1) >= 1 cells, at least one non-empty, all stripped and pipe-free |
| Tables.ParseTableRows | convert-md.py:48-60 | the loop returns exactly the rows `TableRows` describes |
| Splitter.Step | convert-md.py:66-72 | one turn of the loop: the word joins the current chunk if the joined candidate is within budget, otherwise the current chunk is closed and the word starts the next |
| Splitter.Fold | convert-md.py:65-72 | the loop over the words from empty `chunks` and `current` |
| Splitter.Groups | convert-md.py:63-75 | the word lists of the chunks, the last one kept only when non-empty (`if current:`) |
| Splitter.Chunks | convert-md.py:63-75 | `split_by_tokens`: every group joined with " " |
| Splitter.StepPreserves | convert-md.py:66-72 | one turn of the loop keeps the packing invariant: words kept in order, within budget where accepted, greedy |
| Splitter.FoldInvariant | convert-md.py:66-72 | the packing invariant holds after any number of words |
| Splitter.GroupsProperties | convert-md.py:63-75 | the word groups flatten to the words; there is none iff there is no word; accepted groups fit the budget; each later group is non-empty and its first word did not fit the one before; the first group is empty iff the first word alone is over budget |
| Splitter.GroupsAreWords | convert-md.py:64-74 | every group holds only whitespace-free, non-empty words |
| Splitter.ChunkWords | convert-md.py:67-74 | re-splitting chunk i gives back group i of the packing |
| Splitter.ChunksKeepWords | convert-md.py:64-74 | the words of the chunks, in order, are exactly `text.split()`: none dropped, added or reordered |
| Splitter.NoChunksIffBlank | convert-md.py:64-74 | no chunk iff the text is all whitespace |
| Splitter.ChunkShapeAt | convert-md.py:65-74 | chunk i is stripped, and is empty iff it is the first one and the first word alone is over budget |
| Splitter.ChunkShape | convert-md.py:65-74 | the same for every chunk |
| Splitter.ChunkBudget | convert-md.py:67-72 | a non-empty first chunk, and every chunk of two or more words, has a token count within the budget |
| Splitter.ChunkMaximalAt | convert-md.py:67-72 | chunk i > 0 is non-empty, and chunk i - 1 extended by its first word is over budget |
| Splitter.ChunksMaximal | convert-md.py:67-72 | the greedy property for every consecutive pair of chunks |
| Splitter.FoldAccepts | convert-md.py:68-69 | a word that fits joins the current group |
| Splitter.FoldRejects | convert-md.py:70-72 | a word that does not fit closes the current group and starts a new one |
| Splitter.CloseGroup | convert-md.py:71-74 | closing the current group appends its joined text to the chunks |
| Splitter.SplitByTokens | convert-md.py:63-75 | the loop returns exactly `Chunks(text, maxTokens, count)`, so all the properties above hold for it |
| Sections.Classify | convert-md.py:113-116 | a heading line has a level between 1 and 6 |
| Sections.ClassifyShape | convert-md.py:102-132 | blank, image and noise lines are skipped; a heading is plain iff the numbered-section pattern does not match; a numbered section takes its cleaned group 1; a plain heading's level is min(leading '#', 6) and its title is its cleaned text; any other line goes to the buffer trimmed; titles are on one line |
| Sections.DeepHeadingTitle | convert-md.py:113-120 | a heading line with more than six leading '#' has level 6, and its cleaned title starts with '#' |
| Sections.Flushed | convert-md.py:88-99 | what `flush_buffer` appends: nothing for an empty buffer; for a table, one section holding the buffer list as it is once cleared (empty) and the rows parsed from the buffer; otherwise one prose section of the cleaned joined buffer, unless that is empty |
| Sections.Flush | convert-md.py:88-99 | `flush_buffer` on the parser: append what `Flushed` gives, clear the buffer, keep the stack |
| Sections.Apply | convert-md.py:113-132 | a skipped line changes nothing; a heading flushes, cuts the stack to level - 1 titles and pushes; a numbered line flushes, cuts to three and pushes; content is appended to the buffer |
| Sections.Step | convert-md.py:101-132 | one turn of the loop: classify the raw line, then apply it |
| Sections.Run | convert-md.py:101-132 | the loop over the lines, in order |
| Sections.Parse | convert-md.py:83-135 | `parse_markdown`: the loop over `splitlines()`, then a final flush, returning the sections |
| Sections.RunSnoc | convert-md.py:101-132 | the loop over one more line is one more turn of its body |
| Sections.JoinOneLine | convert-md.py:90 | joining one-line titles with " / " gives a one-line title |
| Sections.FlushProperties | convert-md.py:88-99 | a flush leaves the buffer empty and the stack unchanged; it appends nothing for an empty buffer and at most one section otherwise, titled by the stack joined with " / "; that section is a table iff the buffer is a table |
| Sections.TableFlushed | convert-md.py:92-99 | a buffer with two row-shaped lines flushes to one table section whose content is the cleared buffer list (empty) and whose rows are `parse_table_rows` of the buffer; row r is the cells of the r-th kept line; the section is well formed |
| Sections.ProseFlushed | convert-md.py:95-98 | a non-table buffer flushes to at most one prose section of cleaned, non-empty, one-line, stripped text |
| Sections.FlushedWellFormed | convert-md.py:88-99 | every section a flush emits is well formed: a prose section is non-empty, stripped, one-line text; a table section has empty content and rows of cells, each with a non-empty, stripped, pipe-free cell |
| Sections.FlushGood | convert-md.py:88-99 | a flush keeps the parser invariant |
| Sections.AppendWellFormed | convert-md.py:94-98 | appending well-formed sections keeps every section well formed |
| Sections.ApplyStack | convert-md.py:118-129 | the stack after a heading or numbered line is the old stack cut down, plus the new title on top |
| Sections.StepStack | convert-md.py:113-130 | a plain heading keeps the first min(len(old), level - 1) titles then pushes its own, so the stack has at most `level` entries; a numbered section keeps the first min(len(old), 3) then pushes; other lines leave the stack alone; the stack only ever loses entries from its top |
| Sections.BufferGood | convert-md.py:132 | appending a content line keeps the parser invariant |
| Sections.OpenGood | convert-md.py:115-129 | a flush followed by a push keeps the parser invariant |
| Sections.HeadingGood | convert-md.py:114-121 | a plain heading line keeps the parser invariant |
| Sections.NumberedGood | convert-md.py:125-130 | a numbered-section line keeps the parser invariant |
| Sections.ApplyGood | convert-md.py:101-132 | every kind of line keeps the parser invariant |
| Sections.StepGood | convert-md.py:101-132 | one raw line without a line feed keeps the parser invariant: stack of at most six one-line titles, a buffer of content lines only, well-formed sections |
| Sections.ApplyAppends | convert-md.py:101-132 | a line never changes or removes an emitted section |
| Sections.RunAppends | convert-md.py:101-132 | the loop only appends sections |
| Sections.RunGood | convert-md.py:101-132 | the loop keeps the parser invariant over lines without line feeds |
| Sections.ParseWellFormed | convert-md.py:83-135 | every section returned is well formed: one-line title; prose is non-empty, one-line and stripped; a table section's content is the emptied buffer list and each row has at least one cell, a non-empty one among them, all stripped and pipe-free; the stack never exceeds six titles |
| Sections.ContentLineStart | convert-md.py:102-132 | a line that reaches the buffer starts with neither whitespace nor '#' |
| Sections.SectionTracker.constructor | convert-md.py:85-86 | the tracker starts with an empty stack, buffer and section list |
| Sections.SectionTracker.FlushBuffer | convert-md.py:88-99 | the in-place flush leaves the state `Flush` describes: a table section with empty content and the parsed rows, or the cleaned prose section, then an empty buffer |
| Sections.SectionTracker.Feed | convert-md.py:101-132 | one line changes the state exactly as `Step` describes |
| Sections.SectionTracker.OpenHeading | convert-md.py:118-120 | popping while the stack is at least `level` deep, then pushing, leaves the first min(len(old), level - 1) titles plus the new one; buffer and sections unchanged |
| Sections.SectionTracker.OpenNumbered | convert-md.py:127-129 | popping down to three entries, then pushing, leaves the first min(len(old), 3) titles plus the new one; buffer and sections unchanged |
| Sections.ParseMarkdown | convert-md.py:83-135 | returns `Parse(text)`, the loop over the lines followed by the final flush, so `ParseWellFormed` applies to it, table sections with empty content included |
| Records.SectionRecords | convert-md.py:146-163 | the records of one section: one per table row, its cells joined with space-pipe-space, or one per stripped chunk of prose |
| Records.Records | convert-md.py:145-163 | the records of each section, concatenated in order |
| Records.Converted | convert-md.py:142-163 | what `md_to_json` writes: parse, then expand every section |
| Records.MapSeqSnoc | convert-md.py:149-163 | mapping one more element appends its image |
| Records.FlatMapIsFlatten | convert-md.py:145-163 | expanding section by section is flattening the per-section record lists |
| Records.FlatMapConcat | convert-md.py:145-163 | expansion distributes over concatenation of section lists |
| Records.RecordsInSectionOrder | convert-md.py:145-163 | the records are the records of each section, concatenated in section order |
| Records.RecordsConcat | convert-md.py:145-163 | the records of two section lists in sequence are the records of each, one after the other |
| Records.TableRecords | convert-md.py:146-154 | a table section gives exactly one record per row, in order, with its title, the cells joined by space-pipe-space and the table flag; for rows parsed from a buffer, record i comes from the i-th kept buffer line |
| Records.NoKeptRowNoRecords | convert-md.py:148-154 | a table with only separator or empty rows gives no record |
| Records.ProseRecordChunks | convert-md.py:155-163 | a prose section gives one record per chunk, with its title and no table flag; `strip()` leaves each chunk as it is |
| Records.ProseRecords | convert-md.py:155-163 | the records of a prose section hold exactly its words, in order; only the first can be empty, and only when the first word alone is over the budget |
| Records.ProseNotDropped | convert-md.py:96-98 | a prose section as `parse_markdown` builds it gives at least one record |
| Records.SectionRecordEmpty | convert-md.py:146-163 | in a well-formed section a record is empty iff it is the first record of a prose section whose first word alone is over the budget; table records are never empty |
| Records.ConvertedRecordEmpty | convert-md.py:142-163 | for a whole document: the records are the per-section records concatenated, and a record is empty iff it is the first of a prose section whose first word alone is over the budget |
| Records.ExpandSections | convert-md.py:145-163 | the loop over sections returns `Records(sections, count)` |
| Records.AppendSection | convert-md.py:146-163 | one turn appends exactly that section's records |
| Records.AppendRows | convert-md.py:147-154 | the row loop appends one table record per row, in order |
| Records.AppendChunks | convert-md.py:156-163 | splitting then appending gives that prose section's records |
| Records.AppendChunkRecords | convert-md.py:158-163 | the chunk loop appends one stripped, non-table record per chunk, in order |
| Records.MdToJson | convert-md.py:142-163 | the records written for a text are `Converted(text, count)`: parse, then expand |

## Left out

- The tokenizer (convert-md.py:12-20): tiktoken's `cl100k_base` is foreign code. It becomes the parameter `count`, with no property assumed.
- File reading, `json.dump`, the success message and the `__main__` checks (convert-md.py:139-140, 165-179). These are I/O. `MdToJson` takes the file's text and returns the records.
- JSON serialisation: a `Record` stands for the object with keys `title`, `content` and `is_table`.
- Unicode digits: `\d` is modelled as the ASCII digits. Python's `re` also accepts other Unicode decimal digits in a `str` pattern.
- Sections.Flushed: a table section holds the buffer list itself, so in Python it aliases the buffer while the loop runs. The model stores the value that list has when `parse_markdown` returns, which is empty. Nothing reads the section during the loop, so the aliasing itself is not modelled.
- `sec.get("table_rows", [])` and `sec.get("is_table", False)`: the defaults never apply to sections `parse_markdown` builds. The model reads the fields directly.
- The remaining files of the repository are not part of this model: `chroma_retriever.py`, `base.py`, `rag.py`, `count.py`, `indexing.py`, `check.py`, `evaluation.py` and the embedding service. They are network clients, file scanners and scoring code.
