/** Table detection and parsing (convert-md.py:38-60): `is_table` counts
    the lines shaped like a table row, `parse_table_rows` turns the row
    lines that are not separators into trimmed cells. */
module Tables {
  import opened Strings
  import opened Patterns

  /** `[line for line in lines if TABLE_ROW_RE.match(line)]` */
  function RowLines(lines: seq<string>): (r: seq<string>)
    ensures |r| <= |lines|
  {
    if lines == [] then []
    else RowLines(lines[..|lines| - 1]) + (if IsTableRow(lines[|lines| - 1]) then [lines[|lines| - 1]] else [])
  }

  /** is_table (lines 39-45). */
  function IsTable(lines: seq<string>): bool {
    if lines == [] then false else |RowLines(lines)| >= 2
  }

  /** The buffer is a table exactly when two distinct lines of it are
      shaped like a table row. */
  lemma {:induction false} TableIffTwoRows(lines: seq<string>)
    ensures IsTable(lines) <==>
      exists i, j :: 0 <= i < j < |lines| && IsTableRow(lines[i]) && IsTableRow(lines[j])
  {
    if IsTable(lines) {
      TwoRowsFound(lines);
    }
    if exists i, j :: 0 <= i < j < |lines| && IsTableRow(lines[i]) && IsTableRow(lines[j]) {
      var i, j :| 0 <= i < j < |lines| && IsTableRow(lines[i]) && IsTableRow(lines[j]);
      TwoRowsCounted(lines, i, j);
    }
  }

  lemma {:induction false} TwoRowsFound(lines: seq<string>)
    requires |RowLines(lines)| >= 2
    ensures exists i, j :: 0 <= i < j < |lines| && IsTableRow(lines[i]) && IsTableRow(lines[j])
  {
    var init, n := lines[..|lines| - 1], |lines| - 1;
    if |RowLines(init)| >= 2 {
      TwoRowsFound(init);
      var i, j :| 0 <= i < j < |init| && IsTableRow(init[i]) && IsTableRow(init[j]);
      assert IsTableRow(lines[i]) && IsTableRow(lines[j]);
    } else {
      OneRowLine(init);
      var i :| 0 <= i < |init| && IsTableRow(init[i]);
      assert IsTableRow(lines[i]) && IsTableRow(lines[n]);
    }
  }

  lemma {:induction false} TwoRowsCounted(lines: seq<string>, i: nat, j: nat)
    requires i < j < |lines| && IsTableRow(lines[i]) && IsTableRow(lines[j])
    ensures |RowLines(lines)| >= 2
  {
    var init, n := lines[..|lines| - 1], |lines| - 1;
    if j < n {
      assert IsTableRow(init[i]) && IsTableRow(init[j]);
      TwoRowsCounted(init, i, j);
    } else {
      assert IsTableRow(init[i]);
      OneRowLine(init);
    }
  }

  lemma {:induction false} OneRowLine(lines: seq<string>)
    ensures |RowLines(lines)| >= 1 <==> exists i :: 0 <= i < |lines| && IsTableRow(lines[i])
  {
    if lines != [] {
      var init, n := lines[..|lines| - 1], |lines| - 1;
      OneRowLine(init);
      if exists i :: 0 <= i < |lines| && IsTableRow(lines[i]) {
        var i :| 0 <= i < |lines| && IsTableRow(lines[i]);
        if i < n { assert IsTableRow(init[i]); }
      }
      if |RowLines(init)| >= 1 {
        var i :| 0 <= i < |init| && IsTableRow(init[i]);
        assert IsTableRow(lines[i]);
      }
    }
  }

  /** `[cell.strip() for cell in line.split('|')[1:-1]]`: the pieces between
      the first and the last '|', trimmed.  A line with k >= 1 pipes has
      k - 1 cells; no cell holds a '|' or whitespace at either end. */
  function Cells(line: string): (cells: seq<string>)
    ensures |cells| == if Count(line, '|') >= 1 then Count(line, '|') - 1 else 0
    ensures forall k :: 0 <= k < |cells| ==> '|' !in cells[k] && Strip(cells[k]) == cells[k]
  {
    var parts := Split(line, '|');
    var inner := if |parts| >= 2 then parts[1..|parts| - 1] else [];
    assert forall k :: 0 <= k < |inner| ==> inner[k] in parts;
    var cells := seq(|inner|, k requires 0 <= k < |inner| => Strip(inner[k]));
    forall k | 0 <= k < |cells| ensures Strip(cells[k]) == cells[k] {
      StripOfStripped(cells[k]);
    }
    cells
  }

  /** `cells and any(cell for cell in cells)` */
  predicate HasContent(cells: seq<string>) {
    |cells| > 0 && exists k :: 0 <= k < |cells| && cells[k] != ""
  }

  /** The lines parse_table_rows turns into a row: row-shaped, not a
      separator, and with at least one non-empty cell. */
  predicate IsKeptRow(line: string) {
    IsTableRow(line) && !IsSeparatorRow(line) && HasContent(Cells(line))
  }

  /** `[f(x) for x in xs if p(x)]` */
  function FilterMap<T, U>(xs: seq<T>, p: T -> bool, f: T -> U): seq<U> {
    if xs == [] then []
    else
      var last := xs[|xs| - 1];
      FilterMap(xs[..|xs| - 1], p, f) + (if p(last) then [f(last)] else [])
  }

  /** What parse_table_rows returns: the cells of each kept line. */
  function TableRows(lines: seq<string>): seq<seq<string>> {
    FilterMap(lines, IsKeptRow, Cells)
  }

  /** The positions in `xs` whose element satisfies `p`, in increasing order. */
  function Positions<T>(xs: seq<T>, p: T -> bool): (ix: seq<nat>)
    ensures forall k :: 0 <= k < |ix| ==> ix[k] < |xs| && p(xs[ix[k]])
    ensures forall k, l :: 0 <= k < l < |ix| ==> ix[k] < ix[l]
    ensures forall i :: 0 <= i < |xs| && p(xs[i]) ==> i in ix
  {
    if xs == [] then []
    else
      var n := |xs| - 1;
      var init := xs[..n];
      var prev := Positions(init, p);
      assert forall i :: 0 <= i < n ==> init[i] == xs[i];
      if p(xs[n]) then prev + [n] else prev
  }

  /** No element satisfies `p`: no position. */
  lemma {:induction false} PositionsNone<T>(xs: seq<T>, p: T -> bool)
    requires forall k :: 0 <= k < |xs| ==> !p(xs[k])
    ensures Positions(xs, p) == []
  {
    if xs != [] {
      var n := |xs| - 1;
      assert forall k :: 0 <= k < n ==> xs[..n][k] == xs[k];
      PositionsNone(xs[..n], p);
    }
  }

  /** The positions of the lines parse_table_rows keeps. */
  function KeptIndices(lines: seq<string>): seq<nat> {
    Positions(lines, IsKeptRow)
  }

  /** The k-th element of a FilterMap is `f` of the k-th element satisfying `p`. */
  lemma {:induction false} FilterMapPositions<T, U>(xs: seq<T>, p: T -> bool, f: T -> U)
    ensures |FilterMap(xs, p, f)| == |Positions(xs, p)|
    ensures forall k :: 0 <= k < |FilterMap(xs, p, f)| ==>
      FilterMap(xs, p, f)[k] == f(xs[Positions(xs, p)[k]])
  {
    if xs != [] {
      var n := |xs| - 1;
      var init := xs[..n];
      FilterMapPositions(init, p, f);
      assert forall i :: 0 <= i < n ==> init[i] == xs[i];
    }
  }

  /** parse_table_rows keeps exactly the kept lines, in input order: row k
      is the cells of the k-th kept line. */
  lemma {:induction false} TableRowsFromKeptLines(lines: seq<string>)
    ensures |TableRows(lines)| == |KeptIndices(lines)|
    ensures forall k :: 0 <= k < |TableRows(lines)| ==>
      TableRows(lines)[k] == Cells(lines[KeptIndices(lines)[k]])
  {
    FilterMapPositions(lines, IsKeptRow, Cells);
  }

  /** Every row parse_table_rows returns has one cell fewer than its line
      has pipes (at least one cell), at least one non-empty cell, and cells
      that are trimmed and hold no '|'. */
  lemma {:induction false} TableRowShape(lines: seq<string>, k: nat)
    requires k < |TableRows(lines)|
    ensures k < |KeptIndices(lines)|
    ensures var row, line := TableRows(lines)[k], lines[KeptIndices(lines)[k]];
      IsTableRow(line) && !IsSeparatorRow(line)
      && |row| == Count(line, '|') - 1 && |row| >= 1
      && (exists c :: 0 <= c < |row| && row[c] != "")
      && forall c :: 0 <= c < |row| ==> '|' !in row[c] && Strip(row[c]) == row[c]
  {
    TableRowsFromKeptLines(lines);
  }

  /** parse_table_rows (lines 48-60). */
  method ParseTableRows(lines: seq<string>) returns (rows: seq<seq<string>>)
    ensures rows == TableRows(lines)
  {
    rows := [];
    for i := 0 to |lines|
      invariant rows == TableRows(lines[..i])
    {
      assert lines[..i + 1][..i] == lines[..i];
      var line := lines[i];
      if IsTableRow(line) {
        if IsSeparatorRow(line) {
          continue;
        }
        var cells := Cells(line);
        if |cells| > 0 && exists c | 0 <= c < |cells| :: cells[c] != "" {
          rows := rows + [cells];
        }
      }
    }
    assert lines[..|lines|] == lines;
  }
}
