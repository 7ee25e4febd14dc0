/**
 * The table renderer (`print_centered_headers`): column widths, a centred
 * header line, a dashed separator line and one left-justified line per
 * row, every line returned instead of printed.
 */
module TableRenderer {
  import opened Wrappers
  import opened Strings
  import opened FlowLog

  const Headers: seq<string> := ["Date/Time", "eventtype", "rule", "protocol", "port", "srcIP", "destIP", "action"]
  const CellSeparator: string := " | "
  const DashSeparator: string := "-+-"

  /** `str(value)`: a missing rule prints as "None". */
  function Text(value: Option<string>): string
  {
    match value
    case Some(s) => s
    case None => "None"
  }

  /** The row's values as strings, in header order. */
  function Cells(row: Row): (cells: seq<string>)
    ensures |cells| == |Headers|
  {
    [row.time, row.category, Text(row.rule), row.protocol, row.port, row.srcIP, row.destIP, row.action]
  }

  /** The greatest length among a non-empty list of strings: at least each length, and one of them. */
  function MaxLength(xs: seq<string>): (m: nat)
    requires |xs| > 0
    ensures forall i :: 0 <= i < |xs| ==> |xs[i]| <= m
    ensures exists i :: 0 <= i < |xs| && |xs[i]| == m
  {
    if |xs| == 1 then |xs[0]|
    else
      var rest := MaxLength(xs[1..]);
      assert forall i :: 1 <= i < |xs| ==> xs[i] == xs[1..][i - 1];
      if |xs[0]| < rest then rest else |xs[0]|
  }

  /** The values of column `c`, row by row. */
  function Column(rows: seq<Row>, c: nat): (values: seq<string>)
    requires c < |Headers|
    ensures |values| == |rows|
    ensures forall i :: 0 <= i < |rows| ==> values[i] == Cells(rows[i])[c]
  {
    seq(|rows|, i requires 0 <= i < |rows| => Cells(rows[i])[c])
  }

  /** `max(len(str(x)) for x in [col] + values)` for every column. */
  function ColumnWidths(rows: seq<Row>): (widths: seq<nat>)
    ensures |widths| == |Headers|
  {
    seq(|Headers|, c requires 0 <= c < |Headers| => MaxLength([Headers[c]] + Column(rows, c)))
  }

  /**
   * Each column's width is the greatest length among its header and its
   * values: at least every one of them, and equal to one of them.
   */
  lemma ColumnWidthsBound(rows: seq<Row>, c: nat)
    requires c < |Headers|
    ensures |Headers[c]| <= ColumnWidths(rows)[c]
    ensures forall i :: 0 <= i < |rows| ==> |Cells(rows[i])[c]| <= ColumnWidths(rows)[c]
    ensures ColumnWidths(rows)[c] == |Headers[c]|
            || exists i :: 0 <= i < |rows| && ColumnWidths(rows)[c] == |Cells(rows[i])[c]|
  {
    var xs := [Headers[c]] + Column(rows, c);
    var m := ColumnWidths(rows)[c];
    assert m == MaxLength(xs);
    assert |Headers[c]| <= m by {
      assert xs[0] == Headers[c];
    }
    forall i | 0 <= i < |rows|
      ensures |Cells(rows[i])[c]| <= m
    {
      assert xs[i + 1] == Cells(rows[i])[c];
    }
    var j :| 0 <= j < |xs| && |xs[j]| == m;
    if j > 0 {
      assert xs[j] == Cells(rows[j - 1])[c];
    }
  }

  /** The header cells: each header centred in its column's width. */
  function HeaderCells(widths: seq<nat>): (cells: seq<string>)
    requires |widths| == |Headers|
    ensures |cells| == |Headers|
    ensures forall c :: 0 <= c < |Headers| ==> cells[c] == Center(Headers[c], widths[c])
  {
    seq(|Headers|, c requires 0 <= c < |Headers| => Center(Headers[c], widths[c]))
  }

  /** The separator cells: a run of dashes per column. */
  function DashCells(widths: seq<nat>): (cells: seq<string>)
    ensures |cells| == |widths|
    ensures forall c :: 0 <= c < |widths| ==> cells[c] == Repeat('-', widths[c])
  {
    seq(|widths|, c requires 0 <= c < |widths| => Repeat('-', widths[c]))
  }

  /** A row's cells: each value left-justified to its column's width. */
  function RowCells(row: Row, widths: seq<nat>): (cells: seq<string>)
    requires |widths| == |Headers|
    ensures |cells| == |Headers|
    ensures forall c :: 0 <= c < |Headers| ==> cells[c] == LJust(Cells(row)[c], widths[c])
  {
    seq(|Headers|, c requires 0 <= c < |Headers| => LJust(Cells(row)[c], widths[c]))
  }

  /** `" | ".join(header.center(width) ...)` */
  function HeaderLine(widths: seq<nat>): string
    requires |widths| == |Headers|
  {
    Join(HeaderCells(widths), CellSeparator)
  }

  /** `"-+-".join('-' * width ...)` */
  function SeparatorLine(widths: seq<nat>): string
  {
    Join(DashCells(widths), DashSeparator)
  }

  /** `" | ".join(str(val).ljust(width) ...)` */
  function RowLine(row: Row, widths: seq<nat>): string
    requires |widths| == |Headers|
  {
    Join(RowCells(row, widths), CellSeparator)
  }

  /** The lines of a table drawn with the given column widths. */
  function Table(rows: seq<Row>, widths: seq<nat>): seq<string>
    requires |widths| == |Headers|
  {
    [HeaderLine(widths), SeparatorLine(widths)]
    + seq(|rows|, i requires 0 <= i < |rows| => RowLine(rows[i], widths))
  }

  /** The lines of the table: header, separator, then one line per row in order. */
  function TableLines(rows: seq<Row>): seq<string>
  {
    Table(rows, ColumnWidths(rows))
  }

  /** Where column `c` starts in a line of cells of widths `widths` joined by a separator of length `sepLength`. */
  function Offset(widths: seq<nat>, sepLength: nat, c: nat): nat
    requires c < |widths|
  {
    if c == 0 then 0 else widths[0] + sepLength + Offset(widths[1..], sepLength, c - 1)
  }

  /** The length of such a line. */
  function LineWidth(widths: seq<nat>, sepLength: nat): nat
  {
    if |widths| == 0 then 0
    else if |widths| == 1 then widths[0]
    else widths[0] + sepLength + LineWidth(widths[1..], sepLength)
  }

  /** Joining cells of the given widths gives a line of the line width. */
  lemma {:induction false} JoinLength(parts: seq<string>, widths: seq<nat>, sep: string)
    requires |parts| == |widths|
    requires forall i :: 0 <= i < |parts| ==> |parts[i]| == widths[i]
    ensures |Join(parts, sep)| == LineWidth(widths, |sep|)
  {
    if |parts| > 1 {
      JoinLength(parts[1..], widths[1..], sep);
    }
  }

  /** A slice past the end of `x` in `x + y` is a slice of `y`. */
  lemma SliceAfter(x: string, y: string, lo: nat, hi: nat)
    requires lo <= hi <= |y|
    ensures (x + y)[|x| + lo..|x| + hi] == y[lo..hi]
  {
  }

  /** Joining cells of the given widths puts cell `c` at its offset. */
  lemma {:induction false} JoinCellAt(parts: seq<string>, widths: seq<nat>, sep: string, c: nat)
    requires |parts| == |widths|
    requires forall i :: 0 <= i < |parts| ==> |parts[i]| == widths[i]
    requires c < |parts|
    ensures Offset(widths, |sep|, c) + widths[c] <= |Join(parts, sep)|
    ensures Join(parts, sep)[Offset(widths, |sep|, c)..Offset(widths, |sep|, c) + widths[c]] == parts[c]
  {
    JoinLength(parts, widths, sep);
    if |parts| > 1 {
      var head := parts[0] + sep;
      var rest := Join(parts[1..], sep);
      assert Join(parts, sep) == head + rest;
      if c > 0 {
        JoinCellAt(parts[1..], widths[1..], sep, c - 1);
        var start := Offset(widths[1..], |sep|, c - 1);
        JoinLength(parts[1..], widths[1..], sep);
        SliceAfter(head, rest, start, start + widths[c]);
      } else {
        assert (head + rest)[..widths[0]] == parts[0];
      }
    }
  }

  /** In a joined line, every cell after the first is preceded by the separator. */
  lemma {:induction false} JoinSeparatorAt(parts: seq<string>, widths: seq<nat>, sep: string, c: nat)
    requires |parts| == |widths|
    requires forall i :: 0 <= i < |parts| ==> |parts[i]| == widths[i]
    requires 0 < c < |parts|
    ensures |sep| <= Offset(widths, |sep|, c) <= |Join(parts, sep)|
    ensures Join(parts, sep)[Offset(widths, |sep|, c) - |sep|..Offset(widths, |sep|, c)] == sep
  {
    assert Offset(widths, |sep|, c) <= |Join(parts, sep)| by {
      JoinCellAt(parts, widths, sep, c);
    }
    var head := parts[0] + sep;
    var rest := Join(parts[1..], sep);
    assert Join(parts, sep) == head + rest;
    if c == 1 {
      assert (head + rest)[|head| - |sep|..|head|] == sep;
    } else {
      JoinSeparatorAt(parts[1..], widths[1..], sep, c - 1);
      JoinLength(parts[1..], widths[1..], sep);
      var start := Offset(widths[1..], |sep|, c - 1);
      SliceAfter(head, rest, start - |sep|, start);
    }
  }

  /** The length of a table line; the two separators have the same length. */
  function TableWidth(widths: seq<nat>): nat
  {
    LineWidth(widths, |CellSeparator|)
  }

  /** Widths that leave room for every header and every value of the rows. */
  predicate Fits(rows: seq<Row>, widths: seq<nat>)
  {
    && |widths| == |Headers|
    && (forall c :: 0 <= c < |Headers| ==> |Headers[c]| <= widths[c])
    && (forall i, c :: 0 <= i < |rows| && 0 <= c < |Headers| ==> |Cells(rows[i])[c]| <= widths[c])
  }

  /** The computed widths fit the table. */
  lemma WidthsFit(rows: seq<Row>)
    ensures Fits(rows, ColumnWidths(rows))
  {
    forall c | 0 <= c < |Headers|
      ensures |Headers[c]| <= ColumnWidths(rows)[c]
      ensures forall i :: 0 <= i < |rows| ==> |Cells(rows[i])[c]| <= ColumnWidths(rows)[c]
    {
      ColumnWidthsBound(rows, c);
    }
  }

  /** The header line is as wide as the table. */
  lemma HeaderLineWidth(widths: seq<nat>)
    requires |widths| == |Headers|
    requires forall c :: 0 <= c < |Headers| ==> |Headers[c]| <= widths[c]
    ensures |HeaderLine(widths)| == TableWidth(widths)
  {
    JoinLength(HeaderCells(widths), widths, CellSeparator);
  }

  /** The separator line is as wide as the table. */
  lemma SeparatorLineWidth(widths: seq<nat>)
    ensures |SeparatorLine(widths)| == TableWidth(widths)
  {
    JoinLength(DashCells(widths), widths, DashSeparator);
  }

  /** A row line is as wide as the table when its values fit their columns. */
  lemma RowLineWidth(row: Row, widths: seq<nat>)
    requires |widths| == |Headers|
    requires forall c :: 0 <= c < |Headers| ==> |Cells(row)[c]| <= widths[c]
    ensures |RowLine(row, widths)| == TableWidth(widths)
  {
    JoinLength(RowCells(row, widths), widths, CellSeparator);
  }

  /** With widths that fit, every line of the table has the same length. */
  lemma TableShape(rows: seq<Row>, widths: seq<nat>)
    requires Fits(rows, widths)
    ensures var lines := Table(rows, widths);
            && |lines| == |rows| + 2
            && lines[0] == HeaderLine(widths)
            && lines[1] == SeparatorLine(widths)
            && (forall i :: 0 <= i < |rows| ==> lines[i + 2] == RowLine(rows[i], widths))
            && (forall k :: 0 <= k < |lines| ==> |lines[k]| == TableWidth(widths))
  {
    var lines := Table(rows, widths);
    HeaderLineWidth(widths);
    SeparatorLineWidth(widths);
    forall i | 0 <= i < |rows|
      ensures lines[i + 2] == RowLine(rows[i], widths)
      ensures |lines[i + 2]| == TableWidth(widths)
    {
      RowLineWidth(rows[i], widths);
    }
    forall k | 2 <= k < |lines|
      ensures |lines[k]| == TableWidth(widths)
    {
      assert lines[(k - 2) + 2] == lines[k];
    }
  }

  /**
   * The table has one header line, one separator line and one line per row,
   * in row order, and every line has the same length.
   */
  lemma TableLayout(rows: seq<Row>)
    ensures var widths := ColumnWidths(rows);
            var lines := TableLines(rows);
            && |lines| == |rows| + 2
            && lines[0] == HeaderLine(widths)
            && lines[1] == SeparatorLine(widths)
            && (forall i :: 0 <= i < |rows| ==> lines[i + 2] == RowLine(rows[i], widths))
            && (forall k :: 0 <= k < |lines| ==> |lines[k]| == TableWidth(widths))
  {
    WidthsFit(rows);
    TableShape(rows, ColumnWidths(rows));
  }

  /**
   * Column `c` of a row line holds the value itself followed by spaces up to
   * the column width, nothing cut off, preceded by " | " after the first column.
   */
  lemma RowCell(row: Row, widths: seq<nat>, c: nat)
    requires |widths| == |Headers|
    requires forall d :: 0 <= d < |Headers| ==> |Cells(row)[d]| <= widths[d]
    requires c < |Headers|
    ensures var start := Offset(widths, |CellSeparator|, c);
            var value := Cells(row)[c];
            && start + widths[c] <= |RowLine(row, widths)|
            && RowLine(row, widths)[start..start + |value|] == value
            && (forall p :: start + |value| <= p < start + widths[c] ==> RowLine(row, widths)[p] == ' ')
            && (c > 0 ==> RowLine(row, widths)[start - |CellSeparator|..start] == CellSeparator)
  {
    var parts := RowCells(row, widths);
    assert forall d :: 0 <= d < |parts| ==> |parts[d]| == widths[d];
    PaddedCellAt(parts, widths, CellSeparator, c, Cells(row)[c]);
    if c > 0 {
      JoinSeparatorAt(parts, widths, CellSeparator, c);
    }
  }

  /** A left-justified cell of a joined line holds its value followed by spaces. */
  lemma PaddedCellAt(parts: seq<string>, widths: seq<nat>, sep: string, c: nat, value: string)
    requires |parts| == |widths|
    requires forall i :: 0 <= i < |parts| ==> |parts[i]| == widths[i]
    requires c < |parts| && |value| <= widths[c] && parts[c] == LJust(value, widths[c])
    ensures var start := Offset(widths, |sep|, c);
            && start + widths[c] <= |Join(parts, sep)|
            && Join(parts, sep)[start..start + |value|] == value
            && (forall p :: start + |value| <= p < start + widths[c] ==> Join(parts, sep)[p] == ' ')
  {
    var line := Join(parts, sep);
    var start := Offset(widths, |sep|, c);
    var cell := parts[c];
    assert start + widths[c] <= |line| && line[start..start + widths[c]] == cell by {
      JoinCellAt(parts, widths, sep, c);
    }
    assert line[start..start + |value|] == cell[..|value|];
    forall p | start + |value| <= p < start + widths[c]
      ensures line[p] == ' '
    {
      assert line[p] == cell[p - start];
    }
  }

  /** Column `c` of the header line holds the header centred in the column width. */
  lemma HeaderCell(widths: seq<nat>, c: nat)
    requires |widths| == |Headers|
    requires forall d :: 0 <= d < |Headers| ==> |Headers[d]| <= widths[d]
    requires c < |Headers|
    ensures var start := Offset(widths, |CellSeparator|, c);
            && start + widths[c] <= |HeaderLine(widths)|
            && HeaderLine(widths)[start..start + widths[c]] == Center(Headers[c], widths[c])
            && (c > 0 ==> HeaderLine(widths)[start - |CellSeparator|..start] == CellSeparator)
  {
    var parts := HeaderCells(widths);
    forall d | 0 <= d < |parts|
      ensures |parts[d]| == widths[d]
    {
      assert parts[d] == Center(Headers[d], widths[d]);
    }
    JoinCellAt(parts, widths, CellSeparator, c);
    if c > 0 {
      JoinSeparatorAt(parts, widths, CellSeparator, c);
    }
  }

  /** Column `c` of the separator line is a run of dashes as wide as the column, after "-+-". */
  lemma SeparatorCell(widths: seq<nat>, c: nat)
    requires c < |widths|
    ensures var start := Offset(widths, |DashSeparator|, c);
            && start + widths[c] <= |SeparatorLine(widths)|
            && SeparatorLine(widths)[start..start + widths[c]] == Repeat('-', widths[c])
            && (c > 0 ==> SeparatorLine(widths)[start - |DashSeparator|..start] == DashSeparator)
  {
    var parts := DashCells(widths);
    JoinCellAt(parts, widths, DashSeparator, c);
    if c > 0 {
      JoinSeparatorAt(parts, widths, DashSeparator, c);
    }
  }

  /** Drawing one more row adds its line at the end. */
  lemma TableGrows(rows: seq<Row>, widths: seq<nat>, i: nat)
    requires |widths| == |Headers|
    requires i < |rows|
    ensures Table(rows[..i + 1], widths) == Table(rows[..i], widths) + [RowLine(rows[i], widths)]
  {
    var longer := Table(rows[..i + 1], widths);
    var shorter := Table(rows[..i], widths) + [RowLine(rows[i], widths)];
    assert |longer| == |shorter|;
    forall k | 0 <= k < |longer|
      ensures longer[k] == shorter[k]
    {
      if k >= 2 {
        assert rows[..i + 1][k - 2] == rows[k - 2];
      }
    }
  }

  /** The loop of `print_centered_headers`: header, separator, then a line per row. */
  method PrintCenteredHeaders(rows: seq<Row>) returns (lines: seq<string>)
    ensures lines == TableLines(rows)
  {
    var widths := ColumnWidths(rows);
    lines := [HeaderLine(widths), SeparatorLine(widths)];
    assert lines == Table(rows[..0], widths);
    var i := 0;
    while i < |rows|
      invariant 0 <= i <= |rows|
      invariant lines == Table(rows[..i], widths)
    {
      TableGrows(rows, widths, i);
      lines := lines + [RowLine(rows[i], widths)];
      i := i + 1;
    }
    assert rows[..i] == rows;
  }
}
