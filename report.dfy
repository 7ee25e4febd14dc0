/**
 * The top level of the script: flatten, classify, then print the allowed
 * section and the denied section, each a table or a fixed placeholder.
 * Printed lines are returned as a sequence; a malformed tuple stops the
 * run before anything is printed.
 */
module Report {
  import opened Wrappers
  import opened FlowLog
  import opened Flattener
  import opened Classifier
  import opened TableRenderer

  const AllowedHeading: string := "=== ALLOWED TRAFFIC ==="
  const DeniedHeading: string := "=== DENIED TRAFFIC ==="
  const NoAllowed: string := "No allowed traffic found."
  const NoDenied: string := "No denied traffic found."

  /** A section's body: the table of its rows, or the placeholder when it has none. */
  function SectionLines(rows: seq<Row>, placeholder: string): seq<string>
  {
    if |rows| == 0 then [placeholder] else TableLines(rows)
  }

  /** Everything printed for a list of flattened rows. */
  function ReportLines(rows: seq<Row>): seq<string>
  {
    [AllowedHeading] + SectionLines(Allowed(rows), NoAllowed)
    + ["", DeniedHeading] + SectionLines(Denied(rows), NoDenied)
  }

  /** The printed lines of a run, or the error that ends it before any output. */
  function Output(doc: LogDocument): Result<seq<string>, FlattenError>
  {
    match FlattenDoc(doc)
    case Ok(rows) => Ok(ReportLines(rows))
    case Err(e) => Err(e)
  }

  /** `if not df.empty: print_centered_headers(df) else: print(placeholder)` */
  method PrintSection(rows: seq<Row>, placeholder: string) returns (lines: seq<string>)
    ensures lines == SectionLines(rows, placeholder)
  {
    if |rows| != 0 {
      lines := PrintCenteredHeaders(rows);
    } else {
      lines := [placeholder];
    }
  }

  /** The whole script after loading: flatten, classify, print both sections. */
  method Run(doc: LogDocument) returns (out: Result<seq<string>, FlattenError>)
    ensures out == Output(doc)
  {
    var flattened := Flatten(doc);
    if flattened.Err? {
      return Err(flattened.error);
    }
    var rows := flattened.value;
    var allowed := Allowed(rows);
    var denied := Denied(rows);
    var allowedLines := PrintSection(allowed, NoAllowed);
    var deniedLines := PrintSection(denied, NoDenied);
    // print("\n=== DENIED TRAFFIC ===") prints an empty line, then the heading.
    return Ok([AllowedHeading] + allowedLines + ["", DeniedHeading] + deniedLines);
  }

  /**
   * An empty section prints exactly its placeholder; a non-empty one prints
   * a real table, never an empty one: header, separator and a line per row.
   */
  lemma SectionShape(rows: seq<Row>, placeholder: string)
    ensures |rows| == 0 ==> SectionLines(rows, placeholder) == [placeholder]
    ensures |rows| > 0 ==>
              && |SectionLines(rows, placeholder)| == |rows| + 2
              && SectionLines(rows, placeholder)[0] == HeaderLine(ColumnWidths(rows))
              && SectionLines(rows, placeholder)[1] == SeparatorLine(ColumnWidths(rows))
              && forall i :: 0 <= i < |rows| ==>
                   SectionLines(rows, placeholder)[i + 2] == RowLine(rows[i], ColumnWidths(rows))
  {
    TableLayout(rows);
  }

  /** The number of lines a section takes. */
  function SectionSize(rows: seq<Row>): nat
  {
    if |rows| == 0 then 1 else |rows| + 2
  }

  /** A section starts with its placeholder exactly when it has no rows. */
  lemma FirstLinePlaceholder(rows: seq<Row>, placeholder: string)
    requires placeholder == NoAllowed || placeholder == NoDenied
    ensures |SectionLines(rows, placeholder)| == SectionSize(rows)
    ensures |rows| == 0 <==> SectionLines(rows, placeholder)[0] == placeholder
  {
    if |rows| > 0 {
      var widths := ColumnWidths(rows);
      assert |SectionLines(rows, placeholder)| == SectionSize(rows)
          && SectionLines(rows, placeholder)[0] == HeaderLine(widths) by {
        TableLayout(rows);
      }
      assert HeaderLine(widths) != placeholder by {
        WidthsFit(rows);
        HeaderIsNotPlaceholder(widths, placeholder);
      }
    }
  }

  /** A section ends with its placeholder exactly when it has no rows. */
  lemma LastLinePlaceholder(rows: seq<Row>, placeholder: string)
    requires placeholder == NoAllowed || placeholder == NoDenied
    ensures |SectionLines(rows, placeholder)| == SectionSize(rows)
    ensures |rows| == 0 <==> SectionLines(rows, placeholder)[SectionSize(rows) - 1] == placeholder
  {
    if |rows| > 0 {
      var widths := ColumnWidths(rows);
      var last := rows[|rows| - 1];
      assert |SectionLines(rows, placeholder)| == SectionSize(rows)
          && SectionLines(rows, placeholder)[SectionSize(rows) - 1] == RowLine(last, widths) by {
        TableLayout(rows);
      }
      assert RowLine(last, widths) != placeholder by {
        WidthsFit(rows);
        RowIsNotPlaceholder(last, widths, placeholder);
      }
    }
  }

  /**
   * The layout of the output: the allowed heading, the allowed section, an
   * empty line, the denied heading and the denied section, in that order.
   */
  lemma ReportLayout(rows: seq<Row>)
    ensures var out := ReportLines(rows);
            var a := SectionSize(Allowed(rows));
            && |out| == 3 + a + SectionSize(Denied(rows))
            && out[0] == AllowedHeading
            && out[1..1 + a] == SectionLines(Allowed(rows), NoAllowed)
            && out[1 + a] == ""
            && out[2 + a] == DeniedHeading
            && out[3 + a..] == SectionLines(Denied(rows), NoDenied)
  {
    SectionLength(Allowed(rows), NoAllowed);
    SectionLength(Denied(rows), NoDenied);
    Concatenation(SectionLines(Allowed(rows), NoAllowed), SectionLines(Denied(rows), NoDenied));
  }

  lemma SectionLength(rows: seq<Row>, placeholder: string)
    ensures |SectionLines(rows, placeholder)| == SectionSize(rows)
  {
  }

  /**
   * The placeholders appear exactly where a section is empty: the line after
   * the allowed heading is "No allowed traffic found." exactly when no row is
   * allowed, and the last line is "No denied traffic found." exactly when no
   * row is denied.
   */
  lemma ReportPlaceholders(rows: seq<Row>)
    ensures |ReportLines(rows)| > 2
    ensures |Allowed(rows)| == 0 <==> ReportLines(rows)[1] == NoAllowed
    ensures |Denied(rows)| == 0 <==> ReportLines(rows)[|ReportLines(rows)| - 1] == NoDenied
    ensures NoAllowed in ReportLines(rows) <==> |Allowed(rows)| == 0
    ensures NoDenied in ReportLines(rows) <==> |Denied(rows)| == 0
  {
    var allowedLines := SectionLines(Allowed(rows), NoAllowed);
    var deniedLines := SectionLines(Denied(rows), NoDenied);
    var out := ReportLines(rows);
    assert |allowedLines| > 0 && (|Allowed(rows)| == 0 <==> allowedLines[0] == NoAllowed) by {
      FirstLinePlaceholder(Allowed(rows), NoAllowed);
    }
    assert |deniedLines| > 0 && (|Denied(rows)| == 0 <==> deniedLines[|deniedLines| - 1] == NoDenied) by {
      LastLinePlaceholder(Denied(rows), NoDenied);
    }
    assert out == [AllowedHeading] + allowedLines + ["", DeniedHeading] + deniedLines;
    Concatenation(allowedLines, deniedLines);
    assert NoAllowed in allowedLines <==> |Allowed(rows)| == 0 by {
      PlaceholderInSection(Allowed(rows), NoAllowed, NoAllowed);
    }
    assert NoAllowed !in deniedLines by {
      PlaceholderInSection(Denied(rows), NoDenied, NoAllowed);
    }
    assert NoDenied in deniedLines <==> |Denied(rows)| == 0 by {
      PlaceholderInSection(Denied(rows), NoDenied, NoDenied);
    }
    assert NoDenied !in allowedLines by {
      PlaceholderInSection(Allowed(rows), NoAllowed, NoDenied);
    }
  }

  /**
   * A placeholder message appears in a section exactly when the section is
   * empty and the message is that section's own: no table line is ever one.
   */
  lemma PlaceholderInSection(rows: seq<Row>, placeholder: string, message: string)
    requires placeholder == NoAllowed || placeholder == NoDenied
    requires message == NoAllowed || message == NoDenied
    ensures message in SectionLines(rows, placeholder) <==> |rows| == 0 && message == placeholder
  {
    if |rows| > 0 {
      var widths := ColumnWidths(rows);
      var lines := SectionLines(rows, placeholder);
      assert Fits(rows, widths) by {
        WidthsFit(rows);
      }
      assert |lines| == |rows| + 2
          && lines[0] == HeaderLine(widths)
          && lines[1] == SeparatorLine(widths)
          && forall i :: 0 <= i < |rows| ==> lines[i + 2] == RowLine(rows[i], widths) by {
        TableLayout(rows);
      }
      forall k | 0 <= k < |lines|
        ensures lines[k] != message
      {
        if k == 0 {
          HeaderIsNotPlaceholder(widths, message);
        } else if k == 1 {
          SeparatorIsNotPlaceholder(widths, message);
        } else {
          assert lines[(k - 2) + 2] == lines[k];
          RowIsNotPlaceholder(rows[k - 2], widths, message);
        }
      }
    }
  }

  /** The separator line starts with a dash, which neither placeholder does. */
  lemma SeparatorIsNotPlaceholder(widths: seq<nat>, placeholder: string)
    requires |widths| > 0 && widths[0] > 0
    requires placeholder == NoAllowed || placeholder == NoDenied
    ensures SeparatorLine(widths) != placeholder
  {
    SeparatorCell(widths, 0);
    assert SeparatorLine(widths)[0] == SeparatorLine(widths)[0..widths[0]][0] == '-';
  }

  /** Where the pieces of the report land in the concatenated output. */
  lemma Concatenation(allowedLines: seq<string>, deniedLines: seq<string>)
    requires |allowedLines| > 0 && |deniedLines| > 0
    ensures var out := [AllowedHeading] + allowedLines + ["", DeniedHeading] + deniedLines;
            var a := |allowedLines|;
            && |out| == 3 + a + |deniedLines|
            && out[0] == AllowedHeading
            && out[1..1 + a] == allowedLines
            && out[1 + a] == ""
            && out[2 + a] == DeniedHeading
            && out[3 + a..] == deniedLines
            && out[1] == allowedLines[0]
            && out[|out| - 1] == deniedLines[|deniedLines| - 1]
  {
    var out := [AllowedHeading] + allowedLines + ["", DeniedHeading] + deniedLines;
    var a := |allowedLines|;
    assert out[1..1 + a] == allowedLines;
    assert out[3 + a..] == deniedLines;
  }

  /** A table header line always holds the " | " between its first two cells, which neither placeholder does. */
  lemma HeaderIsNotPlaceholder(widths: seq<nat>, placeholder: string)
    requires |widths| == |Headers|
    requires forall d :: 0 <= d < |Headers| ==> |Headers[d]| <= widths[d]
    requires placeholder == NoAllowed || placeholder == NoDenied
    ensures HeaderLine(widths) != placeholder
  {
    HeaderCell(widths, 1);
    var start := Offset(widths, |CellSeparator|, 1);
    if HeaderLine(widths) == placeholder {
      assert placeholder[start - 3..start] == " | ";
      NoBarInPlaceholder(placeholder, start - 3);
    }
  }

  /** A row line always holds the " | " before its second cell, which neither placeholder does. */
  lemma RowIsNotPlaceholder(row: Row, widths: seq<nat>, placeholder: string)
    requires |widths| == |Headers|
    requires forall d :: 0 <= d < |Headers| ==> |Cells(row)[d]| <= widths[d]
    requires placeholder == NoAllowed || placeholder == NoDenied
    ensures RowLine(row, widths) != placeholder
  {
    RowCell(row, widths, 1);
    var start := Offset(widths, |CellSeparator|, 1);
    if RowLine(row, widths) == placeholder {
      assert placeholder[start - 3..start] == " | ";
      NoBarInPlaceholder(placeholder, start - 3);
    }
  }

  /** The placeholders contain no '|'. */
  lemma NoBarInPlaceholder(placeholder: string, p: int)
    requires placeholder == NoAllowed || placeholder == NoDenied
    requires 0 <= p && p + 3 <= |placeholder|
    ensures placeholder[p..p + 3] != " | "
  {
    assert placeholder[p..p + 3][1] == placeholder[p + 1];
  }

  /**
   * A run prints nothing and fails exactly when some tuple of the document
   * splits into fewer than eight fields; otherwise it prints the report of
   * the flattened rows.
   */
  lemma RunOutcome(doc: LogDocument)
    ensures Output(doc).Err? <==> exists i :: 0 <= i < |DocSites(doc)| && !WellFormed(DocSites(doc)[i].tuple)
    ensures Output(doc).Ok? ==> FlattenDoc(doc).Ok? && Output(doc).value == ReportLines(FlattenDoc(doc).value)
  {
    FlattenRows(DocSites(doc));
  }
}
