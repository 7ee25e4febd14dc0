# Flow-log report, modelled in Dafny

`session3/parse_flowlog.py` reads a network-security-group flow log and prints two
tables: the allowed traffic and the denied traffic. This project models everything
the script does after the JSON document is loaded, and proves properties of it.

- **FlowLog** (`flowlog.dfy`): the loaded document as datatypes. A document holds
  records. Each record holds flows, each flow holds rule groups, and each group holds
  tuple strings and an optional `rule`. The file also gives the document-order walk
  of every tuple, together with the time, category and rule that go with it.
- **Flattener** (`flattener.dfy`): the four nested loops that build one 8-column row
  per tuple. Each loop is a method, proved against the specification function
  `FlattenSites`. A tuple with fewer than eight comma-separated fields stops the run
  with `Err(MalformedTuple(tuple))`. This models the script's out-of-range index.
- **Classifier** (`classifier.dfy`): the allowed rows (action A, B or E) and the
  denied rows (action D), each kept in the flattened order.
- **TableRenderer** (`renderer.dfy`): `print_centered_headers`, which does the
  following:
  - sets each column's width to the longest of its header and its values;
  - centres the headers on one line, joined by `" | "`;
  - prints a separator line of dashes, joined by `"-+-"`;
  - prints one left-justified line per row.
- **Report** (`report.dfy`): the driver. It prints the allowed section, then the
  denied section. Each section is either a table or its placeholder message.
- **Strings** (`strings.dfy`): the Python string operations the script uses:
  - `str.split` with a one-character separator;
  - `str.join`, `str.ljust` and `str.center` (CPython's placement of an odd margin);
  - `'-' * n`.
- **Scenarios** (`scenarios.dfy`): concrete one-tuple documents run end to end.

Printing is modelled by returning, in order, one string per `print` call: the
argument that call writes before its newline. The one exception is
`print("\n=== DENIED TRAFFIC ===")`, which becomes two strings: an empty one and
the heading. When no value of the document contains a newline, each returned
string is exactly one output line.

## Model

| member | source | states |
|---|---|---|
| Strings.Split | session3/parse_flowlog.py:13 | `tuple_str.split(",")` gives one more field than there are commas, and no field contains a comma |
| Strings.JoinSplit | session3/parse_flowlog.py:13 | joining the split fields with the separator gives back the original string |
| Strings.SplitJoin | session3/parse_flowlog.py:13 | splitting fields joined by a separator none of them contains gives back exactly those fields |
| Strings.Join | session3/parse_flowlog.py:38-43 | `sep.join(cells)`; JoinSplit and SplitJoin make it the inverse of `split`, and JoinLength, JoinCellAt and JoinSeparatorAt place each cell and separator in the line |
| Strings.Repeat | session3/parse_flowlog.py:40 | `'-' * width` has length `width` and every character is the dash |
| Strings.LJust | session3/parse_flowlog.py:43 | `ljust(width)` keeps the value as a prefix, pads with spaces, and has length max(width, len) |
| Strings.Center | session3/parse_flowlog.py:38 | `center(width)` has length max(width, len) |
| Strings.CenterPlacement | session3/parse_flowlog.py:38 | the centred text is spaces, then the header unchanged, then spaces, with the two margins differing by at most one |
| FlowLog.TupleSitesAt | session3/parse_flowlog.py:12-17 | a group's walk visits each of its tuples once, in order, with the record's time and category and the group's rule |
| FlowLog.GroupsSitesAppend | session3/parse_flowlog.py:10-12 | walking two runs of groups one after the other equals walking them together |
| FlowLog.FlowsSitesAppend | session3/parse_flowlog.py:9-10 | walking two runs of flows one after the other equals walking them together |
| FlowLog.RecordsSitesAppend | session3/parse_flowlog.py:8-9 | walking two runs of records one after the other equals walking them together |
| FlowLog.DocSitesCount | session3/parse_flowlog.py:8-12 | the walk visits exactly as many tuples as the records, flows and groups hold in total |
| Flattener.FlattenSites | session3/parse_flowlog.py:12-23 | a successful flattening gives one row per visited tuple |
| Flattener.MakeRow | session3/parse_flowlog.py:14-23 | the row copies the record's time and category and the group's rule, and every other value is one comma-free field of the tuple; FlattenRows states which field goes where (5, 4, 1, 2, 7) |
| Flattener.FlattenDoc | session3/parse_flowlog.py:7-23 | the flattening of the whole document; FlattenRows, FlattenFailsAtFirstMalformed, RowCount and FlattenRecordsInOrder state its results, and Flatten is proved to compute it |
| Flattener.FlattenAppend | session3/parse_flowlog.py:7-23 | flattening a concatenation is flattening the first part, then appending the second part's rows unless the first part failed |
| Flattener.ErrorOfPrefix | session3/parse_flowlog.py:13-22 | once a prefix fails, anything that extends it fails with the same error |
| Flattener.FlattenRows | session3/parse_flowlog.py:13-22 | flattening succeeds iff every tuple has at least 8 fields; row i then holds the site's time, category and rule and fields 5, 4, 1, 2 and 7 of the tuple |
| Flattener.FlattenFailsAtFirstMalformed | session3/parse_flowlog.py:13-22 | a failure names the first tuple with fewer than 8 fields, and every earlier tuple is well formed |
| Flattener.RowCount | session3/parse_flowlog.py:8-14 | a successful run gives as many rows as the document has tuples |
| Flattener.FlattenRecordsInOrder | session3/parse_flowlog.py:8-23 | the rows of records `a + b` are the rows of `a` followed by the rows of `b` |
| Flattener.GroupRuleCopied | session3/parse_flowlog.py:11-17 | every row built from a group carries that group's rule, or none when it has none, and its record's time and category |
| Flattener.FlattenOne | session3/parse_flowlog.py:13-23 | one tuple gives its row when it has at least 8 fields, and the malformed-tuple error otherwise |
| Flattener.AppendGroupRows | session3/parse_flowlog.py:12-23 | the innermost loop appends the group's rows to `rows`, or stops at the group's first malformed tuple |
| Flattener.AppendFlowRows | session3/parse_flowlog.py:10-23 | the group loop reads each group's rule once and appends the flow's rows in group order |
| Flattener.AppendRecordRows | session3/parse_flowlog.py:9-23 | the flow loop appends the record's rows in flow order |
| Flattener.Flatten | session3/parse_flowlog.py:7-23 | the four nested loops compute exactly the flattening of the document's walk, including its error |
| Classifier.Keep | session3/parse_flowlog.py:31 | a filter is no longer than its input, and every kept row has one of the codes |
| Classifier.Drop | session3/parse_flowlog.py:31-32 | the complementary filter is no longer than its input, and no remaining row has one of the codes |
| Classifier.Allowed | session3/parse_flowlog.py:31 | `df[df["action"].isin(["A", "B", "E"])]` is no longer than its input and keeps only actions A, B and E; ClassifyRow, ClassifyStable and ClassifyPartition give membership, order and the partition |
| Classifier.Denied | session3/parse_flowlog.py:32 | `df[df["action"] == "D"]` is no longer than its input and keeps only action D; ClassifyRow, ClassifyStable and ClassifyPartition give membership, order and the partition |
| Classifier.KeepSingle | session3/parse_flowlog.py:31 | a single row is kept exactly when its action is one of the codes |
| Classifier.KeepMembership | session3/parse_flowlog.py:31 | a row is kept iff it is in the input and its action is one of the codes |
| Classifier.KeepIsSubsequence | session3/parse_flowlog.py:31 | the kept rows are a subsequence of the input, in the same order |
| Classifier.KeepConcat | session3/parse_flowlog.py:31 | filtering distributes over concatenation |
| Classifier.KeepPartition | session3/parse_flowlog.py:31-32 | for disjoint code sets, the two filters and the rest together are a permutation of the input |
| Classifier.ClassifyPartition | session3/parse_flowlog.py:31-32 | allowed, denied and unclassified rows together are a permutation of the flattened rows |
| Classifier.ClassifyRow | session3/parse_flowlog.py:31-32 | a row is allowed iff its action is A, B or E, and denied iff it is D; no row is both, and any other code is in neither |
| Classifier.ClassifyStable | session3/parse_flowlog.py:31-32 | the allowed and the denied rows each keep the flattened order |
| TableRenderer.Cells | session3/parse_flowlog.py:42-43 | a row gives one string per column |
| TableRenderer.Text | session3/parse_flowlog.py:43 | `str(val)`: a present value prints as itself and an absent rule as "None", as MissingRuleRun shows |
| TableRenderer.MaxLength | session3/parse_flowlog.py:36 | `max(len(...))` is at least every length and equals one of them |
| TableRenderer.Column | session3/parse_flowlog.py:36 | `df[col].astype(str)` holds row i's value of that column at position i |
| TableRenderer.ColumnWidths | session3/parse_flowlog.py:36 | there is one width per column |
| TableRenderer.ColumnWidthsBound | session3/parse_flowlog.py:36 | a column's width is at least its header's length and every value's length, and equals one of them |
| TableRenderer.WidthsFit | session3/parse_flowlog.py:36 | the computed widths leave room for every header and every value |
| TableRenderer.HeaderCells | session3/parse_flowlog.py:38 | header cell c is header c centred to width c |
| TableRenderer.DashCells | session3/parse_flowlog.py:40 | separator cell c is width c dashes |
| TableRenderer.RowCells | session3/parse_flowlog.py:43 | row cell c is value c left-justified to width c |
| TableRenderer.HeaderLine | session3/parse_flowlog.py:38 | the centred header cells joined by " \| "; HeaderLineWidth and HeaderCell state its width and the place of each header |
| TableRenderer.SeparatorLine | session3/parse_flowlog.py:40 | the dash runs joined by "-+-"; SeparatorLineWidth and SeparatorCell state its width and the place of each run |
| TableRenderer.RowLine | session3/parse_flowlog.py:43 | the left-justified values joined by " \| "; RowLineWidth and RowCell state its width and the place of each value |
| TableRenderer.TableLines | session3/parse_flowlog.py:36-43 | everything `print_centered_headers` prints; TableLayout states its shape and PrintCenteredHeaders is proved to compute it |
| TableRenderer.JoinLength | session3/parse_flowlog.py:38 | joining cells of the column widths gives a line of the table's width |
| TableRenderer.JoinCellAt | session3/parse_flowlog.py:43 | in a joined line, cell c sits whole at its column offset |
| TableRenderer.JoinSeparatorAt | session3/parse_flowlog.py:43 | in a joined line, every cell after the first is preceded by the separator |
| TableRenderer.HeaderLineWidth | session3/parse_flowlog.py:38 | the header line is as wide as the table |
| TableRenderer.SeparatorLineWidth | session3/parse_flowlog.py:40 | the separator line is as wide as the table |
| TableRenderer.RowLineWidth | session3/parse_flowlog.py:43 | a row line is as wide as the table when its values fit their columns |
| TableRenderer.TableShape | session3/parse_flowlog.py:38-43 | with fitting widths, a table is its header line, its separator line and one line per row in order, all of one width |
| TableRenderer.TableLayout | session3/parse_flowlog.py:36-43 | the rendered table has |rows| + 2 lines in that order, and all of them are the same length |
| TableRenderer.RowCell | session3/parse_flowlog.py:43 | column c of a row line is the value itself, uncut, then spaces to the column width, with " \| " before it after the first column |
| TableRenderer.PaddedCellAt | session3/parse_flowlog.py:43 | a left-justified cell of a joined line holds its value followed by spaces |
| TableRenderer.HeaderCell | session3/parse_flowlog.py:38 | column c of the header line is the centred header at its offset, with " \| " before it after the first column |
| TableRenderer.SeparatorCell | session3/parse_flowlog.py:40 | column c of the separator line is a run of dashes as wide as the column, with "-+-" before it after the first column |
| TableRenderer.TableGrows | session3/parse_flowlog.py:42-43 | rendering one more row adds exactly that row's line at the end |
| TableRenderer.PrintCenteredHeaders | session3/parse_flowlog.py:34-43 | the loop outputs exactly the table's lines: header, separator, then rows in order |
| Report.PrintSection | session3/parse_flowlog.py:46-49 | a section outputs the table of its rows, or only its placeholder when there are none |
| Report.SectionLines | session3/parse_flowlog.py:46-49 | a section is its table, or its placeholder when it has no rows; SectionShape, SectionLength and PlaceholderInSection state it |
| Report.ReportLines | session3/parse_flowlog.py:45-55 | the whole printed report for the flattened rows; ReportLayout and ReportPlaceholders state its layout |
| Report.Output | session3/parse_flowlog.py:7-55 | a run's printed lines or its flattening error; RunOutcome states when each happens, and Run is proved to compute it |
| Report.Run | session3/parse_flowlog.py:7-55 | the script outputs the allowed section, an empty line, the denied heading and the denied section, or fails with the flattening error |
| Report.SectionShape | session3/parse_flowlog.py:46-49 | an empty section is only its placeholder; otherwise it is the header line, the separator line and one line per row |
| Report.FirstLinePlaceholder | session3/parse_flowlog.py:46-49 | a section's first line is its placeholder iff it has no rows |
| Report.LastLinePlaceholder | session3/parse_flowlog.py:52-55 | a section's last line is its placeholder iff it has no rows |
| Report.SectionLength | session3/parse_flowlog.py:46-49 | a section has one line when empty and |rows| + 2 lines otherwise |
| Report.ReportLayout | session3/parse_flowlog.py:45-55 | the report is the allowed heading, the allowed section, an empty line, the denied heading and the denied section, in that order |
| Report.ReportPlaceholders | session3/parse_flowlog.py:45-55 | the line after the allowed heading is "No allowed traffic found." iff nothing is allowed, and the last line is "No denied traffic found." iff nothing is denied; each message appears anywhere in the output iff its section is empty |
| Report.PlaceholderInSection | session3/parse_flowlog.py:46-55 | a placeholder message appears in a section iff the section is empty and the message is its own |
| Report.Concatenation | session3/parse_flowlog.py:45-55 | the report's lines are found at the stated positions of the headings and sections |
| Report.HeaderIsNotPlaceholder | session3/parse_flowlog.py:38 | a header line is never a placeholder message |
| Report.RowIsNotPlaceholder | session3/parse_flowlog.py:43 | a row line is never a placeholder message |
| Report.SeparatorIsNotPlaceholder | session3/parse_flowlog.py:40 | a separator line is never a placeholder message |
| Report.NoBarInPlaceholder | session3/parse_flowlog.py:46-55 | the placeholder messages contain no " \| " |
| Report.RunOutcome | session3/parse_flowlog.py:7-55 | the script fails iff some tuple has fewer than 8 fields; otherwise it outputs the report of the flattened rows |
| Scenarios.SampleSplit | session3/parse_flowlog.py:13 | a sample tuple splits back into its eight fields |
| Scenarios.SingleTupleSites | session3/parse_flowlog.py:8-12 | a one-tuple document's walk visits that tuple with its record's time and category and its group's rule |
| Scenarios.SingleTupleRun | session3/parse_flowlog.py:7-32 | one well-formed tuple gives the expected row; it is allowed exactly for A, B and E, denied exactly for D, and otherwise in neither |
| Scenarios.MissingRuleRun | session3/parse_flowlog.py:11 | a group without a rule gives rows with no rule, and the rule prints as "None" |
| Scenarios.ShortTupleRun | session3/parse_flowlog.py:13-22 | a tuple of five fields makes the whole run fail |

## Left out

- Opening `flowlog.json` and `json.load` (lines 4-5) are file I/O and a library parser. The model starts from an already-typed `LogDocument`.
- Missing JSON keys (`records`, `flowRecords`, `flows`, `flowGroups`, `flowTuples`, `time`, `category`) raise `KeyError` in the script. The datatypes always have these fields, so that failure is not modelled. A missing `rule` is modelled, as `None` (line 11).
- JSON values that are not strings (a number as a time, say) are not modelled. Every field of the document is a string.
- The pandas machinery (lines 29-43) is modelled as plain sequences and stable filters: `DataFrame`, `isin`, boolean indexing, `iterrows` and `astype(str)`. Stringification is the identity on strings, and an absent rule prints as "None".
- A value containing a newline (a time, category, rule or tuple field) is printed by Python over several output lines. The model keeps it inside one string. TableLayout's "all lines the same length" is about these strings, one per `print` call, and not about the output lines.
- `print` (lines 39-55) is modelled by returning one string per call, in order, instead of writing to standard output. On failure, the lines printed before the error are not modelled. The script fails before it prints anything, because flattening comes first.
- Flattener.Flatten splits the four nested loops of lines 8-23 into one method per level (AppendRecordRows, AppendFlowRows, AppendGroupRows). They append to a returned sequence, not to one shared list mutated in place.
- Strings.CenterPlacement states that the margins differ by at most one, not which side gets the odd space. The body of Strings.Center follows CPython's rule: the left margin is half the margin, plus one when both the margin and the width are odd.
