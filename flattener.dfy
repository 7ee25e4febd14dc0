/**
 * The flattener: four nested loops over records, flows, groups and tuple
 * strings that split each tuple on "," and append one eight-column row.
 * A tuple with fewer than eight fields stops the whole run.
 */
module Flattener {
  import opened Wrappers
  import opened Strings
  import opened FlowLog

  /** Indexing field 7 of a tuple that split into fewer than eight fields. */
  datatype FlattenError = MalformedTuple(tuple: string)

  /** A tuple string is usable when it splits into at least eight fields. */
  predicate WellFormed(tuple: string)
  {
    |Split(tuple, ',')| >= 8
  }

  /** The row for a well-formed tuple: record time and category, group rule, fields 5, 4, 1, 2 and 7. */
  function MakeRow(site: TupleSite): (row: Row)
    requires WellFormed(site.tuple)
    ensures row.time == site.time && row.category == site.category && row.rule == site.rule
    ensures ',' !in row.protocol && ',' !in row.port && ',' !in row.srcIP
            && ',' !in row.destIP && ',' !in row.action
  {
    var f := Split(site.tuple, ',');
    Row(site.time, site.category, site.rule, f[5], f[4], f[1], f[2], f[7])
  }

  /** Rows of a walk in order, or the first malformed tuple met. */
  function FlattenSites(sites: seq<TupleSite>): (res: Result<seq<Row>, FlattenError>)
    ensures res.Ok? ==> |res.value| == |sites|
  {
    if sites == [] then Ok([])
    else if !WellFormed(sites[0].tuple) then Err(MalformedTuple(sites[0].tuple))
    else match FlattenSites(sites[1..])
      case Ok(rows) => Ok([MakeRow(sites[0])] + rows)
      case Err(e) => Err(e)
  }

  /** The whole document flattened. */
  function FlattenDoc(doc: LogDocument): Result<seq<Row>, FlattenError>
  {
    FlattenSites(DocSites(doc))
  }

  /** Sequencing two stages: the first error wins, otherwise rows are concatenated. */
  function Then(a: Result<seq<Row>, FlattenError>, b: Result<seq<Row>, FlattenError>): Result<seq<Row>, FlattenError>
  {
    match a
    case Err(e) => Err(e)
    case Ok(x) => (match b case Err(e) => Err(e) case Ok(y) => Ok(x + y))
  }

  /** Appending to no rows leaves a result as it is. */
  lemma ThenFromNothing(b: Result<seq<Row>, FlattenError>)
    ensures Then(Ok([]), b) == b
  {
    if b.Ok? {
      assert [] + b.value == b.value;
    }
  }

  /** Flattening a walk split in two is flattening the first part and then the second. */
  lemma {:induction false} FlattenAppend(a: seq<TupleSite>, b: seq<TupleSite>)
    ensures FlattenSites(a + b) == Then(FlattenSites(a), FlattenSites(b))
  {
    if a == [] {
      assert a + b == b;
      match FlattenSites(b) {
        case Ok(y) => assert [] + y == y;
        case Err(_) =>
      }
    } else {
      assert (a + b)[0] == a[0];
      assert (a + b)[1..] == a[1..] + b;
      FlattenAppend(a[1..], b);
      if WellFormed(a[0].tuple) {
        match FlattenSites(a[1..]) {
          case Err(_) =>
          case Ok(x) =>
            match FlattenSites(b) {
              case Err(_) =>
              case Ok(y) => assert [MakeRow(a[0])] + (x + y) == ([MakeRow(a[0])] + x) + y;
            }
        }
      }
    }
  }

  /** An error met in a prefix of the walk is the error of the whole walk. */
  lemma ErrorOfPrefix(p: seq<TupleSite>, q: seq<TupleSite>)
    requires p <= q
    requires FlattenSites(p).Err?
    ensures FlattenSites(q) == FlattenSites(p)
  {
    assert q == p + q[|p|..];
    FlattenAppend(p, q[|p|..]);
  }

  /**
   * Flattening succeeds exactly when every tuple is well formed; the rows
   * then correspond one to one, in order, to the tuples, each carrying its
   * record's time and category, its group's rule and fields 5, 4, 1, 2, 7.
   */
  lemma {:induction false} FlattenRows(sites: seq<TupleSite>)
    ensures FlattenSites(sites).Ok? <==> forall i :: 0 <= i < |sites| ==> WellFormed(sites[i].tuple)
    ensures FlattenSites(sites).Ok? ==>
              forall i :: 0 <= i < |sites| ==>
                var f := Split(sites[i].tuple, ',');
                && |f| >= 8
                && FlattenSites(sites).value[i] == Row(sites[i].time, sites[i].category, sites[i].rule,
                                                      f[5], f[4], f[1], f[2], f[7])
  {
    if sites != [] {
      FlattenRows(sites[1..]);
      if !WellFormed(sites[0].tuple) {
        assert !(forall i :: 0 <= i < |sites| ==> WellFormed(sites[i].tuple));
      } else if FlattenSites(sites[1..]).Err? {
        var i :| 0 <= i < |sites[1..]| && !WellFormed(sites[1..][i].tuple);
        assert !WellFormed(sites[i + 1].tuple);
      } else {
        forall i | 0 <= i < |sites|
          ensures WellFormed(sites[i].tuple)
        {
          if i > 0 { assert sites[i] == sites[1..][i - 1]; }
        }
      }
    }
  }

  /** A failure names the first malformed tuple in document order. */
  lemma {:induction false} FlattenFailsAtFirstMalformed(sites: seq<TupleSite>)
    requires FlattenSites(sites).Err?
    ensures exists i ::
              && 0 <= i < |sites|
              && !WellFormed(sites[i].tuple)
              && (forall j :: 0 <= j < i ==> WellFormed(sites[j].tuple))
              && FlattenSites(sites).error == MalformedTuple(sites[i].tuple)
  {
    if WellFormed(sites[0].tuple) {
      FlattenFailsAtFirstMalformed(sites[1..]);
      var i :| && 0 <= i < |sites[1..]|
               && !WellFormed(sites[1..][i].tuple)
               && (forall j :: 0 <= j < i ==> WellFormed(sites[1..][j].tuple))
               && FlattenSites(sites[1..]).error == MalformedTuple(sites[1..][i].tuple);
      assert forall j :: 0 < j < i + 1 ==> sites[j] == sites[1..][j - 1];
      assert sites[i + 1] == sites[1..][i];
    }
  }

  /** The number of rows of a successful run is the number of tuple strings in the document. */
  lemma RowCount(doc: LogDocument)
    requires FlattenDoc(doc).Ok?
    ensures |FlattenDoc(doc).value| == RecordsTupleCount(doc.records)
  {
    DocSitesCount(doc);
  }

  /** The document is flattened record by record: the rows of `a + b` are those of `a` then those of `b`. */
  lemma FlattenRecordsInOrder(a: seq<Record>, b: seq<Record>)
    ensures FlattenDoc(LogDocument(a + b)) == Then(FlattenDoc(LogDocument(a)), FlattenDoc(LogDocument(b)))
  {
    RecordsSitesAppend(a, b);
    FlattenAppend(RecordsSites(a), RecordsSites(b));
  }

  /** Every row built from a group's tuples carries that group's rule, absent when the group has none. */
  lemma GroupRuleCopied(rec: Record, g: FlowGroup)
    requires FlattenSites(TupleSites(rec, g.rule, g.flowTuples)).Ok?
    ensures var rows := FlattenSites(TupleSites(rec, g.rule, g.flowTuples)).value;
            && |rows| == |g.flowTuples|
            && forall i :: 0 <= i < |rows| ==>
                 rows[i].rule == g.rule && rows[i].time == rec.time && rows[i].category == rec.category
  {
    TupleSitesAt(rec, g.rule, g.flowTuples);
    FlattenRows(TupleSites(rec, g.rule, g.flowTuples));
  }

  /** Flattening a single site: its row, or the error naming its tuple. */
  lemma FlattenOne(site: TupleSite)
    ensures FlattenSites([site]) == if WellFormed(site.tuple) then Ok([MakeRow(site)]) else Err(MalformedTuple(site.tuple))
  {
    assert [site][1..] == [] && [site][0] == site;
    assert FlattenSites([]) == Ok([]);
    if WellFormed(site.tuple) {
      assert [MakeRow(site)] + [] == [MakeRow(site)];
    }
  }

  /**
   * One step of a loop that has flattened `prefix` onto `start`, giving `rows`,
   * and now flattens `next`: on success the loop has flattened `prefix + next`,
   * and on failure the whole walk, of which `prefix + next` is a prefix, fails
   * the same way.
   */
  lemma LoopStep(start: seq<Row>, prefix: seq<TupleSite>, next: seq<TupleSite>, whole: seq<TupleSite>,
                 rows: seq<Row>, r: Result<seq<Row>, FlattenError>)
    requires prefix + next <= whole
    requires Then(Ok(start), FlattenSites(prefix)) == Ok(rows)
    requires r == Then(Ok(rows), FlattenSites(next))
    ensures r.Ok? ==> Then(Ok(start), FlattenSites(prefix + next)) == r
    ensures r.Err? ==> Then(Ok(start), FlattenSites(whole)) == r
  {
    FlattenAppend(prefix, next);
    match FlattenSites(prefix) {
      case Err(_) =>
      case Ok(x) =>
        match FlattenSites(next) {
          case Err(_) =>
            ErrorOfPrefix(prefix + next, whole);
          case Ok(y) =>
            assert start + (x + y) == (start + x) + y;
        }
    }
  }

  /** The innermost loop: the rows of one group's tuples appended to `rows`. */
  method AppendGroupRows(rows: seq<Row>, rec: Record, rule: Option<string>, tuples: seq<string>)
    returns (result: Result<seq<Row>, FlattenError>)
    ensures result == Then(Ok(rows), FlattenSites(TupleSites(rec, rule, tuples)))
  {
    var acc := rows;
    var l := 0;
    assert tuples[..0] == [] && rows + [] == rows;
    while l < |tuples|
      invariant 0 <= l <= |tuples|
      invariant Then(Ok(rows), FlattenSites(TupleSites(rec, rule, tuples[..l]))) == Ok(acc)
    {
      var tupleFields := Split(tuples[l], ',');
      ghost var site := TupleSite(rec.time, rec.category, rule, tuples[l]);
      var r: Result<seq<Row>, FlattenError>;
      if |tupleFields| < 8 {
        r := Err(MalformedTuple(tuples[l]));
      } else {
        r := Ok(acc + [Row(rec.time, rec.category, rule, tupleFields[5], tupleFields[4],
                           tupleFields[1], tupleFields[2], tupleFields[7])]);
      }
      ghost var prefix := TupleSites(rec, rule, tuples[..l]);
      assert prefix + [site] == TupleSites(rec, rule, tuples[..l + 1]) by {
        assert tuples[..l + 1][..l] == tuples[..l];
      }
      assert prefix + [site] <= TupleSites(rec, rule, tuples) by {
        TupleSitesPrefix(rec, rule, tuples, l + 1);
      }
      assert r == Then(Ok(acc), FlattenSites([site])) by {
        FlattenOne(site);
      }
      LoopStep(rows, prefix, [site], TupleSites(rec, rule, tuples), acc, r);
      if r.Err? {
        return r;
      }
      acc := r.value;
      l := l + 1;
    }
    assert tuples[..l] == tuples;
    return Ok(acc);
  }

  /** The loop over the groups of one flow; each group's rule is read once and shared by its rows. */
  method AppendFlowRows(rows: seq<Row>, rec: Record, groups: seq<FlowGroup>)
    returns (result: Result<seq<Row>, FlattenError>)
    ensures result == Then(Ok(rows), FlattenSites(GroupsSites(rec, groups)))
  {
    var acc := rows;
    var k := 0;
    assert groups[..0] == [] && rows + [] == rows;
    while k < |groups|
      invariant 0 <= k <= |groups|
      invariant Then(Ok(rows), FlattenSites(GroupsSites(rec, groups[..k]))) == Ok(acc)
    {
      var rule := groups[k].rule;
      var r := AppendGroupRows(acc, rec, rule, groups[k].flowTuples);
      assert groups[..k + 1][..k] == groups[..k];
      GroupsSitesPrefix(rec, groups, k + 1);
      LoopStep(rows, GroupsSites(rec, groups[..k]), TupleSites(rec, rule, groups[k].flowTuples),
               GroupsSites(rec, groups), acc, r);
      if r.Err? {
        return r;
      }
      acc := r.value;
      k := k + 1;
    }
    assert groups[..k] == groups;
    return Ok(acc);
  }

  /** The loop over the flows of one record. */
  method AppendRecordRows(rows: seq<Row>, rec: Record)
    returns (result: Result<seq<Row>, FlattenError>)
    ensures result == Then(Ok(rows), FlattenSites(FlowsSites(rec, rec.flowRecords.flows)))
  {
    var flows := rec.flowRecords.flows;
    var acc := rows;
    var j := 0;
    assert flows[..0] == [] && rows + [] == rows;
    while j < |flows|
      invariant 0 <= j <= |flows|
      invariant Then(Ok(rows), FlattenSites(FlowsSites(rec, flows[..j]))) == Ok(acc)
    {
      var r := AppendFlowRows(acc, rec, flows[j].flowGroups);
      assert flows[..j + 1][..j] == flows[..j];
      FlowsSitesPrefix(rec, flows, j + 1);
      LoopStep(rows, FlowsSites(rec, flows[..j]), GroupsSites(rec, flows[j].flowGroups),
               FlowsSites(rec, flows), acc, r);
      if r.Err? {
        return r;
      }
      acc := r.value;
      j := j + 1;
    }
    assert flows[..j] == flows;
    return Ok(acc);
  }

  /**
   * The flattening loop over the records: the rows it builds are those of
   * FlattenDoc, and it stops on the first malformed tuple with no rows.
   */
  method Flatten(doc: LogDocument) returns (result: Result<seq<Row>, FlattenError>)
    ensures result == FlattenDoc(doc)
  {
    var rows: seq<Row> := [];
    var i := 0;
    assert doc.records[..0] == [] && rows + [] == rows;
    while i < |doc.records|
      invariant 0 <= i <= |doc.records|
      invariant Then(Ok([]), FlattenSites(RecordsSites(doc.records[..i]))) == Ok(rows)
    {
      var rec := doc.records[i];
      var r := AppendRecordRows(rows, rec);
      assert doc.records[..i + 1][..i] == doc.records[..i];
      RecordsSitesPrefix(doc.records, i + 1);
      LoopStep([], RecordsSites(doc.records[..i]), FlowsSites(rec, rec.flowRecords.flows),
               RecordsSites(doc.records), rows, r);
      if r.Err? {
        ThenFromNothing(FlattenDoc(doc));
        return r;
      }
      rows := r.value;
      i := i + 1;
    }
    assert doc.records[..i] == doc.records;
    ThenFromNothing(FlattenDoc(doc));
    return Ok(rows);
  }
}
