/** Concrete runs of the pipeline on one-tuple documents. */
module Scenarios {
  import opened Wrappers
  import opened Strings
  import opened FlowLog
  import opened Flattener
  import opened Classifier
  import opened Report

  /** A document with one record, one flow, one group and one tuple. */
  function SingleTupleDoc(rule: Option<string>, tuple: string): LogDocument
  {
    LogDocument([Record("2024-01-01T00:00:00Z", "Traffic", FlowRecords([Flow([FlowGroup(rule, [tuple])])]))])
  }

  /** The tuple 1,10.0.0.1,10.0.0.2,2,443,tcp,3,<action>. */
  function SampleFields(action: string): seq<string>
  {
    ["1", "10.0.0.1", "10.0.0.2", "2", "443", "tcp", "3", action]
  }

  lemma SampleSplit(action: string)
    requires ',' !in action
    ensures Split(Join(SampleFields(action), ","), ',') == SampleFields(action)
  {
    var f := SampleFields(action);
    assert forall i :: 0 <= i < |f| ==> ',' !in f[i];
    SplitJoin(f, ',');
  }

  /** The walk of a one-tuple document visits that tuple once, with its record's time and category and its group's rule. */
  lemma SingleTupleSites(rule: Option<string>, tuple: string)
    ensures DocSites(SingleTupleDoc(rule, tuple)) == [TupleSite("2024-01-01T00:00:00Z", "Traffic", rule, tuple)]
  {
    var doc := SingleTupleDoc(rule, tuple);
    var rec := doc.records[0];
    var site := TupleSite("2024-01-01T00:00:00Z", "Traffic", rule, tuple);
    assert [rec][..0] == [];
    assert rec.flowRecords.flows[..0] == [];
    assert rec.flowRecords.flows[0].flowGroups[..0] == [];
    assert [tuple][..0] == [];
    var g := rec.flowRecords.flows[0].flowGroups[0];
    assert TupleSites(rec, rule, [tuple]) == [site];
    assert GroupsSites(rec, [g]) == [site];
    assert FlowsSites(rec, rec.flowRecords.flows) == [site];
    assert doc.records == [rec] && doc.records[..0] == [];
    assert RecordsSites(doc.records) == RecordsSites([]) + FlowsSites(rec, rec.flowRecords.flows);
  }

  /**
   * A single well-formed tuple yields one row holding port "443", protocol
   * "tcp", the addresses, the action and the group's rule; it is allowed
   * exactly for A, B and E, denied exactly for D, and otherwise in neither.
   */
  lemma SingleTupleRun(rule: Option<string>, action: string)
    requires ',' !in action
    ensures var doc := SingleTupleDoc(rule, Join(SampleFields(action), ","));
            var row := Row("2024-01-01T00:00:00Z", "Traffic", rule, "tcp", "443", "10.0.0.1", "10.0.0.2", action);
            && FlattenDoc(doc) == Ok([row])
            && (Allowed([row]) == [row] <==> action in {"A", "B", "E"})
            && (Denied([row]) == [row] <==> action == "D")
            && (action !in {"A", "B", "E", "D"} ==> Allowed([row]) == [] && Denied([row]) == [])
  {
    var tuple := Join(SampleFields(action), ",");
    var site := TupleSite("2024-01-01T00:00:00Z", "Traffic", rule, tuple);
    assert FlattenDoc(SingleTupleDoc(rule, tuple)) == FlattenSites([site]) by {
      SingleTupleSites(rule, tuple);
    }
    assert Split(tuple, ',') == SampleFields(action) by {
      SampleSplit(action);
    }
    FlattenOne(site);
    var row := MakeRow(site);
    KeepSingle(row, AllowCodes);
    KeepSingle(row, {DenyCode});
  }

  /** A group without a rule gives rows whose rule is absent, printed as "None". */
  lemma MissingRuleRun()
    ensures var doc := SingleTupleDoc(None, Join(SampleFields("A"), ","));
            && FlattenDoc(doc).Ok?
            && |FlattenDoc(doc).value| == 1
            && FlattenDoc(doc).value[0].rule == None
            && TableRenderer.Cells(FlattenDoc(doc).value[0])[2] == "None"
  {
    SingleTupleRun(None, "A");
  }

  /** A tuple of five fields stops the run with nothing printed. */
  lemma ShortTupleRun()
    ensures Output(SingleTupleDoc(Some("allow-web"), Join(["1", "10.0.0.1", "10.0.0.2", "2", "443"], ","))).Err?
  {
    var f := ["1", "10.0.0.1", "10.0.0.2", "2", "443"];
    var tuple := Join(f, ",");
    assert |Split(tuple, ',')| == 5 by {
      assert forall i :: 0 <= i < |f| ==> ',' !in f[i];
      SplitJoin(f, ',');
    }
    SingleTupleSites(Some("allow-web"), tuple);
    FlattenOne(TupleSite("2024-01-01T00:00:00Z", "Traffic", Some("allow-web"), tuple));
  }
}
