/**
 * The flow-log document as the script reads it after `json.load`, and the
 * document-order walk records -> flowRecords.flows -> flowGroups ->
 * flowTuples that the flattener performs.
 */
module FlowLog {
  import opened Wrappers

  /** A rule-scoped group of tuples; `rule` is absent when the key is missing or null. */
  datatype FlowGroup = FlowGroup(rule: Option<string>, flowTuples: seq<string>)

  datatype Flow = Flow(flowGroups: seq<FlowGroup>)

  datatype FlowRecords = FlowRecords(flows: seq<Flow>)

  /** One time-stamped entry of the log. */
  datatype Record = Record(time: string, category: string, flowRecords: FlowRecords)

  datatype LogDocument = LogDocument(records: seq<Record>)

  /** One output row, in the column order Date/Time, eventtype, rule, protocol, port, srcIP, destIP, action. */
  datatype Row = Row(
    time: string,
    category: string,
    rule: Option<string>,
    protocol: string,
    port: string,
    srcIP: string,
    destIP: string,
    action: string)

  /** A tuple string together with what it inherits from its enclosing record and group. */
  datatype TupleSite = TupleSite(time: string, category: string, rule: Option<string>, tuple: string)

  /** The sites of the tuples of one group, in order. */
  function TupleSites(rec: Record, rule: Option<string>, tuples: seq<string>): seq<TupleSite>
  {
    if tuples == [] then []
    else TupleSites(rec, rule, tuples[..|tuples| - 1])
         + [TupleSite(rec.time, rec.category, rule, tuples[|tuples| - 1])]
  }

  /** The sites of a sequence of groups, group after group. */
  function GroupsSites(rec: Record, groups: seq<FlowGroup>): seq<TupleSite>
  {
    if groups == [] then []
    else
      var g := groups[|groups| - 1];
      GroupsSites(rec, groups[..|groups| - 1]) + TupleSites(rec, g.rule, g.flowTuples)
  }

  /** The sites of a sequence of flows of one record, flow after flow. */
  function FlowsSites(rec: Record, flows: seq<Flow>): seq<TupleSite>
  {
    if flows == [] then []
    else FlowsSites(rec, flows[..|flows| - 1]) + GroupsSites(rec, flows[|flows| - 1].flowGroups)
  }

  /** The sites of a sequence of records, record after record. */
  function RecordsSites(records: seq<Record>): seq<TupleSite>
  {
    if records == [] then []
    else
      var rec := records[|records| - 1];
      RecordsSites(records[..|records| - 1]) + FlowsSites(rec, rec.flowRecords.flows)
  }

  /** Every tuple of the document, in document order. */
  function DocSites(doc: LogDocument): seq<TupleSite>
  {
    RecordsSites(doc.records)
  }

  // Tuple counts, summed level by level.

  function GroupsTupleCount(groups: seq<FlowGroup>): nat
  {
    if groups == [] then 0 else |groups[0].flowTuples| + GroupsTupleCount(groups[1..])
  }

  function FlowsTupleCount(flows: seq<Flow>): nat
  {
    if flows == [] then 0 else GroupsTupleCount(flows[0].flowGroups) + FlowsTupleCount(flows[1..])
  }

  function RecordsTupleCount(records: seq<Record>): nat
  {
    if records == [] then 0
    else FlowsTupleCount(records[0].flowRecords.flows) + RecordsTupleCount(records[1..])
  }

  /** Each tuple of a group gives one site, in order, carrying the record's time and category and the group's rule. */
  lemma {:induction false} TupleSitesAt(rec: Record, rule: Option<string>, tuples: seq<string>)
    ensures |TupleSites(rec, rule, tuples)| == |tuples|
    ensures forall i :: 0 <= i < |tuples| ==>
              TupleSites(rec, rule, tuples)[i] == TupleSite(rec.time, rec.category, rule, tuples[i])
  {
    if tuples != [] {
      TupleSitesAt(rec, rule, tuples[..|tuples| - 1]);
    }
  }

  /** Groups contribute their sites in group order: the walk over `a + b` is the walk over `a`, then over `b`. */
  lemma {:induction false} GroupsSitesAppend(rec: Record, a: seq<FlowGroup>, b: seq<FlowGroup>)
    ensures GroupsSites(rec, a + b) == GroupsSites(rec, a) + GroupsSites(rec, b)
  {
    if b != [] {
      assert (a + b)[..|a + b| - 1] == a + b[..|b| - 1];
      GroupsSitesAppend(rec, a, b[..|b| - 1]);
    } else {
      assert a + b == a;
    }
  }

  /** Flows contribute their sites in flow order. */
  lemma {:induction false} FlowsSitesAppend(rec: Record, a: seq<Flow>, b: seq<Flow>)
    ensures FlowsSites(rec, a + b) == FlowsSites(rec, a) + FlowsSites(rec, b)
  {
    if b != [] {
      assert (a + b)[..|a + b| - 1] == a + b[..|b| - 1];
      FlowsSitesAppend(rec, a, b[..|b| - 1]);
    } else {
      assert a + b == a;
    }
  }

  /** Records contribute their sites in record order. */
  lemma {:induction false} RecordsSitesAppend(a: seq<Record>, b: seq<Record>)
    ensures RecordsSites(a + b) == RecordsSites(a) + RecordsSites(b)
  {
    if b != [] {
      assert (a + b)[..|a + b| - 1] == a + b[..|b| - 1];
      RecordsSitesAppend(a, b[..|b| - 1]);
    } else {
      assert a + b == a;
    }
  }

  lemma {:induction false} GroupsSitesCount(rec: Record, groups: seq<FlowGroup>)
    ensures |GroupsSites(rec, groups)| == GroupsTupleCount(groups)
  {
    if groups != [] {
      GroupsSitesAppend(rec, [groups[0]], groups[1..]);
      assert [groups[0]] + groups[1..] == groups;
      assert [groups[0]][..0] == [];
      TupleSitesAt(rec, groups[0].rule, groups[0].flowTuples);
      GroupsSitesCount(rec, groups[1..]);
    }
  }

  lemma {:induction false} FlowsSitesCount(rec: Record, flows: seq<Flow>)
    ensures |FlowsSites(rec, flows)| == FlowsTupleCount(flows)
  {
    if flows != [] {
      FlowsSitesAppend(rec, [flows[0]], flows[1..]);
      assert [flows[0]] + flows[1..] == flows;
      assert [flows[0]][..0] == [];
      GroupsSitesCount(rec, flows[0].flowGroups);
      FlowsSitesCount(rec, flows[1..]);
    }
  }

  /** The walk visits exactly as many tuples as the document holds, summed over records, flows and groups. */
  lemma {:induction false} DocSitesCount(doc: LogDocument)
    ensures |DocSites(doc)| == RecordsTupleCount(doc.records)
  {
    RecordsSitesCount(doc.records);
  }

  lemma {:induction false} RecordsSitesCount(records: seq<Record>)
    ensures |RecordsSites(records)| == RecordsTupleCount(records)
  {
    if records != [] {
      RecordsSitesAppend([records[0]], records[1..]);
      assert [records[0]] + records[1..] == records;
      assert [records[0]][..0] == [];
      FlowsSitesCount(records[0], records[0].flowRecords.flows);
      RecordsSitesCount(records[1..]);
    }
  }

  /** The walk over a prefix of the tuples is a prefix of the walk over all of them; likewise for groups, flows and records below. */
  lemma {:induction false} TupleSitesPrefix(rec: Record, rule: Option<string>, tuples: seq<string>, n: nat)
    requires n <= |tuples|
    ensures TupleSites(rec, rule, tuples[..n]) <= TupleSites(rec, rule, tuples)
  {
    if n < |tuples| {
      assert tuples[..n] == tuples[..|tuples| - 1][..n];
      TupleSitesPrefix(rec, rule, tuples[..|tuples| - 1], n);
    } else {
      assert tuples[..n] == tuples;
    }
  }

  lemma {:induction false} GroupsSitesPrefix(rec: Record, groups: seq<FlowGroup>, n: nat)
    requires n <= |groups|
    ensures GroupsSites(rec, groups[..n]) <= GroupsSites(rec, groups)
  {
    if n < |groups| {
      assert groups[..n] == groups[..|groups| - 1][..n];
      GroupsSitesPrefix(rec, groups[..|groups| - 1], n);
    } else {
      assert groups[..n] == groups;
    }
  }

  lemma {:induction false} FlowsSitesPrefix(rec: Record, flows: seq<Flow>, n: nat)
    requires n <= |flows|
    ensures FlowsSites(rec, flows[..n]) <= FlowsSites(rec, flows)
  {
    if n < |flows| {
      assert flows[..n] == flows[..|flows| - 1][..n];
      FlowsSitesPrefix(rec, flows[..|flows| - 1], n);
    } else {
      assert flows[..n] == flows;
    }
  }

  lemma {:induction false} RecordsSitesPrefix(records: seq<Record>, n: nat)
    requires n <= |records|
    ensures RecordsSites(records[..n]) <= RecordsSites(records)
  {
    if n < |records| {
      assert records[..n] == records[..|records| - 1][..n];
      RecordsSitesPrefix(records[..|records| - 1], n);
    } else {
      assert records[..n] == records;
    }
  }
}
