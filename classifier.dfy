/**
 * The classifier: two stable filters over the flattened rows, one keeping
 * the allow codes A, B and E, one keeping the deny code D. Rows with any
 * other code are in neither output.
 */
module Classifier {
  import opened FlowLog

  const AllowCodes: set<string> := {"A", "B", "E"}
  const DenyCode: string := "D"

  /** The rows whose action is in `codes`, in their original order. */
  function Keep(rows: seq<Row>, codes: set<string>): (kept: seq<Row>)
    ensures |kept| <= |rows|
    ensures forall i :: 0 <= i < |kept| ==> kept[i].action in codes
  {
    if rows == [] then []
    else if rows[0].action in codes then [rows[0]] + Keep(rows[1..], codes)
    else Keep(rows[1..], codes)
  }

  /** A single row is kept exactly when its action is one of the codes. */
  lemma KeepSingle(row: Row, codes: set<string>)
    ensures Keep([row], codes) == if row.action in codes then [row] else []
  {
    assert [row][1..] == [];
  }

  /** The rows whose action is outside `codes`, in their original order. */
  function Drop(rows: seq<Row>, codes: set<string>): (dropped: seq<Row>)
    ensures |dropped| <= |rows|
    ensures forall i :: 0 <= i < |dropped| ==> dropped[i].action !in codes
  {
    if rows == [] then []
    else if rows[0].action !in codes then [rows[0]] + Drop(rows[1..], codes)
    else Drop(rows[1..], codes)
  }

  /** `df[df["action"].isin(["A", "B", "E"])]` */
  function Allowed(rows: seq<Row>): (allowed: seq<Row>)
    ensures |allowed| <= |rows|
    ensures forall i :: 0 <= i < |allowed| ==> allowed[i].action in {"A", "B", "E"}
  {
    Keep(rows, AllowCodes)
  }

  /** `df[df["action"] == "D"]` */
  function Denied(rows: seq<Row>): (denied: seq<Row>)
    ensures |denied| <= |rows|
    ensures forall i :: 0 <= i < |denied| ==> denied[i].action == "D"
  {
    Keep(rows, {DenyCode})
  }

  /** The rows neither filter keeps; the script discards them silently. */
  function Unclassified(rows: seq<Row>): seq<Row>
  {
    Drop(rows, AllowCodes + {DenyCode})
  }

  /** `a` occurs in `b` with its elements in the same relative order. */
  predicate IsSubsequence(a: seq<Row>, b: seq<Row>)
    decreases |b|
  {
    if a == [] then true
    else if b == [] then false
    else if a[0] == b[0] then IsSubsequence(a[1..], b[1..])
    else IsSubsequence(a, b[1..])
  }

  /** A kept row is exactly a row of the input whose action is one of the codes. */
  lemma {:induction false} KeepMembership(rows: seq<Row>, codes: set<string>, r: Row)
    ensures r in Keep(rows, codes) <==> r in rows && r.action in codes
  {
    if rows != [] {
      KeepMembership(rows[1..], codes, r);
      assert rows == [rows[0]] + rows[1..];
    }
  }

  /** The filter is stable: its output is a subsequence of its input. */
  lemma {:induction false} KeepIsSubsequence(rows: seq<Row>, codes: set<string>)
    ensures IsSubsequence(Keep(rows, codes), rows)
  {
    if rows != [] {
      KeepIsSubsequence(rows[1..], codes);
      var rest := Keep(rows[1..], codes);
      if rows[0].action in codes {
        assert ([rows[0]] + rest)[1..] == rest;
      } else {
        SubsequenceExtend(rest, rows);
      }
    }
  }

  /** A subsequence of the tail is a subsequence of the whole. */
  lemma {:induction false} SubsequenceExtend(a: seq<Row>, b: seq<Row>)
    requires b != []
    requires IsSubsequence(a, b[1..])
    ensures IsSubsequence(a, b)
    decreases |b|, 1
  {
    if a != [] && a[0] == b[0] {
      // Matching a[0] against b[0] instead of a later copy leaves a longer tail.
      SubsequenceOfTail(a, b[1..]);
    }
  }

  /** If `a` is a subsequence of `b`, so is `a` without its first element. */
  lemma {:induction false} SubsequenceOfTail(a: seq<Row>, b: seq<Row>)
    requires a != []
    requires IsSubsequence(a, b)
    ensures IsSubsequence(a[1..], b)
    decreases |b|, 2
  {
    if b != [] {
      if a[0] == b[0] {
        SubsequenceExtend(a[1..], b);
      } else {
        SubsequenceOfTail(a, b[1..]);
        SubsequenceExtend(a[1..], b);
      }
    }
  }

  /** Filtering commutes with concatenation: rows keep their relative order across the whole log. */
  lemma {:induction false} KeepConcat(a: seq<Row>, b: seq<Row>, codes: set<string>)
    ensures Keep(a + b, codes) == Keep(a, codes) + Keep(b, codes)
  {
    if a == [] {
      assert a + b == b;
    } else {
      assert (a + b)[0] == a[0];
      assert (a + b)[1..] == a[1..] + b;
      KeepConcat(a[1..], b, codes);
    }
  }

  /**
   * For disjoint code sets A and D, the rows kept for A, those kept for D
   * and those outside both are, counted with multiplicity, the input rows.
   */
  lemma {:induction false} KeepPartition(rows: seq<Row>, a: set<string>, d: set<string>)
    requires a !! d
    ensures multiset(Keep(rows, a)) + multiset(Keep(rows, d)) + multiset(Drop(rows, a + d)) == multiset(rows)
  {
    if rows != [] {
      KeepPartition(rows[1..], a, d);
      assert rows == [rows[0]] + rows[1..];
      var x := rows[0];
      if x.action in a {
        assert Keep(rows, a) == [x] + Keep(rows[1..], a);
        assert Keep(rows, d) == Keep(rows[1..], d);
        assert Drop(rows, a + d) == Drop(rows[1..], a + d);
      } else if x.action in d {
        assert Keep(rows, a) == Keep(rows[1..], a);
        assert Keep(rows, d) == [x] + Keep(rows[1..], d);
        assert Drop(rows, a + d) == Drop(rows[1..], a + d);
      } else {
        assert Keep(rows, a) == Keep(rows[1..], a);
        assert Keep(rows, d) == Keep(rows[1..], d);
        assert Drop(rows, a + d) == [x] + Drop(rows[1..], a + d);
      }
    }
  }

  /**
   * The three groups partition the rows: together, counted with multiplicity,
   * the allowed, denied and unclassified rows are exactly the input rows.
   */
  lemma ClassifyPartition(rows: seq<Row>)
    ensures multiset(Allowed(rows)) + multiset(Denied(rows)) + multiset(Unclassified(rows)) == multiset(rows)
    ensures |Allowed(rows)| + |Denied(rows)| + |Unclassified(rows)| == |rows|
  {
    KeepPartition(rows, AllowCodes, {DenyCode});
    assert |multiset(Allowed(rows)) + multiset(Denied(rows)) + multiset(Unclassified(rows))| == |multiset(rows)|;
  }

  /**
   * Where a row goes: into the allowed rows exactly when its action is A, B
   * or E, into the denied rows exactly when it is D, never into both, and
   * into neither when it is any other code.
   */
  lemma ClassifyRow(rows: seq<Row>, r: Row)
    ensures r in Allowed(rows) <==> r in rows && r.action in {"A", "B", "E"}
    ensures r in Denied(rows) <==> r in rows && r.action == "D"
    ensures !(r in Allowed(rows) && r in Denied(rows))
    ensures r.action !in {"A", "B", "E", "D"} ==> r !in Allowed(rows) && r !in Denied(rows)
  {
    KeepMembership(rows, AllowCodes, r);
    KeepMembership(rows, {DenyCode}, r);
  }

  /** Both outputs keep the flattened order. */
  lemma ClassifyStable(rows: seq<Row>)
    ensures IsSubsequence(Allowed(rows), rows)
    ensures IsSubsequence(Denied(rows), rows)
  {
    KeepIsSubsequence(rows, AllowCodes);
    KeepIsSubsequence(rows, {DenyCode});
  }
}
