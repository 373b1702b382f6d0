/** Duplicate detection shared by every collection keyed by a string. */
module Duplicates {
  import opened Text

  predicate Distinct(values: seq<string>) {
    forall i, j | 0 <= i < j < |values| :: values[i] != values[j]
  }

  ghost predicate Ascending(values: seq<string>) {
    forall i, j | 0 <= i < j < |values| :: Below(values[i], values[j])
  }

  /** What the report has to be: the values met at least twice, strictly ascending. */
  ghost predicate IsReport(values: seq<string>, report: seq<string>) {
    && Ascending(report)
    && forall v :: v in report <==> multiset(values)[v] >= 2
  }

  /** The loop over `values` with its two sets, then `sorted`. */
  method Duplicated(values: seq<string>) returns (report: seq<string>)
    ensures IsReport(values, report)
  {
    var seen: set<string> := {};
    var repeated: set<string> := {};
    for i := 0 to |values|
      invariant forall v :: v in seen <==> multiset(values[..i])[v] >= 1
      invariant forall v :: v in repeated <==> multiset(values[..i])[v] >= 2
    {
      assert values[..i + 1] == values[..i] + [values[i]];
      if values[i] in seen {
        repeated := repeated + {values[i]};
      }
      seen := seen + {values[i]};
    }
    assert values[..|values|] == values;
    report := Sorted(repeated);
  }

  method Sorted(values: set<string>) returns (r: seq<string>)
    ensures Ascending(r)
    ensures forall v :: v in r <==> v in values
  {
    r := [];
    var todo := values;
    while todo != {}
      invariant todo <= values
      invariant Ascending(r)
      invariant forall v :: v in r <==> v in values - todo
      decreases todo
    {
      var x :| x in todo;
      var i := 0;
      while i < |r| && Below(r[i], x)
        invariant 0 <= i <= |r|
        invariant forall k | 0 <= k < i :: Below(r[k], x)
      {
        i := i + 1;
      }
      InsertAscends(r, i, x);
      r := r[..i] + [x] + r[i..];
      todo := todo - {x};
    }
  }

  lemma InsertAscends(r: seq<string>, i: nat, x: string)
    requires Ascending(r) && x !in r && i <= |r|
    requires forall k | 0 <= k < i :: Below(r[k], x)
    requires i < |r| ==> !Below(r[i], x)
    ensures Ascending(r[..i] + [x] + r[i..])
    ensures forall v :: v in r[..i] + [x] + r[i..] <==> v == x || v in r
  {
    var s := r[..i] + [x] + r[i..];
    forall k | i <= k < |r| ensures Below(x, r[k]) {
      BelowTotal(r[i], x);
      if i < k { BelowTrans(x, r[i], r[k]); }
    }
    assert r == r[..i] + r[i..];
  }

  /** The report is empty exactly when the values are pairwise distinct, so a validator that
      raises on a non-empty report accepts exactly the lists that can key a dictionary. */
  lemma EmptyReportIffDistinct(values: seq<string>, report: seq<string>)
    requires IsReport(values, report)
    ensures report == [] <==> Distinct(values)
  {
    assert report != [] ==> report[0] in report;
    if Distinct(values) {
      forall v ensures multiset(values)[v] < 2 { DistinctCounts(values, v); }
    } else {
      var i, j :| 0 <= i < j < |values| && values[i] == values[j];
      assert values == values[..i] + [values[i]] + values[i + 1..j] + [values[j]] + values[j + 1..];
      assert values[i] in report;
    }
  }

  lemma {:induction false} DistinctCounts(values: seq<string>, v: string)
    requires Distinct(values)
    ensures multiset(values)[v] < 2
  {
    if values != [] {
      DistinctCounts(values[1..], v);
      assert values == [values[0]] + values[1..];
      if values[0] == v { assert v !in values[1..]; }
    }
  }

  /** Two reports on the same values are the same list: the message is stable. */
  lemma {:induction false} ReportUnique(values: seq<string>, a: seq<string>, b: seq<string>)
    requires IsReport(values, a) && IsReport(values, b)
    ensures a == b
  {
    SameElements(a, b);
  }

  lemma {:induction false} SameElements(a: seq<string>, b: seq<string>)
    requires Ascending(a) && Ascending(b)
    requires forall v :: v in a <==> v in b
    ensures a == b
  {
    assert b != [] ==> b[0] in b;
    if a != [] {
      assert a[0] in a && a[0] in b;
      assert b[0] in b && b[0] in a;
      var i :| 0 <= i < |b| && b[i] == a[0];
      var j :| 0 <= j < |a| && a[j] == b[0];
      BelowIrreflexive(a[0]);
      if i > 0 && j > 0 { BelowTrans(a[0], b[0], a[0]); }
      assert a == [a[0]] + a[1..] && b == [b[0]] + b[1..];
      assert a[0] == b[0];
      forall v ensures v in a[1..] <==> v in b[1..] {
        BelowIrreflexive(v);
        assert v in a <==> v == a[0] || v in a[1..];
        assert v in b <==> v == b[0] || v in b[1..];
      }
      SameElements(a[1..], b[1..]);
    }
  }
}
