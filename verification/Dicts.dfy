/** Python's insertion-ordered dictionary with string keys. */
module Dicts {
  import opened Outcomes
  import opened Duplicates

  type Dict<+V> = seq<(string, V)>

  function Keys<V>(d: Dict<V>): (ks: seq<string>)
    ensures |ks| == |d|
    ensures forall i | 0 <= i < |d| :: ks[i] == d[i].0
  {
    seq(|d|, i requires 0 <= i < |d| => d[i].0)
  }

  /** `d[k] = v`: an existing key keeps its place. */
  function Put<V>(d: Dict<V>, k: string, v: V): Dict<V> {
    if d == [] then [(k, v)]
    else if d[0].0 == k then [(k, v)] + d[1..]
    else [d[0]] + Put(d[1..], k, v)
  }

  function Get<V>(d: Dict<V>, k: string): Option<V> {
    if d == [] then None else if d[0].0 == k then Some(d[0].1) else Get(d[1..], k)
  }

  /** `d[k]`: a missing key is a `KeyError`, which nothing in the pipeline catches. */
  function Lookup<V>(d: Dict<V>, k: string): Outcome<V> {
    match Get(d, k)
    case Some(v) => Ok(v)
    case None => Escaped(MissingKey(k))
  }

  /** The two dictionary laws. */
  lemma {:induction false} GetPut<V>(d: Dict<V>, k: string, v: V, q: string)
    ensures Get(Put(d, k, v), q) == if q == k then Some(v) else Get(d, q)
  {
    if d != [] && d[0].0 != k { GetPut(d[1..], k, v, q); }
  }

  lemma {:induction false} PutNew<V>(d: Dict<V>, k: string, v: V)
    requires k !in Keys(d)
    ensures Put(d, k, v) == d + [(k, v)]
  {
    if d != [] {
      assert Keys(d)[0] == d[0].0;
      assert forall i | 0 <= i < |d[1..]| :: Keys(d[1..])[i] == Keys(d)[i + 1];
      PutNew(d[1..], k, v);
      assert d == [d[0]] + d[1..];
    }
  }

  lemma {:induction false} GetSome<V>(d: Dict<V>, k: string)
    ensures Get(d, k).Some? <==> k in Keys(d)
  {
    if d != [] {
      assert Keys(d)[0] == d[0].0;
      assert Keys(d) == [d[0].0] + Keys(d[1..]);
      GetSome(d[1..], k);
    }
  }

  lemma DistinctTail<V>(d: Dict<V>)
    requires d != [] && Distinct(Keys(d))
    ensures Distinct(Keys(d[1..]))
    ensures forall i | 0 <= i < |d[1..]| :: d[1..][i].0 != d[0].0
  {
    var ks, tail := Keys(d), Keys(d[1..]);
    forall i | 0 <= i < |tail| ensures tail[i] == ks[i + 1] && ks[0] != tail[i] {
      assert tail[i] == d[1..][i].0 == d[i + 1].0;
    }
  }

  lemma {:induction false} GetAt<V>(d: Dict<V>, i: nat)
    requires i < |d| && Distinct(Keys(d))
    ensures Get(d, d[i].0) == Some(d[i].1)
  {
    if i > 0 {
      DistinctTail(d);
      assert d[1..][i - 1] == d[i];
      GetAt(d[1..], i - 1);
    }
  }

  /** A dictionary built from pairs by successive assignment: a loop, or a comprehension. */
  function DictOf<V>(pairs: seq<(string, V)>): Dict<V> {
    if pairs == [] then []
    else
      var last := pairs[|pairs| - 1];
      Put(DictOf(pairs[..|pairs| - 1]), last.0, last.1)
  }

  lemma DictOfMore<V>(pairs: seq<(string, V)>, k: string, v: V)
    ensures DictOf(pairs + [(k, v)]) == Put(DictOf(pairs), k, v)
  {
    assert (pairs + [(k, v)])[..|pairs|] == pairs;
  }

  lemma PutSize<V>(d: Dict<V>, k: string, v: V)
    ensures |Put(d, k, v)| == if k in Keys(d) then |d| else |d| + 1
    ensures forall q :: q in Keys(Put(d, k, v)) <==> q == k || q in Keys(d)
  {
    forall q ensures q in Keys(Put(d, k, v)) <==> q == k || q in Keys(d) {
      GetPut(d, k, v, q);
      GetSome(Put(d, k, v), q);
      GetSome(d, q);
    }
    PutLength(d, k, v);
  }

  lemma {:induction false} PutLength<V>(d: Dict<V>, k: string, v: V)
    ensures |Put(d, k, v)| == if k in Keys(d) then |d| else |d| + 1
  {
    if d != [] {
      assert Keys(d) == [d[0].0] + Keys(d[1..]);
      PutLength(d[1..], k, v);
    }
  }

  lemma {:induction false} DictOfKeys<V>(pairs: seq<(string, V)>)
    ensures forall q :: q in Keys(DictOf(pairs)) <==> q in Keys(pairs)
  {
    if pairs != [] {
      var init, last := pairs[..|pairs| - 1], pairs[|pairs| - 1];
      DictOfKeys(init);
      PutSize(DictOf(init), last.0, last.1);
      assert Keys(pairs) == Keys(init) + [last.0];
    }
  }

  /** A role-keyed dictionary is as long as the list it is built from exactly when the roles are
      pairwise distinct, and then it is that list. */
  lemma {:induction false} DictOfDistinct<V>(pairs: seq<(string, V)>)
    ensures |DictOf(pairs)| <= |pairs|
    ensures |DictOf(pairs)| == |pairs| <==> Distinct(Keys(pairs))
    ensures Distinct(Keys(pairs)) ==> DictOf(pairs) == pairs
  {
    if pairs != [] {
      var init, last := pairs[..|pairs| - 1], pairs[|pairs| - 1];
      KeysLast(pairs);
      hide Keys, Distinct, Put;
      DictOfDistinct(init);
      DictOfKeys(init);
      PutSize(DictOf(init), last.0, last.1);
      DistinctLast(Keys(init), last.0);
      if Distinct(Keys(pairs)) {
        PutNew(DictOf(init), last.0, last.1);
        assert pairs == init + [last];
      }
    }
  }

  lemma KeysLast<V>(pairs: seq<(string, V)>)
    requires pairs != []
    ensures Keys(pairs) == Keys(pairs[..|pairs| - 1]) + [pairs[|pairs| - 1].0]
  {
  }

  lemma DistinctLast(before: seq<string>, k: string)
    ensures Distinct(before + [k]) <==> Distinct(before) && k !in before
  {
    var ks := before + [k];
    if k in before {
      var i :| 0 <= i < |before| && before[i] == k;
      assert ks[i] == ks[|before|];
    }
    if Distinct(ks) {
      assert forall i, j | 0 <= i < j < |before| :: ks[i] == before[i] && ks[j] == before[j];
    }
  }
}
