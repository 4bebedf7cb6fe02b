/**
 Lists that move their elements to disk in blocks, and the grouping of a sorted stream
 that collects its groups in them.
 */
module ExternalLists {

  import opened Aggregation
  import opened Sequences
  import opened StableSorting
  import opened Wrappers

  const LIMIT: nat := 10240

  class ExternalList<T> {

    var values: seq<T>
    var count: nat
    var file: Option<seq<T>>

    /** What iteration yields: first the file, then the values still in memory. */
    ghost function Contents(): seq<T>
      reads this
    {
      (if file.Some? then file.value else []) + values
    }

    ghost predicate Valid()
      reads this
    {
      count == |Contents()| && (file.Some? ==> file.value != [])
    }

    constructor (values: seq<T>)
      ensures Valid() && Contents() == values
    {
      this.values, count, file := values, |values|, None;
    }

    method Append(value: T)
      requires Valid()
      modifies this
      ensures Valid() && Contents() == old(Contents()) + [value]
      ensures |values| < 10240
      ensures old(|values|) + 1 < 10240 ==> values == old(values) + [value] && file == old(file)
    {
      values := values + [value];
      count := count + 1;
      if |values| >= LIMIT { Spill(); }
    }

    method Spill()
      requires values != [] && count == |Contents()|
      modifies `values, `file
      ensures Valid() && Contents() == old(Contents()) && values == []
    {
      var before := if file.Some? then file.value else [];
      file := Some(before + values);
      values := [];
    }

    method Iterate() returns (s: seq<T>)
      ensures s == Contents()
    {
      s := [];
      if file.Some? { s := s + file.value; }
      s := s + values;
    }

    method GetState() returns (values: seq<T>, count: nat, serialized: seq<T>)
      requires Valid()
      ensures values == this.values && count == this.count
      ensures serialized + values == Contents()
    {
      values, count := this.values, this.count;
      serialized := if file.Some? then file.value else [];
    }

    /** Unpickling.  A pickled list comes back with the same elements and the same length. */
    method SetState(values: seq<T>, count: nat, serialized: seq<T>)
      requires count == |serialized + values|
      modifies this
      ensures Valid() && Contents() == serialized + values && this.count == count
    {
      this.values, this.count := values, count;
      file := if serialized != [] then Some(serialized) else None;
    }
  }

  class ExternalListOfList<V> {

    var values: seq<seq<V>>
    var count: int
    var file: Option<seq<seq<V>>>

    ghost function Stored(): seq<seq<V>>
      reads this
    {
      (if file.Some? then file.value else []) + values
    }

    ghost predicate Valid()
      reads this
    {
      count == |Flatten(Stored())|
    }

    constructor (values: seq<seq<V>>)
      ensures Valid() && Stored() == values
    {
      this.values, count, file := values, |Flatten(values)|, None;
      new;
      assert Stored() == values;
    }

    /** The inherited append counts one element, whatever the length of `value`. */
    method Append(value: seq<V>)
      requires Valid()
      modifies this
      ensures Valid() && Stored() == old(Stored()) + [value]
      ensures |values| < 10240
      ensures old(|values|) + 1 < 10240 ==> values == old(values) + [value] && file == old(file)
    {
      FlattenSnoc(Stored(), value);
      values := values + [value];
      count := count + 1;
      if |values| >= LIMIT {
        file := Some((if file.Some? then file.value else []) + values);
        values := [];
      }
      count := count + (|value| - 1);
      assert Stored() == old(Stored()) + [value];
    }

    method Iterate() returns (s: seq<V>)
      requires Valid()
      ensures s == Flatten(Stored()) && count == |s|
    {
      s := Flatten((if file.Some? then file.value else []) + values);
    }
  }

  // ----- grouping a sorted stream

  ghost predicate TotalOrder<K(!new)>(le: (K, K) -> bool)
  {
    TotalPreorder(le) && forall a, b :: le(a, b) && le(b, a) ==> a == b
  }

  /** `operator.itemgetter(0)` */
  function First<K, C>(): ((K, C)) -> K
  {
    (r: (K, C)) => r.0
  }

  /** The aggregator of `groupByKey`: lists, appended and extended. */
  function Lists<V>(): Aggregator<V, seq<V>>
  {
    Aggregator(v => [v], (vs, v) => vs + [v], (a, b) => a + b)
  }

  lemma ListsAreLawful<V(!new)>()
    ensures Associative(Lists<V>()) && Coherent(Lists<V>())
  {
    forall a: seq<V>, b: seq<V>, c: seq<V> ensures (a + b) + c == a + (b + c) {}
  }

  /** Under list aggregation a key holds the concatenation of its lists, in order. */
  lemma {:induction false} ReduceLists<V>(ls: seq<seq<V>>)
    requires ls != []
    ensures Reduce(Lists<V>().mergeCombiners, ls) == Flatten(ls)
  {
    if |ls| == 1 {
      FlattenOne(ls[0]);
      assert ls == [ls[0]];
    } else {
      var n := |ls| - 1;
      ReduceLists(ls[..n]);
      assert ls == ls[..n] + [ls[n]];
      FlattenSnoc(ls[..n], ls[n]);
    }
  }

  lemma GroupsHoldAllValues<K, V>(s: seq<(K, seq<V>)>, k: K)
    ensures k in FoldCombiners(Lists<V>(), map[], s) <==> ValuesOf(s, k) != []
    ensures ValuesOf(s, k) != [] ==> FoldCombiners(Lists<V>(), map[], s)[k] == Flatten(ValuesOf(s, k))
  {
    FoldCombinersAt(Lists<V>(), s, k);
    if ValuesOf(s, k) != [] { ReduceLists(ValuesOf(s, k)); }
  }

  lemma EnumerateSnoc<K, C>(s: seq<(K, C)>, m: map<K, C>, k: K, c: C)
    requires Enumerates(s, m) && k !in m
    ensures Enumerates(s + [(k, c)], m[k := c])
  {
    var t, m' := s + [(k, c)], m[k := c];
    forall k' | k' in m' ensures exists i :: 0 <= i < |t| && t[i].0 == k' {
      if k' == k {
        assert t[|s|].0 == k;
      } else {
        var i :| 0 <= i < |s| && s[i].0 == k';
        assert t[i].0 == k';
      }
    }
  }

  lemma EnumerateLast<K, C>(s: seq<(K, C)>, m: map<K, C>, k: K, c: C, c': C)
    requires Enumerates(s + [(k, c)], m)
    ensures k in m && m[k] == c && Enumerates(s + [(k, c')], m[k := c'])
  {
    var t, t' := s + [(k, c)], s + [(k, c')];
    assert t[|s|] == (k, c);
    assert forall i :: 0 <= i < |t| ==> t'[i].0 == t[i].0;
    forall k' | k' in m ensures exists i :: 0 <= i < |t'| && t'[i].0 == k' {
      var i :| 0 <= i < |t| && t[i].0 == k';
      assert t'[i].0 == k';
    }
    forall i | 0 <= i < |t'| ensures t'[i].0 in m && m[k := c'][t'[i].0] == t'[i].1 {
      if i < |s| { assert t[i].0 != t[|s|].0; }
    }
  }

  /** In a sorted stream a key that differs from the previous one is new. */
  lemma NewKey<K(!new), V>(le: (K, K) -> bool, s: seq<(K, seq<V>)>, n: nat)
    requires TotalOrder(le) && Sorted(By(le, First()), s) && 0 < n < |s| && s[n].0 != s[n - 1].0
    ensures s[n].0 !in FoldCombiners(Lists<V>(), map[], s[..n])
  {
    var k := s[n].0;
    forall i | 0 <= i < n ensures s[i].0 != k {
      if i < n - 1 {
        assert By(le, First())(s[i], s[n - 1]);
      }
      assert By(le, First())(s[n - 1], s[n]);
    }
    FoldCombinersAt(Lists<V>(), s[..n], k);
    InValuesOf(s[..n], k);
  }

  lemma {:induction false} InValuesOf<K, V>(s: seq<(K, V)>, k: K)
    ensures ValuesOf(s, k) != [] <==> exists i :: 0 <= i < |s| && s[i].0 == k
  {
    if s != [] {
      InValuesOf(s[1..], k);
      if ValuesOf(s[1..], k) != [] {
        var i :| 0 <= i < |s[1..]| && s[1..][i].0 == k;
        assert s[i + 1].0 == k;
      }
      if i :| 0 <= i < |s| && s[i].0 == k {
        if i > 0 { assert s[1..][i - 1].0 == k; }
      }
    }
  }

  /** `GroupByKey(iterator)`: consecutive records with one key become one group. */
  method GroupByKey<K(==, !new), V>(
      ghost le: (K, K) -> bool, records: seq<(K, seq<V>)>)
    returns (groups: seq<(K, seq<V>)>)
    requires TotalOrder(le) && Sorted(By(le, First()), records)
    ensures Enumerates(groups, FoldCombiners(Lists<V>(), map[], records))
  {
    groups := [];
    if records == [] { return; }
    var key := records[0].0;
    var values := new ExternalListOfList([records[0].1]);
    assert records[..0] == [];
    FoldCombinersUpto(Lists<V>(), map[], records, 0);
    FlattenOne(records[0].1);
    EnumerateSnoc([], map[], key, records[0].1);
    assert [] + [(key, records[0].1)] == [(key, records[0].1)];
    for n := 1 to |records|
      invariant fresh(values) && values.Valid() && key == records[n - 1].0
      invariant Enumerates(groups + [(key, Flatten(values.Stored()))], FoldCombiners(Lists<V>(), map[], records[..n]))
    {
      var k, v := records[n].0, records[n].1;
      ghost var before := FoldCombiners(Lists<V>(), map[], records[..n]);
      ghost var group := Flatten(values.Stored());
      FoldCombinersUpto(Lists<V>(), map[], records, n);
      EnumerateLast(groups, before, key, group, group + v);
      if k == key {
        FlattenSnoc(values.Stored(), v);
        values.Append(v);
      } else {
        NewKey(le, records, n);
        EnumerateSnoc(groups + [(key, group)], before, k, v);
        var vs := values.Iterate();
        groups := groups + [(key, vs)];
        key := k;
        values := new ExternalListOfList([v]);
        FlattenOne(v);
      }
    }
    assert records[..|records|] == records;
    var vs := values.Iterate();
    groups := groups + [(key, vs)];
  }
}
