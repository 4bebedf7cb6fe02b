/**
 The reference semantics of a keyed aggregation: one in-memory dictionary, updated record by
 record in arrival order.  Everything that spills, shuffles or re-partitions is measured
 against `FoldValues` and `FoldCombiners`.
 */
module Aggregation {

  import opened Sequences
  import opened Wrappers

  /** The three functions of an aggregation. */
  datatype Aggregator<!V, !C> =
    Aggregator(createCombiner: V -> C, mergeValue: (C, V) -> C, mergeCombiners: (C, C) -> C)

  ghost predicate Associative<V, C(!new)>(agg: Aggregator<V, C>)
  {
    forall a, b, c ::
      agg.mergeCombiners(agg.mergeCombiners(a, b), c) == agg.mergeCombiners(a, agg.mergeCombiners(b, c))
  }

  ghost predicate Commutative<V, C(!new)>(agg: Aggregator<V, C>)
  {
    forall a, b :: agg.mergeCombiners(a, b) == agg.mergeCombiners(b, a)
  }

  /** Merging a value is merging the combiner made of it. */
  ghost predicate Coherent<V(!new), C(!new)>(agg: Aggregator<V, C>)
  {
    forall c, v :: agg.mergeCombiners(c, agg.createCombiner(v)) == agg.mergeValue(c, v)
  }

  // ----- the dictionary fold

  function AddValue<K, V, C>(agg: Aggregator<V, C>, m: map<K, C>, k: K, v: V): map<K, C>
  {
    m[k := if k in m then agg.mergeValue(m[k], v) else agg.createCombiner(v)]
  }

  function AddCombiner<K, V, C>(agg: Aggregator<V, C>, m: map<K, C>, k: K, c: C): map<K, C>
  {
    m[k := if k in m then agg.mergeCombiners(m[k], c) else c]
  }

  function FoldValues<K, V, C>(agg: Aggregator<V, C>, m: map<K, C>, s: seq<(K, V)>): map<K, C>
  {
    if s == [] then m
    else
      var last := s[|s| - 1];
      AddValue(agg, FoldValues(agg, m, s[..|s| - 1]), last.0, last.1)
  }

  function FoldCombiners<K, V, C>(agg: Aggregator<V, C>, m: map<K, C>, s: seq<(K, C)>): map<K, C>
  {
    if s == [] then m
    else
      var last := s[|s| - 1];
      AddCombiner(agg, FoldCombiners(agg, m, s[..|s| - 1]), last.0, last.1)
  }

  lemma FoldValuesUpto<K, V, C>(agg: Aggregator<V, C>, m: map<K, C>, s: seq<(K, V)>, i: nat)
    requires i < |s|
    ensures FoldValues(agg, m, s[..i + 1]) == AddValue(agg, FoldValues(agg, m, s[..i]), s[i].0, s[i].1)
  {
    assert s[..i + 1][..i] == s[..i];
  }

  lemma FoldCombinersUpto<K, V, C>(agg: Aggregator<V, C>, m: map<K, C>, s: seq<(K, C)>, i: nat)
    requires i < |s|
    ensures FoldCombiners(agg, m, s[..i + 1]) == AddCombiner(agg, FoldCombiners(agg, m, s[..i]), s[i].0, s[i].1)
  {
    assert s[..i + 1][..i] == s[..i];
  }

  lemma {:induction false} FoldCombinersAppend<K, V, C>(
      agg: Aggregator<V, C>, m: map<K, C>, a: seq<(K, C)>, b: seq<(K, C)>)
    ensures FoldCombiners(agg, m, a + b) == FoldCombiners(agg, FoldCombiners(agg, m, a), b)
  {
    if b == [] {
      assert a + b == a;
    } else {
      assert (a + b)[..|a + b| - 1] == a + b[..|b| - 1];
      FoldCombinersAppend(agg, m, a, b[..|b| - 1]);
    }
  }

  /** `functools.reduce` of a non-empty list. */
  function Reduce<C>(f: (C, C) -> C, cs: seq<C>): C
    requires cs != []
  {
    if |cs| == 1 then cs[0] else f(Reduce(f, cs[..|cs| - 1]), cs[|cs| - 1])
  }

  /** The combiner of a non-empty list of values. */
  function Combine<V, C>(agg: Aggregator<V, C>, vs: seq<V>): C
    requires vs != []
  {
    if |vs| == 1 then agg.createCombiner(vs[0]) else agg.mergeValue(Combine(agg, vs[..|vs| - 1]), vs[|vs| - 1])
  }

  /** The fold, key by key. */
  lemma {:induction false} FoldCombinersAt<K, V, C>(agg: Aggregator<V, C>, s: seq<(K, C)>, k: K)
    ensures k in FoldCombiners(agg, map[], s) <==> ValuesOf(s, k) != []
    ensures ValuesOf(s, k) != [] ==> FoldCombiners(agg, map[], s)[k] == Reduce(agg.mergeCombiners, ValuesOf(s, k))
  {
    if s != [] {
      var front, last := s[..|s| - 1], s[|s| - 1];
      FoldCombinersAt(agg, front, k);
      assert s == front + [last];
      ValuesOfSnoc(front, last, k);
      var vs := ValuesOf(front, k);
      assert (vs + [last.1])[..|vs|] == vs && vs + [] == vs;
    }
  }

  lemma {:induction false} FoldValuesAt<K, V, C>(agg: Aggregator<V, C>, s: seq<(K, V)>, k: K)
    ensures k in FoldValues(agg, map[], s) <==> ValuesOf(s, k) != []
    ensures ValuesOf(s, k) != [] ==> FoldValues(agg, map[], s)[k] == Combine(agg, ValuesOf(s, k))
  {
    if s != [] {
      var front, last := s[..|s| - 1], s[|s| - 1];
      FoldValuesAt(agg, front, k);
      assert s == front + [last];
      ValuesOfSnoc(front, last, k);
      var vs := ValuesOf(front, k);
      assert (vs + [last.1])[..|vs|] == vs && vs + [] == vs;
    }
  }

  lemma {:induction false} FoldValuesAppend<K, V, C>(
      agg: Aggregator<V, C>, m: map<K, C>, a: seq<(K, V)>, b: seq<(K, V)>)
    ensures FoldValues(agg, m, a + b) == FoldValues(agg, FoldValues(agg, m, a), b)
  {
    if b == [] {
      assert a + b == a;
    } else {
      assert (a + b)[..|a + b| - 1] == a + b[..|b| - 1];
      FoldValuesAppend(agg, m, a, b[..|b| - 1]);
    }
  }

  // ----- merging whole dictionaries

  /** Key-wise merge of two dictionaries, the older one on the left. */
  function MergeMaps<K, V, C>(agg: Aggregator<V, C>, a: map<K, C>, b: map<K, C>): (m: map<K, C>)
    ensures m.Keys == a.Keys + b.Keys
  {
    map k | k in a.Keys + b.Keys ::
      if k !in b then a[k] else if k !in a then b[k] else agg.mergeCombiners(a[k], b[k])
  }

  function MergeAll<K, V, C>(agg: Aggregator<V, C>, layers: seq<map<K, C>>): map<K, C>
  {
    if layers == [] then map[]
    else MergeMaps(agg, MergeAll(agg, layers[..|layers| - 1]), layers[|layers| - 1])
  }

  lemma MergeAllSnoc<K, V, C>(agg: Aggregator<V, C>, layers: seq<map<K, C>>, m: map<K, C>)
    ensures MergeAll(agg, layers + [m]) == MergeMaps(agg, MergeAll(agg, layers), m)
  {
    assert (layers + [m])[..|layers|] == layers;
  }

  lemma MergeMapsUnit<K, V, C>(agg: Aggregator<V, C>, m: map<K, C>)
    ensures MergeMaps(agg, m, map[]) == m == MergeMaps(agg, map[], m)
  {
  }

  lemma AddValueCommutes<K, V(!new), C(!new)>(agg: Aggregator<V, C>, a: map<K, C>, b: map<K, C>, k: K, v: V)
    requires Associative(agg) && Coherent(agg)
    ensures MergeMaps(agg, a, AddValue(agg, b, k, v)) == AddValue(agg, MergeMaps(agg, a, b), k, v)
  {
  }

  lemma AddCombinerCommutes<K, V, C(!new)>(agg: Aggregator<V, C>, a: map<K, C>, b: map<K, C>, k: K, c: C)
    requires Associative(agg)
    ensures MergeMaps(agg, a, AddCombiner(agg, b, k, c)) == AddCombiner(agg, MergeMaps(agg, a, b), k, c)
  {
  }

  /** Folding records into a dictionary is merging it with the dictionary of those records. */
  lemma {:induction false} FoldCombinersIsMerge<K, V, C(!new)>(agg: Aggregator<V, C>, m: map<K, C>, s: seq<(K, C)>)
    requires Associative(agg)
    ensures FoldCombiners(agg, m, s) == MergeMaps(agg, m, FoldCombiners(agg, map[], s))
  {
    if s != [] {
      var front, last := s[..|s| - 1], s[|s| - 1];
      FoldCombinersIsMerge(agg, m, front);
      AddCombinerCommutes(agg, m, FoldCombiners(agg, map[], front), last.0, last.1);
    }
  }

  lemma {:induction false} FoldValuesIsMerge<K, V(!new), C(!new)>(agg: Aggregator<V, C>, m: map<K, C>, s: seq<(K, V)>)
    requires Associative(agg) && Coherent(agg)
    ensures FoldValues(agg, m, s) == MergeMaps(agg, m, FoldValues(agg, map[], s))
  {
    if s != [] {
      var front, last := s[..|s| - 1], s[|s| - 1];
      FoldValuesIsMerge(agg, m, front);
      AddValueCommutes(agg, m, FoldValues(agg, map[], front), last.0, last.1);
    }
  }

  // ----- partitioning a dictionary by key

  /** The entries of `m` whose key `part` sends to `i`. */
  function Restrict<K, C>(m: map<K, C>, part: K -> int, i: int): map<K, C>
  {
    map k | k in m && part(k) == i :: m[k]
  }

  lemma RestrictMerge<K, V, C>(agg: Aggregator<V, C>, a: map<K, C>, b: map<K, C>, part: K -> int, i: int)
    ensures Restrict(MergeMaps(agg, a, b), part, i) == MergeMaps(agg, Restrict(a, part, i), Restrict(b, part, i))
  {
  }

  lemma RestrictAddCombiner<K, V, C>(agg: Aggregator<V, C>, m: map<K, C>, part: K -> int, k: K, c: C, i: int)
    ensures Restrict(AddCombiner(agg, m, k, c), part, i) ==
            if part(k) == i then AddCombiner(agg, Restrict(m, part, i), k, c) else Restrict(m, part, i)
  {
  }

  lemma RestrictAddValue<K, V, C>(agg: Aggregator<V, C>, m: map<K, C>, part: K -> int, k: K, v: V, i: int)
    ensures Restrict(AddValue(agg, m, k, v), part, i) ==
            if part(k) == i then AddValue(agg, Restrict(m, part, i), k, v) else Restrict(m, part, i)
  {
  }

  /** The records whose key `part` sends to `i`. */
  function Goes<K, C>(part: K -> int, i: int): ((K, C)) -> bool
  {
    (r: (K, C)) => part(r.0) == i
  }

  lemma {:induction false} RestrictFold<K, V, C>(agg: Aggregator<V, C>, s: seq<(K, C)>, part: K -> int, i: int)
    ensures Restrict(FoldCombiners(agg, map[], s), part, i)
         == FoldCombiners(agg, map[], Filter(Goes(part, i), s))
  {
    var p := Goes<K, C>(part, i);
    if s != [] {
      var n := |s| - 1;
      RestrictFold(agg, s[..n], part, i);
      RestrictAddCombiner(agg, FoldCombiners(agg, map[], s[..n]), part, s[n].0, s[n].1, i);
      assert s[..n + 1] == s;
      FilterUpto(p, s, n);
      var f := Filter(p, s[..n]);
      if p(s[n]) {
        assert (f + [s[n]])[..|f|] == f;
      } else {
        assert Filter(p, s) == f + [] == f;
      }
    }
  }

  // ----- dictionaries as record sequences

  ghost predicate DistinctKeys<K, C>(s: seq<(K, C)>)
  {
    forall i, j :: 0 <= i < j < |s| ==> s[i].0 != s[j].0
  }

  /** `s` lists the entries of `m`, each key once, in some order. */
  ghost predicate Enumerates<K, C>(s: seq<(K, C)>, m: map<K, C>)
  {
    && DistinctKeys(s)
    && (forall i :: 0 <= i < |s| ==> s[i].0 in m && m[s[i].0] == s[i].1)
    && (forall k :: k in m ==> exists i :: 0 <= i < |s| && s[i].0 == k)
  }

  /** `dict.items()`: the order is unspecified. */
  method DictItems<K(==), C>(m: map<K, C>) returns (s: seq<(K, C)>)
    ensures Enumerates(s, m)
  {
    s := [];
    var rest := m.Keys;
    while rest != {}
      invariant rest <= m.Keys
      invariant Enumerates(s, map k | k in m.Keys - rest :: m[k])
      decreases rest
    {
      var k :| k in rest;
      ghost var before, listed := s, map k | k in m.Keys - rest :: m[k];
      s := s + [(k, m[k])];
      rest := rest - {k};
      forall k' | k' in m.Keys - rest ensures exists i :: 0 <= i < |s| && s[i].0 == k' {
        if k' == k {
          assert s[|before|].0 == k;
        } else {
          assert k' in listed;
          var i :| 0 <= i < |before| && before[i].0 == k';
          assert s[i].0 == k';
        }
      }
    }
    assert m == map k | k in m.Keys - {} :: m[k];
  }

  /** Reading a dictionary's entries back, from nothing, rebuilds the dictionary. */
  lemma {:induction false} FoldOfEnumeration<K, V, C>(agg: Aggregator<V, C>, s: seq<(K, C)>, m: map<K, C>)
    requires Enumerates(s, m)
    ensures FoldCombiners(agg, map[], s) == m
  {
    if s == [] {
      assert m == map[];
    } else {
      var n := |s| - 1;
      EnumerateFront(s, m);
      FoldOfEnumeration(agg, s[..n], map k | k in m && k != s[n].0 :: m[k]);
    }
  }

  lemma EnumerateFront<K, C>(s: seq<(K, C)>, m: map<K, C>)
    requires Enumerates(s, m) && s != []
    ensures var n := |s| - 1; Enumerates(s[..n], map k | k in m && k != s[n].0 :: m[k])
  {
    var n := |s| - 1;
    var m' := map k | k in m && k != s[n].0 :: m[k];
    forall k | k in m' ensures exists i :: 0 <= i < n && s[..n][i].0 == k {
      var i :| 0 <= i < |s| && s[i].0 == k;
      assert s[..n][i].0 == k;
    }
  }

  /** Concatenating enumerations of dictionaries with different keys. */
  lemma EnumerateBoth<K, C>(s: seq<(K, C)>, t: seq<(K, C)>, a: map<K, C>, b: map<K, C>)
    requires Enumerates(s, a) && Enumerates(t, b) && a.Keys !! b.Keys
    ensures Enumerates(s + t, a + b)
  {
    forall k | k in a + b ensures exists i :: 0 <= i < |s + t| && (s + t)[i].0 == k {
      if k in b {
        var i :| 0 <= i < |t| && t[i].0 == k;
        assert (s + t)[|s| + i].0 == k;
      } else {
        var i :| 0 <= i < |s| && s[i].0 == k;
        assert (s + t)[i].0 == k;
      }
    }
  }

  // ----- order of arrival

  /** With commutativity the order in which combiners arrive does not matter. */
  lemma {:induction false} FoldCombinersPermuted<K, V, C(!new)>(agg: Aggregator<V, C>, s: seq<(K, C)>, t: seq<(K, C)>)
    requires Associative(agg) && Commutative(agg)
    requires multiset(s) == multiset(t)
    ensures FoldCombiners(agg, map[], s) == FoldCombiners(agg, map[], t)
    decreases |s|
  {
    if s == [] {
      assert |multiset(s)| == |s| && |multiset(t)| == |t|;
    } else {
      var n := |s| - 1;
      var x := s[n];
      var i := FindLast(s, t);
      var pre, post := t[..i], t[i + 1..];
      FoldCombinersPermuted(agg, s[..n], pre + post);
      FoldMoveLast(agg, pre, x, post);
      assert t == pre + [x] + post;
    }
  }

  lemma {:induction false} FoldMoveLast<K, V, C(!new)>(
      agg: Aggregator<V, C>, pre: seq<(K, C)>, x: (K, C), post: seq<(K, C)>)
    requires Associative(agg) && Commutative(agg)
    ensures FoldCombiners(agg, map[], pre + [x] + post) ==
              AddCombiner(agg, FoldCombiners(agg, map[], pre + post), x.0, x.1)
  {
    if post == [] {
      assert pre + [x] + post == pre + [x] && pre + post == pre;
      assert (pre + [x])[..|pre|] == pre;
    } else {
      var n := |post| - 1;
      var y := post[n];
      FoldMoveLast(agg, pre, x, post[..n]);
      assert (pre + [x] + post)[..|pre| + 1 + n] == pre + [x] + post[..n];
      assert (pre + post)[..|pre| + n] == pre + post[..n];
      AddTwice(agg, FoldCombiners(agg, map[], pre + post[..n]), x, y);
    }
  }

  lemma AddTwice<K, V, C(!new)>(agg: Aggregator<V, C>, m: map<K, C>, x: (K, C), y: (K, C))
    requires Associative(agg) && Commutative(agg)
    ensures AddCombiner(agg, AddCombiner(agg, m, x.0, x.1), y.0, y.1) ==
              AddCombiner(agg, AddCombiner(agg, m, y.0, y.1), x.0, x.1)
  {
    hide Associative, Commutative;
    if x.0 == y.0 {
      MergeTwice(agg, if x.0 in m then Some(m[x.0]) else None, x.1, y.1);
    }
  }

  function MergeOption<V, C>(agg: Aggregator<V, C>, o: Option<C>, c: C): C
  {
    if o.Some? then agg.mergeCombiners(o.value, c) else c
  }

  lemma MergeTwice<V, C(!new)>(agg: Aggregator<V, C>, o: Option<C>, x: C, y: C)
    requires Associative(agg) && Commutative(agg)
    ensures agg.mergeCombiners(MergeOption(agg, o, x), y) == agg.mergeCombiners(MergeOption(agg, o, y), x)
  {
    var f := agg.mergeCombiners;
    assert f(x, y) == f(y, x);
    if o.Some? {
      assert f(f(o.value, x), y) == f(o.value, f(x, y));
      assert f(f(o.value, y), x) == f(o.value, f(y, x));
    }
  }

  // ----- what the laws are needed for

  /** Merging layers is one fold, for all records in them, just when `mergeCombiners` is associative. */
  lemma LayersFoldAlikeIff<K(!new), V, C(!new)>(agg: Aggregator<V, C>, k: K)
    ensures Associative(agg) <==> forall s: seq<(K, C)>, t: seq<(K, C)> :: LayersFoldAlike(agg, s, t)
  {
    if Associative(agg) {
      forall s: seq<(K, C)>, t: seq<(K, C)> ensures LayersFoldAlike(agg, s, t) {
        FoldCombinersAppend(agg, map[], s, t);
        FoldCombinersIsMerge(agg, FoldCombiners(agg, map[], s), t);
      }
    }
    if forall s: seq<(K, C)>, t: seq<(K, C)> :: LayersFoldAlike(agg, s, t) {
      forall a, b, c
        ensures agg.mergeCombiners(agg.mergeCombiners(a, b), c) == agg.mergeCombiners(a, agg.mergeCombiners(b, c))
      {
        assert LayersFoldAlike(agg, [(k, a)], [(k, b), (k, c)]);
        FoldOfThree(agg, k, a, b, c);
      }
    }
  }

  ghost predicate LayersFoldAlike<K, V, C>(agg: Aggregator<V, C>, s: seq<(K, C)>, t: seq<(K, C)>)
  {
    MergeMaps(agg, FoldCombiners(agg, map[], s), FoldCombiners(agg, map[], t)) == FoldCombiners(agg, map[], s + t)
  }

  lemma FoldOfTwo<K, V, C>(agg: Aggregator<V, C>, m: map<K, C>, x: (K, C), y: (K, C))
    ensures FoldCombiners(agg, m, [x]) == AddCombiner(agg, m, x.0, x.1)
    ensures FoldCombiners(agg, m, [x, y]) == AddCombiner(agg, AddCombiner(agg, m, x.0, x.1), y.0, y.1)
  {
    assert [x, y][..1] == [x] && [x][..0] == [];
  }

  lemma FoldOfThree<K, V, C>(agg: Aggregator<V, C>, k: K, a: C, b: C, c: C)
    ensures FoldCombiners(agg, map[], [(k, a)]) == map[k := a]
    ensures FoldCombiners(agg, map[], [(k, b), (k, c)]) == map[k := agg.mergeCombiners(b, c)]
    ensures FoldCombiners(agg, map[], [(k, a)] + [(k, b), (k, c)])
         == map[k := agg.mergeCombiners(agg.mergeCombiners(a, b), c)]
  {
    hide FoldCombiners;
    FoldOfTwo(agg, map[], (k, a), (k, b));
    FoldOfTwo(agg, map[], (k, b), (k, c));
    FoldOfTwo(agg, map[k := a], (k, b), (k, c));
    FoldCombinersAppend(agg, map[], [(k, a)], [(k, b), (k, c)]);
  }

  /** All orders of all records fold alike just when `mergeCombiners`, if associative, is commutative as well. */
  lemma PermutationsFoldAlikeIff<K(!new), V, C(!new)>(agg: Aggregator<V, C>, k: K)
    requires Associative(agg)
    ensures Commutative(agg) <==>
              forall s: seq<(K, C)>, t: seq<(K, C)> :: multiset(s) == multiset(t) ==> FoldAlike(agg, s, t)
  {
    hide FoldAlike, Associative, Commutative;
    if Commutative(agg) {
      forall s: seq<(K, C)>, t: seq<(K, C)> | multiset(s) == multiset(t) ensures FoldAlike(agg, s, t) {
        CommutativeFoldsAlike(agg, s, t);
      }
    }
    if forall s: seq<(K, C)>, t: seq<(K, C)> :: multiset(s) == multiset(t) ==> FoldAlike(agg, s, t) {
      forall a, b ensures FoldAlike(agg, [(k, a), (k, b)], [(k, b), (k, a)]) {
        assert multiset([(k, a), (k, b)]) == multiset([(k, b), (k, a)]);
      }
      PairsFoldAlike(agg, k);
    }
  }

  ghost predicate FoldAlike<K, V, C>(agg: Aggregator<V, C>, s: seq<(K, C)>, t: seq<(K, C)>)
  {
    FoldCombiners(agg, map[], s) == FoldCombiners(agg, map[], t)
  }

  lemma CommutativeFoldsAlike<K, V, C(!new)>(agg: Aggregator<V, C>, s: seq<(K, C)>, t: seq<(K, C)>)
    requires Associative(agg) && Commutative(agg) && multiset(s) == multiset(t)
    ensures FoldAlike(agg, s, t)
  {
    FoldCombinersPermuted(agg, s, t);
  }

  lemma PairsFoldAlike<K, V, C(!new)>(agg: Aggregator<V, C>, k: K)
    requires forall a, b :: FoldAlike(agg, [(k, a), (k, b)], [(k, b), (k, a)])
    ensures Commutative(agg)
  {
    forall a, b ensures agg.mergeCombiners(a, b) == agg.mergeCombiners(b, a) {
      assert FoldAlike(agg, [(k, a), (k, b)], [(k, b), (k, a)]);
      FoldOfThree(agg, k, a, a, b);
      FoldOfThree(agg, k, b, b, a);
      hide FoldCombiners;
      assert map[k := agg.mergeCombiners(a, b)][k] == map[k := agg.mergeCombiners(b, a)][k];
    }
  }
}
