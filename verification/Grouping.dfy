/** `groupByKey` from end to end: lists per map partition, shuffled, merged by the group-by. */
module GroupingByKey {

  import opened Aggregation
  import opened ExternalGrouping
  import opened ExternalLists
  import opened ExternalMerging
  import opened Sequences
  import opened Serializers
  import opened Shuffling

  lemma {:induction false} CombineLists<V>(vs: seq<V>)
    requires vs != []
    ensures Combine(Lists<V>(), vs) == vs
  {
    var n := |vs| - 1;
    if n > 0 {
      CombineLists(vs[..n]);
      assert vs[..n] + [vs[n]] == vs;
    }
  }

  lemma LocalLists<K, V>(s: seq<(K, V)>, r: seq<(K, seq<V>)>)
    requires Enumerates(r, FoldValues(Lists<V>(), map[], s))
    ensures NoEmptyList(r)
  {
    forall i | 0 <= i < |r| ensures r[i].1 != [] {
      FoldValuesAt(Lists<V>(), s, r[i].0);
      CombineLists(ValuesOf(s, r[i].0));
    }
  }

  /** The lists of a key, over all map outputs, hold exactly the values of the key. */
  lemma ListsOfKey<K, V(!new)>(parts: seq<seq<(K, V)>>, locals: seq<seq<(K, seq<V>)>>, k: K)
    requires |parts| == |locals|
    requires forall m :: 0 <= m < |parts| ==> Enumerates(locals[m], FoldValues(Lists<V>(), map[], parts[m]))
    ensures Flatten(ValuesOf(Flatten(locals), k)) == ValuesOf(Flatten(parts), k)
    ensures ValuesOf(Flatten(locals), k) != [] <==> ValuesOf(Flatten(parts), k) != []
  {
    ListsAreLawful<V>();
    LocalFolds(Lists<V>(), parts, locals, |parts|);
    assert parts[..|parts|] == parts && locals[..|locals|] == locals;
    GroupsHoldAllValues(Flatten(locals), k);
    FoldValuesAt(Lists<V>(), Flatten(parts), k);
    if ValuesOf(Flatten(parts), k) != [] { CombineLists(ValuesOf(Flatten(parts), k)); }
  }

  /** `groups` holds every key of `records` once, with all its values in some order. */
  ghost predicate Groups<K(!new), V>(groups: seq<(K, seq<V>)>, records: seq<(K, V)>)
  {
    && DistinctKeys(groups)
    && (forall k :: ValuesOf(records, k) != [] <==> exists i :: 0 <= i < |groups| && groups[i].0 == k)
    && forall i :: 0 <= i < |groups| ==> multiset(groups[i].1) == multiset(ValuesOf(records, groups[i].0))
  }

  /** The groups of one split, as they accumulate: those of the keys of splits below `n`. */
  ghost predicate GroupsBelow<K(!new), V>(groups: seq<(K, seq<V>)>, records: seq<(K, V)>, part: K -> int, n: int)
  {
    && DistinctKeys(groups)
    && (forall k :: ValuesOf(records, k) != [] && part(k) < n <==> exists i :: 0 <= i < |groups| && groups[i].0 == k)
    && forall i :: 0 <= i < |groups| ==> multiset(groups[i].1) == multiset(ValuesOf(records, groups[i].0))
  }

  lemma NextGroups<K(!new), V>(
      groups: seq<(K, seq<V>)>, more: seq<(K, seq<V>)>, records: seq<(K, V)>, part: K -> int, n: int)
    requires GroupsBelow(groups, records, part, n) && DistinctKeys(more)
    requires forall k :: ValuesOf(records, k) != [] && part(k) == n <==> exists i :: 0 <= i < |more| && more[i].0 == k
    requires forall i :: 0 <= i < |more| ==> multiset(more[i].1) == multiset(ValuesOf(records, more[i].0))
    ensures GroupsBelow(groups + more, records, part, n + 1)
  {
    var all := groups + more;
    forall i | 0 <= i < |all|
      ensures part(all[i].0) <= n && ValuesOf(records, all[i].0) != [] && (part(all[i].0) == n <==> i >= |groups|)
    {
      if i >= |groups| { assert more[i - |groups|].0 == all[i].0; } else { assert groups[i].0 == all[i].0; }
    }
    forall k | ValuesOf(records, k) != [] && part(k) < n + 1 ensures exists i :: 0 <= i < |all| && all[i].0 == k {
      if part(k) < n {
        var i :| 0 <= i < |groups| && groups[i].0 == k;
        assert all[i].0 == k;
      } else {
        var i :| 0 <= i < |more| && more[i].0 == k;
        assert all[|groups| + i].0 == k;
      }
    }
  }

  /** A split's share of the map outputs groups to the values of its keys. */
  lemma ShareGroups<K(!new), V(!new)>(parts: seq<seq<(K, V)>>, locals: seq<seq<(K, seq<V>)>>, share: seq<(K, seq<V>)>,
                                      groups: seq<(K, seq<V>)>, part: K -> int, s: int)
    requires |parts| == |locals|
    requires forall m :: 0 <= m < |parts| ==> Enumerates(locals[m], FoldValues(Lists<V>(), map[], parts[m]))
    requires multiset(share) == multiset(Filter(Goes(part, s), Flatten(locals)))
    requires Enumerates(groups, FoldCombiners(Lists<V>(), map[], share))
    ensures forall k :: ValuesOf(Flatten(parts), k) != [] && part(k) == s <==>
              exists i :: 0 <= i < |groups| && groups[i].0 == k
    ensures forall i :: 0 <= i < |groups| ==> multiset(groups[i].1) == multiset(ValuesOf(Flatten(parts), groups[i].0))
  {
    forall k
      ensures ValuesOf(Flatten(parts), k) != [] && part(k) == s <==> k in FoldCombiners(Lists<V>(), map[], share)
      ensures k in FoldCombiners(Lists<V>(), map[], share) ==>
                multiset(FoldCombiners(Lists<V>(), map[], share)[k]) == multiset(ValuesOf(Flatten(parts), k))
    {
      GroupsHoldAllValues(share, k);
      ValuesOfPermuted(share, Filter(Goes(part, s), Flatten(locals)), k);
      FlattenPermuted(ValuesOf(share, k), ValuesOf(Filter(Goes(part, s), Flatten(locals)), k));
      ListsOfKey(parts, locals, k);
      if part(k) == s {
        ValuesOfFilter(Goes(part, s), Flatten(locals), k);
      } else {
        OtherSplit(Flatten(locals), part, s, k);
      }
      assert |multiset(ValuesOf(share, k))| == |ValuesOf(share, k)|;
    }
  }

  lemma OtherSplit<K, V>(records: seq<(K, V)>, part: K -> int, s: int, k: K)
    requires part(k) != s
    ensures ValuesOf(Filter(Goes(part, s), records), k) == []
  {
    var f := Filter(Goes(part, s), records);
    InValuesOf(f, k);
    forall i | 0 <= i < |f| ensures f[i].0 != k {
      InFilter(Goes(part, s), records, f[i]);
    }
  }

  /** The values of each key are those of the map partitions, each in its order, one partition after another. */
  ghost predicate InDeliveryOrder<K(!new), V(!new)>(groups: seq<(K, seq<V>)>, parts: seq<seq<(K, V)>>)
  {
    exists order :: Reordered(order, parts) && ValuesIn(groups, Flatten(order))
  }

  ghost predicate ValuesIn<K, V>(groups: seq<(K, seq<V>)>, records: seq<(K, V)>)
  {
    forall i :: 0 <= i < |groups| ==> groups[i].1 == ValuesOf(records, groups[i].0)
  }

  /** The order in which the shares of a split came in is the order of the values of its keys. */
  lemma GroupsInOrder<K(!new), V(!new)>(
      parts: seq<seq<(K, V)>>, locals: seq<seq<(K, seq<V>)>>, share: seq<(K, seq<V>)>, groups: seq<(K, seq<V>)>,
      part: K -> int, s: int)
    requires |parts| == |locals| && Delivered(share, locals, part, s)
    requires forall m :: 0 <= m < |parts| ==> Enumerates(locals[m], FoldValues(Lists<V>(), map[], parts[m]))
    requires forall i :: 0 <= i < |groups| ==> part(groups[i].0) == s
    requires forall i :: 0 <= i < |groups| ==> groups[i].1 == Flatten(ValuesOf(share, groups[i].0))
    ensures InDeliveryOrder(groups, parts)
  {
    var order :| Reordered(order, locals) && share == Filter(Goes(part, s), Flatten(order));
    var outputs := MatchOrder(locals, parts, order,
                              (local, output) => Enumerates(local, FoldValues(Lists<V>(), map[], output)));
    forall i | 0 <= i < |groups| ensures groups[i].1 == ValuesOf(Flatten(outputs), groups[i].0) {
      ListsOfKey(outputs, order, groups[i].0);
      ValuesOfFilter(Goes(part, s), Flatten(order), groups[i].0);
    }
    assert Reordered(outputs, parts) && ValuesIn(groups, Flatten(outputs));
  }

  lemma ShareNoEmpty<K, V>(locals: seq<seq<(K, seq<V>)>>, share: seq<(K, seq<V>)>, p: ((K, seq<V>)) -> bool)
    requires forall m :: 0 <= m < |locals| ==> NoEmptyList(locals[m])
    requires multiset(share) == multiset(Filter(p, Flatten(locals)))
    ensures NoEmptyList(share)
  {
    forall i | 0 <= i < |share| ensures share[i].1 != [] {
      assert share[i] in multiset(share);
      assert share[i] in Filter(p, Flatten(locals));
      InFilter(p, Flatten(locals), share[i]);
      InFlatten(locals, share[i]);
    }
  }

  /** `groupByKey(numPartitions, partitionFunc)` */
  method GroupByKeyOf<K(==, !new), V(!new)>(
      le: (K, K) -> bool, codec: Codec<seq<(K, seq<V>)>>, hash: (K, int) -> int, buckets: Branching, memory: nat,
      partitionFunc: K -> int, numPartitions: int, parts: seq<seq<(K, V)>>, claimed: bool)
    returns (out: seq<seq<(K, seq<V>)>>)
    requires TotalOrder(le) && PickledChunks(codec) && 0 < numPartitions <= TWO_63
    requires claimed ==> |parts| == numPartitions && Partitioned(parts, SplitOf(partitionFunc, numPartitions))
    ensures |out| == numPartitions && Partitioned(out, SplitOf(partitionFunc, numPartitions))
    ensures forall s, i :: 0 <= s < numPartitions && 0 <= i < |out[s]| ==>
              partitionFunc(out[s][i].0) % numPartitions == s
    ensures Groups(Flatten(out), Flatten(parts))
    ensures forall s :: 0 <= s < numPartitions ==> InDeliveryOrder(out[s], parts)
  {
    ListsAreLawful<V>();
    ghost var part := SplitOf(partitionFunc, numPartitions);
    var locals := CombineLocally(Lists<V>(), hash, buckets, memory as real * 0.9, parts);
    if claimed { LocalsPartitioned(Lists<V>(), parts, locals, part); }
    forall m | 0 <= m < |locals| ensures NoEmptyList(locals[m]) { LocalLists(parts[m], locals[m]); }
    var shuffled := PartitionBy(codec, partitionFunc, numPartitions, memory as real / 2.0, locals, claimed);
    out := GroupSplits(le, hash, buckets, memory, part, numPartitions, parts, locals, shuffled);
    PlacedByRemainder(out, partitionFunc, numPartitions);
  }

  /** The reduce side. */
  method GroupSplits<K(==, !new), V(!new)>(
      le: (K, K) -> bool, hash: (K, int) -> int, buckets: Branching, memory: nat, ghost part: K -> int,
      numPartitions: nat, ghost parts: seq<seq<(K, V)>>, ghost locals: seq<seq<(K, seq<V>)>>,
      shuffled: seq<seq<(K, seq<V>)>>)
    returns (out: seq<seq<(K, seq<V>)>>)
    requires TotalOrder(le) && |parts| == |locals| && |shuffled| == numPartitions
    requires forall k :: 0 <= part(k) < numPartitions
    requires forall m :: 0 <= m < |parts| ==> Enumerates(locals[m], FoldValues(Lists<V>(), map[], parts[m]))
    requires forall m :: 0 <= m < |locals| ==> NoEmptyList(locals[m])
    requires forall s :: 0 <= s < numPartitions ==>
              multiset(shuffled[s]) == multiset(Filter(Goes(part, s), Flatten(locals)))
    requires forall s :: 0 <= s < numPartitions ==> Delivered(shuffled[s], locals, part, s)
    ensures |out| == numPartitions && Partitioned(out, part)
    ensures Groups(Flatten(out), Flatten(parts))
    ensures forall s :: 0 <= s < numPartitions ==> InDeliveryOrder(out[s], parts)
  {
    hide GroupsBelow, Delivered, InDeliveryOrder, Enumerates, FoldValues, FoldCombiners, Filter, Flatten, ValuesOf;
    hide NoEmptyList, TotalOrder, DistinctKeys, Partitioned, Groups;
    out := [];
    NoGroups(parts, part);
    for s := 0 to numPartitions
      invariant |out| == s && GroupsBelow(Flatten(out), Flatten(parts), part, s)
      invariant Partitioned(out, part)
      invariant forall t :: 0 <= t < s ==> InDeliveryOrder(out[t], parts)
    {
      var groups := GroupSplit(le, hash, buckets, memory, part, s, parts, locals, shuffled[s]);
      NextGroups(Flatten(out), groups, Flatten(parts), part, s);
      FlattenSnoc(out, groups);
      PartitionedSnoc(out, groups, part);
      out := out + [groups];
    }
    hide *;
    AllGroups(Flatten(out), Flatten(parts), part, numPartitions);
  }

  lemma NoGroups<K(!new), V(!new)>(parts: seq<seq<(K, V)>>, part: K -> int)
    requires forall k :: part(k) >= 0
    ensures GroupsBelow<K, V>(Flatten([]), Flatten(parts), part, 0) && Partitioned<K, seq<V>>([], part)
  {
  }

  lemma PartitionedSnoc<K, V>(parts: seq<seq<(K, V)>>, next: seq<(K, V)>, part: K -> int)
    requires Partitioned(parts, part) && forall i :: 0 <= i < |next| ==> part(next[i].0) == |parts|
    ensures Partitioned(parts + [next], part)
  {
  }

  lemma AllGroups<K(!new), V>(groups: seq<(K, seq<V>)>, records: seq<(K, V)>, part: K -> int, n: int)
    requires GroupsBelow(groups, records, part, n) && forall k :: part(k) < n
    ensures Groups(groups, records)
  {
  }

  /** One reduce task. */
  method GroupSplit<K(==, !new), V(!new)>(
      le: (K, K) -> bool, hash: (K, int) -> int, buckets: Branching, memory: nat, ghost part: K -> int, ghost s: int,
      ghost parts: seq<seq<(K, V)>>, ghost locals: seq<seq<(K, seq<V>)>>, share: seq<(K, seq<V>)>)
    returns (groups: seq<(K, seq<V>)>)
    requires TotalOrder(le) && |parts| == |locals|
    requires forall m :: 0 <= m < |parts| ==> Enumerates(locals[m], FoldValues(Lists<V>(), map[], parts[m]))
    requires forall m :: 0 <= m < |locals| ==> NoEmptyList(locals[m])
    requires multiset(share) == multiset(Filter(Goes(part, s), Flatten(locals))) && Delivered(share, locals, part, s)
    ensures DistinctKeys(groups) && InDeliveryOrder(groups, parts)
    ensures forall i :: 0 <= i < |groups| ==> part(groups[i].0) == s
    ensures forall k :: ValuesOf(Flatten(parts), k) != [] && part(k) == s <==>
              exists i :: 0 <= i < |groups| && groups[i].0 == k
    ensures forall i :: 0 <= i < |groups| ==> multiset(groups[i].1) == multiset(ValuesOf(Flatten(parts), groups[i].0))
  {
    hide Delivered, InDeliveryOrder, Filter, Flatten, ValuesOf, FoldValues, FoldCombiners, EveryKeyHasValue;
    ShareNoEmpty(locals, share, Goes(part, s));
    NoEmptyListHasValues(share);
    ghost var dropped;
    groups, dropped := GroupCombiners(le, hash, memory, buckets, share);
    ShareGroups(parts, locals, share, groups, part, s);
    GroupsInOrder(parts, locals, share, groups, part, s);
  }
}
