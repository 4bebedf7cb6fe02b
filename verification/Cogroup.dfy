/** `python_cogroup`: for each key of any of several RDDs, one list of its values per RDD. */
module Cogrouping {

  import opened Aggregation
  import opened ExternalLists
  import opened ExternalMerging
  import opened GroupingByKey
  import opened Sequences
  import opened Serializers
  import opened Shuffling

  /** `make_mapper(i)`, on a record */
  function Tag<K, V>(i: int): ((K, V)) -> (K, (int, V))
  {
    (kv: (K, V)) => (kv.0, (i, kv.1))
  }

  /** All records of the first `n` RDDs, tagged with the number of their RDD. */
  ghost function TaggedUpto<K, V>(rdds: seq<seq<seq<(K, V)>>>, n: nat): seq<(K, (int, V))>
    requires n <= |rdds|
  {
    if n == 0 then [] else TaggedUpto(rdds, n - 1) + Map(Tag(n - 1), Flatten(rdds[n - 1]))
  }

  function WithTag<V>(i: int): V -> (int, V)
  {
    v => (i, v)
  }

  lemma {:induction false} ValuesOfTagged<K, V>(i: int, s: seq<(K, V)>, k: K)
    ensures ValuesOf(Map(Tag(i), s), k) == Map(WithTag(i), ValuesOf(s, k))
  {
    if s != [] {
      MapCons(Tag<K, V>(i), s);
      ValuesOfTagged(i, s[1..], k);
    }
  }

  lemma {:induction false} Untagged<V>(i: int, vs: seq<V>, j: int)
    ensures ValuesOf(Map(WithTag(i), vs), j) == if i == j then vs else []
  {
    if vs != [] {
      MapCons(WithTag<V>(i), vs);
      Untagged(i, vs[1..], j);
    }
  }

  /** Among the tagged values of a key, those with tag `j` are the values of the key in RDD `j`. */
  lemma {:induction false} TaggedValues<K, V>(rdds: seq<seq<seq<(K, V)>>>, n: nat, k: K, j: int)
    requires n <= |rdds|
    ensures ValuesOf(ValuesOf(TaggedUpto(rdds, n), k), j) == if 0 <= j < n then ValuesOf(Flatten(rdds[j]), k) else []
  {
    hide *;
    TaggedUptoNext(rdds, n);
    if n == 0 {
      NoValues<K, (int, V)>(k);
      NoValues<int, V>(j);
    } else {
      var before, last := TaggedUpto(rdds, n - 1), Flatten(rdds[n - 1]);
      TaggedValues(rdds, n - 1, k, j);
      TaggedAppend(before, n - 1, last, k, j);
    }
  }

  lemma TaggedUptoNext<K, V>(rdds: seq<seq<seq<(K, V)>>>, n: nat)
    requires n <= |rdds|
    ensures TaggedUpto(rdds, n)
         == if n == 0 then [] else TaggedUpto(rdds, n - 1) + Map(Tag(n - 1), Flatten(rdds[n - 1]))
  {
  }

  lemma NoValues<K, V>(k: K)
    ensures ValuesOf<K, V>([], k) == []
  {
  }

  lemma TaggedAppend<K, V>(before: seq<(K, (int, V))>, i: int, last: seq<(K, V)>, k: K, j: int)
    ensures ValuesOf(ValuesOf(before + Map(Tag(i), last), k), j)
         == ValuesOf(ValuesOf(before, k), j) + if i == j then ValuesOf(last, k) else []
  {
    hide *;
    ValuesOfAppend(before, Map(Tag(i), last), k);
    ValuesOfTagged(i, last, k);
    ValuesOfAppend(ValuesOf(before, k), Map(WithTag(i), ValuesOf(last, k)), j);
    Untagged(i, ValuesOf(last, k), j);
  }

  /** `dispatch`: distribute the values of a key over one buffer per RDD. */
  method Dispatch<V>(s: seq<(int, V)>, n: nat) returns (bufs: seq<seq<V>>)
    requires forall i :: 0 <= i < |s| ==> 0 <= s[i].0 < n
    ensures |bufs| == n && forall j :: 0 <= j < n ==> bufs[j] == ValuesOf(s, j)
  {
    bufs := seq(n, _ => []);
    for i := 0 to |s|
      invariant |bufs| == n && forall j :: 0 <= j < n ==> bufs[j] == ValuesOf(s[..i], j)
    {
      assert s[..i + 1] == s[..i] + [s[i]];
      forall j | 0 <= j < n ensures ValuesOf(s[..i + 1], j) == if s[i].0 == j then bufs[j] + [s[i].1] else bufs[j] {
        ValuesOfSnoc(s[..i], s[i], j);
      }
      bufs := bufs[s[i].0 := bufs[s[i].0] + [s[i].1]];
    }
    assert s[..|s|] == s;
  }

  /** Each key of any RDD once, with all its values in RDD `j` at position `j`. */
  ghost predicate Cogroups<K(!new), V>(out: seq<(K, seq<seq<V>>)>, rdds: seq<seq<seq<(K, V)>>>)
  {
    && DistinctKeys(out)
    && (forall k :: InSome(rdds, k) <==> exists i :: 0 <= i < |out| && out[i].0 == k)
    && forall i :: 0 <= i < |out| ==>
         && |out[i].1| == |rdds|
         && forall j :: 0 <= j < |rdds| ==> multiset(out[i].1[j]) == multiset(ValuesOf(Flatten(rdds[j]), out[i].0))
  }

  ghost predicate InSome<K, V>(rdds: seq<seq<seq<(K, V)>>>, k: K)
  {
    exists j :: 0 <= j < |rdds| && ValuesOf(Flatten(rdds[j]), k) != []
  }

  lemma {:induction false} SomeIffTagged<K, V>(rdds: seq<seq<seq<(K, V)>>>, n: nat, k: K)
    requires n <= |rdds|
    ensures ValuesOf(TaggedUpto(rdds, n), k) != [] <==> exists j :: 0 <= j < n && ValuesOf(Flatten(rdds[j]), k) != []
  {
    hide ValuesOf, Flatten, TaggedUpto;
    if n == 0 {
      NothingTagged(rdds, k);
    } else {
      SomeIffTagged(rdds, n - 1, k);
      NextTagged(rdds, n - 1, k);
    }
  }

  lemma NothingTagged<K, V>(rdds: seq<seq<seq<(K, V)>>>, k: K)
    ensures ValuesOf(TaggedUpto(rdds, 0), k) == []
  {
  }

  lemma NextTagged<K, V>(rdds: seq<seq<seq<(K, V)>>>, n: nat, k: K)
    requires n < |rdds|
    ensures ValuesOf(TaggedUpto(rdds, n + 1), k) != [] <==>
              ValuesOf(TaggedUpto(rdds, n), k) != [] || ValuesOf(Flatten(rdds[n]), k) != []
  {
    hide ValuesOf, Flatten, Map, Tag, WithTag;
    ValuesOfAppend(TaggedUpto(rdds, n), Map(Tag(n), Flatten(rdds[n])), k);
    ValuesOfTagged(n, Flatten(rdds[n]), k);
  }

  /** One group of the tagged union, dispatched. */
  lemma GroupBuffers<K(!new), V(!new)>(rdds: seq<seq<seq<(K, V)>>>, u: seq<(K, (int, V))>, k: K, values: seq<(int, V)>)
    requires multiset(u) == multiset(TaggedUpto(rdds, |rdds|)) && multiset(values) == multiset(ValuesOf(u, k))
    ensures forall i :: 0 <= i < |values| ==> 0 <= values[i].0 < |rdds|
    ensures forall j :: 0 <= j < |rdds| ==> multiset(ValuesOf(values, j)) == multiset(ValuesOf(Flatten(rdds[j]), k))
  {
    hide ValuesOf, Flatten, TaggedUpto;
    forall j
      ensures multiset(ValuesOf(values, j)) == multiset(if 0 <= j < |rdds| then ValuesOf(Flatten(rdds[j]), k) else [])
    {
      GroupBuffer(rdds, u, k, values, j);
    }
    forall i | 0 <= i < |values| ensures 0 <= values[i].0 < |rdds| {
      ValuesOfCount(values, values[i].0, values[i].1);
      assert values[i] in multiset(values);
    }
  }

  lemma GroupBuffer<K(!new), V(!new)>(
      rdds: seq<seq<seq<(K, V)>>>, u: seq<(K, (int, V))>, k: K, values: seq<(int, V)>, j: int)
    requires multiset(u) == multiset(TaggedUpto(rdds, |rdds|)) && multiset(values) == multiset(ValuesOf(u, k))
    ensures multiset(ValuesOf(values, j)) == multiset(if 0 <= j < |rdds| then ValuesOf(Flatten(rdds[j]), k) else [])
  {
    hide ValuesOf, Flatten, TaggedUpto;
    var tagged := TaggedUpto(rdds, |rdds|);
    ValuesOfPermuted(u, tagged, k);
    ValuesOfPermuted(values, ValuesOf(tagged, k), j);
    TaggedValues(rdds, |rdds|, k, j);
  }

  /**
   `reduce(lambda acc, other: acc.union(other), vrdds)`.  A claim that all RDDs share survives
   just when no union had to append partitions.
   */
  method UnionAll<K(!new), V(!new)>(rdds: seq<seq<seq<(K, V)>>>, ghost part: K -> int, claimed: bool)
    returns (union: seq<seq<(K, (int, V))>>, kept: bool)
    requires rdds != []
    requires claimed ==> forall i :: 0 <= i < |rdds| ==> |rdds[i]| == |rdds[0]| > 0 && Partitioned(rdds[i], part)
    ensures multiset(Flatten(union)) == multiset(TaggedUpto(rdds, |rdds|))
    ensures kept <==> claimed && |union| == |rdds[0]|
    ensures kept ==> Partitioned(union, part)
  {
    union := TagAll(rdds[0], 0);
    kept := claimed;
    assert multiset(Flatten(union)) == multiset(TaggedUpto(rdds, 1));
    hide Partitioned, Flatten, Map, Zipped;
    for i := 1 to |rdds|
      invariant multiset(Flatten(union)) == multiset(TaggedUpto(rdds, i))
      invariant |union| >= |rdds[0]| && (kept <==> claimed && |union| == |rdds[0]|)
      invariant kept ==> Partitioned(union, part)
    {
      var other := TagAll(rdds[i], i);
      var acc := union;
      union := JvmUnion(acc, other);
      kept := kept && |union| == |acc|;
      if kept { ZippedPartitioned(acc, other, part); }
    }
  }

  lemma ZippedPartitioned<K, V>(a: seq<seq<(K, V)>>, b: seq<seq<(K, V)>>, part: K -> int)
    requires |a| == |b| && Partitioned(a, part) && Partitioned(b, part)
    ensures Partitioned(Zipped(a, b), part)
  {
    forall s, i | 0 <= s < |a| && 0 <= i < |a[s] + b[s]| ensures part((a[s] + b[s])[i].0) == s {
      if i >= |a[s]| { assert (a[s] + b[s])[i] == b[s][i - |a[s]|]; }
    }
  }

  /** `rdd.mapValues(make_mapper(i))` */
  method TagAll<K, V>(rdd: seq<seq<(K, V)>>, i: nat) returns (tagged: seq<seq<(K, (int, V))>>)
    ensures |tagged| == |rdd| && Flatten(tagged) == Map(Tag(i), Flatten(rdd))
    ensures forall part: K -> int :: Partitioned(rdd, part) ==> Partitioned(tagged, part)
  {
    tagged := seq(|rdd|, s requires 0 <= s < |rdd| => Map(Tag<K, V>(i), rdd[s]));
    FlattenMap(Tag<K, V>(i), rdd, tagged);
    forall part: K -> int | Partitioned(rdd, part) ensures Partitioned(tagged, part) {
      forall s, j | 0 <= s < |tagged| && 0 <= j < |tagged[s]| ensures part(tagged[s][j].0) == s {
        assert tagged[s][j].0 == rdd[s][j].0;
      }
    }
  }

  /** `cogroup`, `groupWith` */
  method PythonCogroup<K(==, !new), V(!new)>(
      le: (K, K) -> bool, codec: Codec<seq<(K, seq<(int, V)>)>>, hash: (K, int) -> int, buckets: Branching,
      memory: nat, partitionFunc: K -> int, numPartitions: int, rdds: seq<seq<seq<(K, V)>>>, claimed: bool)
    returns (out: seq<seq<(K, seq<seq<V>>)>>)
    requires TotalOrder(le) && PickledChunks(codec) && 0 < numPartitions <= TWO_63 && rdds != []
    requires claimed ==> forall i :: 0 <= i < |rdds| ==>
               |rdds[i]| == numPartitions && Partitioned(rdds[i], SplitOf(partitionFunc, numPartitions))
    ensures |out| == numPartitions && Cogroups(Flatten(out), rdds)
    ensures Partitioned(out, SplitOf(partitionFunc, numPartitions))
    ensures forall s, i :: 0 <= s < numPartitions && 0 <= i < |out[s]| ==>
              partitionFunc(out[s][i].0) % numPartitions == s
  {
    var union, kept := UnionAll(rdds, SplitOf(partitionFunc, numPartitions), claimed);
    var groups := GroupByKeyOf(le, codec, hash, buckets, memory, partitionFunc, numPartitions, union, kept);
    GroupsTagged(rdds, Flatten(union), Flatten(groups));
    out := DispatchAll(groups, |rdds|);
    DispatchedCogroups(rdds, Flatten(union), Flatten(groups), Flatten(out));
    SameKeysPartitioned(groups, out, SplitOf(partitionFunc, numPartitions));
    PlacedByRemainder(out, partitionFunc, numPartitions);
  }

  /** `mapValues(dispatch)` */
  method DispatchAll<K, V>(groups: seq<seq<(K, seq<(int, V)>)>>, n: nat) returns (out: seq<seq<(K, seq<seq<V>>)>>)
    requires forall i, j :: 0 <= i < |Flatten(groups)| && 0 <= j < |Flatten(groups)[i].1| ==>
              0 <= Flatten(groups)[i].1[j].0 < n
    ensures |out| == |groups| && Dispatched(Flatten(out), Flatten(groups), n)
    ensures forall s :: 0 <= s < |groups| ==> Dispatched(out[s], groups[s], n)
  {
    out := [];
    for s := 0 to |groups|
      invariant |out| == s && Dispatched(Flatten(out), Flatten(groups[..s]), n)
      invariant forall t :: 0 <= t < s ==> Dispatched(out[t], groups[t], n)
    {
      FlattenUpto(groups, s);
      PartitionTagged(groups, s, n);
      var dispatched := DispatchGroups(groups[s], n);
      FlattenSnoc(out, dispatched);
      out := out + [dispatched];
    }
    assert groups[..|groups|] == groups;
  }

  ghost predicate Dispatched<K, V>(out: seq<(K, seq<seq<V>>)>, groups: seq<(K, seq<(int, V)>)>, n: nat)
  {
    && |out| == |groups|
    && forall i :: 0 <= i < |out| ==>
         && out[i].0 == groups[i].0 && |out[i].1| == n
         && forall j :: 0 <= j < n ==> out[i].1[j] == ValuesOf(groups[i].1, j)
  }

  /** `mapValues` keeps keys, and so the partitioner. */
  lemma SameKeysPartitioned<K, V, W>(before: seq<seq<(K, V)>>, after: seq<seq<(K, W)>>, part: K -> int)
    requires Partitioned(before, part) && |after| == |before|
    requires forall s :: 0 <= s < |before| ==> |after[s]| == |before[s]|
    requires forall s, i :: 0 <= s < |before| && 0 <= i < |before[s]| ==> after[s][i].0 == before[s][i].0
    ensures Partitioned(after, part)
  {
  }

  lemma GroupsTagged<K(!new), V(!new)>(
      rdds: seq<seq<seq<(K, V)>>>, u: seq<(K, (int, V))>, groups: seq<(K, seq<(int, V)>)>)
    requires multiset(u) == multiset(TaggedUpto(rdds, |rdds|)) && Groups(groups, u)
    ensures forall i, j :: 0 <= i < |groups| && 0 <= j < |groups[i].1| ==> 0 <= groups[i].1[j].0 < |rdds|
  {
    forall i | 0 <= i < |groups| ensures forall j :: 0 <= j < |groups[i].1| ==> 0 <= groups[i].1[j].0 < |rdds| {
      GroupBuffers(rdds, u, groups[i].0, groups[i].1);
    }
  }

  lemma PartitionTagged<K, V>(groups: seq<seq<(K, seq<(int, V)>)>>, s: nat, n: nat)
    requires forall i, j :: 0 <= i < |Flatten(groups)| && 0 <= j < |Flatten(groups)[i].1| ==>
              0 <= Flatten(groups)[i].1[j].0 < n
    requires s < |groups|
    ensures forall i, j :: 0 <= i < |groups[s]| && 0 <= j < |groups[s][i].1| ==> 0 <= groups[s][i].1[j].0 < n
  {
    FlattenAt(groups, s);
    forall i | 0 <= i < |groups[s]| ensures forall j :: 0 <= j < |groups[s][i].1| ==> 0 <= groups[s][i].1[j].0 < n {
      assert Flatten(groups)[|Flatten(groups[..s])| + i] == groups[s][i];
    }
  }

  lemma DispatchedCogroups<K(!new), V(!new)>(
      rdds: seq<seq<seq<(K, V)>>>, u: seq<(K, (int, V))>, groups: seq<(K, seq<(int, V)>)>,
      out: seq<(K, seq<seq<V>>)>)
    requires multiset(u) == multiset(TaggedUpto(rdds, |rdds|)) && Groups(groups, u) && Dispatched(out, groups, |rdds|)
    ensures Cogroups(out, rdds)
  {
    hide ValuesOf, Flatten, TaggedUpto;
    forall k ensures InSome(rdds, k) <==> exists i :: 0 <= i < |out| && out[i].0 == k {
      KeyInSome(rdds, u, k);
      if i :| 0 <= i < |out| && out[i].0 == k { assert groups[i].0 == k; }
      if i :| 0 <= i < |groups| && groups[i].0 == k { assert out[i].0 == k; }
    }
    forall i | 0 <= i < |out|
      ensures forall j :: 0 <= j < |rdds| ==> multiset(out[i].1[j]) == multiset(ValuesOf(Flatten(rdds[j]), out[i].0))
    {
      GroupBuffers(rdds, u, groups[i].0, groups[i].1);
    }
  }

  lemma KeyInSome<K(!new), V(!new)>(rdds: seq<seq<seq<(K, V)>>>, u: seq<(K, (int, V))>, k: K)
    requires multiset(u) == multiset(TaggedUpto(rdds, |rdds|))
    ensures InSome(rdds, k) <==> ValuesOf(u, k) != []
  {
    hide ValuesOf, Flatten, TaggedUpto;
    SomeIffTagged(rdds, |rdds|, k);
    ValuesOfPermuted(u, TaggedUpto(rdds, |rdds|), k);
    assert |multiset(ValuesOf(u, k))| == |ValuesOf(u, k)|;
    assert |multiset(ValuesOf(TaggedUpto(rdds, |rdds|), k))| == |ValuesOf(TaggedUpto(rdds, |rdds|), k)|;
  }

  /** The same on one partition. */
  method DispatchGroups<K, V>(groups: seq<(K, seq<(int, V)>)>, n: nat) returns (out: seq<(K, seq<seq<V>>)>)
    requires forall i, j :: 0 <= i < |groups| && 0 <= j < |groups[i].1| ==> 0 <= groups[i].1[j].0 < n
    ensures Dispatched(out, groups, n)
  {
    out := [];
    for i := 0 to |groups|
      invariant Dispatched(out, groups[..i], n)
    {
      var bufs := Dispatch(groups[i].1, n);
      out := out + [(groups[i].0, bufs)];
    }
    assert groups[..|groups|] == groups;
  }
}
