/**
 The shuffle, and aggregation by key across partitions.  Map tasks emit alternating split
 ids and pickled chunks; the transport may deliver the map outputs in any order.
 */
module Shuffling {

  import opened Aggregation
  import opened ExternalMerging
  import opened Memory
  import opened Sequences
  import opened Serializers

  /** `partitionFunc(k) % numPartitions` */
  function SplitOf<K>(partitionFunc: K -> int, numPartitions: int): K -> int
    requires numPartitions > 0
  {
    k => partitionFunc(k) % numPartitions
  }

  // ----- the map side

  /** Chunks are pickled, which never fails, and unpickle to what they were. */
  ghost predicate PickledChunks<T(!new)>(codec: Codec<seq<T>>)
  {
    Invertible(codec) && forall c :: codec.dumps(c).Some?
  }

  /** What the reader of split `s` gets out of one map output: the chunks that follow its id. */
  function Decode<T>(codec: Codec<seq<T>>, out: seq<seq<byte>>, s: int): seq<T>
  {
    if |out| < 2 then []
    else if |out[0]| == 8 && UnpackLong(out[0]) == s then codec.loads(out[1]) + Decode(codec, out[2..], s)
    else Decode(codec, out[2..], s)
  }

  /** Ids and chunks alternate, and every id is a split. */
  ghost predicate WellFormed(out: seq<seq<byte>>, numPartitions: int)
  {
    && |out| % 2 == 0
    && forall i :: 0 <= i < |out| && i % 2 == 0 ==> |out[i]| == 8 && 0 <= UnpackLong(out[i]) < numPartitions
  }

  lemma WellFormedSnoc(out: seq<seq<byte>>, split: int, chunk: seq<byte>, numPartitions: int)
    requires WellFormed(out, numPartitions) && 0 <= split < numPartitions <= TWO_63
    ensures WellFormed(out + [PackLong(split), chunk], numPartitions) && |out| % 2 == 0
  {
    UnpackPackLong(split);
  }

  lemma {:induction false} DecodeSnoc<T(!new)>(
      codec: Codec<seq<T>>, out: seq<seq<byte>>, split: int, chunk: seq<T>, s: int)
    requires PickledChunks(codec) && IsInt64(split) && |out| % 2 == 0
    ensures Decode(codec, out + [PackLong(split), codec.dumps(chunk).value], s)
         == Decode(codec, out, s) + if split == s then chunk else []
  {
    var out' := out + [PackLong(split), codec.dumps(chunk).value];
    if out == [] {
      UnpackPackLong(split);
      assert out'[2..] == [];
    } else {
      DecodeSnoc(codec, out[2..], split, chunk, s);
      assert out'[2..] == out[2..] + [PackLong(split), codec.dumps(chunk).value];
    }
  }

  /** The items waiting in a bucket. */
  function Pending<T>(buckets: map<int, seq<T>>, s: int): seq<T>
  {
    if s in buckets then buckets[s] else []
  }

  method Any<T(==)>(s: set<T>) returns (x: T)
    requires s != {}
    ensures x in s
  {
    x :| x in s;
  }

  /** Emit every bucket once, in any order. */
  method EmitBuckets<T(!new)>(
      codec: Codec<seq<T>>, buckets: map<int, seq<T>>, out: seq<seq<byte>>, ghost numPartitions: int)
    returns (out': seq<seq<byte>>, size: nat)
    requires PickledChunks(codec) && numPartitions <= TWO_63
    requires forall s :: s in buckets ==> 0 <= s < numPartitions
    requires WellFormed(out, numPartitions)
    ensures WellFormed(out', numPartitions)
    ensures forall s :: Decode(codec, out', s) == Decode(codec, out, s) + Pending(buckets, s)
  {
    hide Decode, WellFormed, PackLong, UnpackLong;
    out', size := out, 0;
    var rest := buckets.Keys;
    while rest != {}
      invariant rest <= buckets.Keys && WellFormed(out', numPartitions)
      invariant forall s ::
                  Decode(codec, out', s) == Decode(codec, out, s) + if s in rest then [] else Pending(buckets, s)
      decreases rest
    {
      var split := Any(rest);
      var d := codec.dumps(buckets[split]).value;
      ghost var before := out';
      WellFormedSnoc(out', split, d, numPartitions);
      out' := out' + [PackLong(split), d];
      size := size + |d|;
      rest := rest - {split};
      forall s ensures Decode(codec, out', s) == Decode(codec, out, s) + if s in rest then [] else Pending(buckets, s) {
        DecodeSnoc(codec, before, split, buckets[split], s);
      }
    }
  }

  /**
   `add_shuffle_key`: nothing is lost or duplicated.  Each split reads back exactly the
   records that belong to it, in order, whatever the flushes and the chunk sizes were.
   */
  method AddShuffleKey<K(!new), V(!new)>(codec: Codec<seq<(K, V)>>, partitionFunc: K -> int, numPartitions: int,
                                         limit: real, items: seq<(K, V)>)
    returns (out: seq<seq<byte>>)
    requires PickledChunks(codec) && 0 < numPartitions <= TWO_63
    ensures WellFormed(out, numPartitions)
    ensures forall s :: Decode(codec, out, s) == Filter(Goes(SplitOf(partitionFunc, numPartitions), s), items)
    ensures forall s, i :: 0 <= i < |Decode(codec, out, s)| ==>
              partitionFunc(Decode(codec, out, s)[i].0) % numPartitions == s
    ensures forall i :: 0 <= i < |items| ==>
              items[i] in Decode(codec, out, partitionFunc(items[i].0) % numPartitions)
  {
    var part := SplitOf(partitionFunc, numPartitions);
    var buckets: map<int, seq<(K, V)>> := map[];
    var c := 0;
    var batch := (if 10 * numPartitions < 1000 then 10 * numPartitions else 1000) as real;
    out := [];
    var size;
    assert items[..0] == [];
    assert Progress(codec, out, buckets, part, items[..0]);
    assert WellFormed(out, numPartitions);
    hide Decode, Progress, Filter, UnpackLong, NextBatch, WellFormed, PickledChunks;
    for n := 0 to |items|
      invariant forall s :: s in buckets ==> 0 <= s < numPartitions
      invariant WellFormed(out, numPartitions)
      invariant Progress(codec, out, buckets, part, items[..n])
    {
      var h := part(items[n].0);
      AppendToBucket(codec, out, buckets, part, items, n);
      buckets := buckets[h := Pending(buckets, h) + [items[n]]];
      c := c + 1;

      var flush := c as real > batch;
      if !flush && c % 1000 == 0 {
        var used := GetUsedMemory();
        flush := used as real > limit;
      }
      if flush {
        var count := |buckets|;
        ghost var before, pending := out, buckets;
        out, size := EmitBuckets(codec, buckets, out, numPartitions);
        buckets := map[];
        Flushed(codec, before, pending, out, part, items[..n + 1]);
        assert count > 0 by { assert h in pending; }
        batch := NextBatch(batch, size / count / 0x10_0000);
        c := 0;
      }
    }
    assert items[..|items|] == items;
    ghost var before := out;
    out, size := EmitBuckets(codec, buckets, out, numPartitions);
    AllEmitted(codec, before, buckets, out, partitionFunc, numPartitions, items);
  }

  /** Each split reads back its records: those for which the remainder of the hash is its number. */
  lemma AllEmitted<K(!new), V(!new)>(
      codec: Codec<seq<(K, V)>>, before: seq<seq<byte>>, buckets: map<int, seq<(K, V)>>, out: seq<seq<byte>>,
      partitionFunc: K -> int, numPartitions: int, items: seq<(K, V)>)
    requires numPartitions > 0 && Progress(codec, before, buckets, SplitOf(partitionFunc, numPartitions), items)
    requires forall s :: Decode(codec, out, s) == Decode(codec, before, s) + Pending(buckets, s)
    ensures forall s :: Decode(codec, out, s) == Filter(Goes(SplitOf(partitionFunc, numPartitions), s), items)
    ensures forall s, i :: 0 <= i < |Decode(codec, out, s)| ==>
              partitionFunc(Decode(codec, out, s)[i].0) % numPartitions == s
    ensures forall i :: 0 <= i < |items| ==>
              items[i] in Decode(codec, out, partitionFunc(items[i].0) % numPartitions)
  {
    hide Decode, Filter, Pending;
    var part := SplitOf(partitionFunc, numPartitions);
    forall s, i | 0 <= i < |Decode(codec, out, s)|
      ensures partitionFunc(Decode(codec, out, s)[i].0) % numPartitions == s
    {
      InFilter(Goes(part, s), items, Decode(codec, out, s)[i]);
    }
    forall i | 0 <= i < |items| ensures items[i] in Decode(codec, out, partitionFunc(items[i].0) % numPartitions) {
      InFilter(Goes(part, part(items[i].0)), items, items[i]);
    }
  }

  /** Chunks of less than one megabyte on average are too small, of more than ten too large. */
  function NextBatch(batch: real, avg: int): real
  {
    if avg < 1 then batch * 1.5
    else if avg > 10 then
      var smaller := (batch / 1.5).Floor;
      if smaller < 1 then 1.0 else smaller as real
    else batch
  }

  /** What was emitted and what is pending make up the items of each split so far. */
  ghost predicate Progress<K, V>(codec: Codec<seq<(K, V)>>, out: seq<seq<byte>>, buckets: map<int, seq<(K, V)>>,
                                 part: K -> int, items: seq<(K, V)>)
  {
    forall s :: Decode(codec, out, s) + Pending(buckets, s) == Filter(Goes(part, s), items)
  }

  lemma AppendToBucket<K, V>(codec: Codec<seq<(K, V)>>, out: seq<seq<byte>>, buckets: map<int, seq<(K, V)>>,
                             part: K -> int, items: seq<(K, V)>, n: nat)
    requires n < |items| && Progress(codec, out, buckets, part, items[..n])
    ensures var h := part(items[n].0);
            Progress(codec, out, buckets[h := Pending(buckets, h) + [items[n]]], part, items[..n + 1])
  {
    var h := part(items[n].0);
    var buckets' := buckets[h := Pending(buckets, h) + [items[n]]];
    forall s ensures Decode(codec, out, s) + Pending(buckets', s) == Filter(Goes(part, s), items[..n + 1]) {
      assert Decode(codec, out, s) + Pending(buckets, s) == Filter(Goes(part, s), items[..n]);
      FilterUpto(Goes(part, s), items, n);
      if s == h {
        assert (Decode(codec, out, s) + Pending(buckets, s)) + [items[n]] ==
                  Decode(codec, out, s) + Pending(buckets', s);
      }
    }
  }

  lemma Flushed<K, V>(
      codec: Codec<seq<(K, V)>>, before: seq<seq<byte>>, buckets: map<int, seq<(K, V)>>, out: seq<seq<byte>>,
      part: K -> int, items: seq<(K, V)>)
    requires Progress(codec, before, buckets, part, items)
    requires forall s :: Decode(codec, out, s) == Decode(codec, before, s) + Pending(buckets, s)
    ensures Progress(codec, out, map[], part, items)
  {
    forall s ensures Decode(codec, out, s) + Pending<(K, V)>(map[], s) == Filter(Goes(part, s), items) {
      assert Decode(codec, before, s) + Pending(buckets, s) == Filter(Goes(part, s), items);
    }
  }

  // ----- the transport

  /** Some order of the map outputs: every list is taken once, and whole. */
  method Deliver<T>(lists: seq<seq<T>>) returns (all: seq<T>, ghost order: seq<seq<T>>)
    ensures Reordered(order, lists) && all == Flatten(order)
    ensures multiset(all) == multiset(Flatten(lists))
  {
    all, order := [], [];
    var rest := lists;
    while rest != []
      invariant multiset(order) + multiset(rest) == multiset(lists) && all == Flatten(order)
      decreases |rest|
    {
      var i :| 0 <= i < |rest|;
      RemoveAt(rest, i);
      FlattenSnoc(order, rest[i]);
      all, order := all + rest[i], order + [rest[i]];
      rest := rest[..i] + rest[i + 1..];
    }
    FlattenPermuted(order, lists);
  }

  function Zipped<T>(a: seq<seq<T>>, b: seq<seq<T>>): (r: seq<seq<T>>)
    requires |a| == |b|
    ensures |r| == |a| && forall s :: 0 <= s < |a| ==> r[s] == a[s] + b[s]
  {
    seq(|a|, s requires 0 <= s < |a| => a[s] + b[s])
  }

  lemma {:induction false} ZippedFlatten<T>(a: seq<seq<T>>, b: seq<seq<T>>)
    requires |a| == |b|
    ensures multiset(Flatten(Zipped(a, b))) == multiset(Flatten(a)) + multiset(Flatten(b))
  {
    if a != [] {
      ZippedFlatten(a[1..], b[1..]);
      assert Zipped(a, b)[1..] == Zipped(a[1..], b[1..]);
    }
  }

  /** The JVM either zips the partitions of the two sides or puts them one after the other. */
  method JvmUnion<T>(a: seq<seq<T>>, b: seq<seq<T>>) returns (parts: seq<seq<T>>)
    ensures parts == a + b || (|a| == |b| && parts == Zipped(a, b))
    ensures multiset(Flatten(parts)) == multiset(Flatten(a)) + multiset(Flatten(b))
  {
    var zip: bool := *;
    if zip && |a| == |b| {
      ZippedFlatten(a, b);
      parts := Zipped(a, b);
    } else {
      FlattenAppend(a, b);
      parts := a + b;
    }
  }

  /** Every record sits in the partition its key belongs to. */
  ghost predicate Partitioned<K, V>(parts: seq<seq<(K, V)>>, part: K -> int)
  {
    forall s, i :: 0 <= s < |parts| && 0 <= i < |parts[s]| ==> part(parts[s][i].0) == s
  }

  /** For the splits of a shuffle: the remainder of the hash of every key is the number of its partition. */
  lemma PlacedByRemainder<K, V>(parts: seq<seq<(K, V)>>, partitionFunc: K -> int, numPartitions: int)
    requires numPartitions > 0
    ensures Partitioned(parts, SplitOf(partitionFunc, numPartitions)) <==>
              forall s, i :: 0 <= s < |parts| && 0 <= i < |parts[s]| ==>
                partitionFunc(parts[s][i].0) % numPartitions == s
  {
    ghost var part := SplitOf(partitionFunc, numPartitions);
    forall s, i | 0 <= s < |parts| && 0 <= i < |parts[s]|
      ensures part(parts[s][i].0) == s <==> partitionFunc(parts[s][i].0) % numPartitions == s
    {
    }
  }

  /** The shares of split `s` in every map output, chained. */
  lemma {:induction false} SharesOfFlatten<T>(p: T -> bool, parts: seq<seq<T>>, shares: seq<seq<T>>)
    requires |shares| == |parts| && forall m :: 0 <= m < |parts| ==> shares[m] == Filter(p, parts[m])
    ensures Flatten(shares) == Filter(p, Flatten(parts))
  {
    if parts != [] {
      SharesOfFlatten(p, parts[1..], shares[1..]);
      FilterAppend(p, parts[0], Flatten(parts[1..]));
    }
  }

  lemma {:induction false} ShareOfPartitioned<K, V>(parts: seq<seq<(K, V)>>, part: K -> int, s: nat, n: nat)
    requires Partitioned(parts, part) && n <= |parts|
    ensures Filter(Goes(part, s), Flatten(parts[..n])) == if s < n then parts[s] else []
  {
    if n > 0 {
      ShareOfPartitioned(parts, part, s, n - 1);
      FlattenUpto(parts, n - 1);
      FilterAppend(Goes(part, s), Flatten(parts[..n - 1]), parts[n - 1]);
      if s == n - 1 {
        FilterAll(Goes(part, s), parts[n - 1]);
      } else {
        FilterNone(Goes(part, s), parts[n - 1]);
      }
    }
  }

  /** In a partitioned RDD every partition is the share of its split. */
  lemma PartitionedShares<K, V>(parts: seq<seq<(K, V)>>, part: K -> int)
    requires Partitioned(parts, part)
    ensures forall s :: 0 <= s < |parts| ==> Filter(Goes(part, s), Flatten(parts)) == parts[s]
  {
    assert parts[..|parts|] == parts;
    forall s | 0 <= s < |parts| ensures Filter(Goes(part, s), Flatten(parts)) == parts[s] {
      ShareOfPartitioned(parts, part, s, |parts|);
    }
  }

  /** A split gets its records from each map output in their order, one output after another. */
  ghost predicate Delivered<K(!new), V(!new)>(share: seq<(K, V)>, parts: seq<seq<(K, V)>>, part: K -> int, s: int)
  {
    exists order :: Reordered(order, parts) && share == Filter(Goes(part, s), Flatten(order))
  }

  /** An order of the shares of a split is an order of the map outputs they come from. */
  lemma SharesDelivered<K(!new), V(!new)>(
      parts: seq<seq<(K, V)>>, shares: seq<seq<(K, V)>>, order: seq<seq<(K, V)>>, part: K -> int, s: int)
    requires |shares| == |parts| && forall m :: 0 <= m < |parts| ==> shares[m] == Filter(Goes(part, s), parts[m])
    requires Reordered(order, shares)
    ensures Delivered(Flatten(order), parts, part, s)
  {
    var outputs := MatchOrder(shares, parts, order, (share, output) => share == Filter(Goes(part, s), output));
    SharesOfFlatten(Goes(part, s), outputs, order);
    assert Reordered(outputs, parts);
  }

  lemma PartitionDelivered<K(!new), V(!new)>(parts: seq<seq<(K, V)>>, part: K -> int)
    requires Partitioned(parts, part)
    ensures forall s :: 0 <= s < |parts| ==> Delivered(parts[s], parts, part, s)
  {
    PartitionedShares(parts, part);
    assert Reordered(parts, parts);
  }

  /**
   `partitionBy`.  An RDD that already claims this partitioner is returned as it is; any
   other is shuffled.  Either way split `s` ends up with the records of split `s`.
   */
  method PartitionBy<K(!new), V(!new)>(
      codec: Codec<seq<(K, V)>>, partitionFunc: K -> int, numPartitions: int, limit: real, parts: seq<seq<(K, V)>>,
      claimed: bool)
    returns (shuffled: seq<seq<(K, V)>>)
    requires PickledChunks(codec) && 0 < numPartitions <= TWO_63
    requires claimed ==> |parts| == numPartitions && Partitioned(parts, SplitOf(partitionFunc, numPartitions))
    ensures |shuffled| == numPartitions && Partitioned(shuffled, SplitOf(partitionFunc, numPartitions))
    ensures forall s, i :: 0 <= s < numPartitions && 0 <= i < |shuffled[s]| ==>
              partitionFunc(shuffled[s][i].0) % numPartitions == s
    ensures multiset(Flatten(shuffled)) == multiset(Flatten(parts))
    ensures forall s :: 0 <= s < numPartitions ==>
              multiset(shuffled[s]) == multiset(Filter(Goes(SplitOf(partitionFunc, numPartitions), s), Flatten(parts)))
    ensures forall s :: 0 <= s < numPartitions ==>
              Delivered(shuffled[s], parts, SplitOf(partitionFunc, numPartitions), s)
    ensures claimed ==> shuffled == parts
  {
    hide Filter, Flatten, Decode, Delivered, Partitioned, Goes, PickledChunks;
    ghost var part := SplitOf(partitionFunc, numPartitions);
    if claimed {
      PartitionedShares(parts, part);
      PartitionDelivered(parts, part);
      shuffled := parts;
    } else {
      var outputs := MapOutputs(codec, partitionFunc, numPartitions, limit, parts);
      shuffled := ReadSplits(codec, outputs, parts, part, numPartitions);
    }
    PlacedByRemainder(shuffled, partitionFunc, numPartitions);
    AllShares(parts, shuffled, part, numPartitions);
  }

  /** All splits, read from the outputs of all map tasks. */
  method ReadSplits<K(!new), V(!new)>(
      codec: Codec<seq<(K, V)>>, outputs: seq<seq<seq<byte>>>, ghost parts: seq<seq<(K, V)>>, ghost part: K -> int,
      numPartitions: nat)
    returns (shuffled: seq<seq<(K, V)>>)
    requires |outputs| == |parts|
    requires forall j, s :: 0 <= j < |parts| ==> Decode(codec, outputs[j], s) == Filter(Goes(part, s), parts[j])
    ensures |shuffled| == numPartitions && Partitioned(shuffled, part)
    ensures forall s :: 0 <= s < numPartitions ==>
              multiset(shuffled[s]) == multiset(Filter(Goes(part, s), Flatten(parts)))
    ensures forall s :: 0 <= s < numPartitions ==> Delivered(shuffled[s], parts, part, s)
  {
    hide Filter, Flatten, Decode, Delivered, Partitioned, Goes;
    shuffled := [];
    for s := 0 to numPartitions
      invariant |shuffled| == s
      invariant forall t :: 0 <= t < s ==> multiset(shuffled[t]) == multiset(Filter(Goes(part, t), Flatten(parts)))
      invariant forall t :: 0 <= t < s ==> Delivered(shuffled[t], parts, part, t)
    {
      var share := ReadSplit(codec, outputs, parts, part, s);
      shuffled := shuffled + [share];
    }
    SharesPartitioned(shuffled, Flatten(parts), part);
  }

  /** The reader of a split takes its chunks from every map output. */
  method ReadSplit<K(!new), V(!new)>(
      codec: Codec<seq<(K, V)>>, outputs: seq<seq<seq<byte>>>, ghost parts: seq<seq<(K, V)>>, ghost part: K -> int,
      s: int)
    returns (share: seq<(K, V)>)
    requires |outputs| == |parts|
    requires forall j :: 0 <= j < |parts| ==> Decode(codec, outputs[j], s) == Filter(Goes(part, s), parts[j])
    ensures multiset(share) == multiset(Filter(Goes(part, s), Flatten(parts)))
    ensures Delivered(share, parts, part, s)
  {
    hide Filter, Flatten, Decode, Delivered;
    var shares := seq(|outputs|, j requires 0 <= j < |outputs| => Decode(codec, outputs[j], s));
    SharesOfFlatten(Goes(part, s), parts, shares);
    ghost var order;
    share, order := Deliver(shares);
    SharesDelivered(parts, shares, order, part, s);
  }

  method MapOutputs<K(!new), V(!new)>(
      codec: Codec<seq<(K, V)>>, partitionFunc: K -> int, numPartitions: int, limit: real, parts: seq<seq<(K, V)>>)
    returns (outputs: seq<seq<seq<byte>>>)
    requires PickledChunks(codec) && 0 < numPartitions <= TWO_63
    ensures |outputs| == |parts|
    ensures forall j, s :: 0 <= j < |parts| ==>
              Decode(codec, outputs[j], s) == Filter(Goes(SplitOf(partitionFunc, numPartitions), s), parts[j])
  {
    outputs := [];
    for m := 0 to |parts|
      invariant |outputs| == m
      invariant forall j, s :: 0 <= j < m ==>
                Decode(codec, outputs[j], s) == Filter(Goes(SplitOf(partitionFunc, numPartitions), s), parts[j])
    {
      var out := AddShuffleKey(codec, partitionFunc, numPartitions, limit, parts[m]);
      outputs := outputs + [out];
    }
  }

  lemma SharesPartitioned<K, V>(shuffled: seq<seq<(K, V)>>, records: seq<(K, V)>, part: K -> int)
    requires forall s :: 0 <= s < |shuffled| ==> multiset(shuffled[s]) == multiset(Filter(Goes(part, s), records))
    ensures Partitioned(shuffled, part)
  {
    forall s, i | 0 <= s < |shuffled| && 0 <= i < |shuffled[s]| ensures part(shuffled[s][i].0) == s {
      var x := shuffled[s][i];
      assert x in multiset(shuffled[s]);
      assert x in Filter(Goes(part, s), records);
      InFilter(Goes(part, s), records, x);
    }
  }

  /** The splits together hold every record once. */
  lemma AllShares<K(!new), V(!new)>(parts: seq<seq<(K, V)>>, shuffled: seq<seq<(K, V)>>, part: K -> int, n: nat)
    requires |shuffled| == n && forall k :: 0 <= part(k) < n
    requires forall s :: 0 <= s < n ==> multiset(shuffled[s]) == multiset(Filter(Goes(part, s), Flatten(parts)))
    ensures multiset(Flatten(shuffled)) == multiset(Flatten(parts))
  {
    forall x ensures multiset(Flatten(shuffled))[x] == multiset(Flatten(parts))[x] {
      SharesCount(Flatten(parts), shuffled, part, n, x);
      assert shuffled[..n] == shuffled;
    }
  }

  lemma {:induction false} SharesCount<K(!new), V(!new)>(
      records: seq<(K, V)>, shuffled: seq<seq<(K, V)>>, part: K -> int, n: nat, x: (K, V))
    requires n <= |shuffled| && part(x.0) >= 0
    requires forall s :: 0 <= s < |shuffled| ==> multiset(shuffled[s]) == multiset(Filter(Goes(part, s), records))
    ensures multiset(Flatten(shuffled[..n]))[x] == if part(x.0) < n then multiset(records)[x] else 0
  {
    if n > 0 {
      hide Flatten, Filter;
      SharesCount(records, shuffled, part, n - 1, x);
      FlattenUpto(shuffled, n - 1);
      FilterCount(Goes(part, n - 1), records, x);
    }
  }

  // ----- combineByKey

  /** Combining each map partition on its own and merging the results is one global fold. */
  lemma {:induction false} LocalFolds<K, V(!new), C(!new)>(
      agg: Aggregator<V, C>, parts: seq<seq<(K, V)>>, locals: seq<seq<(K, C)>>, n: nat)
    requires Associative(agg) && Coherent(agg)
    requires n <= |parts| == |locals|
    requires forall m :: 0 <= m < |parts| ==> Enumerates(locals[m], FoldValues(agg, map[], parts[m]))
    ensures FoldCombiners(agg, map[], Flatten(locals[..n])) == FoldValues(agg, map[], Flatten(parts[..n]))
  {
    if n > 0 {
      LocalFolds(agg, parts, locals, n - 1);
      var before := FoldValues(agg, map[], Flatten(parts[..n - 1]));
      FlattenUpto(parts, n - 1);
      FlattenUpto(locals, n - 1);
      FoldCombinersAppend(agg, map[], Flatten(locals[..n - 1]), locals[n - 1]);
      FoldCombinersIsMerge(agg, before, locals[n - 1]);
      FoldOfEnumeration(agg, locals[n - 1], FoldValues(agg, map[], parts[n - 1]));
      FoldValuesIsMerge(agg, before, parts[n - 1]);
      FoldValuesAppend(agg, map[], Flatten(parts[..n - 1]), parts[n - 1]);
    }
  }

  /** What a reducer computes from its split is that split's share of the global result. */
  lemma ReducedShare<K(!new), V, C(!new)>(
      agg: Aggregator<V, C>, records: seq<(K, C)>, share: seq<(K, C)>, part: K -> int, s: int)
    requires Associative(agg) && Commutative(agg)
    requires multiset(share) == multiset(Filter(Goes(part, s), records))
    ensures FoldCombiners(agg, map[], share) == Restrict(FoldCombiners(agg, map[], records), part, s)
  {
    FoldCombinersPermuted(agg, share, Filter(Goes(part, s), records));
    RestrictFold(agg, records, part, s);
  }

  /**
   `combineByKey`: one record per distinct key, equal to one dictionary fold over all records
   of all partitions, for every flush, every spill, and every order of delivery.
   */
  method CombineByKey<K(==, !new), V(!new), C(!new)>(
      agg: Aggregator<V, C>, codec: Codec<seq<(K, C)>>, hash: (K, int) -> int, buckets: Branching, memory: real,
      partitionFunc: K -> int, numPartitions: int, parts: seq<seq<(K, V)>>, claimed: bool)
    returns (out: seq<seq<(K, C)>>)
    requires Associative(agg) && Commutative(agg) && Coherent(agg)
    requires PickledChunks(codec) && 0 < numPartitions <= TWO_63
    requires claimed ==> |parts| == numPartitions && Partitioned(parts, SplitOf(partitionFunc, numPartitions))
    ensures |out| == numPartitions && Partitioned(out, SplitOf(partitionFunc, numPartitions))
    ensures forall s, i :: 0 <= s < numPartitions && 0 <= i < |out[s]| ==>
              partitionFunc(out[s][i].0) % numPartitions == s
    ensures Enumerates(Flatten(out), FoldValues(agg, map[], Flatten(parts)))
  {
    var locals := CombineLocally(agg, hash, buckets, memory * 0.9, parts);
    if claimed { LocalsPartitioned(agg, parts, locals, SplitOf(partitionFunc, numPartitions)); }
    var shuffled := PartitionBy(codec, partitionFunc, numPartitions, memory / 2.0, locals, claimed);
    out := MergeSplits(agg, hash, buckets, memory, SplitOf(partitionFunc, numPartitions), numPartitions,
        Flatten(locals), shuffled);
    PlacedByRemainder(out, partitionFunc, numPartitions);
    LocalFolds(agg, parts, locals, |parts|);
    assert parts[..|parts|] == parts && locals[..|locals|] == locals;
  }

  /** The map side: every partition combined on its own. */
  method CombineLocally<K(==, !new), V(!new), C(!new)>(
      agg: Aggregator<V, C>, hash: (K, int) -> int, buckets: Branching, memory: real, parts: seq<seq<(K, V)>>)
    returns (locals: seq<seq<(K, C)>>)
    requires Associative(agg) && Coherent(agg)
    ensures |locals| == |parts|
    ensures forall m :: 0 <= m < |parts| ==> Enumerates(locals[m], FoldValues(agg, map[], parts[m]))
  {
    locals := [];
    for m := 0 to |parts|
      invariant |locals| == m
      invariant forall j :: 0 <= j < m ==> Enumerates(locals[j], FoldValues(agg, map[], parts[j]))
    {
      var combined := CombineValues(agg, hash, memory, buckets, parts[m]);
      locals := locals + [combined];
    }
  }

  /** The reduce side: every split merged on its own. */
  method MergeSplits<K(==, !new), V(!new), C(!new)>(
      agg: Aggregator<V, C>, hash: (K, int) -> int, buckets: Branching, memory: real, ghost part: K -> int,
      numPartitions: int, ghost records: seq<(K, C)>, shuffled: seq<seq<(K, C)>>)
    returns (out: seq<seq<(K, C)>>)
    requires Associative(agg) && Commutative(agg) && |shuffled| == numPartitions
    requires forall k :: 0 <= part(k) < numPartitions
    requires forall s :: 0 <= s < numPartitions ==> multiset(shuffled[s]) == multiset(Filter(Goes(part, s), records))
    ensures |out| == numPartitions && Partitioned(out, part)
    ensures Enumerates(Flatten(out), FoldCombiners(agg, map[], records))
  {
    ghost var total := FoldCombiners(agg, map[], records);
    out := [];
    for s := 0 to numPartitions
      invariant |out| == s && Enumerates(Flatten(out), Below(total, part, s))
      invariant Partitioned(out, part)
    {
      ReducedShare(agg, records, shuffled[s], part, s);
      var merged := CombineCombiners(agg, hash, memory, buckets, shuffled[s]);
      NextBucket(Flatten(out), merged, total, part, s);
      FlattenSnoc(out, merged);
      out := out + [merged];
    }
    assert Below(total, part, numPartitions) == total;
  }

  lemma LocalsPartitioned<K(!new), V, C>(
      agg: Aggregator<V, C>, parts: seq<seq<(K, V)>>, locals: seq<seq<(K, C)>>, part: K -> int)
    requires Partitioned(parts, part) && |parts| == |locals|
    requires forall m :: 0 <= m < |parts| ==> Enumerates(locals[m], FoldValues(agg, map[], parts[m]))
    ensures Partitioned(locals, part)
  {
    forall s, i | 0 <= s < |locals| && 0 <= i < |locals[s]| ensures part(locals[s][i].0) == s {
      FoldValuesKeys(agg, parts[s], locals[s][i].0);
    }
  }

  lemma {:induction false} FoldValuesKeys<K, V, C>(agg: Aggregator<V, C>, s: seq<(K, V)>, k: K)
    ensures k in FoldValues(agg, map[], s) <==> exists i :: 0 <= i < |s| && s[i].0 == k
  {
    if s != [] { FoldValuesKeys(agg, s[..|s| - 1], k); }
  }
}
