/**
 RDDs, the partitioner an RDD claims, and pipelining.  Consecutive transformations are fused
 into one function over the partitions of the last materialised RDD, except across a cached,
 checkpointed or re-profiled one.  The claim of a partitioner licenses `lookup` to read a
 single partition, and `partitionBy` to do nothing.
 */
module Partitioning {

  import opened Aggregation
  import opened Sequences
  import opened Serializers
  import opened Shuffling
  import opened Wrappers

  /** A Python function is an object; two are equal when they are the same object. */
  class PartitionFunc<K> {
    const apply: K -> int

    constructor (apply: K -> int)
      ensures this.apply == apply
    {
      this.apply := apply;
    }
  }

  datatype Partitioner<!K> = Partitioner(numPartitions: int, partitionFunc: PartitionFunc<K>) {

    /** `partitioner(k)` */
    function Call(k: K): int
      requires numPartitions > 0
    {
      partitionFunc.apply(k) % numPartitions
    }
  }

  /** What a task computes from the number of its partition and the records in it. */
  type Task<!K, !V> = (nat, seq<(K, V)>) -> seq<(K, V)>

  /** One task per partition. */
  function Applied<K, V>(func: Task<K, V>, parts: seq<seq<(K, V)>>): (r: seq<seq<(K, V)>>)
    ensures |r| == |parts| && forall s :: 0 <= s < |parts| ==> r[s] == func(s, parts[s])
  {
    seq(|parts|, s requires 0 <= s < |parts| => func(s, parts[s]))
  }

  /** The keys of the result all occur in the input: what `preservesPartitioning` promises. */
  ghost predicate KeepsKeys<K(!new), V(!new)>(func: Task<K, V>)
  {
    forall s, items, x :: x in func(s, items) ==> HasKey(items, x.0)
  }

  ghost predicate HasKey<K, V>(items: seq<(K, V)>, k: K)
  {
    exists x :: x in items && x.0 == k
  }

  /** An RDD that claims a partitioner has its partitions, and keeps every record where its key belongs. */
  ghost predicate ClaimHolds<K, V>(claim: Option<Partitioner<K>>, parts: seq<seq<(K, V)>>)
  {
    claim.Some? ==>
      && claim.value.numPartitions == |parts| > 0
      && Partitioned(parts, SplitOf(claim.value.partitionFunc.apply, claim.value.numPartitions))
  }

  /** In terms of hashes alone: every key is in the partition that the remainder of its hash names. */
  lemma ClaimMeans<K, V>(claim: Option<Partitioner<K>>, parts: seq<seq<(K, V)>>)
    ensures ClaimHolds(claim, parts) <==>
              (claim.Some? ==>
                && claim.value.numPartitions == |parts| > 0
                && forall s, i :: 0 <= s < |parts| && 0 <= i < |parts[s]| ==>
                    claim.value.partitionFunc.apply(parts[s][i].0) % |parts| == s)
  {
    if claim.Some? && |parts| > 0 { PlacedByRemainder(parts, claim.value.partitionFunc.apply, |parts|); }
  }

  lemma ClaimKept<K(!new), V(!new)>(claim: Option<Partitioner<K>>, parts: seq<seq<(K, V)>>, func: Task<K, V>)
    requires ClaimHolds(claim, parts) && KeepsKeys(func)
    ensures ClaimHolds(claim, Applied(func, parts))
  {
    if claim.Some? {
      PartitioningKept(parts, SplitOf(claim.value.partitionFunc.apply, claim.value.numPartitions), func);
    }
  }

  /** Keeping keys is exactly what a task needs to leave every partitioning intact. */
  lemma KeepsKeysIff<K(!new), V(!new)>(func: Task<K, V>)
    ensures KeepsKeys(func) <==>
              forall parts: seq<seq<(K, V)>>, part: K -> int :: Partitioned(parts, part) ==>
                  Partitioned(Applied(func, parts), part)
  {
    if KeepsKeys(func) {
      forall parts: seq<seq<(K, V)>>, part: K -> int | Partitioned(parts, part)
        ensures Partitioned(Applied(func, parts), part)
      {
        PartitioningKept(parts, part, func);
      }
    } else {
      var s: nat, items: seq<(K, V)>, x: (K, V) :| x in func(s, items) && !HasKey(items, x.0);
      var parts: seq<seq<(K, V)>> := seq(s + 1, i => if i == s then items else []);
      var part: K -> int := k => if k == x.0 then s + 1 else s;
      assert Partitioned(parts, part) by {
        forall i | 0 <= i < |items| ensures part(items[i].0) == s { assert items[i] in items && items[i].0 != x.0; }
      }
      var i :| 0 <= i < |func(s, items)| && func(s, items)[i] == x;
      assert Applied(func, parts)[s][i] == x && part(x.0) != s;
      assert !Partitioned(Applied(func, parts), part);
    }
  }

  lemma PartitioningKept<K(!new), V(!new)>(parts: seq<seq<(K, V)>>, part: K -> int, func: Task<K, V>)
    requires Partitioned(parts, part) && KeepsKeys(func)
    ensures Partitioned(Applied(func, parts), part)
  {
    var applied: seq<seq<(K, V)>> := Applied(func, parts);
    forall s, i | 0 <= s < |applied| && 0 <= i < |applied[s]| ensures part(applied[s][i].0) == s {
      var x: (K, V) := applied[s][i];
      assert x in func(s, parts[s]);
      assert HasKey(parts[s], x.0);
    }
  }

  /** The same records, those of each split in some order. */
  ghost predicate ShuffledFrom<K, V>(shuffled: seq<seq<(K, V)>>, parts: seq<seq<(K, V)>>, p: Partitioner<K>)
    requires p.numPartitions > 0
  {
    && |shuffled| == p.numPartitions
    && multiset(Flatten(shuffled)) == multiset(Flatten(parts))
    && forall s :: 0 <= s < |shuffled| ==>
         multiset(shuffled[s]) ==
             multiset(Filter(Goes(SplitOf(p.partitionFunc.apply, p.numPartitions), s), Flatten(parts)))
  }

  // ----- RDDs

  /**
   `RDD` and its subclass `PipelinedRDD`.  A plain RDD has its partitions in `prevJrdd` and
   no function; a pipelined one applies `func` to `prevJrdd`.
   */
  class RDD<K(==, !new), V(!new)> {

    const func: Option<Task<K, V>>
    const preservesPartitioning: bool
    const prevJrdd: seq<seq<(K, V)>>
    var isCached: bool
    var isCheckpointed: bool
    var hasResourceProfile: bool
    var partitioner: Option<Partitioner<K>>

    /** The partitions as the transport sees them. */
    function Jrdd(): seq<seq<(K, V)>>
    {
      if func.Some? then Applied(func.value, prevJrdd) else prevJrdd
    }

    ghost predicate Valid()
      reads this`partitioner
    {
      && ClaimHolds(partitioner, Jrdd())
      && (func.Some? && !preservesPartitioning ==> partitioner.None?)
    }

    constructor (jrdd: seq<seq<(K, V)>>)
      ensures Valid() && func.None? && Jrdd() == jrdd && partitioner.None?
      ensures !isCached && !isCheckpointed && !hasResourceProfile
    {
      func, preservesPartitioning, prevJrdd := None, false, jrdd;
      isCached, isCheckpointed, hasResourceProfile, partitioner := false, false, false, None;
    }

    predicate IsPipelinable()
      reads this
    {
      !(isCached || isCheckpointed || hasResourceProfile)
    }

    /**
     `PipelinedRDD(prev, func, preserves)`.  Fused or not, the result is `f` applied to the
     partitions of `prev`, and the claim of `prev` survives exactly if `f` preserves it.
     */
    constructor Pipelined(prev: RDD<K, V>, f: Task<K, V>, preserves: bool)
      requires prev.Valid() && (preserves ==> KeepsKeys(f))
      ensures Valid() && Jrdd() == Applied(f, prev.Jrdd())
      ensures partitioner == if preserves then prev.partitioner else None
      ensures prevJrdd == if prev.func.Some? && prev.IsPipelinable() then prev.prevJrdd else prev.Jrdd()
      ensures !isCached && !isCheckpointed && !hasResourceProfile
    {
      var kept;
      if prev.func.None? || !prev.IsPipelinable() {
        func := Some(f);
        kept := preserves;
        prevJrdd := prev.Jrdd();
      } else {
        var prevFunc := prev.func.value;
        func := Some((s: nat, items: seq<(K, V)>) => f(s, prevFunc(s, items)));
        kept := prev.preservesPartitioning && preserves;
        prevJrdd := prev.prevJrdd;
      }
      preservesPartitioning := kept;
      isCached, isCheckpointed, hasResourceProfile := false, false, false;
      partitioner := if kept then prev.partitioner else None;
      new;
      assert Jrdd() == Applied(f, prev.Jrdd());
      if preserves { ClaimKept(prev.partitioner, prev.Jrdd(), f); }
    }

    method GetNumPartitions() returns (n: nat)
      ensures n == |Jrdd()|
    {
      n := |prevJrdd|;
    }

    /** `cache()` and `persist()` */
    method Cache() returns (self: RDD<K, V>)
      modifies this`isCached
      ensures self == this && isCached
    {
      isCached := true;
      self := this;
    }

    method Unpersist() returns (self: RDD<K, V>)
      modifies this`isCached
      ensures self == this && !isCached
    {
      isCached := false;
      self := this;
    }

    method Checkpoint()
      modifies this`isCheckpointed
      ensures isCheckpointed
    {
      isCheckpointed := true;
    }

    method WithResources() returns (self: RDD<K, V>)
      modifies this`hasResourceProfile
      ensures self == this && hasResourceProfile
    {
      hasResourceProfile := true;
      self := this;
    }

    method MapPartitionsWithIndex(f: Task<K, V>, preserves: bool) returns (r: RDD<K, V>)
      requires Valid() && (preserves ==> KeepsKeys(f))
      ensures fresh(r) && r.Valid() && r.Jrdd() == Applied(f, Jrdd())
      ensures r.partitioner == if preserves then partitioner else None
    {
      r := new RDD.Pipelined(this, f, preserves);
    }

    method FilterRecords(p: ((K, V)) -> bool) returns (r: RDD<K, V>)
      requires Valid()
      ensures fresh(r) && r.Valid() && r.partitioner == partitioner
      ensures Flatten(r.Jrdd()) == Filter(p, Flatten(Jrdd()))
      ensures |r.Jrdd()| == |Jrdd()| && forall s :: 0 <= s < |Jrdd()| ==> r.Jrdd()[s] == Filter(p, Jrdd()[s])
    {
      var f: Task<K, V> := (s, items) => Filter(p, items);
      FilterKeepsKeys(p, f);
      r := MapPartitionsWithIndex(f, true);
      SharesOfFlatten(p, Jrdd(), r.Jrdd());
    }

    method FlatMapValues(g: V -> seq<V>) returns (r: RDD<K, V>)
      requires Valid()
      ensures fresh(r) && r.Valid() && r.partitioner == partitioner
      ensures forall k :: ValuesOf(Flatten(r.Jrdd()), k) == Flatten(Map(g, ValuesOf(Flatten(Jrdd()), k)))
    {
      var f: Task<K, V> := (s, items) => Spread(g, items);
      SpreadKeepsKeys(g, f);
      r := MapPartitionsWithIndex(f, true);
      forall k ensures ValuesOf(Flatten(r.Jrdd()), k) == Flatten(Map(g, ValuesOf(Flatten(Jrdd()), k))) {
        SpreadFlatten(g, Jrdd(), r.Jrdd());
        ValuesOfSpread(g, Flatten(Jrdd()), k);
      }
    }

    method MapValues(g: V -> V) returns (r: RDD<K, V>)
      requires Valid()
      ensures fresh(r) && r.Valid() && r.partitioner == partitioner
      ensures Flatten(r.Jrdd()) == Map(OnValue(g), Flatten(Jrdd()))
      ensures forall k :: ValuesOf(Flatten(r.Jrdd()), k) == Map(g, ValuesOf(Flatten(Jrdd()), k))
    {
      var f: Task<K, V> := (s, items) => Map(OnValue(g), items);
      MapKeepsKeys(g, f);
      r := MapPartitionsWithIndex(f, true);
      FlattenMap(OnValue(g), Jrdd(), r.Jrdd());
      forall k ensures ValuesOf(Flatten(r.Jrdd()), k) == Map(g, ValuesOf(Flatten(Jrdd()), k)) {
        ValuesOfMap(g, Flatten(Jrdd()), k);
      }
    }

    /** `partitionBy`: an RDD that already claims an equal partitioner is returned as it is. */
    method PartitionBy(codec: Codec<seq<(K, V)>>, limit: real, numPartitions: int, partitionFunc: PartitionFunc<K>)
      returns (r: RDD<K, V>)
      requires Valid() && PickledChunks(codec) && 0 < numPartitions <= TWO_63
      ensures r.Valid() && r.partitioner == Some(Partitioner(numPartitions, partitionFunc))
      ensures ShuffledFrom(r.Jrdd(), Jrdd(), Partitioner(numPartitions, partitionFunc))
      ensures forall s, i :: 0 <= s < numPartitions && 0 <= i < |r.Jrdd()[s]| ==>
                partitionFunc.apply(r.Jrdd()[s][i].0) % numPartitions == s
      ensures if partitioner == Some(Partitioner(numPartitions, partitionFunc)) then r == this else fresh(r)
    {
      var p := Partitioner(numPartitions, partitionFunc);
      if partitioner == Some(p) {
        PartitionedShares(Jrdd(), SplitOf(partitionFunc.apply, numPartitions));
        PlacedByRemainder(Jrdd(), partitionFunc.apply, numPartitions);
        return this;
      }
      var shuffled := Shuffling.PartitionBy(codec, partitionFunc.apply, numPartitions, limit, Jrdd(), false);
      r := new RDD(shuffled);
      r.partitioner := Some(p);
    }

    /** `union`: the claim is kept only if it is common to both sides and the partitions were zipped. */
    method Union(other: RDD<K, V>) returns (r: RDD<K, V>)
      requires Valid() && other.Valid()
      ensures fresh(r) && r.Valid()
      ensures multiset(Flatten(r.Jrdd())) == multiset(Flatten(Jrdd())) + multiset(Flatten(other.Jrdd()))
      ensures r.partitioner == if partitioner == other.partitioner && |Jrdd()| == |r.Jrdd()| then partitioner else None
    {
      var parts := JvmUnion(Jrdd(), other.Jrdd());
      r := new RDD(parts);
      var mine := GetNumPartitions();
      var its := r.GetNumPartitions();
      if partitioner == other.partitioner && mine == its {
        r.partitioner := partitioner;
      }
    }

    /**
     `lookup(key)`: with a partitioner, only the partition of the key is read; the result is
     that of a search through all partitions.
     */
    method Lookup(key: K) returns (r: seq<V>)
      requires Valid()
      ensures r == ValuesOf(Flatten(Jrdd()), key)
    {
      var found := FilterRecords(Has(key));
      var values := seq(|found.Jrdd()|, s requires 0 <= s < |found.Jrdd()| => Map(Second<K, V>(), found.Jrdd()[s]));
      FlattenMap(Second<K, V>(), found.Jrdd(), values);
      ValuesByFilter(Flatten(Jrdd()), key);
      if partitioner.Some? {
        var s := partitioner.value.Call(key);
        OnlyPartition(Jrdd(), found.Jrdd(), partitioner.value, key);
        return values[s];
      }
      return Flatten(values);
    }
  }

  // ----- what the transformations keep

  lemma FilterKeepsKeys<K(!new), V(!new)>(p: ((K, V)) -> bool, f: Task<K, V>)
    requires forall s, items :: f(s, items) == Filter(p, items)
    ensures KeepsKeys(f)
  {
    forall s, items, x | x in f(s, items) ensures HasKey(items, x.0) {
      InFilter(p, items, x);
    }
  }

  function OnValue<K, V>(g: V -> V): ((K, V)) -> (K, V)
  {
    (kv: (K, V)) => (kv.0, g(kv.1))
  }

  lemma MapKeepsKeys<K(!new), V(!new)>(g: V -> V, f: Task<K, V>)
    requires forall s, items :: f(s, items) == Map(OnValue(g), items)
    ensures KeepsKeys(f)
  {
    forall s, items: seq<(K, V)>, x: (K, V) | x in f(s, items) ensures HasKey(items, x.0) {
      var i :| 0 <= i < |items| && Map(OnValue<K, V>(g), items)[i] == x;
      assert items[i] in items && items[i].0 == x.0;
    }
  }

  lemma {:induction false} ValuesOfMap<K, V>(g: V -> V, items: seq<(K, V)>, k: K)
    ensures ValuesOf(Map(OnValue(g), items), k) == Map(g, ValuesOf(items, k))
  {
    if items != [] {
      MapCons(OnValue<K, V>(g), items);
      ValuesOfMap(g, items[1..], k);
    }
  }

  /** `((k, x) for x in g(v))` for each record, chained. */
  function Spread<K, V>(g: V -> seq<V>, items: seq<(K, V)>): seq<(K, V)>
  {
    if items == [] then []
    else
      var vs := g(items[0].1);
      seq(|vs|, i requires 0 <= i < |vs| => (items[0].0, vs[i])) + Spread(g, items[1..])
  }

  lemma {:induction false} InSpread<K, V>(g: V -> seq<V>, items: seq<(K, V)>, x: (K, V))
    requires x in Spread(g, items)
    ensures HasKey(items, x.0)
  {
    if items != [] {
      assert items[0] in items;
      if x in Spread(g, items[1..]) {
        InSpread(g, items[1..], x);
        var y :| y in items[1..] && y.0 == x.0;
        assert y in items;
      }
    }
  }

  lemma SpreadKeepsKeys<K(!new), V(!new)>(g: V -> seq<V>, f: Task<K, V>)
    requires forall s, items :: f(s, items) == Spread(g, items)
    ensures KeepsKeys(f)
  {
    forall s, items, x | x in f(s, items) ensures HasKey(items, x.0) {
      InSpread(g, items, x);
    }
  }

  lemma {:induction false} SpreadAppend<K, V>(g: V -> seq<V>, a: seq<(K, V)>, b: seq<(K, V)>)
    ensures Spread(g, a + b) == Spread(g, a) + Spread(g, b)
  {
    if a == [] {
      assert a + b == b;
    } else {
      SpreadAppend(g, a[1..], b);
      assert (a + b)[1..] == a[1..] + b && (a + b)[0] == a[0];
    }
  }

  lemma {:induction false} SpreadFlatten<K, V>(g: V -> seq<V>, ss: seq<seq<(K, V)>>, tt: seq<seq<(K, V)>>)
    requires |tt| == |ss| && forall i :: 0 <= i < |ss| ==> tt[i] == Spread(g, ss[i])
    ensures Flatten(tt) == Spread(g, Flatten(ss))
  {
    if ss != [] {
      SpreadFlatten(g, ss[1..], tt[1..]);
      SpreadAppend(g, ss[0], Flatten(ss[1..]));
    }
  }

  lemma {:induction false} ValuesOfSpread<K, V>(g: V -> seq<V>, items: seq<(K, V)>, k: K)
    ensures ValuesOf(Spread(g, items), k) == Flatten(Map(g, ValuesOf(items, k)))
  {
    if items != [] {
      var vs := g(items[0].1);
      var first := seq(|vs|, i requires 0 <= i < |vs| => (items[0].0, vs[i]));
      ValuesOfAppend(first, Spread(g, items[1..]), k);
      ValuesOfSame(first, items[0].0, vs, k);
      ValuesOfSpread(g, items[1..], k);
      assert Spread(g, items) == first + Spread(g, items[1..]);
      if items[0].0 == k {
        assert ValuesOf(items, k)[1..] == ValuesOf(items[1..], k);
        assert Map(g, ValuesOf(items, k))[1..] == Map(g, ValuesOf(items[1..], k));
      }
    }
  }

  lemma {:induction false} ValuesOfSame<K, V>(s: seq<(K, V)>, key: K, vs: seq<V>, k: K)
    requires |s| == |vs| && forall i :: 0 <= i < |s| ==> s[i] == (key, vs[i])
    ensures ValuesOf(s, k) == if key == k then vs else []
  {
    if s != [] { ValuesOfSame(s[1..], key, vs[1..], k); }
  }

  // ----- lookup

  function Has<K(==), V>(key: K): ((K, V)) -> bool
  {
    (kv: (K, V)) => kv.0 == key
  }

  lemma {:induction false} ValuesByFilter<K, V>(s: seq<(K, V)>, k: K)
    ensures Map(Second<K, V>(), Filter(Has(k), s)) == ValuesOf(s, k)
  {
    if s != [] {
      ValuesByFilter(s[1..], k);
      if s[0].0 == k { MapCons(Second<K, V>(), Filter(Has(k), s)); }
    }
  }

  /** Under a claim that holds, only the partition of the key has records of that key. */
  lemma OnlyPartition<K, V>(parts: seq<seq<(K, V)>>, found: seq<seq<(K, V)>>, p: Partitioner<K>, key: K)
    requires ClaimHolds(Some(p), parts) && |found| == |parts|
    requires forall s :: 0 <= s < |parts| ==> found[s] == Filter(Has(key), parts[s])
    ensures 0 <= p.Call(key) < |parts|
    ensures Flatten(found) == found[p.Call(key)]
  {
    forall s | 0 <= s < |parts| && s != p.Call(key) ensures found[s] == [] {
      NotElsewhere(parts, p, key, s);
    }
    FlattenAt(found, p.Call(key));
    FlattenEmpty(found[..p.Call(key)]);
    FlattenEmpty(found[p.Call(key) + 1..]);
  }

  lemma NotElsewhere<K, V>(parts: seq<seq<(K, V)>>, p: Partitioner<K>, key: K, s: nat)
    requires ClaimHolds(Some(p), parts) && s < |parts| && s != p.Call(key)
    ensures Filter(Has(key), parts[s]) == []
  {
    forall x | x in parts[s] ensures x.0 != key {
      var i :| 0 <= i < |parts[s]| && parts[s][i] == x;
      assert SplitOf(p.partitionFunc.apply, p.numPartitions)(parts[s][i].0) == s;
    }
    FilterNone(Has(key), parts[s]);
  }

  // ----- whole programs

  /** One driver instruction; RDDs are named by their position in the list of all results so far. */
  datatype Command<!K, !V> =
    | Pipe(src: nat, func: Task<K, V>, preserves: bool)
    | Cache(src: nat)
    | Unpersist(src: nat)
    | Checkpoint(src: nat)
    | WithResources(src: nat)
    | PartitionBy(src: nat, numPartitions: int, partitionFunc: PartitionFunc<K>)
    | Union(src: nat, other: nat)

  /** Instruction `n` only names earlier results, and says of its function only what is true. */
  ghost predicate Allowed<K(!new), V(!new)>(c: Command<K, V>, n: nat)
  {
    && c.src < n
    && (c.Pipe? && c.preserves ==> KeepsKeys(c.func))
    && (c.PartitionBy? ==> 0 < c.numPartitions <= TWO_63)
    && (c.Union? ==> c.other < n)
  }

  /** What an RDD holds and claims. */
  datatype View<!K, V> = View(parts: seq<seq<(K, V)>>, claim: Option<Partitioner<K>>)

  /** The meaning of an instruction: step by step, and without any regard to caching. */
  ghost predicate Means<K, V>(c: Command<K, V>, before: seq<View<K, V>>, result: View<K, V>)
  {
    && c.src < |before|
    && var src := before[c.src];
       match c
       case Pipe(_, func, preserves) => result == View(Applied(func, src.parts), if preserves then src.claim else None)
       case Cache(_) => result == src
       case Unpersist(_) => result == src
       case Checkpoint(_) => result == src
       case WithResources(_) => result == src
       case PartitionBy(_, n, f) =>
         n > 0 && ShuffledFrom(result.parts, src.parts, Partitioner(n, f)) && result.claim == Some(Partitioner(n, f))
       case Union(_, other) =>
         && other < |before|
         && multiset(Flatten(result.parts)) == multiset(Flatten(src.parts)) + multiset(Flatten(before[other].parts))
         && result.claim ==
              if src.claim == before[other].claim && |src.parts| == |result.parts| then src.claim else None
  }

  /** Every result after the first `n` is what its instruction means in terms of the earlier ones. */
  ghost predicate History<K, V>(program: seq<Command<K, V>>, n: nat, views: seq<View<K, V>>)
  {
    && |views| == n + |program|
    && forall i :: 0 <= i < |program| ==> Means(program[i], views[..n + i], views[n + i])
  }

  lemma HistoryNext<K, V>(
      program: seq<Command<K, V>>, n: nat, views: seq<View<K, V>>, c: Command<K, V>, result: View<K, V>)
    requires History(program, n, views) && Means(c, views, result)
    ensures History(program + [c], n, views + [result])
  {
    var program', views' := program + [c], views + [result];
    forall i | 0 <= i < |program'| ensures Means(program'[i], views'[..n + i], views'[n + i]) {
      assert views'[..n + i] == views[..n + i];
      assert views[..|views|] == views;
    }
  }

  /** What the RDDs hold and claim. */
  ghost function Views<K(!new), V(!new)>(pool: seq<RDD<K, V>>): (r: seq<View<K, V>>)
    reads pool
    ensures |r| == |pool| && forall i :: 0 <= i < |pool| ==> r[i] == View(pool[i].Jrdd(), pool[i].partitioner)
  {
    seq(|pool|, i requires 0 <= i < |pool| reads pool => View(pool[i].Jrdd(), pool[i].partitioner))
  }

  /**
   Any driver program over any inputs, with any sharing of results and any points of caching:
   every result is what its instruction means, and every claim that is made holds.
   */
  method Run<K(==, !new), V(!new)>(
      codec: Codec<seq<(K, V)>>, limit: real, inputs: seq<seq<seq<(K, V)>>>, program: seq<Command<K, V>>)
    returns (pool: seq<RDD<K, V>>)
    requires PickledChunks(codec)
    requires forall i :: 0 <= i < |program| ==> Allowed(program[i], |inputs| + i)
    ensures |pool| == |inputs| + |program| && fresh(pool) && AllValid(pool)
    ensures Inputs(inputs) <= Views(pool)
    ensures History(program, |inputs|, Views(pool))
    ensures forall i :: 0 <= i < |pool| ==> ClaimHolds(Views(pool)[i].claim, Views(pool)[i].parts)
    ensures forall i, s, j ::
              0 <= i < |pool| && pool[i].partitioner.Some? && 0 <= s < |pool[i].Jrdd()| &&
              0 <= j < |pool[i].Jrdd()[s]| ==>
                pool[i].partitioner.value.partitionFunc.apply(pool[i].Jrdd()[s][j].0) % |pool[i].Jrdd()| == s
  {
    hide Means, ClaimHolds, RDD.Valid, Inputs, History, AllValid, Views;
    pool := Load(inputs);
    HistoryStart(|inputs|, Views(pool));
    for i := 0 to |program|
      invariant |pool| == |inputs| + i && fresh(pool) && AllValid(pool)
      invariant Inputs(inputs) <= Views(pool)
      invariant History(program[..i], |inputs|, Views(pool))
    {
      ghost var views := Views(pool);
      var rdd := Execute(codec, limit, pool, program[i]);
      HistoryNext(program[..i], |inputs|, views, program[i], View(rdd.Jrdd(), rdd.partitioner));
      assert program[..i + 1] == program[..i] + [program[i]];
      AllValidNext(pool, rdd);
      pool := pool + [rdd];
    }
    assert program[..|program|] == program;
    ClaimsHold(pool);
    KeysAreWhereClaimed(pool);
  }

  lemma KeysAreWhereClaimed<K(!new), V(!new)>(pool: seq<RDD<K, V>>)
    requires AllValid(pool)
    ensures forall i, s, j ::
              0 <= i < |pool| && pool[i].partitioner.Some? && 0 <= s < |pool[i].Jrdd()| &&
              0 <= j < |pool[i].Jrdd()[s]| ==>
                pool[i].partitioner.value.partitionFunc.apply(pool[i].Jrdd()[s][j].0) % |pool[i].Jrdd()| == s
  {
    forall i | 0 <= i < |pool| && pool[i].partitioner.Some?
      ensures forall s, j :: 0 <= s < |pool[i].Jrdd()| && 0 <= j < |pool[i].Jrdd()[s]| ==>
                pool[i].partitioner.value.partitionFunc.apply(pool[i].Jrdd()[s][j].0) % |pool[i].Jrdd()| == s
    {
      ClaimMeans(pool[i].partitioner, pool[i].Jrdd());
    }
  }

  lemma HistoryStart<K, V>(n: nat, views: seq<View<K, V>>)
    requires |views| == n
    ensures History([], n, views)
  {
  }

  lemma AllValidNext<K(!new), V(!new)>(pool: seq<RDD<K, V>>, r: RDD<K, V>)
    requires AllValid(pool) && r.Valid()
    ensures AllValid(pool + [r])
    ensures Views(pool + [r]) == Views(pool) + [View(r.Jrdd(), r.partitioner)]
  {
  }

  lemma ClaimsHold<K(!new), V(!new)>(pool: seq<RDD<K, V>>)
    requires AllValid(pool)
    ensures forall i :: 0 <= i < |pool| ==> ClaimHolds(Views(pool)[i].claim, Views(pool)[i].parts)
  {
  }

  method Load<K(==, !new), V(!new)>(inputs: seq<seq<seq<(K, V)>>>) returns (pool: seq<RDD<K, V>>)
    ensures fresh(pool) && AllValid(pool)
    ensures Views(pool) == Inputs(inputs)
  {
    pool := [];
    for i := 0 to |inputs|
      invariant fresh(pool) && AllValid(pool)
      invariant Views(pool) == Inputs(inputs[..i])
    {
      var rdd := new RDD(inputs[i]);
      pool := pool + [rdd];
    }
    assert inputs[..|inputs|] == inputs;
  }

  ghost predicate AllValid<K(!new), V(!new)>(pool: seq<RDD<K, V>>)
    reads pool
  {
    forall i :: 0 <= i < |pool| ==> pool[i].Valid()
  }

  /** The driver's inputs claim nothing. */
  ghost function Inputs<K, V>(inputs: seq<seq<seq<(K, V)>>>): (r: seq<View<K, V>>)
    ensures |r| == |inputs|
  {
    seq(|inputs|, i requires 0 <= i < |inputs| => View(inputs[i], None))
  }

  /** One instruction; caching may change how later results are computed, but no result. */
  method Execute<K(==, !new), V(!new)>(codec: Codec<seq<(K, V)>>, limit: real, pool: seq<RDD<K, V>>, c: Command<K, V>)
    returns (r: RDD<K, V>)
    requires PickledChunks(codec) && Allowed(c, |pool|)
    requires AllValid(pool)
    modifies pool
    ensures AllValid(pool) && Views(pool) == old(Views(pool)) && (r in pool || fresh(r))
    ensures r.Valid() && Means(c, Views(pool), View(r.Jrdd(), r.partitioner))
  {
    var src := pool[c.src];
    match c {
      case Pipe(_, func, preserves) => r := src.MapPartitionsWithIndex(func, preserves);
      case Cache(_) => r := src.Cache();
      case Unpersist(_) => r := src.Unpersist();
      case Checkpoint(_) => src.Checkpoint(); r := src;
      case WithResources(_) => r := src.WithResources();
      case PartitionBy(_, n, f) => r := src.PartitionBy(codec, limit, n, f);
      case Union(_, other) => r := src.Union(pool[other]);
    }
  }
}
