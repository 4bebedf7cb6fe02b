/**
 The spilling hash merge.  Records are merged into one dictionary, then, after the first
 spill, into one dictionary per hash bucket; a spill writes one file per bucket.  Reading
 merges the files of a bucket, oldest spill first, and re-partitions a bucket with a fresh
 merger, hence a fresh hash seed, when it does not fit in memory either.

 The proof views every spill as one layer: `layers[j]` is the whole dictionary dumped by
 spill `j` and `current` the whole dictionary in memory, whatever bucket its entries sit in.
 */
module ExternalMerging {

  import opened Aggregation
  import opened Memory
  import opened Sequences
  import opened Wrappers

  const MAX_TOTAL_PARTITIONS: nat := 4096

  /** Number of buckets. */
  type Fanout = n: int | 1 <= n witness 59

  /** With a single bucket re-partitioning need not end, see `RepartitioningStops` and `OneBucketNeverStops`. */
  type Branching = n: Fanout | 2 <= n witness 59

  /** In how many parts the data of a merger were split before they came to it. */
  type Scale = n: int | 1 <= n witness 1

  /** `hash((key, seed)) % partitions` for an arbitrary hash function. */
  function Bucket<K>(hash: (K, int) -> int, seed: int, partitions: Fanout): K -> int
  {
    k => hash(k, seed) % partitions
  }

  /** The entries of the buckets before bucket `i`. */
  ghost function Below<K, C>(m: map<K, C>, part: K -> int, i: int): map<K, C>
  {
    map k | k in m && part(k) < i :: m[k]
  }

  /** Listing one more bucket. */
  lemma NextBucket<K, C>(r: seq<(K, C)>, items: seq<(K, C)>, m: map<K, C>, part: K -> int, i: int)
    requires Enumerates(r, Below(m, part, i)) && Enumerates(items, Restrict(m, part, i))
    ensures Enumerates(r + items, Below(m, part, i + 1))
  {
    EnumerateBoth(r, items, Below(m, part, i), Restrict(m, part, i));
    assert Below(m, part, i + 1) == Below(m, part, i) + Restrict(m, part, i);
  }

  /** The in-memory state holds dictionary `m`: as `data`, or split over the buckets of `pdata`. */
  ghost predicate Holds<K, C>(data: map<K, C>, pdata: seq<map<K, C>>, m: map<K, C>, part: K -> int, partitions: Fanout)
  {
    if pdata == [] then data == m
    else
      && |pdata| == partitions
      && data == map[]
      && forall i :: 0 <= i < partitions ==> pdata[i] == Restrict(m, part, i)
  }

  /** The bucket files of one spill hold dictionary `layer`. */
  ghost predicate FileHolds<K, V, C>(
      agg: Aggregator<V, C>, file: seq<seq<(K, C)>>, layer: map<K, C>, part: K -> int, partitions: Fanout)
  {
    && |file| == partitions
    && forall i :: 0 <= i < partitions ==> FoldCombiners(agg, map[], file[i]) == Restrict(layer, part, i)
  }

  ghost predicate FilesHold<K, V, C>(
      agg: Aggregator<V, C>, files: seq<seq<seq<(K, C)>>>, layers: seq<map<K, C>>, part: K -> int,
      partitions: Fanout)
  {
    && |files| == |layers|
    && forall j :: 0 <= j < |files| ==> FileHolds(agg, files[j], layers[j], part, partitions)
  }

  /** The records written are entries of `m`. */
  ghost predicate EntriesOf<K, C>(streams: seq<seq<(K, C)>>, m: map<K, C>)
  {
    forall i, n :: 0 <= i < |streams| && 0 <= n < |streams[i]| ==>
      streams[i][n].0 in m && streams[i][n].1 == m[streams[i][n].0]
  }

  lemma FilesHoldSnoc<K, V, C>(agg: Aggregator<V, C>, files: seq<seq<seq<(K, C)>>>, layers: seq<map<K, C>>,
                               file: seq<seq<(K, C)>>, layer: map<K, C>, part: K -> int, partitions: Fanout)
    requires FilesHold(agg, files, layers, part, partitions) && FileHolds(agg, file, layer, part, partitions)
    ensures FilesHold(agg, files + [file], layers + [layer], part, partitions)
  {
  }

  /** A record is in the file that the remainder of the hash of its key and the seed names. */
  lemma FilesByHash<K(!new), V(!new), C(!new)>(
      agg: Aggregator<V, C>, files: seq<seq<seq<(K, C)>>>, layers: seq<map<K, C>>, hash: (K, int) -> int, seed: int,
      partitions: Fanout)
    requires FilesHold(agg, files, layers, Bucket(hash, seed, partitions), partitions)
    ensures forall j :: 0 <= j < |files| ==> |files[j]| == partitions
    ensures forall j, i, n :: 0 <= j < |files| && 0 <= i < partitions && 0 <= n < |files[j][i]| ==>
              hash(files[j][i][n].0, seed) % partitions == i
  {
    forall j | 0 <= j < |files|
      ensures |files[j]| == partitions
      ensures forall i, n :: 0 <= i < partitions && 0 <= n < |files[j][i]| ==>
                hash(files[j][i][n].0, seed) % partitions == i
    {
      var part := Bucket(hash, seed, partitions);
      assert FileHolds(agg, files[j], layers[j], part, partitions);
      forall i, n | 0 <= i < partitions && 0 <= n < |files[j][i]| ensures part(files[j][i][n].0) == i {
        KeyInFold(agg, files[j][i], n);
      }
    }
  }

  lemma {:induction false} KeyInFold<K, V, C>(agg: Aggregator<V, C>, s: seq<(K, C)>, n: nat)
    requires n < |s|
    ensures s[n].0 in FoldCombiners(agg, map[], s)
  {
    if n < |s| - 1 { KeyInFold(agg, s[..|s| - 1], n); }
  }

  /** Moving the dictionary in memory to a new layer leaves the whole unchanged. */
  lemma SpillKeepsContents<K, V, C>(agg: Aggregator<V, C>, layers: seq<map<K, C>>, current: map<K, C>)
    ensures MergeMaps(agg, MergeAll(agg, layers + [current]), map[]) == MergeMaps(agg, MergeAll(agg, layers), current)
  {
    MergeAllSnoc(agg, layers, current);
    MergeMapsUnit(agg, MergeMaps(agg, MergeAll(agg, layers), current));
  }

  lemma HoldsNothing<K, C>(part: K -> int, partitions: Fanout)
    ensures Holds<K, C>(map[], seq(partitions, _ => map[]), map[], part, partitions)
  {
  }

  lemma PlaceValue<K, V, C>(
      agg: Aggregator<V, C>, pdata: seq<map<K, C>>, m: map<K, C>, part: K -> int, partitions: Fanout, k: K, v: V)
    requires pdata != [] && Holds(map[], pdata, m, part, partitions) && 0 <= part(k) < partitions
    ensures Holds(map[], pdata[part(k) := AddValue(agg, pdata[part(k)], k, v)],
                  AddValue(agg, m, k, v), part, partitions)
  {
    forall i | 0 <= i < partitions { RestrictAddValue(agg, m, part, k, v, i); }
  }

  lemma PlaceCombiner<K, V, C>(
      agg: Aggregator<V, C>, pdata: seq<map<K, C>>, m: map<K, C>, part: K -> int, partitions: Fanout, k: K, c: C)
    requires pdata != [] && Holds(map[], pdata, m, part, partitions) && 0 <= part(k) < partitions
    ensures Holds(map[], pdata[part(k) := AddCombiner(agg, pdata[part(k)], k, c)],
                  AddCombiner(agg, m, k, c), part, partitions)
  {
    forall i | 0 <= i < partitions { RestrictAddCombiner(agg, m, part, k, c, i); }
  }

  /** Merging file after file of bucket `i` follows the merge of the layers. */
  lemma NextFile<K, V, C(!new)>(agg: Aggregator<V, C>, files: seq<seq<seq<(K, C)>>>, layers: seq<map<K, C>>,
                                part: K -> int, partitions: Fanout, i: nat, j: nat)
    requires Associative(agg) && FilesHold(agg, files, layers, part, partitions)
    requires i < partitions && j < |files|
    ensures |files[j]| == partitions
    ensures FoldCombiners(agg, Restrict(MergeAll(agg, layers[..j]), part, i), files[j][i])
         == Restrict(MergeAll(agg, layers[..j + 1]), part, i)
  {
    assert FileHolds(agg, files[j], layers[j], part, partitions);
    FoldCombinersIsMerge(agg, Restrict(MergeAll(agg, layers[..j]), part, i), files[j][i]);
    RestrictMerge(agg, MergeAll(agg, layers[..j]), layers[j], part, i);
    assert layers[..j + 1] == layers[..j] + [layers[j]];
    MergeAllSnoc(agg, layers[..j], layers[j]);
  }

  /** Writing a dictionary record by record to the file of its bucket. */
  method SplitByBucket<K, V, C>(ghost agg: Aggregator<V, C>, data: map<K, C>, part: K -> int, partitions: Fanout)
    returns (streams: seq<seq<(K, C)>>)
    requires forall k :: k in data ==> 0 <= part(k) < partitions
    ensures FileHolds(agg, streams, data, part, partitions) && EntriesOf(streams, data)
  {
    streams := seq(partitions, _ => []);
    var items := DictItems(data);
    assert items[..0] == [];
    for n := 0 to |items|
      invariant |streams| == partitions
      invariant forall i :: 0 <= i < partitions ==> streams[i] == Filter(Goes(part, i), items[..n])
      invariant EntriesOf(streams, data)
    {
      var h := part(items[n].0);
      forall i | 0 <= i < partitions { FilterUpto(Goes(part, i), items, n); }
      streams := streams[h := streams[h] + [items[n]]];
    }
    assert items[..|items|] == items;
    FoldOfEnumeration(agg, items, data);
    forall i | 0 <= i < partitions { RestrictFold(agg, items, part, i); }
  }

  /** Writing each bucket's dictionary to its file. */
  method DumpBuckets<K, V, C>(
      ghost agg: Aggregator<V, C>, pdata: seq<map<K, C>>, ghost m: map<K, C>, ghost part: K -> int,
      partitions: Fanout)
    returns (streams: seq<seq<(K, C)>>)
    requires pdata != [] && Holds(map[], pdata, m, part, partitions)
    ensures FileHolds(agg, streams, m, part, partitions) && EntriesOf(streams, m)
  {
    streams := [];
    for i := 0 to partitions
      invariant |streams| == i && EntriesOf(streams, m)
      invariant forall j :: 0 <= j < i ==> FoldCombiners(agg, map[], streams[j]) == pdata[j]
    {
      var items := DictItems(pdata[i]);
      FoldOfEnumeration(agg, items, pdata[i]);
      streams := streams + [items];
    }
  }

  // ----- the depth of re-partitioning

  /** A merger of this scale may hand a bucket to a further merger. */
  predicate MayRepartition(scale: int, partitions: int)
  {
    scale * partitions < MAX_TOTAL_PARTITIONS
  }

  /** How far the total number of buckets may still grow. */
  ghost function Headroom(scale: int, partitions: int): nat
  {
    if MayRepartition(scale, partitions) then MAX_TOTAL_PARTITIONS - scale * partitions else 0
  }

  /** No reading of memory makes a merger of this scale hand down buckets for ever. */
  predicate Bounded(scale: Scale, partitions: Fanout)
  {
    partitions >= 2 || !MayRepartition(scale, partitions)
  }

  lemma HeadroomFalls(scale: Scale, partitions: Fanout)
    requires Bounded(scale, partitions) && MayRepartition(scale, partitions)
    ensures Headroom(scale * partitions, partitions) < Headroom(scale, partitions)
  {
    var p := scale * partitions;
    assert p >= 1 && p * partitions >= p * 2;
  }

  /** The scale of the merger `n` levels down. */
  ghost function ScaleAt(partitions: int, n: nat): int
  {
    if n == 0 then 1 else ScaleAt(partitions, n - 1) * partitions
  }

  lemma {:induction false} ScaleGrows(partitions: int, n: nat)
    requires partitions >= 2
    ensures ScaleAt(partitions, n) >= ScaleAt(2, n) >= 1
  {
    if n > 0 { ScaleGrows(partitions, n - 1); }
  }

  lemma {:induction false} ScaleStays(n: nat)
    ensures ScaleAt(1, n) == 1
  {
    if n > 0 { ScaleStays(n - 1); }
  }

  /**
   If memory is always reported as full, re-partitioning comes to an end exactly when there
   are at least two buckets, and then within eleven levels (two for the default 59).
   */
  lemma RepartitioningStops(partitions: int)
    requires partitions >= 1
    ensures (exists n: nat :: !MayRepartition(ScaleAt(partitions, n), partitions)) <==> partitions >= 2
    ensures partitions >= 2 ==> !MayRepartition(ScaleAt(partitions, 11), partitions)
    ensures MayRepartition(ScaleAt(59, 1), 59) && !MayRepartition(ScaleAt(59, 2), 59)
    ensures MayRepartition(1, partitions) <==> partitions < 4096
  {
    assert ScaleAt(59, 1) == 59 && ScaleAt(59, 2) == 3481;
    if partitions >= 2 {
      ScaleGrows(partitions, 12);
      assert ScaleAt(2, 4) == 16;
      assert ScaleAt(2, 8) == 256;
      assert ScaleAt(2, 12) == 4096;
    } else {
      forall n: nat ensures MayRepartition(ScaleAt(partitions, n), partitions) { ScaleStays(n); }
    }
  }

  /**
   How often a re-partitioning merger has spilled, and its limit, after some files: `first` is the
   reading behind its first limit, and for each file there is the reading after the file and the
   one behind the next limit, which is only taken after a spill.
   */
  ghost function Refilled(memoryLimit: real, first: nat, readings: seq<(nat, nat)>): (nat, real)
  {
    if readings == [] then (0, LimitAfter(memoryLimit, first))
    else
      var n := |readings| - 1;
      var (spills, limit) := Refilled(memoryLimit, first, readings[..n]);
      if readings[n].0 as real > limit then (spills + 1, LimitAfter(memoryLimit, readings[n].1)) else (spills, limit)
  }

  /** A merger that has read some files of a bucket, and memory after each of them, hands the bucket down. */
  ghost predicate HandsDown(memoryLimit: real, scale: int, partitions: int, spills: nat, first: nat, used: seq<nat>)
  {
    && MayRepartition(scale, partitions) && 0 < |used| < spills
    && used[|used| - 1] as real > LimitAfter(memoryLimit, first)
  }

  lemma OneMoreReading(
      memoryLimit: real, scale: int, partitions: int, spills: nat, first: nat, used: seq<nat>, reading: nat)
    requires !HandsDown(memoryLimit, scale, partitions, spills, first, used)
    requires forall i :: 0 <= i < |used| ==> !HandsDown(memoryLimit, scale, partitions, spills, first, used[..i])
    ensures HandsDown(memoryLimit, scale, partitions, spills, first, used + [reading]) <==>
              && MayRepartition(scale, partitions) && |used| < spills - 1
              && reading as real > LimitAfter(memoryLimit, first)
    ensures forall i :: 0 <= i <= |used| ==>
              !HandsDown(memoryLimit, scale, partitions, spills, first, (used + [reading])[..i])
  {
    forall i | 0 <= i <= |used| ensures (used + [reading])[..i] == used[..i] {}
    assert used[..|used|] == used;
  }

  /** The scale of a merger and how often it has spilled: what its reading back depends on, besides memory. */
  datatype Level = Level(scale: int, spills: nat)

  /** The readings that are high after every file and low behind every limit. */
  ghost function Alternating(low: nat, high: nat, files: nat): (readings: seq<(nat, nat)>)
    ensures |readings| == files
  {
    seq(files, _ => (high, low))
  }

  /** The merger that many levels down, once it has read all files of its parent under these readings. */
  ghost function Descend(memoryLimit: real, partitions: int, top: Level, low: nat, high: nat, depth: nat): Level
  {
    if depth == 0 then top
    else
      var a := Descend(memoryLimit, partitions, top, low, high, depth - 1);
      Level(a.scale * partitions, Refilled(memoryLimit, low, Alternating(low, high, a.spills)).0)
  }

  lemma {:induction false} SpillsAfterEveryFile(memoryLimit: real, low: nat, high: nat, files: nat)
    requires high as real > LimitAfter(memoryLimit, low)
    ensures Refilled(memoryLimit, low, Alternating(low, high, files)) == (files, LimitAfter(memoryLimit, low))
  {
    if files > 0 {
      SpillsAfterEveryFile(memoryLimit, low, high, files - 1);
      assert Alternating(low, high, files)[..files - 1] == Alternating(low, high, files - 1);
    }
  }

  /**
   With a single bucket, memory that reads low when limits are taken and high after files makes
   a merger with two spills hand its bucket down again and again, at every depth.
   */
  lemma {:induction false} OneBucketNeverStops(memoryLimit: real, top: Level, low: nat, high: nat, depth: nat)
    requires top.scale < MAX_TOTAL_PARTITIONS && top.spills >= 2 && high as real > LimitAfter(memoryLimit, low)
    ensures var level := Descend(memoryLimit, 1, top, low, high, depth);
            level == top && HandsDown(memoryLimit, level.scale, 1, level.spills, low, [high])
  {
    if depth > 0 {
      OneBucketNeverStops(memoryLimit, top, low, high, depth - 1);
      SpillsAfterEveryFile(memoryLimit, low, high, top.spills);
    }
  }

  class ExternalMerger<K(==), V(!new), C(!new)> {

    const agg: Aggregator<V, C>
    const hash: (K, int) -> int
    const seed: int
    const memoryLimit: real
    const scale: Scale
    const partitions: Fanout
    const batch: real

    var data: map<K, C>
    var pdata: seq<map<K, C>>
    /** `files[j][i]`: the records of bucket `i` dumped by spill `j`. */
    var files: seq<seq<seq<(K, C)>>>
    var spills: nat

    ghost var layers: seq<map<K, C>>
    ghost var current: map<K, C>

    function Part(): K -> int
    {
      Bucket(hash, seed, partitions)
    }

    ghost predicate Valid()
      reads this
    {
      && spills == |files|
      && FilesHold(agg, files, layers, Part(), partitions)
      && Holds(data, pdata, current, Part(), partitions)
    }

    /** The dictionary this merger stands for. */
    ghost function Contents(): map<K, C>
      reads this
    {
      MergeMaps(agg, MergeAll(agg, layers), current)
    }

    constructor (agg: Aggregator<V, C>, hash: (K, int) -> int, seed: int, memoryLimit: real,
                 scale: Scale, partitions: Fanout, batch: real)
      ensures Valid() && Contents() == map[]
      ensures this.agg == agg && this.hash == hash && this.seed == seed && this.memoryLimit == memoryLimit
      ensures this.scale == scale && this.partitions == partitions
      ensures pdata == [] && spills == 0 && current == map[] && layers == []
    {
      this.agg, this.hash, this.seed := agg, hash, seed;
      this.memoryLimit, this.scale, this.partitions, this.batch := memoryLimit, scale, partitions, batch;
      data, pdata, files, spills := map[], [], [], 0;
      layers, current := [], map[];
    }

    /** One dictionary update with a raw value. */
    method MergeValue(k: K, v: V)
      requires Valid() && Associative(agg) && Coherent(agg)
      modifies `data, `pdata, `current
      ensures Valid() && (pdata == [] <==> old(pdata) == [])
      ensures current == AddValue(agg, old(current), k, v)
      ensures Contents() == AddValue(agg, old(Contents()), k, v)
    {
      AddValueCommutes(agg, MergeAll(agg, layers), current, k, v);
      if pdata != [] {
        var h := Part()(k);
        var d := pdata[h];
        PlaceValue(agg, pdata, current, Part(), partitions, k, v);
        pdata := pdata[h := d[k := if k in d then agg.mergeValue(d[k], v) else agg.createCombiner(v)]];
      } else {
        data := data[k := if k in data then agg.mergeValue(data[k], v) else agg.createCombiner(v)];
      }
      current := AddValue(agg, current, k, v);
    }

    /** One dictionary update with a combiner. */
    method MergeCombiner(k: K, c: C)
      requires Valid() && Associative(agg)
      modifies `data, `pdata, `current
      ensures Valid() && (pdata == [] <==> old(pdata) == [])
      ensures current == AddCombiner(agg, old(current), k, c)
      ensures Contents() == AddCombiner(agg, old(Contents()), k, c)
    {
      AddCombinerCommutes(agg, MergeAll(agg, layers), current, k, c);
      if pdata != [] {
        var h := Part()(k);
        var d := pdata[h];
        PlaceCombiner(agg, pdata, current, Part(), partitions, k, c);
        pdata := pdata[h := d[k := if k in d then agg.mergeCombiners(d[k], c) else c]];
      } else {
        data := data[k := if k in data then agg.mergeCombiners(data[k], c) else c];
      }
      current := AddCombiner(agg, current, k, c);
    }

    /** Merge raw values into the combiners. */
    method MergeValues(items: seq<(K, V)>)
      requires Valid() && (pdata == [] ==> spills == 0)
      requires Associative(agg) && Coherent(agg)
      modifies this
      ensures Valid() && (pdata == [] ==> spills == 0)
      ensures Contents() == FoldValues(agg, old(Contents()), items)
    {
      var c, limit, batch := 0, memoryLimit, batch;
      assert items[..0] == [];
      for n := 0 to |items|
        invariant Valid() && (pdata == [] ==> spills == 0)
        invariant Contents() == FoldValues(agg, old(Contents()), items[..n])
      {
        FoldValuesUpto(agg, old(Contents()), items, n);
        MergeValue(items[n].0, items[n].1);

        c := c + 1;
        if c as real >= batch {
          var used := GetUsedMemory();
          if used as real >= limit {
            Spill();
            var newLimit, _ := NextLimit(memoryLimit);
            limit := newLimit;
            batch := batch / 2.0;
            c := 0;
          } else {
            batch := batch * 1.5;
          }
        }
      }
      assert items[..|items|] == items;
      var used := GetUsedMemory();
      if used as real >= limit { Spill(); }
    }

    /**
     Merge combiners.  No limit means the configured one, and a limit of zero switches
     the memory checks off.
     */
    method MergeCombiners(items: seq<(K, C)>, limit: Option<real>)
      requires Valid() && Associative(agg)
      modifies this
      ensures Valid() && spills >= old(spills)
      ensures old(pdata == [] ==> spills == 0) ==> (pdata == [] ==> spills == 0)
      ensures Contents() == FoldCombiners(agg, old(Contents()), items)
      ensures limit == Some(0.0) ==>
                && files == old(files) && layers == old(layers) && spills == old(spills)
                && (pdata == [] <==> old(pdata) == [])
                && current == FoldCombiners(agg, old(current), items)
    {
      var lim := if limit.None? then memoryLimit else limit.value;
      var c, batch := 0, batch;
      assert items[..0] == [];
      for n := 0 to |items|
        invariant Valid() && spills >= old(spills)
        invariant old(pdata == [] ==> spills == 0) ==> (pdata == [] ==> spills == 0)
        invariant Contents() == FoldCombiners(agg, old(Contents()), items[..n])
        invariant limit == Some(0.0) ==>
                    && lim == 0.0
                    && files == old(files) && layers == old(layers) && spills == old(spills)
                    && (pdata == [] <==> old(pdata) == [])
                    && current == FoldCombiners(agg, old(current), items[..n])
      {
        FoldCombinersUpto(agg, old(Contents()), items, n);
        FoldCombinersUpto(agg, old(current), items, n);
        MergeCombiner(items[n].0, items[n].1);

        if lim != 0.0 {
          c := c + 1;
          if c as real > batch {
            var used := GetUsedMemory();
            if used as real > lim {
              Spill();
              var newLimit, _ := NextLimit(memoryLimit);
              lim := newLimit;
              batch := batch / 2.0;
              c := 0;
            } else {
              batch := batch * 1.5;
            }
          }
        }
      }
      assert items[..|items|] == items;
      if lim != 0.0 {
        var used := GetUsedMemory();
        if used as real >= lim { Spill(); }
      }
    }

    /** Dump the in-memory dictionary, or dictionaries, as one file per bucket. */
    method Spill()
      requires Valid()
      modifies this
      ensures Valid() && pdata != []
      ensures layers == old(layers) + [old(current)] && current == map[] && spills == old(spills) + 1
      ensures Contents() == old(Contents())
    {
      var streams;
      if pdata == [] {
        streams := SplitByBucket(agg, data, Part(), partitions);
      } else {
        streams := DumpBuckets(agg, pdata, current, Part(), partitions);
      }
      FilesHoldSnoc(agg, files, layers, streams, current, Part(), partitions);
      HoldsNothing<K, C>(Part(), partitions);
      data, pdata := map[], seq(partitions, _ => map[]);
      files, spills := files + [streams], spills + 1;
      SpillKeepsContents(agg, layers, current);
      layers, current := layers + [current], map[];
    }

    /** All merged items, each key once. */
    method Items() returns (r: seq<(K, C)>)
      requires Valid() && (pdata == [] ==> spills == 0) && Associative(agg) && Bounded(scale, partitions)
      modifies this
      ensures Enumerates(r, old(Contents()))
    {
      if pdata == [] && spills == 0 {
        MergeMapsUnit(agg, current);
        r := DictItems(data);
      } else {
        r := ExternalItems();
      }
    }

    /** Spill what is left in the buckets, if anything, and switch bucketing off. */
    method Flush()
      requires Valid() && pdata != []
      modifies this
      ensures Valid() && pdata == [] && data == map[]
      ensures MergeAll(agg, layers) == old(Contents())
    {
      if exists i :: 0 <= i < |pdata| && pdata[i] != map[] {
        Spill();
      } else {
        assert forall k :: k in current ==> k in Restrict(current, Part(), Part()(k));
        assert current == map[];
      }
      MergeMapsUnit(agg, MergeAll(agg, layers));
      pdata := [];
    }

    method ExternalItems() returns (r: seq<(K, C)>)
      requires Valid() && pdata != [] && Associative(agg) && Bounded(scale, partitions)
      modifies this
      ensures Enumerates(r, old(Contents()))
      decreases Headroom(scale, partitions), 3
    {
      assert data == map[];
      Flush();
      r := ReadBuckets();
    }

    /** Bucket after bucket, each merged on its own. */
    method ReadBuckets() returns (r: seq<(K, C)>)
      requires Valid() && pdata == [] && Associative(agg) && Bounded(scale, partitions)
      modifies this
      ensures Enumerates(r, old(MergeAll(agg, layers)))
      decreases Headroom(scale, partitions), 2
    {
      hide FilesHold, Holds, MergeAll, Bounded;
      ghost var all := layers;
      ghost var total := MergeAll(agg, all);
      r := [];
      for i := 0 to partitions
        invariant Valid() && pdata == [] && layers == all
        invariant Enumerates(r, Below(total, Part(), i))
      {
        var part := MergedItems(i);
        NextBucket(r, part, total, Part(), i);
        r := r + part;
        Clear();
      }
      assert Below(total, Part(), partitions) == total;
    }

    method Clear()
      requires Valid() && pdata == []
      modifies `data, `current
      ensures Valid() && data == map[] && current == map[]
    {
      data, current := map[], map[];
    }

    /** The merged entries of one bucket. */
    method MergedItems(index: nat) returns (r: seq<(K, C)>)
      requires Valid() && pdata == [] && index < partitions && Associative(agg) && Bounded(scale, partitions)
      modifies this
      ensures Valid() && pdata == [] && layers == old(layers)
      ensures Enumerates(r, Restrict(MergeAll(agg, layers), Part(), index))
      decreases Headroom(scale, partitions), 1
    {
      var full, first, used := ReadFiles(index);
      if full {
        data, current := map[], map[];
        r := RecursiveMergedItems(index);
      } else {
        r := DictItems(data);
      }
    }

    /** One more file of a bucket. */
    method MergeFile(index: nat, j: nat)
      requires Valid() && pdata == [] && index < partitions && j < spills && Associative(agg)
      requires |layers| == spills && current == Restrict(MergeAll(agg, layers[..j]), Part(), index)
      modifies this
      ensures Valid() && pdata == [] && layers == old(layers) && files == old(files) && spills == old(spills)
      ensures current == Restrict(MergeAll(agg, layers[..j + 1]), Part(), index)
    {
      NextFile(agg, files, layers, Part(), partitions, index, j);
      MergeCombiners(files[j][index], Some(0.0));
    }

    /** The same, into a new merger. */
    method MergeFileInto(m: ExternalMerger<K, V, C>, index: nat, j: nat)
      requires Valid() && index < partitions && j < spills && Associative(agg) && |layers| == spills
      requires m != this && m.Valid() && m.agg == agg && m.pdata != []
      requires m.Contents() == Restrict(MergeAll(agg, layers[..j]), Part(), index)
      modifies m
      ensures m.Valid() && m.pdata != [] && m.spills == old(m.spills)
      ensures m.Contents() == Restrict(MergeAll(agg, layers[..j + 1]), Part(), index)
    {
      NextFile(agg, files, layers, Part(), partitions, index, j);
      m.MergeCombiners(files[j][index], Some(0.0));
    }

    /** Merge the files of a bucket, unless memory runs out before the last one. */
    method ReadFiles(index: nat) returns (full: bool, ghost first: nat, ghost used: seq<nat>)
      requires Valid() && pdata == [] && index < partitions && Associative(agg)
      modifies this
      ensures Valid() && pdata == [] && layers == old(layers) && spills == old(spills)
      ensures full <==> HandsDown(memoryLimit, scale, partitions, spills, first, used)
      ensures forall j :: 0 <= j < |used| ==> !HandsDown(memoryLimit, scale, partitions, spills, first, used[..j])
      ensures !full ==> |used| == spills && current == Restrict(MergeAll(agg, layers), Part(), index)
    {
      assert |layers| == spills && layers[..0] == [];
      assert Restrict(MergeAll(agg, layers[..0]), Part(), index) == map[];
      hide FilesHold, MergeAll, MergeMaps, FoldCombiners, Restrict;
      data, current, used, full := map[], map[], [], false;
      var limit;
      limit, first := NextLimit(memoryLimit);
      assert !HandsDown(memoryLimit, scale, partitions, spills, first, used);
      hide HandsDown;
      for j := 0 to spills
        invariant Valid() && pdata == [] && layers == old(layers) && files == old(files) && spills == old(spills)
        invariant current == Restrict(MergeAll(agg, layers[..j]), Part(), index)
        invariant |used| == j && !HandsDown(memoryLimit, scale, partitions, spills, first, used)
        invariant forall i :: 0 <= i < j ==> !HandsDown(memoryLimit, scale, partitions, spills, first, used[..i])
      {
        MergeFile(index, j);
        var reading := GetUsedMemory();
        OneMoreReading(memoryLimit, scale, partitions, spills, first, used, reading);
        used := used + [reading];
        if MayRepartition(scale, partitions) && j < spills - 1 && reading as real > limit {
          full := true;
          return;
        }
      }
      assert layers[..spills] == layers;
    }

    /** Read the files of one bucket again, this time into a new, partitioned merger. */
    method RecursiveMergedItems(index: nat) returns (r: seq<(K, C)>)
      requires Valid() && pdata == [] && index < partitions && Associative(agg) && Bounded(scale, partitions)
      requires MayRepartition(scale, partitions)
      ensures Enumerates(r, Restrict(MergeAll(agg, layers), Part(), index))
      decreases Headroom(scale, partitions), 0
    {
      var m, first, readings := Repartition(index);
      HeadroomFalls(scale, partitions);
      r := m.ExternalItems();
    }

    /** The look at memory after a file of a bucket, in the new merger. */
    method SpillIfFull(limit: real, ghost first: nat, ghost readings: seq<(nat, nat)>)
      returns (limit': real, ghost more: seq<(nat, nat)>)
      requires Valid() && pdata != [] && (spills, limit) == Refilled(memoryLimit, first, readings)
      modifies this
      ensures Valid() && pdata != [] && Contents() == old(Contents())
      ensures |more| == |readings| + 1 && (spills, limit') == Refilled(memoryLimit, first, more)
    {
      limit' := limit;
      var used := GetUsedMemory();
      ghost var next := 0;
      if used as real > limit {
        Spill();
        limit', next := NextLimit(memoryLimit);
      }
      more := readings + [(used, next)];
      assert more[..|readings|] == readings;
    }

    method Repartition(index: nat)
      returns (m: ExternalMerger<K, V, C>, ghost first: nat, ghost readings: seq<(nat, nat)>)
      requires Valid() && pdata == [] && index < partitions && Associative(agg)
      requires MayRepartition(scale, partitions)
      ensures fresh(m) && m.agg == agg && m.scale == scale * partitions && m.partitions == partitions
      ensures m.memoryLimit == memoryLimit && m.Valid() && m.pdata != []
      ensures m.Contents() == Restrict(MergeAll(agg, layers), Part(), index)
      ensures |readings| == spills && m.spills == Refilled(memoryLimit, first, readings).0
    {
      var newSeed := *;
      m := new ExternalMerger(agg, hash, newSeed, memoryLimit, scale * partitions, partitions, batch);
      HoldsNothing<K, C>(m.Part(), partitions);
      m.pdata := seq(partitions, _ => map[]);
      assert |layers| == spills && layers[..0] == [];
      assert m.Valid() && m.Contents() == Restrict(MergeAll(agg, layers[..0]), Part(), index) == map[];
      hide FilesHold, MergeAll, MergeMaps, FoldCombiners, Restrict, Holds;
      var limit;
      limit, first := NextLimit(memoryLimit);
      readings := [];
      for j := 0 to spills
        invariant fresh(m) && m.agg == agg && m.scale == scale * partitions && m.partitions == partitions
        invariant m.memoryLimit == memoryLimit && m.Valid() && m.pdata != []
        invariant m.Contents() == Restrict(MergeAll(agg, layers[..j]), Part(), index)
        invariant |readings| == j && (m.spills, limit) == Refilled(memoryLimit, first, readings)
      {
        MergeFileInto(m, index, j);
        ghost var more;
        limit, more := m.SpillIfFull(limit, first, readings);
        readings := more;
      }
      assert layers[..spills] == layers;
    }
  }

  // ----- whole runs

  /** `merger = ExternalMerger(...); merger.mergeValues(items); merger.items()` */
  method CombineValues<K(==), V(!new), C(!new)>(agg: Aggregator<V, C>, hash: (K, int) -> int, memoryLimit: real,
                                                partitions: Branching, items: seq<(K, V)>)
    returns (r: seq<(K, C)>)
    requires Associative(agg) && Coherent(agg)
    ensures Enumerates(r, FoldValues(agg, map[], items))
  {
    var seed := *;
    var merger := new ExternalMerger(agg, hash, seed, memoryLimit, 1, partitions, 1000.0);
    merger.MergeValues(items);
    r := merger.Items();
  }

  /** `merger = ExternalMerger(...); merger.mergeCombiners(items); merger.items()` */
  method CombineCombiners<K(==), V(!new), C(!new)>(agg: Aggregator<V, C>, hash: (K, int) -> int, memoryLimit: real,
                                                   partitions: Branching, items: seq<(K, C)>)
    returns (r: seq<(K, C)>)
    requires Associative(agg)
    ensures Enumerates(r, FoldCombiners(agg, map[], items))
  {
    var seed := *;
    var merger := new ExternalMerger(agg, hash, seed, memoryLimit, 1, partitions, 1000.0);
    merger.MergeCombiners(items, None);
    r := merger.Items();
  }
}
