/**
 The spilling group-by.  It spills like the merger, but keeps its files sorted by key when
 the first spill is small, and can then merge a bucket that is too big for memory by sorting
 instead of hashing.  All three ways of reading a bucket give the same groups.
 */
module ExternalGrouping {

  import opened Aggregation
  import opened ExternalLists
  import opened ExternalMerging
  import opened ExternalSorting
  import opened Memory
  import opened Sequences
  import opened Serializers
  import opened StableSorting
  import opened Wrappers

  const SORT_KEY_LIMIT: nat := 1000
  const FLATTENED_BATCH: nat := 20

  // ----- what flattening keeps

  ghost predicate NoEmptyList<K, V>(s: seq<(K, seq<V>)>)
  {
    forall i :: 0 <= i < |s| ==> s[i].1 != []
  }

  ghost predicate NoEmptyValue<K, V>(m: map<K, seq<V>>)
  {
    forall k :: k in m ==> m[k] != []
  }

  /** The pieces of one list add up to the list; an empty list leaves no trace. */
  lemma {:induction false} FoldPieces<K, V(!new)>(m: map<K, seq<V>>, k: K, pieces: seq<seq<V>>)
    ensures FoldCombiners(Lists<V>(), m, Keyed(k, pieces))
         == if pieces == [] then m else AddCombiner(Lists<V>(), m, k, Flatten(pieces))
  {
    if pieces != [] {
      hide AddCombiner;
      var n := |pieces| - 1;
      var front := pieces[..n];
      FoldPieces(m, k, front);
      assert Keyed(k, pieces)[..n] == Keyed(k, front);
      assert pieces == front + [pieces[n]];
      FlattenSnoc(front, pieces[n]);
      AddListTwice(m, k, Flatten(front), pieces[n]);
      if n == 0 { assert Flatten(pieces) == pieces[0]; }
    }
  }

  lemma AddListTwice<K, V(!new)>(m: map<K, seq<V>>, k: K, a: seq<V>, b: seq<V>)
    ensures AddCombiner(Lists<V>(), AddCombiner(Lists<V>(), m, k, a), k, b) == AddCombiner(Lists<V>(), m, k, a + b)
  {
    if k in m { assert (m[k] + a) + b == m[k] + (a + b); }
  }

  /** The entries of the keys that have values. */
  ghost function NonEmpty<K, V>(m: map<K, seq<V>>): (r: map<K, seq<V>>)
  {
    map k | k in m && m[k] != [] :: m[k]
  }

  lemma NonEmptyOfAdd<K, V(!new)>(m: map<K, seq<V>>, k: K, c: seq<V>)
    ensures NonEmpty(AddCombiner(Lists<V>(), m, k, c)) ==
              if c == [] then NonEmpty(m) else AddCombiner(Lists<V>(), NonEmpty(m), k, c)
  {
    if k in m && c == [] { assert m[k] + c == m[k]; }
    if k in m && m[k] == [] { assert m[k] + c == c; }
  }

  lemma NonEmptyOfMerge<K, V(!new)>(a: map<K, seq<V>>, b: map<K, seq<V>>)
    ensures NonEmpty(MergeMaps(Lists<V>(), a, b)) == MergeMaps(Lists<V>(), NonEmpty(a), NonEmpty(b))
  {
    forall k | k in a && k in b ensures (a[k] == [] ==> a[k] + b[k] == b[k]) && (b[k] == [] ==> a[k] + b[k] == a[k]) {}
  }

  lemma NonEmptyTwice<K, V>(m: map<K, seq<V>>)
    ensures NonEmpty(NonEmpty(m)) == NonEmpty(m)
  {
  }

  lemma NonEmptyHasNoEmpty<K, V>(m: map<K, seq<V>>)
    ensures NoEmptyValue(NonEmpty(m))
  {
  }

  /** No layer has a key without values. */
  ghost predicate Lean<K, V>(layers: seq<map<K, seq<V>>>)
  {
    forall j :: 0 <= j < |layers| ==> NoEmptyValue(layers[j])
  }

  /** What is held is everything merged so far, but for keys without values if files are sorted. */
  ghost predicate Holding<K, V>(sorted: bool, held: map<K, seq<V>>, total: map<K, seq<V>>)
  {
    if sorted then NonEmpty(held) == NonEmpty(total) else held == total
  }

  lemma {:induction false} MergedNoEmpty<K, V(!new)>(layers: seq<map<K, seq<V>>>)
    requires Lean(layers)
    ensures NoEmptyValue(MergeAll(Lists<V>(), layers))
  {
    if layers != [] { MergedNoEmpty(layers[..|layers| - 1]); }
  }

  /** Flattened records fold to what the records fold to, without the keys that have no values. */
  lemma {:induction false} FoldFlattened<K, V(!new)>(s: seq<(K, seq<V>)>, n: nat)
    requires n > 0
    ensures FoldCombiners(Lists<V>(), map[], FlattenValues(s, n)) == NonEmpty(FoldCombiners(Lists<V>(), map[], s))
  {
    if s != [] {
      var front, last := s[..|s| - 1], s[|s| - 1];
      var m, chunk := FoldCombiners(Lists<V>(), map[], front), Keyed(last.0, Pieces(last.1, n));
      FoldFlattened(front, n);
      assert s == front + [last];
      FlattenValuesAppend(front, [last], n);
      assert [last][1..] == [];
      assert FlattenValues([last], n) == chunk + [] == chunk;
      FoldCombinersAppend(Lists<V>(), map[], FlattenValues(front, n), chunk);
      FoldPieces(NonEmpty(m), last.0, Pieces(last.1, n));
      PiecesWhole(last.1, n);
      NonEmptyOfAdd(m, last.0, last.1);
    }
  }

  /** A key survives flattening just when it has a value in some of its lists. */
  lemma FlattenedKeyLost<K, V(!new)>(s: seq<(K, seq<V>)>, k: K, n: nat)
    requires n > 0
    ensures k in FoldCombiners(Lists<V>(), map[], FlattenValues(s, n)) <==> Flatten(ValuesOf(s, k)) != []
  {
    FoldFlattened(s, n);
    GroupsHoldAllValues(s, k);
  }

  /** Flattening the entries of a dictionary and folding them back rebuilds it just when none of its lists is empty. */
  lemma FlatteningKeepsDictionary<K, V(!new)>(s: seq<(K, seq<V>)>, m: map<K, seq<V>>, n: nat)
    requires n > 0 && Enumerates(s, m)
    ensures FoldCombiners(Lists<V>(), map[], FlattenValues(s, n)) == m <==> NoEmptyValue(m)
  {
    FoldFlattened(s, n);
    FoldOfEnumeration(Lists<V>(), s, m);
    if k :| k in m && m[k] == [] { assert k !in NonEmpty(m); } else { assert NonEmpty(m) == m; }
  }

  /** Every key that occurs has a value in some of its lists. */
  ghost predicate EveryKeyHasValue<K(!new), V>(s: seq<(K, seq<V>)>)
  {
    forall k :: ValuesOf(s, k) != [] ==> Flatten(ValuesOf(s, k)) != []
  }

  /** Dropping the keys without values changes nothing just when every key has one. */
  lemma NothingDroppedIff<K(!new), V(!new)>(s: seq<(K, seq<V>)>)
    ensures var m := FoldCombiners(Lists<V>(), map[], s); NonEmpty(m) == m <==> EveryKeyHasValue(s)
  {
    var m := FoldCombiners(Lists<V>(), map[], s);
    forall k
      ensures k in m <==> ValuesOf(s, k) != []
      ensures k in NonEmpty(m) <==> ValuesOf(s, k) != [] && Flatten(ValuesOf(s, k)) != []
    {
      GroupsHoldAllValues(s, k);
    }
    if EveryKeyHasValue(s) {
      assert forall k :: k in m <==> k in NonEmpty(m);
      assert NonEmpty(m) == m;
    }
    if NonEmpty(m) == m {
      forall k | ValuesOf(s, k) != [] ensures Flatten(ValuesOf(s, k)) != [] { assert k in NonEmpty(m); }
    }
  }

  lemma NoEmptyListHasValues<K(!new), V>(s: seq<(K, seq<V>)>)
    requires NoEmptyList(s)
    ensures EveryKeyHasValue(s)
  {
    forall k | ValuesOf(s, k) != [] ensures Flatten(ValuesOf(s, k)) != [] { FirstListOfKey(s, k); }
  }

  lemma {:induction false} FirstListOfKey<K, V>(s: seq<(K, seq<V>)>, k: K)
    requires NoEmptyList(s) && ValuesOf(s, k) != []
    ensures ValuesOf(s, k)[0] != []
  {
    if s[0].0 != k { FirstListOfKey(s[1..], k); }
  }

  lemma RestrictNonEmpty<K, V>(m: map<K, seq<V>>, part: K -> int, i: int)
    ensures Restrict(NonEmpty(m), part, i) == NonEmpty(Restrict(m, part, i))
  {
  }

  lemma {:induction false} FlattenedOrigin<K, V>(s: seq<(K, seq<V>)>, j: nat, n: nat)
    requires n > 0 && j < |FlattenValues(s, n)|
    ensures exists i :: 0 <= i < |s| && s[i].0 == FlattenValues(s, n)[j].0 && s[i].1 != []
  {
    var head := Keyed(s[0].0, Pieces(s[0].1, n));
    if j < |head| {
      assert s[0].1 != [];
    } else {
      FlattenedOrigin(s[1..], j - |head|, n);
      var i :| 0 <= i < |s[1..]| && s[1..][i].0 == FlattenValues(s[1..], n)[j - |head|].0 && s[1..][i].1 != [];
      assert s[i + 1] == s[1..][i];
    }
  }

  // ----- sorting by key

  lemma {:induction false} ValuesOfClass<K(!new), C(!new)>(le: (K, K) -> bool, s: seq<(K, C)>, g: (K, C))
    requires TotalOrder(le)
    ensures ValuesOf(s, g.0) == Map((r: (K, C)) => r.1, Filter(Like(By(le, First<K, C>()), g), s))
  {
    if s != [] { ValuesOfClass(le, s[1..], g); }
  }

  /** A stable sort by key does not change what any key is folded to. */
  lemma FoldOfSorted<K(!new), V, C(!new)>(agg: Aggregator<V, C>, le: (K, K) -> bool, s: seq<(K, C)>)
    requires TotalOrder(le)
    ensures FoldCombiners(agg, map[], StableSort(By(le, First()), s)) == FoldCombiners(agg, map[], s)
  {
    var t := StableSort(By(le, First()), s);
    StableSortIsStable(By(le, First()), s);
    StableSortPermutes(By(le, First()), s);
    forall k ensures ValuesOf(t, k) == ValuesOf(s, k) {
      InValuesOf(s, k);
      InValuesOf(t, k);
      if i :| 0 <= i < |s| && s[i].0 == k {
        ValuesOfClass(le, s, s[i]);
        ValuesOfClass(le, t, s[i]);
      } else {
        forall i | 0 <= i < |t| ensures t[i].0 != k {
          assert t[i] in multiset(t);
          assert t[i] in s;
        }
      }
    }
    SameValuesSameFold(agg, s, t);
  }

  lemma SameValuesSameFold<K(!new), V, C>(agg: Aggregator<V, C>, s: seq<(K, C)>, t: seq<(K, C)>)
    requires forall k :: ValuesOf(t, k) == ValuesOf(s, k)
    ensures FoldCombiners(agg, map[], t) == FoldCombiners(agg, map[], s)
  {
    forall k ensures k in FoldCombiners(agg, map[], t) <==> k in FoldCombiners(agg, map[], s)
             ensures k in FoldCombiners(agg, map[], t) ==>
                       FoldCombiners(agg, map[], t)[k] == FoldCombiners(agg, map[], s)[k]
    {
      assert ValuesOf(t, k) == ValuesOf(s, k);
      FoldCombinersAt(agg, s, k);
      FoldCombinersAt(agg, t, k);
    }
  }

  ghost predicate SortedFile<K, V>(le: (K, K) -> bool, file: seq<(K, seq<V>)>)
  {
    Sorted(By(le, First()), file)
  }

  lemma SortedAppend<K(!new), V>(le: (K, K) -> bool, a: seq<(K, seq<V>)>, b: seq<(K, seq<V>)>)
    requires SortedFile(le, a) && SortedFile(le, b)
    requires forall i, j :: 0 <= i < |a| && 0 <= j < |b| ==> le(a[i].0, b[j].0)
    ensures SortedFile(le, a + b)
  {
    forall i, j | 0 <= i < j < |a + b| ensures By(le, First())((a + b)[i], (a + b)[j]) {
      if j < |a| {
        assert By(le, First())(a[i], a[j]);
      } else if i >= |a| {
        assert By(le, First())(b[i - |a|], b[j - |a|]);
      }
    }
  }

  /** Flattening keeps a file sorted, since all pieces carry their record's key. */
  lemma {:induction false} FlattenedSorted<K(!new), V>(le: (K, K) -> bool, s: seq<(K, seq<V>)>, n: nat)
    requires TotalOrder(le) && n > 0 && SortedFile(le, s)
    ensures SortedFile(le, FlattenValues(s, n))
  {
    if s != [] {
      var head, tail := Keyed(s[0].0, Pieces(s[0].1, n)), FlattenValues(s[1..], n);
      FlattenedSorted(le, s[1..], n);
      forall i, j | 0 <= i < |head| && 0 <= j < |tail| ensures le(head[i].0, tail[j].0) {
        FlattenedOrigin(s[1..], j, n);
        var o :| 0 <= o < |s[1..]| && s[1..][o].0 == tail[j].0 && s[1..][o].1 != [];
        assert By(le, First())(s[0], s[o + 1]);
      }
      assert le(s[0].0, s[0].0);
      SortedAppend(le, head, tail);
    }
  }

  lemma {:induction false} FilteredSorted<K(!new), V>(le: (K, K) -> bool, p: ((K, seq<V>)) -> bool, s: seq<(K, seq<V>)>)
    requires SortedFile(le, s)
    ensures SortedFile(le, Filter(p, s))
  {
    if s != [] {
      FilteredSorted(le, p, s[1..]);
      var t := Filter(p, s[1..]);
      forall j | 0 <= j < |t| ensures le(s[0].0, t[j].0) {
        InFilter(p, s[1..], t[j]);
        var o :| 0 <= o < |s[1..]| && s[1..][o] == t[j];
        assert By(le, First())(s[0], s[o + 1]);
      }
      if p(s[0]) { SortedAppend(le, [s[0]], t); }
    }
  }

  /** The bucket files of one spill, if kept sorted, are sorted by key. */
  ghost predicate GoodFiles<K, V>(le: (K, K) -> bool, file: seq<seq<(K, seq<V>)>>, sorted: bool)
  {
    sorted ==> forall i :: 0 <= i < |file| ==> SortedFile(le, file[i])
  }

  /** The entries of a dictionary, sorted by key. */
  method SortedItems<K(==, !new), V(!new)>(le: (K, K) -> bool, m: map<K, seq<V>>) returns (items: seq<(K, seq<V>)>)
    requires TotalOrder(le)
    ensures SortedFile(le, items)
    ensures FoldCombiners(Lists<V>(), map[], items) == m
    ensures forall i :: 0 <= i < |items| ==> items[i].0 in m
  {
    var entries := DictItems(m);
    items := StableSort(By(le, First()), entries);
    StableSortIsStable(By(le, First()), entries);
    StableSortPermutes(By(le, First()), entries);
    FoldOfSorted(Lists<V>(), le, entries);
    FoldOfEnumeration(Lists<V>(), entries, m);
    forall i | 0 <= i < |items| ensures items[i].0 in m {
      assert items[i] in multiset(items);
      assert items[i] in entries;
    }
  }

  /** The first `n` items are in the file of their bucket, flattened. */
  ghost predicate Written<K, V>(streams: seq<seq<(K, seq<V>)>>, items: seq<(K, seq<V>)>, n: nat, part: K -> int)
    requires n <= |items|
  {
    forall i :: 0 <= i < |streams| ==> streams[i] == FlattenValues(Filter(Goes(part, i), items[..n]), FLATTENED_BATCH)
  }

  lemma WriteNext<K, V>(streams: seq<seq<(K, seq<V>)>>, items: seq<(K, seq<V>)>, n: nat, part: K -> int)
    requires n < |items| && 0 <= part(items[n].0) < |streams| && Written(streams, items, n, part)
    ensures var h := part(items[n].0);
            Written(streams[h := streams[h] + FlattenValues([items[n]], FLATTENED_BATCH)], items, n + 1, part)
  {
    forall i | 0 <= i < |streams|
      ensures FlattenValues(Filter(Goes(part, i), items[..n + 1]), FLATTENED_BATCH)
           == if part(items[n].0) == i then streams[i] + FlattenValues([items[n]], FLATTENED_BATCH) else streams[i]
    {
      var f := Filter(Goes(part, i), items[..n]);
      FilterUpto(Goes(part, i), items, n);
      FlattenValuesAppend(f, [items[n]], FLATTENED_BATCH);
      assert f + [] == f;
    }
  }

  lemma BucketStream<K(!new), V(!new)>(le: (K, K) -> bool, items: seq<(K, seq<V>)>, part: K -> int, i: int)
    requires TotalOrder(le) && SortedFile(le, items)
    ensures var file := FlattenValues(Filter(Goes(part, i), items), 20);
            && SortedFile(le, file)
            && (forall j :: 0 <= j < |file| ==> 1 <= |file[j].1| <= 20)
            && FoldCombiners(Lists<V>(), map[], file) ==
                 Restrict(NonEmpty(FoldCombiners(Lists<V>(), map[], items)), part, i)
  {
    var f := Filter(Goes(part, i), items);
    FoldFlattened(f, 20);
    FlattenedSized(f, 20);
    RestrictFold(Lists<V>(), items, part, i);
    RestrictNonEmpty(FoldCombiners(Lists<V>(), map[], items), part, i);
    FilteredSorted(le, Goes(part, i), items);
    FlattenedSorted(le, f, 20);
  }

  /** The first spill: one pass over the keys, in order, each record to the file of its bucket. */
  method SplitSorted<K(==, !new), V(!new)>(le: (K, K) -> bool, data: map<K, seq<V>>, part: K -> int, partitions: Fanout)
    returns (streams: seq<seq<(K, seq<V>)>>)
    requires TotalOrder(le) && forall k :: k in data ==> 0 <= part(k) < partitions
    ensures FileHolds(Lists<V>(), streams, NonEmpty(data), part, partitions) && GoodFiles(le, streams, true)
    ensures forall i, j :: 0 <= i < |streams| && 0 <= j < |streams[i]| ==> 1 <= |streams[i][j].1| <= 20
  {
    var items := SortedItems(le, data);
    streams := seq(partitions, _ => []);
    assert items[..0] == [];
    assert Written(streams, items, 0, part);
    hide FlattenValues, FoldCombiners, SortedFile, TotalOrder;
    for n := 0 to |items|
      invariant |streams| == partitions && Written(streams, items, n, part)
    {
      var h := part(items[n].0);
      var chunk := FlattenedBatches([items[n]], FLATTENED_BATCH);
      WriteNext(streams, items, n, part);
      streams := streams[h := streams[h] + chunk];
    }
    assert items[..|items|] == items;
    forall i | 0 <= i < partitions
      ensures FoldCombiners(Lists<V>(), map[], streams[i]) == Restrict(NonEmpty(data), part, i)
      ensures SortedFile(le, streams[i])
      ensures forall j :: 0 <= j < |streams[i]| ==> 1 <= |streams[i][j].1| <= 20
    {
      BucketStream(le, items, part, i);
    }
  }

  /** Later spills: each bucket sorted by key and flattened. */
  method DumpSorted<K(==, !new), V(!new)>(
      le: (K, K) -> bool, pdata: seq<map<K, seq<V>>>, ghost m: map<K, seq<V>>, ghost part: K -> int,
      partitions: Fanout)
    returns (streams: seq<seq<(K, seq<V>)>>)
    requires TotalOrder(le)
    requires pdata != [] && Holds(map[], pdata, m, part, partitions)
    ensures FileHolds(Lists<V>(), streams, NonEmpty(m), part, partitions) && GoodFiles(le, streams, true)
    ensures forall i, j :: 0 <= i < |streams| && 0 <= j < |streams[i]| ==> 1 <= |streams[i][j].1| <= 20
  {
    streams := [];
    for i := 0 to partitions
      invariant |streams| == i && GoodFiles(le, streams, true)
      invariant forall h, j :: 0 <= h < i && 0 <= j < |streams[h]| ==> 1 <= |streams[h][j].1| <= 20
      invariant forall j :: 0 <= j < i ==> FoldCombiners(Lists<V>(), map[], streams[j]) == NonEmpty(pdata[j])
    {
      var file := DumpBucket(le, pdata[i]);
      streams := streams + [file];
    }
    forall i | 0 <= i < partitions ensures Restrict(NonEmpty(m), part, i) == NonEmpty(pdata[i]) {
      RestrictNonEmpty(m, part, i);
    }
  }

  /** One bucket. */
  method DumpBucket<K(==, !new), V(!new)>(le: (K, K) -> bool, m: map<K, seq<V>>) returns (file: seq<(K, seq<V>)>)
    requires TotalOrder(le)
    ensures SortedFile(le, file) && FoldCombiners(Lists<V>(), map[], file) == NonEmpty(m)
    ensures forall j :: 0 <= j < |file| ==> 1 <= |file[j].1| <= 20
  {
    hide TotalOrder, SortedFile, FoldCombiners, FlattenValues;
    var items := SortedItems(le, m);
    FoldFlattened(items, FLATTENED_BATCH);
    FlattenedSorted(le, items, FLATTENED_BATCH);
    file := FlattenedBatches(items, FLATTENED_BATCH);
  }

  ghost predicate AllFilesGood<K, V>(le: (K, K) -> bool, files: seq<seq<seq<(K, seq<V>)>>>, sorted: bool)
  {
    forall j :: 0 <= j < |files| ==> GoodFiles(le, files[j], sorted)
  }

  lemma GoodFilesSnoc<K, V>(
      le: (K, K) -> bool, files: seq<seq<seq<(K, seq<V>)>>>, file: seq<seq<(K, seq<V>)>>, sorted: bool)
    requires AllFilesGood(le, files, sorted) && GoodFiles(le, file, sorted)
    ensures AllFilesGood(le, files + [file], sorted)
  {
  }

  // ----- the group-by

  /** The files of one bucket, in spill order. */
  function BucketFiles<K, V>(files: seq<seq<seq<(K, V)>>>, i: nat): seq<seq<(K, V)>>
    requires forall j :: 0 <= j < |files| ==> i < |files[j]|
  {
    seq(|files|, j requires 0 <= j < |files| => files[j][i])
  }

  /** Chaining the files of a bucket folds to the bucket's share of all layers. */
  lemma {:induction false} ChainedFiles<K, V(!new)>(files: seq<seq<seq<(K, seq<V>)>>>, layers: seq<map<K, seq<V>>>,
                                                   part: K -> int, partitions: Fanout, i: nat, n: nat)
    requires FilesHold(Lists<V>(), files, layers, part, partitions) && i < partitions && n <= |files|
    requires forall j :: 0 <= j < |files| ==> i < |files[j]|
    ensures FoldCombiners(Lists<V>(), map[], Flatten(BucketFiles(files, i)[..n])) ==
              Restrict(MergeAll(Lists<V>(), layers[..n]), part, i)
  {
    if n > 0 {
      ListsAreLawful<V>();
      var fs := BucketFiles(files, i);
      ChainedFiles(files, layers, part, partitions, i, n - 1);
      FlattenUpto(fs, n - 1);
      FoldCombinersAppend(Lists<V>(), map[], Flatten(fs[..n - 1]), fs[n - 1]);
      NextFile(Lists<V>(), files, layers, part, partitions, i, n - 1);
    }
  }

  lemma HoldingAfterAdd<K, V(!new)>(sorted: bool, held: map<K, seq<V>>, total: map<K, seq<V>>, k: K, c: seq<V>)
    requires Holding(sorted, held, total)
    ensures Holding(sorted, AddCombiner(Lists<V>(), held, k, c), AddCombiner(Lists<V>(), total, k, c))
  {
    NonEmptyOfAdd(held, k, c);
    NonEmptyOfAdd(total, k, c);
  }

  lemma HoldingAfterSpill<K, V>(before: bool, after: bool, held: map<K, seq<V>>, total: map<K, seq<V>>)
    requires before ==> after
    ensures Holding(before, held, total) ==> Holding(after, if after then NonEmpty(held) else held, total)
  {
    NonEmptyTwice(held);
  }

  /** A sorted spill drops the keys without values from what is held. */
  lemma SortedSpill<K, V(!new)>(layers: seq<map<K, seq<V>>>, current: map<K, seq<V>>)
    requires Lean(layers)
    ensures var held := MergeMaps(Lists<V>(), MergeAll(Lists<V>(), layers), current);
            var layers' := layers + [NonEmpty(current)];
            && MergeMaps(Lists<V>(), MergeAll(Lists<V>(), layers'), map[]) == NonEmpty(held)
            && Lean(layers')
  {
    MergedNoEmpty(layers);
    assert NonEmpty(MergeAll(Lists<V>(), layers)) == MergeAll(Lists<V>(), layers);
    hide MergeMaps, MergeAll;
    SpillKeepsContents(Lists<V>(), layers, NonEmpty(current));
    NonEmptyOfMerge(MergeAll(Lists<V>(), layers), current);
    NonEmptyHasNoEmpty(current);
  }

  class ExternalGroupBy<K(==, !new), V(!new)> {

    const le: (K, K) -> bool
    const hash: (K, int) -> int
    const seed: int
    const memoryLimit: nat
    const partitions: Fanout
    const batch: real

    var data: map<K, seq<V>>
    var pdata: seq<map<K, seq<V>>>
    var files: seq<seq<seq<(K, seq<V>)>>>
    var spills: nat
    /** Set by the first spill. */
    var sorted: bool

    ghost var layers: seq<map<K, seq<V>>>
    ghost var current: map<K, seq<V>>
    /** One dictionary fold of everything merged so far. */
    ghost var total: map<K, seq<V>>

    function Part(): K -> int
    {
      Bucket(hash, seed, partitions)
    }

    ghost predicate Valid()
      reads this
    {
      && TotalOrder(le)
      && spills == |files|
      && FilesHold(Lists<V>(), files, layers, Part(), partitions)
      && Holds(data, pdata, current, Part(), partitions)
      && AllFilesGood(le, files, sorted)
      && (sorted ==> spills > 0 && Lean(layers))
    }

    ghost function Contents(): map<K, seq<V>>
      reads this
    {
      MergeMaps(Lists<V>(), MergeAll(Lists<V>(), layers), current)
    }

    ghost predicate Tracks()
      reads this
    {
      Holding(sorted, Contents(), total)
    }

    constructor (
        le: (K, K) -> bool, hash: (K, int) -> int, seed: int, memoryLimit: nat, partitions: Fanout, batch: real)
      requires TotalOrder(le)
      ensures Valid() && Tracks() && total == map[] && pdata == [] && spills == 0 && data == map[]
    {
      this.le, this.hash, this.seed, this.memoryLimit := le, hash, seed, memoryLimit;
      this.partitions, this.batch := partitions, batch;
      data, pdata, files, spills, sorted := map[], [], [], 0, false;
      layers, current, total := [], map[], map[];
    }

    /** One dictionary update, in the one dictionary or in that of the bucket. */
    method Place(k: K, c: seq<V>)
      requires Holds(data, pdata, current, Part(), partitions)
      modifies `data, `pdata
      ensures Holds(data, pdata, AddCombiner(Lists<V>(), current, k, c), Part(), partitions)
      ensures pdata == [] <==> old(pdata) == []
    {
      if pdata != [] {
        var h := Part()(k);
        var d := pdata[h];
        PlaceCombiner(Lists<V>(), pdata, current, Part(), partitions, k, c);
        pdata := pdata[h := d[k := if k in d then d[k] + c else c]];
      } else {
        data := data[k := if k in data then data[k] + c else c];
      }
    }

    method MergeCombiner(k: K, c: seq<V>)
      requires Valid()
      modifies `data, `pdata, `current, `total
      ensures Valid() && (pdata == [] <==> old(pdata) == [])
      ensures current == AddCombiner(Lists<V>(), old(current), k, c)
      ensures total == AddCombiner(Lists<V>(), old(total), k, c)
      ensures Contents() == AddCombiner(Lists<V>(), old(Contents()), k, c)
      ensures old(Tracks()) ==> Tracks()
    {
      hide FilesHold, Holds, AllFilesGood, Lean, Holding, MergeMaps, MergeAll, TotalOrder, AddCombiner;
      ListsAreLawful<V>();
      AddCombinerCommutes(Lists<V>(), MergeAll(Lists<V>(), layers), current, k, c);
      if Tracks() { HoldingAfterAdd(sorted, Contents(), total, k, c); }
      Place(k, c);
      current, total := AddCombiner(Lists<V>(), current, k, c), AddCombiner(Lists<V>(), total, k, c);
    }

    /** The inherited `mergeCombiners`, with the length of a list as its size. */
    method MergeCombiners(items: seq<(K, seq<V>)>, limit: Option<real>)
      requires Valid()
      requires limit == Some(0.0) || (pdata == [] ==> spills == 0)
      modifies this
      ensures Valid() && (old(Tracks()) ==> Tracks())
      ensures limit != Some(0.0) ==> (pdata == [] ==> spills == 0)
      ensures total == FoldCombiners(Lists<V>(), old(total), items)
      ensures limit == Some(0.0) ==>
                && files == old(files) && layers == old(layers) && spills == old(spills) && sorted == old(sorted)
                && (pdata == [] <==> old(pdata) == [])
                && current == FoldCombiners(Lists<V>(), old(current), items)
    {
      hide FilesHold, Holds, AllFilesGood, Lean, Holding, MergeMaps, MergeAll, TotalOrder;
      var lim := if limit.None? then memoryLimit as real else limit.value;
      var c, batch := 0, batch;
      assert items[..0] == [];
      for n := 0 to |items|
        invariant Valid() && (old(Tracks()) ==> Tracks())
        invariant limit != Some(0.0) ==> (pdata == [] ==> spills == 0)
        invariant total == FoldCombiners(Lists<V>(), old(total), items[..n])
        invariant limit == Some(0.0) ==>
                    && lim == 0.0
                    && files == old(files) && layers == old(layers) && spills == old(spills) && sorted == old(sorted)
                    && (pdata == [] <==> old(pdata) == [])
                    && current == FoldCombiners(Lists<V>(), old(current), items[..n])
      {
        FoldCombinersUpto(Lists<V>(), old(total), items, n);
        FoldCombinersUpto(Lists<V>(), old(current), items, n);
        MergeCombiner(items[n].0, items[n].1);

        if lim != 0.0 {
          c := c + |items[n].1|;
          if c as real > batch {
            var used := GetUsedMemory();
            if used as real > lim {
              Spill();
              var newLimit, _ := NextLimit(memoryLimit as real);
              lim := newLimit;
              batch := batch / 2.0;
              c := 0;
            } else {
              batch := batch * 1.5;
            }
          }
        }
      }
      assert items[..|items|] == items;
      if lim != 0.0 {
        var used := GetUsedMemory();
        if used as real >= lim { Spill(); }
      }
    }

    /**
     One file per bucket.  The first spill decides whether all files are kept sorted; those are
     flattened, and lose the keys without values.
     */
    method WriteFiles() returns (streams: seq<seq<(K, seq<V>)>>)
      requires Valid() && (pdata == [] ==> spills == 0)
      modifies `sorted
      ensures AllFilesGood(le, files, sorted)
      ensures FileHolds(Lists<V>(), streams, if sorted then NonEmpty(current) else current, Part(), partitions)
      ensures GoodFiles(le, streams, sorted)
      ensures sorted == if pdata == [] then |data| < 1000 else old(sorted)
    {
      if pdata == [] {
        sorted := |data| < SORT_KEY_LIMIT;
        if sorted {
          streams := SplitSorted(le, data, Part(), partitions);
        } else {
          streams := SplitByBucket(Lists<V>(), data, Part(), partitions);
        }
      } else if sorted {
        streams := DumpSorted(le, pdata, current, Part(), partitions);
      } else {
        streams := DumpBuckets(Lists<V>(), pdata, current, Part(), partitions);
      }
    }

    /** An unsorted spill keeps everything, a sorted one everything but the keys without values. */
    method Spill()
      requires Valid() && (pdata == [] ==> spills == 0)
      modifies this
      ensures Valid() && pdata != [] && total == old(total) && (old(Tracks()) ==> Tracks())
      ensures sorted == if old(pdata) == [] then |old(data)| < 1000 else old(sorted)
      ensures layers == old(layers) + [if sorted then NonEmpty(old(current)) else old(current)]
      ensures current == map[] && spills == old(spills) + 1
      ensures Contents() == if sorted then NonEmpty(old(Contents())) else old(Contents())
    {
      hide ExternalGroupBy.Valid, MergeMaps, MergeAll, NonEmpty, Lean, Holding;
      NoLayers();
      ghost var held, oldLayers, oldCurrent := Contents(), layers, current;
      DumpLayer();
      if sorted { SortedSpill(oldLayers, oldCurrent); } else { SpillKeepsContents(Lists<V>(), oldLayers, oldCurrent); }
      HoldingAfterSpill(old(sorted), sorted, held, total);
    }

    /** Write the files of one more layer. */
    method DumpLayer()
      requires Valid() && (pdata == [] ==> spills == 0)
      modifies `data, `pdata, `files, `spills, `sorted, `layers, `current
      ensures Valid() && pdata != [] && current == map[] && spills == old(spills) + 1
      ensures sorted == if old(pdata) == [] then |old(data)| < 1000 else old(sorted)
      ensures layers == old(layers) + [if sorted then NonEmpty(old(current)) else old(current)]
    {
      NoLayers();
      hide FilesHold, Holds, AllFilesGood, GoodFiles, FileHolds, TotalOrder, NonEmpty, Lean, Bucket;
      var streams := WriteFiles();
      ghost var layer := if sorted then NonEmpty(current) else current;
      GoodFilesSnoc(le, files, streams, sorted);
      FilesHoldSnoc(Lists<V>(), files, layers, streams, layer, Part(), partitions);
      if sorted { SortedSpill(layers, current); }
      AddFiles(streams, layer);
    }

    /** The new files take the place of the dictionaries in memory. */
    method AddFiles(streams: seq<seq<(K, seq<V>)>>, ghost layer: map<K, seq<V>>)
      requires TotalOrder(le) && spills == |files| && (sorted ==> Lean(layers + [layer]))
      requires FilesHold(Lists<V>(), files + [streams], layers + [layer], Part(), partitions)
      requires AllFilesGood(le, files + [streams], sorted)
      modifies `data, `pdata, `files, `spills, `layers, `current
      ensures Valid() && pdata != [] && current == map[]
      ensures layers == old(layers) + [layer] && spills == old(spills) + 1
    {
      hide FilesHold, AllFilesGood, TotalOrder, Lean;
      HoldsNothing<K, seq<V>>(Part(), partitions);
      data, pdata := map[], seq(partitions, _ => map[]);
      files, spills := files + [streams], spills + 1;
      layers, current := layers + [layer], map[];
    }

    /** Before the first spill there is no layer. */
    lemma NoLayers()
      requires Valid() && (pdata == [] ==> spills == 0)
      ensures pdata == [] || sorted ==> Lean(layers)
      ensures pdata == [] ==> !sorted
    {
    }

    /** All groups, each key once; if anything was spilled sorted, the keys without values are missing. */
    method Items() returns (r: seq<(K, seq<V>)>)
      requires Valid() && Tracks() && (pdata == [] ==> spills == 0)
      modifies this
      ensures Enumerates(r, if old(sorted) then NonEmpty(old(total)) else old(total))
    {
      if pdata == [] && spills == 0 {
        MergeMapsUnit(Lists<V>(), current);
        r := DictItems(data);
      } else {
        r := ExternalItems();
      }
    }

    method Flush()
      requires Valid() && pdata != []
      modifies this
      ensures Valid() && pdata == [] && data == map[] && sorted == old(sorted)
      ensures MergeAll(Lists<V>(), layers) == if sorted then NonEmpty(old(Contents())) else old(Contents())
    {
      if sorted { MergedNoEmpty(layers); }
      if exists i :: 0 <= i < |pdata| && pdata[i] != map[] {
        Spill();
      } else {
        assert forall k :: k in current ==> k in Restrict(current, Part(), Part()(k));
        assert current == map[];
      }
      MergeMapsUnit(Lists<V>(), MergeAll(Lists<V>(), layers));
      pdata := [];
    }

    method ExternalItems() returns (r: seq<(K, seq<V>)>)
      requires Valid() && Tracks() && pdata != []
      modifies this
      ensures Enumerates(r, if old(sorted) then NonEmpty(old(total)) else old(total))
    {
      Flush();
      r := ReadBuckets();
    }

    method ReadBuckets() returns (r: seq<(K, seq<V>)>)
      requires Valid() && pdata == []
      modifies this
      ensures Enumerates(r, old(MergeAll(Lists<V>(), layers)))
    {
      ghost var all := layers;
      ghost var total := MergeAll(Lists<V>(), all);
      r := [];
      for i := 0 to partitions
        invariant Valid() && pdata == [] && layers == all
        invariant Enumerates(r, Below(total, Part(), i))
      {
        var part := MergedItems(i);
        NextBucket(r, part, total, Part(), i);
        r := r + part;
        Clear();
      }
      assert Below(total, Part(), partitions) == total;
    }

    method Clear()
      requires Valid() && pdata == []
      modifies `data, `current
      ensures Valid() && data == map[] && current == map[]
    {
      data, current := map[], map[];
    }

    /** The groups of one bucket: hashed in memory, or sorted when its files are big. */
    method MergedItems(index: nat) returns (r: seq<(K, seq<V>)>)
      requires Valid() && pdata == [] && index < partitions
      modifies this
      ensures Valid() && pdata == [] && layers == old(layers)
      ensures Enumerates(r, Restrict(MergeAll(Lists<V>(), layers), Part(), index))
    {
      var size: nat := *;
      if size >= memoryLimit * 131072 {
        r := MergeSortedItems(index);
      } else {
        r := MergeHashedItems(index);
      }
    }

    method MergeHashedItems(index: nat) returns (r: seq<(K, seq<V>)>)
      requires Valid() && pdata == [] && index < partitions
      modifies this
      ensures Valid() && pdata == [] && layers == old(layers)
      ensures Enumerates(r, Restrict(MergeAll(Lists<V>(), layers), Part(), index))
    {
      Clear();
      ListsAreLawful<V>();
      for j := 0 to spills
        invariant Valid() && pdata == [] && layers == old(layers) && files == old(files) && spills == old(spills)
        invariant current == Restrict(MergeAll(Lists<V>(), layers[..j]), Part(), index)
      {
        NextFile(Lists<V>(), files, layers, Part(), partitions, index, j);
        MergeCombiners(files[j][index], Some(0.0));
      }
      assert layers[..spills] == layers;
      r := DictItems(data);
    }

    /** Heap merge of files that are sorted already, external sort of the others; then grouping. */
    method MergeSortedItems(index: nat) returns (r: seq<(K, seq<V>)>)
      requires Valid() && pdata == [] && index < partitions
      ensures Enumerates(r, Restrict(MergeAll(Lists<V>(), layers), Part(), index))
    {
      assert forall j :: 0 <= j < |files| ==> FileHolds(Lists<V>(), files[j], layers[j], Part(), partitions);
      var diskItems := BucketFiles(files, index);
      var sortedItems;
      if sorted {
        assert forall j :: 0 <= j < |files| ==> GoodFiles(le, files[j], sorted);
        assert AllSorted(By(le, First()), diskItems) by {
          assert forall j :: 0 <= j < |files| ==> SortedFile(le, files[j][index]);
        }
        sortedItems := HeapMerge(By(le, First()), diskItems);
      } else {
        sortedItems := ExternalSort(memoryLimit as real, Flatten(diskItems), le, First(), false);
      }
      StableSortIsStable(By(le, First()), Flatten(diskItems));
      FoldOfSorted(Lists<V>(), le, Flatten(diskItems));
      ChainedFiles(files, layers, Part(), partitions, index, spills);
      assert diskItems[..spills] == diskItems && layers[..spills] == layers;
      r := GroupByKey(le, sortedItems);
    }
  }

  // ----- whole runs

  /**
   `merger = ExternalGroupBy(...); merger.mergeCombiners(items); merger.items()`: every key
   once, with all its values in order of arrival, whichever way its bucket was read.  Only keys
   without any value may be missing, so nothing is if every key has one.
   */
  method GroupCombiners<K(==, !new), V(!new)>(le: (K, K) -> bool, hash: (K, int) -> int, memoryLimit: nat,
                                              partitions: Fanout, items: seq<(K, seq<V>)>)
    returns (r: seq<(K, seq<V>)>, ghost dropped: bool)
    requires TotalOrder(le)
    ensures var m := FoldCombiners(Lists<V>(), map[], items); Enumerates(r, if dropped then NonEmpty(m) else m)
    ensures EveryKeyHasValue(items) ==> Enumerates(r, FoldCombiners(Lists<V>(), map[], items))
    ensures forall i :: 0 <= i < |r| ==> r[i].1 == Flatten(ValuesOf(items, r[i].0))
  {
    var seed := *;
    var merger := new ExternalGroupBy(le, hash, seed, memoryLimit, partitions, 1000.0);
    merger.MergeCombiners(items, None);
    dropped := merger.sorted;
    r := merger.Items();
    NothingDroppedIff(items);
    forall i | 0 <= i < |r| ensures r[i].1 == Flatten(ValuesOf(items, r[i].0)) {
      GroupsHoldAllValues(items, r[i].0);
    }
  }

  /**
   The same run when memory is found full at the last look, and not before: with few keys the
   spill is sorted, and the keys without values are missing.
   */
  method GroupFullAtTheEnd<K(==, !new), V(!new)>(le: (K, K) -> bool, hash: (K, int) -> int, memoryLimit: nat,
                                                 partitions: Fanout, items: seq<(K, seq<V>)>)
    returns (r: seq<(K, seq<V>)>)
    requires TotalOrder(le) && |FoldCombiners(Lists<V>(), map[], items)| < 1000
    ensures Enumerates(r, NonEmpty(FoldCombiners(Lists<V>(), map[], items)))
    ensures Enumerates(r, FoldCombiners(Lists<V>(), map[], items)) <==> EveryKeyHasValue(items)
  {
    var seed := *;
    var merger := new ExternalGroupBy(le, hash, seed, memoryLimit, partitions, 1000.0);
    merger.MergeCombiners(items, Some(0.0));
    merger.Spill();
    r := merger.Items();
    NothingDroppedIff(items);
    EnumeratesUnique(r, NonEmpty(FoldCombiners(Lists<V>(), map[], items)), FoldCombiners(Lists<V>(), map[], items));
  }

  lemma EnumeratesUnique<K, C>(s: seq<(K, C)>, a: map<K, C>, b: map<K, C>)
    requires Enumerates(s, a)
    ensures Enumerates(s, b) <==> a == b
  {
    if Enumerates(s, b) {
      forall k ensures k in a <==> k in b {
        if i :| 0 <= i < |s| && s[i].0 == k { assert s[i].0 in a && s[i].0 in b; }
      }
      forall k | k in a ensures a[k] == b[k] {
        var i :| 0 <= i < |s| && s[i].0 == k;
        assert a[s[i].0] == s[i].1 == b[s[i].0];
      }
    }
  }
}
