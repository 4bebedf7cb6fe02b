/** `sortByKey`: range partitioning by binary search in sampled keys, then a sort of every partition. */
module RangeSorting {

  import opened Aggregation
  import opened ExternalLists
  import opened ExternalSorting
  import opened Sampling
  import opened Sequences
  import opened Serializers
  import opened Shuffling
  import opened StableSorting
  import opened Wrappers

  // ----- bisect_left

  /** Where the search for `x` in `bounds[lo..hi]` ends.  Nothing is assumed about the order of `bounds`. */
  function Bisect<B, R>(bounds: seq<B>, less: (B, R) -> bool, x: R, lo: nat, hi: nat): (p: nat)
    requires lo <= hi <= |bounds|
    ensures lo <= p <= hi
    decreases hi - lo
  {
    if lo == hi then lo
    else
      var mid := (lo + hi) / 2;
      if less(bounds[mid], x) then Bisect(bounds, less, x, mid + 1, hi) else Bisect(bounds, less, x, lo, mid)
  }

  /** Comparing a raw bound with a key value respects the order of key values. */
  ghost predicate Consistent<B(!new), R(!new)>(less: (B, R) -> bool, le: (R, R) -> bool)
  {
    forall b, x, y :: less(b, x) && le(x, y) ==> less(b, y)
  }

  /** The search is monotone even if the bounds are not sorted. */
  lemma {:induction false} BisectMonotone<B(!new), R(!new)>(
      bounds: seq<B>, less: (B, R) -> bool, le: (R, R) -> bool, x: R, y: R, lo: nat, hi: nat)
    requires lo <= hi <= |bounds| && Consistent(less, le) && le(x, y)
    ensures Bisect(bounds, less, x, lo, hi) <= Bisect(bounds, less, y, lo, hi)
    decreases hi - lo
  {
    if lo < hi {
      var mid := (lo + hi) / 2;
      BisectMonotone(bounds, less, le, x, y, mid + 1, hi);
      BisectMonotone(bounds, less, le, x, y, lo, mid);
    }
  }

  /** A bound below `x` has only such bounds before it. */
  ghost predicate SortedFor<B, R>(bounds: seq<B>, less: (B, R) -> bool, x: R)
  {
    forall i, j :: 0 <= i < j < |bounds| && less(bounds[j], x) ==> less(bounds[i], x)
  }

  /** On bounds sorted compatibly, the search splits them into those below `x` and the others. */
  lemma {:induction false} BisectSplits<B(!new), R(!new)>(bounds: seq<B>, less: (B, R) -> bool, x: R, lo: nat, hi: nat)
    requires lo <= hi <= |bounds|
    requires SortedFor(bounds, less, x)
    ensures forall i :: lo <= i < hi ==> (less(bounds[i], x) <==> i < Bisect(bounds, less, x, lo, hi))
    decreases hi - lo
  {
    if lo < hi {
      var mid := (lo + hi) / 2;
      BisectSplits(bounds, less, x, mid + 1, hi);
      BisectSplits(bounds, less, x, lo, mid);
    }
  }

  /** `bisect.bisect_left`: on compatibly sorted bounds, the number of bounds below `x`. */
  method BisectLeft<B(!new), R(!new)>(bounds: seq<B>, less: (B, R) -> bool, x: R) returns (p: nat)
    ensures p == Bisect(bounds, less, x, 0, |bounds|) <= |bounds|
    ensures SortedFor(bounds, less, x) ==> forall i :: 0 <= i < |bounds| ==> (less(bounds[i], x) <==> i < p)
  {
    var lo, hi := 0, |bounds|;
    while lo < hi
      invariant lo <= hi <= |bounds|
      invariant Bisect(bounds, less, x, lo, hi) == Bisect(bounds, less, x, 0, |bounds|)
    {
      var mid := (lo + hi) / 2;
      if less(bounds[mid], x) { lo := mid + 1; } else { hi := mid; }
    }
    p := lo;
    if SortedFor(bounds, less, x) { BisectSplits(bounds, less, x, 0, |bounds|); }
  }

  /** `rangePartitioner` */
  function RangePartition<K, R>(
      bounds: seq<K>, less: (K, R) -> bool, keyfunc: K -> R, ascending: bool, numPartitions: int): K -> int
    requires |bounds| == numPartitions - 1
  {
    k =>
      var p := Bisect(bounds, less, keyfunc(k), 0, |bounds|);
      if ascending then p else numPartitions - 1 - p
  }

  // ----- global order

  function RecordKey<K, V, R>(keyfunc: K -> R): ((K, V)) -> R
  {
    (r: (K, V)) => keyfunc(r.0)
  }

  /** The order of the result. */
  function RecordOrder<K, V, R>(le: (R, R) -> bool, keyfunc: K -> R, ascending: bool): ((K, V), (K, V)) -> bool
  {
    Direction(By(le, RecordKey<K, V, R>(keyfunc)), !ascending)
  }

  /** A range is a split number already. */
  lemma RangeIsSplit<K, R>(
      bounds: seq<K>, less: (K, R) -> bool, keyfunc: K -> R, ascending: bool, numPartitions: int, k: K)
    requires |bounds| == numPartitions - 1
    ensures var part := RangePartition(bounds, less, keyfunc, ascending, numPartitions);
            0 <= part(k) < numPartitions && SplitOf(part, numPartitions)(k) == part(k)
  {
    SmallMod(RangePartition(bounds, less, keyfunc, ascending, numPartitions)(k), numPartitions);
  }

  lemma SmallMod(a: int, n: int)
    requires 0 <= a < n
    ensures a % n == a
  {
  }

  /** Records of an earlier range are not after those of a later one. */
  lemma RangesOrdered<K(!new), V, R(!new)>(bounds: seq<K>, less: (K, R) -> bool, le: (R, R) -> bool, keyfunc: K -> R,
                                           ascending: bool, numPartitions: int, x: (K, V), y: (K, V))
    requires |bounds| == numPartitions - 1 && TotalPreorder(le) && Consistent(less, le)
    requires var part := SplitOf(RangePartition(bounds, less, keyfunc, ascending, numPartitions), numPartitions);
             part(x.0) < part(y.0)
    ensures RecordOrder<K, V, R>(le, keyfunc, ascending)(x, y)
  {
    var kx, ky := keyfunc(x.0), keyfunc(y.0);
    RangeIsSplit(bounds, less, keyfunc, ascending, numPartitions, x.0);
    RangeIsSplit(bounds, less, keyfunc, ascending, numPartitions, y.0);
    if le(kx, ky) { BisectMonotone(bounds, less, le, kx, ky, 0, |bounds|); }
    if le(ky, kx) { BisectMonotone(bounds, less, le, ky, kx, 0, |bounds|); }
  }

  /** Sorted partitions in order make a sorted whole. */
  lemma {:induction false} FlattenSorted<T(!new)>(le: (T, T) -> bool, parts: seq<seq<T>>)
    requires AllSorted(le, parts)
    requires forall s, t, x, y :: 0 <= s < t < |parts| && x in parts[s] && y in parts[t] ==> le(x, y)
    ensures Sorted(le, Flatten(parts))
  {
    if parts != [] {
      var tail := Flatten(parts[1..]);
      FlattenSorted(le, parts[1..]);
      forall x, y | x in parts[0] && y in tail ensures le(x, y) {
        InFlatten(parts[1..], y);
        var t :| 0 <= t < |parts[1..]| && y in parts[1..][t];
        assert y in parts[t + 1];
      }
      SortedConcat(le, parts[0], tail);
    }
  }

  lemma SortedConcat<T>(le: (T, T) -> bool, a: seq<T>, b: seq<T>)
    requires Sorted(le, a) && Sorted(le, b)
    requires forall x, y :: x in a && y in b ==> le(x, y)
    ensures Sorted(le, a + b)
  {
    forall i, j | 0 <= i < j < |a + b| ensures le((a + b)[i], (a + b)[j]) {
      if i < |a| && j >= |a| { assert a[i] in a && b[j - |a|] in b; }
    }
  }

  // ----- sortByKey

  datatype SortError = IndexError

  /** `int(length * i / n)` */
  function Position(length: nat, i: nat, n: nat): int
    requires n > 0
  {
    length * i / n
  }

  /** Positions are evenly spaced: the last one at or before `i` parts in `n` of the length. */
  lemma PositionEven(length: nat, i: nat, n: nat)
    requires n > 0
    ensures Position(length, i, n) * n <= length * i < (Position(length, i, n) + 1) * n
  {
    var d, p := length * i, Position(length, i, n);
    assert d == p * n + d % n;
    assert (p + 1) * n == p * n + n;
  }

  lemma PositionInside(length: nat, i: nat, n: nat)
    requires i < n
    ensures 0 <= Position(length, i, n) && (length > 0 ==> Position(length, i, n) < length)
  {
    if length > 0 {
      var q := Position(length, i, n);
      assert q * n <= length * i < length * n;
      assert q < length;
    }
  }

  lemma TimesGrows(a: int, b: int, n: nat)
    requires a <= b
    ensures a * n <= b * n
  {
  }

  /** The keys at evenly spaced positions of the sorted sample. */
  function BoundsOf<K(!new), R(!new)>(samples: seq<K>, le: (R, R) -> bool, keyfunc: K -> R, numPartitions: int):
      (bounds: seq<K>)
    requires numPartitions >= 2 && samples != []
    ensures |bounds| == numPartitions - 1
  {
    StableSortPermutes(By(le, keyfunc), samples);
    var sorted := StableSort(By(le, keyfunc), samples);
    assert |multiset(sorted)| == |sorted| && |multiset(samples)| == |samples|;
    seq(numPartitions - 1, i requires 0 <= i < numPartitions - 1 =>
      PositionInside(|sorted|, i + 1, numPartitions); sorted[Position(|sorted|, i + 1, numPartitions)])
  }

  /** Bound `i` is the key at or just before `i + 1` parts in `numPartitions` of the sorted keys. */
  ghost predicate EvenlySpaced<K>(bounds: seq<K>, sorted: seq<K>, numPartitions: int)
  {
    |bounds| == numPartitions - 1 && forall i :: 0 <= i < |bounds| ==> SpacedAt(bounds[i], sorted, i + 1, numPartitions)
  }

  /** `x` is the key at or just before `i` parts in `n`. */
  ghost predicate SpacedAt<K>(x: K, sorted: seq<K>, i: nat, n: int)
  {
    exists p :: 0 <= p < |sorted| && x == sorted[p] && p * n <= |sorted| * i < (p + 1) * n
  }

  ghost predicate Ascending<K, R>(keys: seq<K>, le: (R, R) -> bool, keyfunc: K -> R)
  {
    forall i, j :: 0 <= i < j < |keys| ==> le(keyfunc(keys[i]), keyfunc(keys[j]))
  }

  /** The bounds are evenly spaced keys of the sample in ascending order. */
  lemma BoundsEvenlySpaced<K(!new), R(!new)>(samples: seq<K>, le: (R, R) -> bool, keyfunc: K -> R, numPartitions: int)
    requires numPartitions >= 2 && samples != [] && TotalPreorder(le)
    ensures exists sorted :: multiset(sorted) == multiset(samples) && Ascending(sorted, le, keyfunc) &&
                             EvenlySpaced(BoundsOf(samples, le, keyfunc, numPartitions), sorted, numPartitions)
  {
    assert TotalPreorder(By(le, keyfunc));
    hide StableSort, TotalPreorder, BoundsOf, EvenlySpaced;
    var sorted := StableSort(By(le, keyfunc), samples);
    StableSortPermutes(By(le, keyfunc), samples);
    StableSortIsStable(By(le, keyfunc), samples);
    assert Ascending(sorted, le, keyfunc);
    SpacedInSorted(samples, le, keyfunc, numPartitions);
    hide Ascending;
    assert multiset(sorted) == multiset(samples) && Ascending(sorted, le, keyfunc) &&
           EvenlySpaced(BoundsOf(samples, le, keyfunc, numPartitions), sorted, numPartitions);
  }

  lemma SpacedInSorted<K(!new), R(!new)>(samples: seq<K>, le: (R, R) -> bool, keyfunc: K -> R, numPartitions: int)
    requires numPartitions >= 2 && samples != []
    ensures EvenlySpaced(BoundsOf(samples, le, keyfunc, numPartitions), StableSort(By(le, keyfunc), samples),
                         numPartitions)
  {
    hide Position, StableSort;
    var sorted, bounds := StableSort(By(le, keyfunc), samples), BoundsOf(samples, le, keyfunc, numPartitions);
    StableSortPermutes(By(le, keyfunc), samples);
    assert |multiset(sorted)| == |sorted| && |multiset(samples)| == |samples|;
    forall i | 0 <= i < numPartitions - 1
      ensures SpacedAt(bounds[i], sorted, i + 1, numPartitions)
    {
      PositionInside(|sorted|, i + 1, numPartitions);
      PositionEven(|sorted|, i + 1, numPartitions);
      assert bounds[i] == sorted[Position(|sorted|, i + 1, numPartitions)];
    }
  }

  /** The bounds are sampled keys, in the order of `keyfunc`. */
  lemma BoundsSorted<K(!new), R(!new)>(samples: seq<K>, le: (R, R) -> bool, keyfunc: K -> R, numPartitions: int)
    requires numPartitions >= 2 && samples != [] && TotalPreorder(le)
    ensures forall i :: 0 <= i < numPartitions - 1 ==> BoundsOf(samples, le, keyfunc, numPartitions)[i] in samples
    ensures Sorted(By(le, keyfunc), BoundsOf(samples, le, keyfunc, numPartitions))
  {
    hide Position, StableSort;
    var order, n := By(le, keyfunc), numPartitions;
    var sorted, bounds := StableSort(order, samples), BoundsOf(samples, le, keyfunc, n);
    StableSortPermutes(order, samples);
    StableSortIsStable(order, samples);
    assert |multiset(sorted)| == |sorted| && |multiset(samples)| == |samples|;
    forall i | 0 <= i < n - 1 ensures bounds[i] in samples {
      PositionInside(|sorted|, i + 1, n);
      assert bounds[i] in multiset(sorted);
    }
    forall i, j | 0 <= i < j < n - 1 ensures order(bounds[i], bounds[j]) {
      PositionInside(|sorted|, i + 1, n);
      PositionInside(|sorted|, j + 1, n);
      PositionGrows(|sorted|, i + 1, j + 1, n);
    }
  }

  lemma PositionGrows(length: nat, i: nat, j: nat, n: nat)
    requires i <= j && n > 0
    ensures Position(length, i, n) <= Position(length, j, n)
  {
    var p, q := Position(length, i, n), Position(length, j, n);
    assert length * i <= length * j;
    assert p * n <= length * i && length * j < (q + 1) * n;
    if q + 1 <= p { TimesGrows(q + 1, p, n); }
  }

  /** The bounds of a sample; an empty one has none. */
  method Bounds<K(!new), R(!new)>(samples: seq<K>, le: (R, R) -> bool, keyfunc: K -> R, numPartitions: int)
    returns (bounds: Result<seq<K>, SortError>)
    requires numPartitions >= 2 && TotalPreorder(le)
    ensures bounds.Ok? <==> samples != []
    ensures bounds.Ok? ==> bounds.value == BoundsOf(samples, le, keyfunc, numPartitions)
    ensures bounds.Ok? ==> Sorted(By(le, keyfunc), bounds.value)
    ensures bounds.Ok? ==> forall i :: 0 <= i < |bounds.value| ==> bounds.value[i] in samples
    ensures bounds.Ok? ==>
              exists sorted :: multiset(sorted) == multiset(samples) && Ascending(sorted, le, keyfunc) &&
                               EvenlySpaced(bounds.value, sorted, numPartitions)
  {
    hide By, StableSort, Position, TotalPreorder, Sorted, Ascending, EvenlySpaced;
    var sorted := StableSort(By(le, keyfunc), samples);
    StableSortPermutes(By(le, keyfunc), samples);
    assert |multiset(sorted)| == |sorted| && |multiset(samples)| == |samples|;
    var bs := [];
    for i := 0 to numPartitions - 1
      invariant |bs| == i && (samples == [] ==> i == 0)
      invariant samples != [] ==> bs == BoundsOf(samples, le, keyfunc, numPartitions)[..i]
    {
      var index := Position(|sorted|, i + 1, numPartitions);
      PositionInside(|sorted|, i + 1, numPartitions);
      if index >= |sorted| {
        return Err(IndexError);
      }
      bs := bs + [sorted[index]];
    }
    BoundsSorted(samples, le, keyfunc, numPartitions);
    BoundsEvenlySpaced(samples, le, keyfunc, numPartitions);
    bounds := Ok(bs);
  }

  method SortPartitions<K(!new), V(!new), R(!new)>(
      parts: seq<seq<(K, V)>>, memory: real, le: (R, R) -> bool, keyfunc: K -> R, ascending: bool)
    returns (out: seq<seq<(K, V)>>)
    requires TotalPreorder(le)
    ensures |out| == |parts| && AllSorted(RecordOrder<K, V, R>(le, keyfunc, ascending), out)
    ensures forall s :: 0 <= s < |parts| ==> multiset(out[s]) == multiset(parts[s])
  {
    ghost var order := RecordOrder<K, V, R>(le, keyfunc, ascending);
    out := [];
    for s := 0 to |parts|
      invariant |out| == s && AllSorted(order, out)
      invariant forall t :: 0 <= t < s ==> multiset(out[t]) == multiset(parts[t])
    {
      var sorted := ExternalSort(memory * 0.9, parts[s], le, RecordKey<K, V, R>(keyfunc), !ascending);
      DirectionTotal(By(le, RecordKey<K, V, R>(keyfunc)), !ascending);
      StableSortIsStable(order, parts[s]);
      StableSortPermutes(order, parts[s]);
      out := out + [sorted];
    }
  }

  /** `min(numPartitions * 20.0 / max(size, 1), 1.0)` */
  function Fraction(size: nat, numPartitions: int): real
  {
    var wanted := numPartitions as real * 20.0 / (if size < 1 then 1 else size) as real;
    if wanted < 1.0 then wanted else 1.0
  }

  lemma FractionOfFew(size: nat, numPartitions: int)
    requires 0 < size <= 20 * numPartitions
    ensures Fraction(size, numPartitions) == 1.0
  {
    RatioAtLeastOne(numPartitions as real * 20.0, size as real);
  }

  lemma RatioAtLeastOne(a: real, d: real)
    requires d > 0.0 && a >= d
    ensures a / d >= 1.0
  {
    var q := a / d;
    assert q * d == a;
    if q < 1.0 { BelowOne(q, d); }
  }

  lemma BelowOne(q: real, d: real)
    requires d > 0.0 && q < 1.0
    ensures q * d < d
  {
  }

  /** The keys of the sample that `sortByKey` takes, with its fixed seed. */
  ghost function SampledKeys<K, V, S>(
      gen: Generator<S>, mix: (int, int) -> int, parts: seq<seq<(K, V)>>, numPartitions: int):
      seq<K>
  {
    Map(First<K, V>(), Flatten(Sampled(gen, mix, 1, parts, Fraction(|Flatten(parts)|, numPartitions))))
  }

  /** The sample is taken with seed 1: record `i` of partition `p` by draw `i` of that partition. */
  lemma SampledKeysRecorded<K, V>(d: Trace -> real, mix: (int, int) -> int, parts: seq<seq<(K, V)>>,
                                  numPartitions: int, fraction: real)
    requires 0 < numPartitions && |Flatten(parts)| > 20 * numPartitions
    requires fraction * |Flatten(parts)| as real == 20.0 * numPartitions as real
    ensures SampledKeys(Recorder(d), mix, parts, numPartitions) ==
              Map(First(), Flatten(seq(|parts|, p requires 0 <= p < |parts| =>
                Flatten(seq(|parts[p]|, i requires 0 <= i < |parts[p]| =>
                  if 0.0 <= d(Trace(mix(1, p), 10, i)) < fraction then [parts[p][i]] else [])))))
  {
    hide Fraction, Flatten, Selected, Recorder, Start;
    FractionOfMany(|Flatten(parts)|, numPartitions);
    SameFactor(fraction, Fraction(|Flatten(parts)|, numPartitions), |Flatten(parts)| as real);
    var sampled := Sampled(Recorder(d), mix, 1, parts, fraction);
    forall p | 0 <= p < |parts|
      ensures sampled[p] == Flatten(seq(|parts[p]|, i requires 0 <= i < |parts[p]| =>
                if 0.0 <= d(Trace(mix(1, p), 10, i)) < fraction then [parts[p][i]] else []))
    {
      SampledRecorded(d, mix, 1, parts, fraction, p);
    }
    assert sampled == seq(|parts|, p requires 0 <= p < |parts| =>
                        Flatten(seq(|parts[p]|, i requires 0 <= i < |parts[p]| =>
                          if 0.0 <= d(Trace(mix(1, p), 10, i)) < fraction then [parts[p][i]] else [])));
  }

  lemma SameFactor(a: real, b: real, t: real)
    requires t != 0.0 && a * t == b * t
    ensures a == b
  {
    assert (a - b) * t == 0.0;
  }

  /** Of at most twenty records per partition all are sampled. */
  lemma FewRecordsAllSampled<K, V, S(!new)>(
      gen: Generator<S>, mix: (int, int) -> int, parts: seq<seq<(K, V)>>, numPartitions: int)
    requires UnitDraws(gen) && 0 < |Flatten(parts)| <= 20 * numPartitions
    ensures SampledKeys(gen, mix, parts, numPartitions) == Map(First(), Flatten(parts))
  {
    FractionOfFew(|Flatten(parts)|, numPartitions);
    SampledAll(gen, mix, 1, parts);
  }

  /** How the records are spread over the partitions. */
  ghost predicate RangePartitioned<K(!new), V, R(!new)>(
      out: seq<seq<(K, V)>>, samples: seq<K>, le: (R, R) -> bool, less: (K, R) -> bool, keyfunc: K -> R,
      ascending: bool, numPartitions: int)
    requires numPartitions >= 2 && samples != []
  {
    var bounds := BoundsOf(samples, le, keyfunc, numPartitions);
    && |out| == numPartitions
    && Partitioned(out, SplitOf(RangePartition(bounds, less, keyfunc, ascending, numPartitions), numPartitions))
  }

  /** A raw key is below a key value just when its own key value is. */
  ghost predicate ComparesAsKey<K(!new), R(!new)>(less: (K, R) -> bool, le: (R, R) -> bool, keyfunc: K -> R)
  {
    forall b, x :: less(b, x) <==> !le(x, keyfunc(b))
  }

  /** The first `s` bounds, and no others, are below the keys of range `s`, ranges being counted down if descending. */
  ghost predicate BetweenBounds<K, V, R>(
      out: seq<seq<(K, V)>>, bounds: seq<K>, le: (R, R) -> bool, keyfunc: K -> R, ascending: bool)
  {
    forall s, i, j :: 0 <= s < |out| && 0 <= i < |out[s]| && 0 <= j < |bounds| ==>
      (!le(keyfunc(out[s][i].0), keyfunc(bounds[j])) <==> j < if ascending then s else |out| - 1 - s)
  }

  /** What the search means for sorted bounds that compare as their key values do. */
  lemma RangesAreBetween<K(!new), V, R(!new)>(
      out: seq<seq<(K, V)>>, samples: seq<K>, le: (R, R) -> bool, less: (K, R) -> bool, keyfunc: K -> R,
      ascending: bool, numPartitions: int)
    requires numPartitions >= 2 && samples != [] && TotalPreorder(le) && ComparesAsKey(less, le, keyfunc)
    requires RangePartitioned(out, samples, le, less, keyfunc, ascending, numPartitions)
    ensures BetweenBounds(out, BoundsOf(samples, le, keyfunc, numPartitions), le, keyfunc, ascending)
  {
    var bounds := BoundsOf(samples, le, keyfunc, numPartitions);
    BoundsSorted(samples, le, keyfunc, numPartitions);
    forall s, i, j | 0 <= s < |out| && 0 <= i < |out[s]| && 0 <= j < |bounds|
      ensures !le(keyfunc(out[s][i].0), keyfunc(bounds[j])) <==> j < if ascending then s else |out| - 1 - s
    {
      hide BoundsOf;
      var k := out[s][i].0;
      RangeIsSplit(bounds, less, keyfunc, ascending, numPartitions, k);
      SortedForKey(bounds, less, le, keyfunc, keyfunc(k));
      BisectSplits(bounds, less, keyfunc(k), 0, |bounds|);
    }
  }

  lemma SortedForKey<K(!new), R(!new)>(
      bounds: seq<K>, less: (K, R) -> bool, le: (R, R) -> bool, keyfunc: K -> R, x: R)
    requires TotalPreorder(le) && ComparesAsKey(less, le, keyfunc) && Sorted(By(le, keyfunc), bounds)
    ensures SortedFor(bounds, less, x)
  {
    forall i, j | 0 <= i < j < |bounds| && less(bounds[j], x) ensures less(bounds[i], x) {
      assert By(le, keyfunc)(bounds[i], bounds[j]);
    }
  }

  lemma {:induction false} NothingSelected<T>(u: real, items: seq<T>, fraction: real)
    requires fraction <= u
    ensures Selected(Always(u), (), items, 0.0, fraction) == []
  {
    if items != [] { NothingSelected(u, items[..|items| - 1], fraction); }
  }

  lemma {:induction false} NothingSampled<T>(mix: (int, int) -> int, parts: seq<seq<T>>, u: real, fraction: real)
    requires fraction <= u
    ensures Flatten(Sampled(Always(u), mix, 1, parts, fraction)) == []
  {
    var sampled := Sampled(Always(u), mix, 1, parts, fraction);
    forall p | 0 <= p < |sampled| ensures sampled[p] == [] { NothingSelected(u, parts[p], fraction); }
    FlattenEmpty(sampled);
  }

  /** Above twenty records per partition, twenty per partition are to be expected in the sample. */
  lemma FractionOfMany(size: nat, numPartitions: int)
    requires 0 < numPartitions && size > 20 * numPartitions
    ensures 0.0 <= Fraction(size, numPartitions) < 1.0
    ensures Fraction(size, numPartitions) * size as real == 20.0 * numPartitions as real
  {
    var a, d := numPartitions as real * 20.0, size as real;
    var q := a / d;
    assert q * d == a && a == (20 * numPartitions) as real;
    if q >= 1.0 { AboveOne(q, d); }
    if q < 0.0 { BelowZero(q, d); }
  }

  lemma AboveOne(q: real, d: real)
    requires d > 0.0 && q >= 1.0
    ensures q * d >= d
  {
  }

  lemma BelowZero(q: real, d: real)
    requires d > 0.0 && q < 0.0
    ensures q * d < 0.0
  {
  }

  /** With any records, the sample can come out empty just when there are more than twenty per partition. */
  lemma EmptySampleIff<K, V>(mix: (int, int) -> int, parts: seq<seq<(K, V)>>, numPartitions: int)
    requires numPartitions > 0 && Flatten(parts) != []
    ensures |Flatten(parts)| > 20 * numPartitions <==>
              exists gen: Generator<()> :: UnitDraws(gen) && SampledKeys(gen, mix, parts, numPartitions) == []
  {
    if |Flatten(parts)| > 20 * numPartitions {
      var fraction := Fraction(|Flatten(parts)|, numPartitions);
      FractionOfMany(|Flatten(parts)|, numPartitions);
      NothingSampled(mix, parts, fraction, fraction);
      assert UnitDraws(Always(fraction)) && SampledKeys(Always(fraction), mix, parts, numPartitions) == [];
    } else {
      forall gen: Generator<()> | UnitDraws(gen) ensures SampledKeys(gen, mix, parts, numPartitions) != [] {
        FewRecordsAllSampled(gen, mix, parts, numPartitions);
      }
    }
  }

  /**
   The concatenated partitions are a permutation of the input in the order of `keyfunc`, and
   with several partitions each record is in the range of its key.  It fails only when there is
   something to split and the sample is empty, which takes more than twenty records per partition.
   */
  method SortByKey<K(!new), V(!new), R(!new), S(!new)>(
      gen: Generator<S>, mix: (int, int) -> int, codec: Codec<seq<(K, V)>>, memory: real, parts: seq<seq<(K, V)>>,
      ascending: bool, numPartitions: int, keyfunc: K -> R, less: (K, R) -> bool, le: (R, R) -> bool)
    returns (out: Result<seq<seq<(K, V)>>, SortError>)
    requires UnitDraws(gen) && TotalPreorder(le) && Consistent(less, le)
    requires PickledChunks(codec) && 0 < numPartitions <= TWO_63
    ensures out.Err? <==>
              numPartitions >= 2 && Flatten(parts) != [] && SampledKeys(gen, mix, parts, numPartitions) == []
    ensures out.Err? ==> |Flatten(parts)| > 20 * numPartitions
    ensures out.Ok? ==>
              && multiset(Flatten(out.value)) == multiset(Flatten(parts))
              && Sorted(RecordOrder<K, V, R>(le, keyfunc, ascending), Flatten(out.value))
    ensures out.Ok? ==>
              var all := Flatten(out.value);
              forall i, j :: 0 <= i < j < |all| ==>
                if ascending then le(keyfunc(all[i].0), keyfunc(all[j].0)) else le(keyfunc(all[j].0), keyfunc(all[i].0))
    ensures out.Ok? && numPartitions == 1 ==> |out.value| == if |parts| > 1 then 1 else |parts|
    ensures out.Ok? && numPartitions >= 2 && Flatten(parts) == [] ==> out.value == parts
    ensures out.Ok? && numPartitions >= 2 && Flatten(parts) != [] ==>
              RangePartitioned(out.value, SampledKeys(gen, mix, parts, numPartitions),
                               le, less, keyfunc, ascending, numPartitions)
    ensures out.Ok? && numPartitions >= 2 && Flatten(parts) != [] && ComparesAsKey(less, le, keyfunc) ==>
              var bounds := BoundsOf(SampledKeys(gen, mix, parts, numPartitions), le, keyfunc, numPartitions);
              BetweenBounds(out.value, bounds, le, keyfunc, ascending)
  {
    hide UnitDraws, SampledKeys, Fraction, BoundsOf, RangePartition, RangePartitioned, Consistent, Sampled, Partitioned;
    hide ComparesAsKey, BetweenBounds;
    if numPartitions == 1 {
      var sorted := SortInOne(memory, parts, ascending, keyfunc, le);
      SortedMeans(le, RecordKey<K, V, R>(keyfunc), !ascending, Flatten(sorted));
      return Ok(sorted);
    }
    var rddSize := |Flatten(parts)|;
    if rddSize == 0 {
      return Ok(parts);
    }
    var samples := TakeSample(gen, mix, parts, numPartitions);
    if rddSize <= 20 * numPartitions { FewRecordsAllSampled(gen, mix, parts, numPartitions); }
    var bounds := Bounds(samples, le, keyfunc, numPartitions);
    if bounds.Err? {
      return Err(bounds.error);
    }
    var sorted := SortRanges(codec, memory, parts, samples, bounds.value, ascending, numPartitions, keyfunc, less, le);
    SortedMeans(le, RecordKey<K, V, R>(keyfunc), !ascending, Flatten(sorted));
    if ComparesAsKey(less, le, keyfunc) {
      RangesAreBetween(sorted, samples, le, less, keyfunc, ascending, numPartitions);
    }
    out := Ok(sorted);
  }

  /** `self.sample(False, fraction, 1).map(lambda kv: kv[0]).collect()` */
  method TakeSample<K, V, S(!new)>(
      gen: Generator<S>, mix: (int, int) -> int, parts: seq<seq<(K, V)>>, numPartitions: int)
    returns (samples: seq<K>)
    requires UnitDraws(gen)
    ensures samples == SampledKeys(gen, mix, parts, numPartitions)
  {
    var sampled := Sample(gen, mix, 1, parts, Fraction(|Flatten(parts)|, numPartitions));
    samples := Map(First<K, V>(), Flatten(sampled));
  }

  /** One partition: everything is brought together and sorted. */
  method SortInOne<K(!new), V(!new), R(!new)>(
      memory: real, parts: seq<seq<(K, V)>>, ascending: bool, keyfunc: K -> R, le: (R, R) -> bool)
    returns (sorted: seq<seq<(K, V)>>)
    requires TotalPreorder(le)
    ensures |sorted| == if |parts| > 1 then 1 else |parts|
    ensures multiset(Flatten(sorted)) == multiset(Flatten(parts))
    ensures Sorted(RecordOrder<K, V, R>(le, keyfunc, ascending), Flatten(sorted))
  {
    var coalesced := parts;
    if |parts| > 1 {
      var all, _ := Deliver(parts);
      FlattenOne(all);
      coalesced := [all];
    }
    sorted := SortPartitions(coalesced, memory, le, keyfunc, ascending);
    PermuteFlatten(sorted, coalesced);
    FlattenSorted(RecordOrder<K, V, R>(le, keyfunc, ascending), sorted);
  }

  /** `self.partitionBy(numPartitions, rangePartitioner).mapPartitions(sortPartition, True)` */
  method SortRanges<K(!new), V(!new), R(!new)>(
      codec: Codec<seq<(K, V)>>, memory: real, parts: seq<seq<(K, V)>>, ghost samples: seq<K>, bounds: seq<K>,
      ascending: bool, numPartitions: int, keyfunc: K -> R, less: (K, R) -> bool, le: (R, R) -> bool)
    returns (sorted: seq<seq<(K, V)>>)
    requires TotalPreorder(le) && Consistent(less, le) && PickledChunks(codec) && 2 <= numPartitions <= TWO_63
    requires samples != [] && bounds == BoundsOf(samples, le, keyfunc, numPartitions)
    ensures multiset(Flatten(sorted)) == multiset(Flatten(parts))
    ensures Sorted(RecordOrder<K, V, R>(le, keyfunc, ascending), Flatten(sorted))
    ensures RangePartitioned(sorted, samples, le, less, keyfunc, ascending, numPartitions)
  {
    hide BoundsOf, RangePartition, Consistent, TotalPreorder;
    ghost var order := RecordOrder<K, V, R>(le, keyfunc, ascending);
    var ranges := RangePartition(bounds, less, keyfunc, ascending, numPartitions);
    var shuffled := PartitionBy(codec, ranges, numPartitions, memory / 2.0, parts, false);
    sorted := SortPartitions(shuffled, memory, le, keyfunc, ascending);
    AllShares(parts, shuffled, SplitOf(ranges, numPartitions), numPartitions);
    PermuteFlatten(sorted, shuffled);
    PermutedPartitioned(shuffled, sorted, SplitOf(ranges, numPartitions));
    RangesInOrder(sorted, bounds, less, le, keyfunc, ascending, numPartitions);
    FlattenSorted(order, sorted);
  }

  /** Reordering the records within each partition keeps them where they belong. */
  lemma PermutedPartitioned<K, V>(before: seq<seq<(K, V)>>, after: seq<seq<(K, V)>>, part: K -> int)
    requires |before| == |after| && Partitioned(before, part)
    requires forall s :: 0 <= s < |after| ==> multiset(after[s]) == multiset(before[s])
    ensures Partitioned(after, part)
  {
    forall s, i | 0 <= s < |after| && 0 <= i < |after[s]| ensures part(after[s][i].0) == s {
      assert after[s][i] in multiset(after[s]);
      assert after[s][i] in before[s];
    }
  }

  lemma RangesInOrder<K(!new), V, R(!new)>(
      parts: seq<seq<(K, V)>>, bounds: seq<K>, less: (K, R) -> bool, le: (R, R) -> bool, keyfunc: K -> R,
      ascending: bool, numPartitions: int)
    requires |bounds| == numPartitions - 1 && TotalPreorder(le) && Consistent(less, le)
    requires Partitioned(parts, SplitOf(RangePartition(bounds, less, keyfunc, ascending, numPartitions), numPartitions))
    ensures forall s, t, x, y :: 0 <= s < t < |parts| && x in parts[s] && y in parts[t] ==>
              RecordOrder<K, V, R>(le, keyfunc, ascending)(x, y)
  {
    forall s, t, x, y | 0 <= s < t < |parts| && x in parts[s] && y in parts[t]
      ensures RecordOrder<K, V, R>(le, keyfunc, ascending)(x, y)
    {
      RangesOrdered(bounds, less, le, keyfunc, ascending, numPartitions, x, y);
    }
  }
}
