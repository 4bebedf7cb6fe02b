/** `histogram(buckets)`: constant-time bucket lookup for even buckets, binary search otherwise. */
module Histograms {

  import opened Quotients
  import opened Sequences
  import opened Serializers
  import opened Wrappers

  // ----- buckets

  /** At least two boundaries, strictly increasing. */
  ghost predicate Boundaries(b: seq<real>)
  {
    |b| >= 2 && forall i, j :: 0 <= i < j < |b| ==> b[i] < b[j]
  }

  ghost predicate InRange(b: seq<real>, x: real)
    requires |b| >= 2
  {
    b[0] <= x <= b[|b| - 1]
  }

  /** Bucket `i` is open to the right, except for the last, which is closed. */
  predicate InBucket(b: seq<real>, i: nat, x: real)
    requires i + 1 < |b|
  {
    b[i] <= x && (x < b[i + 1] || (i + 2 == |b| && x == b[i + 1]))
  }

  /** The last boundary that is not above `x`. */
  ghost predicate LastNotAbove(b: seq<real>, x: real, t: int)
  {
    0 <= t < |b| && b[t] <= x && (t + 1 < |b| ==> x < b[t + 1])
  }

  /** `bisect.bisect_right(buckets, x) - 1` */
  method BisectRight(b: seq<real>, x: real) returns (p: nat)
    requires Boundaries(b)
    ensures p <= |b|
    ensures InRange(b, x) ==> p >= 1 && LastNotAbove(b, x, p - 1)
  {
    var lo, hi := 0, |b|;
    while lo < hi
      invariant 0 <= lo <= hi <= |b|
      invariant forall i :: 0 <= i < lo ==> b[i] <= x
      invariant forall i :: hi <= i < |b| ==> x < b[i]
    {
      var mid := (lo + hi) / 2;
      if x < b[mid] { hi := mid; } else { lo := mid + 1; }
    }
    p := lo;
  }

  /** `(maxv - minv) / (len(buckets) - 1)` */
  function Increment(b: seq<real>): real
    requires |b| >= 2
  {
    (b[|b| - 1] - b[0]) / (|b| - 1) as real
  }

  /** `int((x - minv) / inc)` for `x` not below the minimum */
  function EvenIndex(b: seq<real>, x: real): int
    requires |b| >= 2 && Increment(b) > 0.0
  {
    ((x - b[0]) / Increment(b)).Floor
  }

  /** Every boundary is exactly where even spacing puts it. */
  ghost predicate ExactlyEven(b: seq<real>)
    requires |b| >= 2
  {
    forall i :: 0 <= i < |b| ==> b[i] == b[0] + Times(i, Increment(b))
  }

  lemma IncrementPositive(b: seq<real>)
    requires Boundaries(b)
    ensures Increment(b) > 0.0
    ensures b[|b| - 1] == b[0] + Times(|b| - 1, Increment(b))
  {
    var width, n := b[|b| - 1] - b[0], (|b| - 1) as real;
    assert width / n * n == width;
    Positive(width / n, n);
  }

  lemma Positive(q: real, n: real)
    requires n > 0.0 && q * n > 0.0
    ensures q > 0.0
  {
  }

  /**
   The constant-time index is the binary-search index for every value in range exactly when
   the buckets are exactly even; steps that merely agree within a tolerance are not enough.
   */
  lemma EvenIndexIffExactlyEven(b: seq<real>)
    requires Boundaries(b)
    ensures Increment(b) > 0.0
    ensures (forall x :: InRange(b, x) ==> LastNotAbove(b, x, EvenIndex(b, x))) <==> ExactlyEven(b)
  {
    IncrementPositive(b);
    if ExactlyEven(b) {
      forall x | InRange(b, x) ensures LastNotAbove(b, x, EvenIndex(b, x)) { EvenIndexCorrect(b, x); }
    }
    if forall x :: InRange(b, x) ==> LastNotAbove(b, x, EvenIndex(b, x)) {
      forall i | 0 <= i < |b| ensures b[i] == b[0] + Times(i, Increment(b)) { BoundaryForced(b, i); }
    }
  }

  lemma EvenIndexCorrect(b: seq<real>, x: real)
    requires Boundaries(b) && ExactlyEven(b) && InRange(b, x) && Increment(b) > 0.0
    ensures LastNotAbove(b, x, EvenIndex(b, x))
  {
    hide Times, Increment;
    var inc, t, n := Increment(b), EvenIndex(b, x), |b| - 1;
    FloorOfQuotient(x - b[0], inc, t);
    TimesNext(n, inc);
    TimesOrder(t + 1, 0, inc);
    TimesOrder(t, n, inc);
    assert b[n] == b[0] + Times(n, inc);
    assert 0 <= t <= n;
    assert b[t] == b[0] + Times(t, inc);
    if t < n { assert b[t + 1] == b[0] + Times(t + 1, inc); }
  }

  lemma LastNotAboveUnique(b: seq<real>, x: real, t: int, u: int)
    requires Boundaries(b) && LastNotAbove(b, x, t) && LastNotAbove(b, x, u)
    ensures t == u
  {
  }

  /** Were a boundary off its even place, the two indices would differ at it or at the even place. */
  lemma BoundaryForced(b: seq<real>, i: nat)
    requires Boundaries(b) && i < |b| && Increment(b) > 0.0
    requires forall x :: InRange(b, x) ==> LastNotAbove(b, x, EvenIndex(b, x))
    ensures b[i] == b[0] + Times(i, Increment(b))
  {
    hide Times, Increment;
    var y := b[0] + Times(i, Increment(b));
    assert i > 0 ==> b[0] < b[i];
    assert i < |b| - 1 ==> b[i] < b[|b| - 1];
    assert InRange(b, b[i]) && LastNotAbove(b, b[i], i);
    LastNotAboveUnique(b, b[i], EvenIndex(b, b[i]), i);
    FloorOfQuotient(b[i] - b[0], Increment(b), i);
    if y < b[i] { EvenPlaceMissed(b, i); }
  }

  lemma EvenPlaceMissed(b: seq<real>, i: nat)
    requires Boundaries(b) && i < |b| && Increment(b) > 0.0
    requires b[0] + Times(i, Increment(b)) < b[i]
    ensures var y := b[0] + Times(i, Increment(b));
            InRange(b, y) && !LastNotAbove(b, y, EvenIndex(b, y))
  {
    hide Times, Increment;
    var inc := Increment(b);
    TimesOrder(0, i, inc);
    TimesNext(i, inc);
    assert i < |b| - 1 ==> b[i] < b[|b| - 1];
    FloorOfQuotient(Times(i, inc), inc, i);
    assert b[0] + Times(i, inc) - b[0] == Times(i, inc);
  }

  // ----- where a value is counted

  /** The position the lookup finds: by division or by search. */
  ghost function Index(b: seq<real>, even: bool, x: real): int
    requires Boundaries(b) && InRange(b, x)
  {
    if even then (IncrementPositive(b); EvenIndex(b, x)) else SearchIndex(b, x)
  }

  ghost function SearchIndex(b: seq<real>, x: real): (t: int)
    requires Boundaries(b) && InRange(b, x)
    ensures LastNotAbove(b, x, t)
  {
    var t := LastBoundary(b, x, |b| - 1);
    t
  }

  ghost function LastBoundary(b: seq<real>, x: real, t: nat): (u: nat)
    requires t < |b| && b[0] <= x && (t + 1 < |b| ==> x < b[t + 1])
    ensures LastNotAbove(b, x, u)
  {
    if b[t] <= x then t else LastBoundary(b, x, t - 1)
  }

  /** Both lookups stay within the counters, even where the division is off. */
  lemma IndexInRange(b: seq<real>, even: bool, x: real)
    requires Boundaries(b) && InRange(b, x)
    ensures 0 <= Index(b, even, x) < |b|
    ensures even ==> (Index(b, even, x) == |b| - 1 <==> x == b[|b| - 1])
  {
    hide Times, Increment;
    IncrementPositive(b);
    var inc, n := Increment(b), |b| - 1;
    var t := EvenIndex(b, x);
    FloorOfQuotient(x - b[0], inc, t);
    TimesNext(n, inc);
    TimesOrder(t + 1, 0, inc);
    TimesOrder(t, n, inc);
    TimesOrder(t + 1, n, inc);
  }

  /** The last position is one past the last bucket and is counted with it. */
  function Folded(t: int, n: int): int
  {
    if t == n then n - 1 else t
  }

  /** The bucket a value is counted in; -1 for `None`, NaN and values out of range. */
  ghost function Placed(b: seq<real>, even: bool, o: Option<real>): int
    requires Boundaries(b)
  {
    if o.None? || !InRange(b, o.value) then -1 else Folded(Index(b, even, o.value), |b| - 1)
  }

  ghost function PlacedIn(b: seq<real>, even: bool, i: int): Option<real> -> bool
    requires Boundaries(b)
  {
    (o: Option<real>) => Placed(b, even, o) == i
  }

  /** The placement puts every value into its bucket, and no other. */
  ghost predicate PlacesRight(b: seq<real>, even: bool)
    requires Boundaries(b)
  {
    forall x, i :: 0 <= i < |b| - 1 ==> (Placed(b, even, Some(x)) == i <==> InBucket(b, i, x))
  }

  lemma BucketOfIndex(b: seq<real>, x: real, t: int, i: nat)
    requires Boundaries(b) && InRange(b, x) && LastNotAbove(b, x, t) && i + 1 < |b|
    ensures InBucket(b, i, x) <==> i == Folded(t, |b| - 1)
  {
    assert i < t ==> b[i + 1] <= b[t];
    assert i > t ==> b[t + 1] <= b[i];
  }

  lemma NoBucket(b: seq<real>, x: real, i: nat)
    requires Boundaries(b) && !InRange(b, x) && i + 1 < |b|
    ensures !InBucket(b, i, x)
  {
    assert i > 0 ==> b[0] < b[i];
    assert i + 1 < |b| - 1 ==> b[i + 1] < b[|b| - 1];
  }

  /**
   The histogram of any values is right exactly when buckets that look even are even: the
   division is used as soon as all steps agree within the tolerance.
   */
  lemma PlacesRightIff(b: seq<real>, even: bool)
    requires Boundaries(b)
    ensures PlacesRight(b, even) <==> (even ==> ExactlyEven(b))
  {
    EvenIndexIffExactlyEven(b);
    if even ==> ExactlyEven(b) {
      forall x, i | 0 <= i < |b| - 1 ensures Placed(b, even, Some(x)) == i <==> InBucket(b, i, x) {
        if InRange(b, x) { BucketOfIndex(b, x, Index(b, even, x), i); } else { NoBucket(b, x, i); }
      }
    }
    if even && PlacesRight(b, even) {
      forall x | InRange(b, x) ensures LastNotAbove(b, x, EvenIndex(b, x)) { IndexForced(b, x); }
    }
  }

  /** If the value lands in the right bucket, the division found the right position. */
  lemma IndexForced(b: seq<real>, x: real)
    requires Boundaries(b) && InRange(b, x) && Increment(b) > 0.0 && PlacesRight(b, true)
    ensures LastNotAbove(b, x, EvenIndex(b, x))
  {
    var t, i := EvenIndex(b, x), Placed(b, true, Some(x));
    IndexInRange(b, true, x);
    assert 0 <= i < |b| - 1 && InBucket(b, i, x);
  }

  // ----- counting

  /** The counters of one partition, before the last two are added together. */
  ghost predicate RawCounts(b: seq<real>, even: bool, counters: seq<nat>, items: seq<Option<real>>)
    requires Boundaries(b)
  {
    && |counters| == |b|
    && forall i :: 0 <= i < |b| - 1 ==>
         |Filter(PlacedIn(b, even, i), items)| == counters[i] + if i == |b| - 2 then counters[|b| - 1] else 0
  }

  lemma CountNext(b: seq<real>, even: bool, counters: seq<nat>, items: seq<Option<real>>, n: nat)
    requires Boundaries(b) && n < |items| && RawCounts(b, even, counters, items[..n])
    requires items[n].Some? && InRange(b, items[n].value)
    ensures var t := Index(b, even, items[n].value);
            0 <= t < |b| && RawCounts(b, even, counters[t := counters[t] + 1], items[..n + 1])
  {
    IndexInRange(b, even, items[n].value);
    forall i | 0 <= i < |b| - 1 { FilterUpto(PlacedIn(b, even, i), items, n); }
  }

  lemma SkipNext(b: seq<real>, even: bool, counters: seq<nat>, items: seq<Option<real>>, n: nat)
    requires Boundaries(b) && n < |items| && RawCounts(b, even, counters, items[..n])
    requires items[n].None? || !InRange(b, items[n].value)
    ensures RawCounts(b, even, counters, items[..n + 1])
  {
    forall i | 0 <= i < |b| - 1 { FilterUpto(PlacedIn(b, even, i), items, n); }
  }

  /** The counters a partition returns. */
  ghost predicate Counts(b: seq<real>, even: bool, counters: seq<nat>, items: seq<Option<real>>)
    requires Boundaries(b)
  {
    |counters| == |b| - 1 && forall i :: 0 <= i < |b| - 1 ==> counters[i] == |Filter(PlacedIn(b, even, i), items)|
  }

  /** The inner `histogram(iterator)` */
  method CountPartition(b: seq<real>, even: bool, items: seq<Option<real>>) returns (counters: seq<nat>)
    requires Boundaries(b)
    ensures Counts(b, even, counters, items)
  {
    hide EvenIndex, Increment;
    IncrementPositive(b);
    counters := seq(|b|, _ => 0);
    assert items[..0] == [];
    for n := 0 to |items|
      invariant RawCounts(b, even, counters, items[..n])
    {
      if items[n].None? || items[n].value > b[|b| - 1] || items[n].value < b[0] {
        SkipNext(b, even, counters, items, n);
      } else {
        var x := items[n].value;
        CountNext(b, even, counters, items, n);
        var t;
        if even {
          t := EvenIndex(b, x);
        } else {
          var p := BisectRight(b, x);
          t := p - 1;
          LastNotAboveUnique(b, x, t, SearchIndex(b, x));
        }
        counters := counters[t := counters[t] + 1];
      }
    }
    assert items[..|items|] == items;
    var last := counters[|b| - 1];
    counters := counters[..|b| - 1];
    counters := counters[|b| - 2 := counters[|b| - 2] + last];
  }

  /** `mergeCounters` */
  function MergeCounters(a: seq<nat>, c: seq<nat>): (r: seq<nat>)
    requires |a| == |c|
    ensures |r| == |a| && forall i :: 0 <= i < |a| ==> r[i] == a[i] + c[i]
  {
    seq(|a|, i requires 0 <= i < |a| => a[i] + c[i])
  }

  lemma CountsAppend(b: seq<real>, even: bool, a: seq<nat>, c: seq<nat>, xs: seq<Option<real>>, ys: seq<Option<real>>)
    requires Boundaries(b) && Counts(b, even, a, xs) && Counts(b, even, c, ys)
    ensures Counts(b, even, MergeCounters(a, c), xs + ys)
  {
    forall i | 0 <= i < |b| - 1 { FilterAppend(PlacedIn(b, even, i), xs, ys); }
  }

  /** All partitions counted and merged; without partitions there is nothing to reduce. */
  method CountAll(b: seq<real>, even: bool, parts: seq<seq<Option<real>>>) returns (counters: Option<seq<nat>>)
    requires Boundaries(b)
    ensures counters.None? <==> parts == []
    ensures counters.Some? ==> Counts(b, even, counters.value, Flatten(parts))
  {
    if parts == [] { return None; }
    var acc := CountPartition(b, even, parts[0]);
    FlattenOne(parts[0]);
    assert parts[..1] == [parts[0]];
    for m := 1 to |parts|
      invariant Counts(b, even, acc, Flatten(parts[..m]))
    {
      var next := CountPartition(b, even, parts[m]);
      FlattenUpto(parts, m);
      CountsAppend(b, even, acc, next, Flatten(parts[..m]), parts[m]);
      acc := MergeCounters(acc, next);
    }
    assert parts[..|parts|] == parts;
    counters := Some(acc);
  }

  // ----- what the counters mean

  function Falls(b: seq<real>, i: nat): Option<real> -> bool
    requires i + 1 < |b|
  {
    (o: Option<real>) => o.Some? && InBucket(b, i, o.value)
  }

  /** Intervals are closed on the left; the last one is closed on the right as well. */
  lemma FallsMeans(b: seq<real>, i: nat, o: Option<real>)
    requires i + 1 < |b|
    ensures Falls(b, i)(o) <==>
              o.Some? && b[i] <= o.value && if i == |b| - 2 then o.value <= b[i + 1] else o.value < b[i + 1]
  {
  }

  /** With the right placement, counter `i` is the number of values in the interval of bucket `i`. */
  lemma CountsOfBuckets(b: seq<real>, even: bool, counters: seq<nat>, items: seq<Option<real>>, i: nat)
    requires Boundaries(b) && (even ==> ExactlyEven(b)) && Counts(b, even, counters, items) && i + 1 < |b|
    ensures counters[i] == |Filter(Falls(b, i), items)|
  {
    PlacesRightIff(b, even);
    forall o ensures PlacedIn(b, even, i)(o) == Falls(b, i)(o) {
      if o.Some? { assert Placed(b, even, Some(o.value)) == i <==> InBucket(b, i, o.value); }
    }
    FilterSame(PlacedIn(b, even, i), Falls(b, i), items);
  }

  /** Counter `i` is the number of values in the interval of bucket `i`. */
  ghost predicate CountsBuckets(b: seq<real>, counters: seq<nat>, items: seq<Option<real>>)
  {
    |counters| + 1 == |b| && forall i :: 0 <= i < |counters| ==> counters[i] == |Filter(Falls(b, i), items)|
  }

  lemma CountsAreRight(b: seq<real>, even: bool, counters: seq<nat>, items: seq<Option<real>>)
    requires Boundaries(b) && (even ==> ExactlyEven(b)) && Counts(b, even, counters, items)
    ensures CountsBuckets(b, counters, items)
  {
    forall i | 0 <= i < |counters| ensures counters[i] == |Filter(Falls(b, i), items)| {
      CountsOfBuckets(b, even, counters, items, i);
    }
  }

  ghost function SumOf(counters: seq<nat>): nat
  {
    if counters == [] then 0 else counters[0] + SumOf(counters[1..])
  }

  function Falling(b: seq<real>): Option<real> -> bool
    requires |b| >= 2
  {
    (o: Option<real>) => o.Some? && b[0] <= o.value <= b[|b| - 1]
  }

  /** Every value in range is counted once, and nothing else is, whichever lookup is used. */
  lemma {:induction false} CountsAddUp(b: seq<real>, even: bool, counters: seq<nat>, items: seq<Option<real>>)
    requires Boundaries(b) && Counts(b, even, counters, items)
    ensures SumOf(counters) == |Filter(Falling(b), items)|
    decreases |items|
  {
    if items == [] {
      AllZero(counters);
    } else {
      var n := |items| - 1;
      var before := seq(|b| - 1, i requires 0 <= i < |b| - 1 => |Filter(PlacedIn(b, even, i), items[..n])|);
      CountsAddUp(b, even, before, items[..n]);
      assert items[..n + 1] == items;
      FilterUpto(Falling(b), items, n);
      forall i | 0 <= i < |b| - 1 ensures counters[i] == before[i] + if Placed(b, even, items[n]) == i then 1 else 0 {
        FilterUpto(PlacedIn(b, even, i), items, n);
      }
      if Falling(b)(items[n]) { IndexInRange(b, even, items[n].value); }
      SumChanged(before, counters, Placed(b, even, items[n]));
    }
  }

  lemma {:induction false} AllZero(counters: seq<nat>)
    requires forall i :: 0 <= i < |counters| ==> counters[i] == 0
    ensures SumOf(counters) == 0
  {
    if counters != [] { AllZero(counters[1..]); }
  }

  lemma {:induction false} SumChanged(a: seq<nat>, c: seq<nat>, j: int)
    requires |a| == |c| && forall i :: 0 <= i < |a| ==> c[i] == a[i] + if i == j then 1 else 0
    ensures SumOf(c) == SumOf(a) + if 0 <= j < |a| then 1 else 0
  {
    if a != [] { SumChanged(a[1..], c[1..], j - 1); }
  }

  // ----- histogram(buckets)

  const TOLERANCE: real := 0.0000000001

  /** `min(steps)` and `max(steps)`, and where they occur. */
  method Steps(b: seq<real>) returns (least: real, greatest: real, ghost lo: int, ghost hi: int)
    requires |b| >= 2
    ensures forall i :: 0 <= i < |b| - 1 ==> least <= b[i + 1] - b[i] <= greatest
    ensures 0 <= lo < |b| - 1 && least == b[lo + 1] - b[lo]
    ensures 0 <= hi < |b| - 1 && greatest == b[hi + 1] - b[hi]
  {
    var steps := seq(|b| - 1, i requires 0 <= i < |b| - 1 => b[i + 1] - b[i]);
    least, greatest, lo, hi := steps[0], steps[0], 0, 0;
    for n := 1 to |steps|
      invariant forall i :: 0 <= i < n ==> least <= steps[i] <= greatest
      invariant 0 <= lo < n && 0 <= hi < n && least == steps[lo] && greatest == steps[hi]
    {
      if steps[n] < least { least := steps[n]; lo := n; }
      if steps[n] > greatest { greatest := steps[n]; hi := n; }
    }
    forall i | 0 <= i < |b| - 1 ensures least <= b[i + 1] - b[i] <= greatest {
      assert least <= steps[i] <= greatest;
    }
  }

  /** The steps agree within the tolerance, so the constant-time lookup is used. */
  ghost predicate LooksEven(b: seq<real>)
    requires |b| >= 2
  {
    forall i, j :: 0 <= i < |b| - 1 && 0 <= j < |b| - 1 ==> (b[i + 1] - b[i]) - (b[j + 1] - b[j]) < TOLERANCE
  }

  /** Buckets of different widths never look even. */
  lemma EvenWithin(b: seq<real>)
    requires |b| >= 2
    ensures LooksEven(b) <==>
              forall i, j :: 0 <= i < |b| - 1 && 0 <= j < |b| - 1 ==>
                (b[i + 1] - b[i]) - (b[j + 1] - b[j]) < 0.0000000001
  {
  }

  /** The validation of a list of buckets. */
  method CheckBuckets(b: seq<real>) returns (error: Option<PyError>)
    ensures error.None? <==> Boundaries(b)
  {
    if |b| < 2 { return Some(ValueError); }
    for i := 0 to |b| - 1
      invariant forall j :: 0 <= j < i ==> b[j] < b[j + 1]
    {
      if b[i] >= b[i + 1] { return Some(ValueError); }
    }
    Increasing(b, |b|);
    error := None;
  }

  method TestEven(b: seq<real>) returns (even: bool)
    requires |b| >= 2
    ensures even <==> LooksEven(b)
  {
    var least, greatest, lo, hi := Steps(b);
    even := greatest - least < TOLERANCE;
  }

  /** `histogram(buckets)`.  Without partitions there is nothing to reduce, which is an error too. */
  method HistogramOf(b: seq<real>, parts: seq<seq<Option<real>>>) returns (r: Result<seq<nat>, PyError>)
    ensures r.Err? <==> !Boundaries(b) || parts == []
    ensures r.Err? <==> |b| < 2 || (exists i :: 0 <= i < |b| - 1 && b[i] >= b[i + 1]) || parts == []
    ensures r.Ok? ==> Counts(b, LooksEven(b), r.value, Flatten(parts))
    ensures r.Ok? ==> SumOf(r.value) == |Filter(Falling(b), Flatten(parts))|
    ensures r.Ok? && (LooksEven(b) ==> ExactlyEven(b)) ==> CountsBuckets(b, r.value, Flatten(parts))
    ensures r.Ok? && (exists i, j :: 0 <= i < |b| - 1 && 0 <= j < |b| - 1 &&
                        (b[i + 1] - b[i]) - (b[j + 1] - b[j]) >= 0.0000000001) ==>
              CountsBuckets(b, r.value, Flatten(parts))
  {
    hide LooksEven, ExactlyEven, Counts, CountsBuckets, Filter, Flatten, SumOf, Boundaries;
    BoundariesMean(b);
    var error := CheckBuckets(b);
    if error.Some? { return Err(error.value); }
    var even := TestEven(b);
    var counters := CountAll(b, even, parts);
    if counters.None? { return Err(ValueError); }
    CountsAddUp(b, even, counters.value, Flatten(parts));
    CountedRight(b, counters.value, Flatten(parts));
    r := Ok(counters.value);
  }

  lemma BoundariesMean(b: seq<real>)
    ensures Boundaries(b) <==> |b| >= 2 && forall i :: 0 <= i < |b| - 1 ==> b[i] < b[i + 1]
  {
    Increasing(b, |b|);
  }

  lemma CountedRight(b: seq<real>, counters: seq<nat>, items: seq<Option<real>>)
    requires Boundaries(b) && Counts(b, LooksEven(b), counters, items)
    ensures (LooksEven(b) ==> ExactlyEven(b)) ==> CountsBuckets(b, counters, items)
    ensures (exists i, j :: 0 <= i < |b| - 1 && 0 <= j < |b| - 1 &&
               (b[i + 1] - b[i]) - (b[j + 1] - b[j]) >= 0.0000000001) ==>
              CountsBuckets(b, counters, items)
  {
    hide LooksEven, ExactlyEven, Counts, CountsBuckets;
    EvenWithin(b);
    if LooksEven(b) ==> ExactlyEven(b) { CountsAreRight(b, LooksEven(b), counters, items); }
  }

  /** Comparing neighbours is enough. */
  lemma {:induction false} Increasing(b: seq<real>, n: nat)
    requires n <= |b|
    ensures (forall j :: 0 <= j < n - 1 ==> b[j] < b[j + 1]) <==> forall i, j :: 0 <= i < j < n ==> b[i] < b[j]
  {
    if n > 1 {
      Increasing(b, n - 1);
      if forall j :: 0 <= j < n - 1 ==> b[j] < b[j + 1] { assert b[n - 2] < b[n - 1]; }
      if forall i, j :: 0 <= i < j < n ==> b[i] < b[j] {
        assert forall j :: 0 <= j < n - 1 ==> b[j] < b[j + 1];
      }
    }
  }

  /** Buckets that look even and are not: the value 1 belongs to the second bucket and is counted in the first. */
  lemma AlmostEven()
    ensures var b := [0.0, 1.0, 2.00000000005];
            && Boundaries(b) && LooksEven(b) && !ExactlyEven(b)
            && InBucket(b, 1, 1.0) && Placed(b, true, Some(1.0)) == 0
  {
    AlmostEvenBuckets([0.0, 1.0, 2.00000000005]);
  }

  lemma AlmostEvenBuckets(b: seq<real>)
    requires |b| == 3 && b[0] == 0.0 && b[1] == 1.0 && b[2] == 2.00000000005
    ensures Boundaries(b) && LooksEven(b) && !ExactlyEven(b)
    ensures InBucket(b, 1, 1.0) && Placed(b, true, Some(1.0)) == 0
  {
    hide Times, Increment, EvenIndex;
    IncrementPositive(b);
    ThreeBoundaries(b);
    AlmostOne(Increment(b));
    EvenIndexOfOne(b);
    assert b[1] != b[0] + Times(1, Increment(b));
  }

  lemma ThreeBoundaries(b: seq<real>)
    requires |b| == 3 && b[0] == 0.0 && b[1] == 1.0 && b[2] == 2.00000000005
    ensures LooksEven(b) && Increment(b) == 2.00000000005 / 2.0
  {
  }

  lemma EvenIndexOfOne(b: seq<real>)
    requires |b| == 3 && b[0] == 0.0 && Increment(b) > 0.0 && (1.0 / Increment(b)).Floor == 0
    ensures EvenIndex(b, 1.0) == 0
  {
    hide Increment;
    assert 1.0 - b[0] == 1.0;
  }

  lemma AlmostOne(inc: real)
    requires inc == 2.00000000005 / 2.0
    ensures inc > 0.0 && (1.0 / inc).Floor == 0 && Times(1, inc) != 1.0
  {
    TimesNext(0, inc);
    FloorOfQuotient(1.0, inc, 0);
  }

  // ----- histogram(n)

  /** The smallest and the largest value of the RDD that is a number. */
  method MinMax(parts: seq<seq<Option<real>>>) returns (range: Option<(real, real)>)
    ensures range.None? <==> forall o :: o in Flatten(parts) ==> o.None?
    ensures range.Some? ==>
              && Some(range.value.0) in Flatten(parts) && Some(range.value.1) in Flatten(parts)
              && forall x :: Some(x) in Flatten(parts) ==> range.value.0 <= x <= range.value.1
  {
    var all := Flatten(parts);
    range := None;
    for i := 0 to |all|
      invariant range.None? <==> forall o :: o in all[..i] ==> o.None?
      invariant range.Some? ==>
                  && Some(range.value.0) in all && Some(range.value.1) in all && range.value.0 <= range.value.1
                  && forall x :: Some(x) in all[..i] ==> range.value.0 <= x <= range.value.1
    {
      assert all[..i + 1] == all[..i] + [all[i]];
      if all[i].Some? {
        var x := all[i].value;
        assert all[i] in all[..i + 1];
        if range.None? {
          range := Some((x, x));
        } else {
          var (lo, hi) := range.value;
          range := Some((if x < lo then x else lo, if x > hi then x else hi));
        }
      }
    }
    assert all[..|all|] == all;
  }

  /** `n + 1` boundaries from `minv` to `maxv`, a step of an integer width if that is exact. */
  method EvenBuckets(minv: real, maxv: real, n: int) returns (b: seq<real>)
    requires minv < maxv && n >= 2
    ensures |b| == n + 1 && b[0] == minv && b[n] == maxv
    ensures Boundaries(b) && ExactlyEven(b)
  {
    var inc := (maxv - minv) / n as real;
    var whole := inc.Floor as real;
    if whole * n as real == maxv - minv {
      WholeStep(whole, n as real, maxv - minv);
      inc := whole;
    }
    hide Times;
    TimesNext(0, inc);
    ExactStep(maxv - minv, inc, n);
    b := seq(n, i requires 0 <= i < n => Times(i, inc) + minv) + [maxv];
    assert b[n] == Times(n, inc) + minv;
    assert Increment(b) == inc;
    forall i, j | 0 <= i < j < |b| ensures b[i] < b[j] { TimesOrder(j, i, inc); }
  }

  lemma WholeStep(whole: real, n: real, width: real)
    requires n > 0.0 && whole * n == width
    ensures whole == width / n
  {
    assert width / n * n == whole * n;
    Scale(whole, width / n, n);
    Scale(width / n, whole, n);
  }

  lemma ExactStep(width: real, inc: real, n: int)
    requires n >= 2 && width > 0.0 && inc == width / n as real
    ensures inc > 0.0 && Times(n, inc) == width
  {
    assert inc * n as real == width;
    Positive(inc, n as real);
  }

  /** All values that are numbers. */
  function IsNumber(): Option<real> -> bool
  {
    (o: Option<real>) => o.Some?
  }

  /** `histogram(n)`: even buckets between the extremes, each counting the values of its interval. */
  method HistogramEven(n: int, parts: seq<seq<Option<real>>>) returns (r: Result<(seq<real>, seq<nat>), PyError>)
    ensures r.Err? <==> n < 1 || forall o :: o in Flatten(parts) ==> o.None?
    ensures r.Ok? ==>
              var (b, counters) := r.value;
              && |b| == |counters| + 1 >= 2 && Some(b[0]) in Flatten(parts) && Some(b[|b| - 1]) in Flatten(parts)
              && (forall x :: Some(x) in Flatten(parts) ==> b[0] <= x <= b[|b| - 1])
              && (|counters| == 1 <==> n == 1 || b[0] == b[|b| - 1])
              && (|counters| == 1 ==> counters == [|Filter(IsNumber(), Flatten(parts))|])
              && (|counters| > 1 ==> |counters| == n && ExactlyEven(b) && CountsBuckets(b, counters, Flatten(parts)))
              && SumOf(counters) == |Filter(IsNumber(), Flatten(parts))|
  {
    hide EvenIndex, Increment, ExactlyEven, Counts, CountsBuckets;
    if n < 1 { return Err(ValueError); }
    var range := MinMax(parts);
    if range.None? { return Err(ValueError); }
    var (minv, maxv) := range.value;
    if minv == maxv || n == 1 {
      var count := |Filter(IsNumber(), Flatten(parts))|;
      assert SumOf([count]) == count + SumOf([]);
      return Ok(([minv, maxv], [count]));
    }
    var b := EvenBuckets(minv, maxv, n);
    var counters := CountAll(b, true, parts);
    CountsAreRight(b, true, counters.value, Flatten(parts));
    CountsAddUp(b, true, counters.value, Flatten(parts));
    AllFall(b, Flatten(parts));
    CountsWidth(b, counters.value, Flatten(parts));
    r := Ok((b, counters.value));
  }

  lemma CountsWidth(b: seq<real>, counters: seq<nat>, items: seq<Option<real>>)
    requires CountsBuckets(b, counters, items)
    ensures |counters| + 1 == |b|
  {
  }

  lemma {:induction false} AllFall(b: seq<real>, items: seq<Option<real>>)
    requires |b| >= 2 && forall x :: Some(x) in items ==> b[0] <= x <= b[|b| - 1]
    ensures Filter(Falling(b), items) == Filter(IsNumber(), items)
  {
    if items != [] {
      AllFall(b, items[1..]);
      if items[0].Some? { assert Some(items[0].value) in items; }
    }
  }
}
