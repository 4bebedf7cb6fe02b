/** `aggregate`, `reduce` and `treeAggregate`: flat and multi-level aggregation agree. */
module Aggregating {

  import opened Aggregation
  import opened ExternalLists
  import opened ExternalMerging
  import opened Sequences
  import opened Serializers
  import opened Shuffling
  import opened Wrappers

  function FoldLeft<U, T>(op: (U, T) -> U, acc: U, s: seq<T>): U
  {
    if s == [] then acc else op(FoldLeft(op, acc, s[..|s| - 1]), s[|s| - 1])
  }

  lemma FoldLeftUpto<U, T>(op: (U, T) -> U, acc: U, s: seq<T>, i: nat)
    requires i < |s|
    ensures FoldLeft(op, acc, s[..i + 1]) == op(FoldLeft(op, acc, s[..i]), s[i])
  {
    assert s[..i + 1][..i] == s[..i];
  }

  lemma FoldLeftSnoc<U, T>(op: (U, T) -> U, acc: U, s: seq<T>, x: T)
    ensures FoldLeft(op, acc, s + [x]) == op(FoldLeft(op, acc, s), x)
  {
    assert (s + [x])[..|s|] == s;
  }

  /** Every element is taken once, from left to right: appending them all gives back the sequence. */
  lemma {:induction false} FoldLeftInOrder<T>(acc: seq<T>, s: seq<T>)
    ensures FoldLeft((u: seq<T>, x: T) => u + [x], acc, s) == acc + s
  {
    if s != [] {
      FoldLeftInOrder(acc, s[..|s| - 1]);
      assert s == s[..|s| - 1] + [s[|s| - 1]];
    }
  }

  lemma {:induction false} FoldLeftAppend<U, T>(op: (U, T) -> U, acc: U, a: seq<T>, b: seq<T>)
    ensures FoldLeft(op, acc, a + b) == FoldLeft(op, FoldLeft(op, acc, a), b)
  {
    if b == [] {
      assert a + b == a;
    } else {
      assert (a + b)[..|a + b| - 1] == a + b[..|b| - 1];
      FoldLeftAppend(op, acc, a, b[..|b| - 1]);
    }
  }

  ghost predicate AssociativeOp<U(!new)>(op: (U, U) -> U)
  {
    forall a, b, c :: op(op(a, b), c) == op(a, op(b, c))
  }

  /** `combOp` is associative and commutative with neutral element `zero`. */
  ghost predicate Monoid<U(!new)>(op: (U, U) -> U, zero: U)
  {
    && AssociativeOp(op)
    && (forall a, b :: op(a, b) == op(b, a))
    && forall a :: op(zero, a) == a == op(a, zero)
  }

  lemma Reassociate<U(!new)>(op: (U, U) -> U, zero: U, a: U, b: U, c: U)
    requires Monoid(op, zero)
    ensures op(op(a, b), c) == op(a, op(b, c))
  {
  }

  /** Folding from any start is combining the start with the fold from zero. */
  lemma {:induction false} FoldFromZero<U(!new)>(op: (U, U) -> U, zero: U, acc: U, s: seq<U>)
    requires Monoid(op, zero)
    ensures FoldLeft(op, acc, s) == op(acc, FoldLeft(op, zero, s))
  {
    if s != [] { FoldFromZero(op, zero, acc, s[..|s| - 1]); }
  }

  lemma {:induction false} FoldAt<U(!new)>(op: (U, U) -> U, zero: U, s: seq<U>, i: nat)
    requires Monoid(op, zero) && i < |s|
    ensures FoldLeft(op, zero, s) == op(FoldLeft(op, zero, s[..i] + s[i + 1..]), s[i])
  {
    var a, x, b := s[..i], s[i], s[i + 1..];
    var fa, fb := FoldLeft(op, zero, a), FoldLeft(op, zero, b);
    assert s == (a + [x]) + b;
    FoldLeftAppend(op, zero, a + [x], b);
    FoldLeftSnoc(op, zero, a, x);
    FoldLeftAppend(op, zero, a, b);
    FoldFromZero(op, zero, op(fa, x), b);
    FoldFromZero(op, zero, fa, b);
    assert op(op(fa, x), fb) == op(fa, op(x, fb)) && op(x, fb) == op(fb, x);
    assert op(op(fa, fb), x) == op(fa, op(fb, x));
  }

  // ----- aggregate and reduce

  /** The folds of the single partitions. */
  function Partials<T, U>(zero: U, seqOp: (U, T) -> U, parts: seq<seq<T>>): seq<U>
  {
    Map(p => FoldLeft(seqOp, zero, p), parts)
  }

  method AggregatePartitions<T, U>(zero: U, seqOp: (U, T) -> U, parts: seq<seq<T>>) returns (vals: seq<U>)
    ensures vals == Partials(zero, seqOp, parts)
  {
    vals := [];
    for m := 0 to |parts|
      invariant |vals| == m && forall j :: 0 <= j < m ==> vals[j] == FoldLeft(seqOp, zero, parts[j])
    {
      var acc := zero;
      for i := 0 to |parts[m]|
        invariant acc == FoldLeft(seqOp, zero, parts[m][..i])
      {
        FoldLeftUpto(seqOp, zero, parts[m], i);
        acc := seqOp(acc, parts[m][i]);
      }
      assert parts[m][..|parts[m]|] == parts[m];
      vals := vals + [acc];
    }
  }

  /** Combining in a folded value is folding on, and `zero` adds nothing. */
  ghost predicate Compatible<T(!new), U(!new)>(zero: U, seqOp: (U, T) -> U, combOp: (U, U) -> U)
  {
    && (forall a :: combOp(a, zero) == a)
    && forall a, b, x :: combOp(a, seqOp(b, x)) == seqOp(combOp(a, b), x)
  }

  /** For compatible operators the partition boundaries do not matter. */
  lemma {:induction false} AggregateIgnoresPartitions<T(!new), U(!new)>(
      zero: U, seqOp: (U, T) -> U, combOp: (U, U) -> U, parts: seq<seq<T>>)
    requires Compatible(zero, seqOp, combOp)
    ensures FoldLeft(combOp, zero, Partials(zero, seqOp, parts)) == FoldLeft(seqOp, zero, Flatten(parts))
  {
    if parts != [] {
      var n := |parts| - 1;
      var front, last := parts[..n], parts[n];
      AggregateIgnoresPartitions(zero, seqOp, combOp, front);
      assert parts == front + [last];
      MapAppend((p: seq<T>) => FoldLeft(seqOp, zero, p), front, [last]);
      FoldLeftSnoc(combOp, zero, Partials(zero, seqOp, front), FoldLeft(seqOp, zero, last));
      FlattenSnoc(front, last);
      FoldLeftAppend(seqOp, zero, Flatten(front), last);
      CombineFold(zero, seqOp, combOp, FoldLeft(seqOp, zero, Flatten(front)), last);
    }
  }

  lemma {:induction false} CombineFold<T(!new), U(!new)>(
      zero: U, seqOp: (U, T) -> U, combOp: (U, U) -> U, acc: U, s: seq<T>)
    requires Compatible(zero, seqOp, combOp)
    ensures combOp(acc, FoldLeft(seqOp, zero, s)) == FoldLeft(seqOp, acc, s)
  {
    if s != [] { CombineFold(zero, seqOp, combOp, acc, s[..|s| - 1]); }
  }

  /**
   `aggregate(zeroValue, seqOp, combOp)`: for compatible operators one fold over all elements,
   for any others the partial results combined from `zeroValue`.
   */
  method Aggregate<T(!new), U(!new)>(zero: U, seqOp: (U, T) -> U, combOp: (U, U) -> U, parts: seq<seq<T>>)
    returns (r: U)
    ensures r == FoldLeft(combOp, zero, Partials(zero, seqOp, parts))
    ensures Compatible(zero, seqOp, combOp) ==> r == FoldLeft(seqOp, zero, Flatten(parts))
  {
    var vals := AggregatePartitions(zero, seqOp, parts);
    r := zero;
    for i := 0 to |vals|
      invariant r == FoldLeft(combOp, zero, vals[..i])
    {
      FoldLeftUpto(combOp, zero, vals, i);
      r := combOp(r, vals[i]);
    }
    assert vals[..|vals|] == vals;
    if Compatible(zero, seqOp, combOp) { AggregateIgnoresPartitions(zero, seqOp, combOp, parts); }
  }

  lemma {:induction false} ReduceAppend<U(!new)>(op: (U, U) -> U, a: seq<U>, b: seq<U>)
    requires AssociativeOp(op) && a != [] && b != []
    ensures Reduce(op, a + b) == op(Reduce(op, a), Reduce(op, b))
  {
    var n := |b| - 1;
    assert (a + b)[..|a + b| - 1] == a + b[..n];
    if n == 0 {
      assert a + b[..n] == a;
    } else {
      ReduceAppend(op, a, b[..n]);
    }
  }

  /** `reduce(f)`: the non-empty partitions first, then their results; an empty RDD has no result. */
  method ReduceAll<U(!new)>(op: (U, U) -> U, parts: seq<seq<U>>) returns (r: Result<U, PyError>)
    requires AssociativeOp(op)
    ensures r.Err? <==> Flatten(parts) == []
    ensures r.Ok? ==> r.value == Reduce(op, Flatten(parts))
  {
    var vals := [];
    for m := 0 to |parts|
      invariant vals == [] <==> Flatten(parts[..m]) == []
      invariant vals != [] ==> Reduce(op, vals) == Reduce(op, Flatten(parts[..m]))
    {
      FlattenUpto(parts, m);
      if parts[m] != [] {
        var acc := ReduceOne(op, parts[m]);
        if vals == [] {
          assert Flatten(parts[..m + 1]) == parts[m] && vals + [acc] == [acc];
        } else {
          ReduceAppend(op, Flatten(parts[..m]), parts[m]);
          ReduceAppend(op, vals, [acc]);
        }
        vals := vals + [acc];
      } else {
        assert Flatten(parts[..m + 1]) == Flatten(parts[..m]);
      }
    }
    assert parts[..|parts|] == parts;
    if vals == [] { return Err(ValueError); }
    var total := ReduceOne(op, vals);
    r := Ok(total);
  }

  /** `functools.reduce(f, s)` of a non-empty list. */
  method ReduceOne<U>(op: (U, U) -> U, s: seq<U>) returns (acc: U)
    requires s != []
    ensures acc == Reduce(op, s)
  {
    acc := s[0];
    for i := 1 to |s|
      invariant acc == Reduce(op, s[..i])
    {
      assert s[..i + 1][..i] == s[..i];
      acc := op(acc, s[i]);
    }
    assert s[..|s|] == s;
  }

  lemma {:induction false} ReduceIsFold<U(!new)>(op: (U, U) -> U, zero: U, s: seq<U>)
    requires Monoid(op, zero) && s != []
    ensures Reduce(op, s) == FoldLeft(op, zero, s)
  {
    if |s| > 1 {
      ReduceIsFold(op, zero, s[..|s| - 1]);
    } else {
      assert s[..0] == [];
    }
  }

  // ----- one level of the tree

  function SameType<U>(op: (U, U) -> U): Aggregator<U, U>
  {
    Aggregator(x => x, op, op)
  }

  function Minus<K, C>(m: map<K, C>, k: K): map<K, C>
  {
    map x | x in m && x != k :: m[x]
  }

  lemma WithoutEntry<K, C>(e: seq<(K, C)>, m: map<K, C>, i: nat)
    requires Enumerates(e, m) && i < |e|
    ensures Enumerates(e[..i] + e[i + 1..], Minus(m, e[i].0))
  {
    var rest, m' := e[..i] + e[i + 1..], Minus(m, e[i].0);
    forall k | k in m' ensures exists j :: 0 <= j < |rest| && rest[j].0 == k {
      var j :| 0 <= j < |e| && e[j].0 == k;
      assert rest[if j < i then j else j - 1].0 == k;
    }
  }

  /** The combined values of a list of records. */
  function Total<K, U>(op: (U, U) -> U, zero: U, records: seq<(K, U)>): U
  {
    FoldLeft(op, zero, Map(Second(), records))
  }

  lemma TotalAt<K, U(!new)>(op: (U, U) -> U, zero: U, e: seq<(K, U)>, i: nat)
    requires Monoid(op, zero) && i < |e|
    ensures Total(op, zero, e) == op(Total(op, zero, e[..i] + e[i + 1..]), e[i].1)
  {
    Seconds(e, i);
    FoldAt(op, zero, Map(Second(), e), i);
  }

  lemma TotalSnoc<K, U>(op: (U, U) -> U, zero: U, s: seq<(K, U)>, x: (K, U))
    ensures Total(op, zero, s + [x]) == op(Total(op, zero, s), x.1)
  {
    MapAppend(Second<K, U>(), s, [x]);
    FoldLeftSnoc(op, zero, Map(Second(), s), x.1);
  }

  /** Reducing by key conserves the combined total, whatever order the results come in. */
  lemma {:induction false} ReduceByKeyConserves<K, U(!new)>(
      op: (U, U) -> U, zero: U, records: seq<(K, U)>, e: seq<(K, U)>)
    requires Monoid(op, zero) && Enumerates(e, FoldValues(SameType(op), map[], records))
    ensures Total(op, zero, e) == Total(op, zero, records)
    decreases |records|
  {
    if records == [] {
      NothingToList(e);
    } else {
      hide *;
      var n := |records| - 1;
      var front, k, u := records[..n], records[n].0, records[n].1;
      var m := FoldValues(SameType(op), map[], front);
      FoldValuesUpto(SameType(op), map[], records, n);
      assert records[..n + 1] == records;
      var i, rest := OneLess(op, e, m, k, u);
      TotalAt(op, zero, e, i);
      assert records == front + [(k, u)];
      TotalSnoc(op, zero, front, (k, u));
      if k in m {
        ReduceByKeyConserves(op, zero, front, rest + [(k, m[k])]);
        TotalSnoc(op, zero, rest, (k, m[k]));
        Reassociate(op, zero, Total(op, zero, rest), m[k], u);
      } else {
        ReduceByKeyConserves(op, zero, front, rest);
      }
    }
  }

  lemma NothingToList<K, C>(e: seq<(K, C)>)
    requires Enumerates(e, map[])
    ensures e == []
  {
    if e != [] { SomethingToList(e, map[]); }
  }

  lemma SomethingToList<K, C>(e: seq<(K, C)>, m: map<K, C>)
    requires Enumerates(e, m) && e != []
    ensures m != map[]
  {
    assert e[0].0 in m;
  }

  /** Undoing the last update of a dictionary in a listing of it. */
  lemma OneLess<K, U>(op: (U, U) -> U, e: seq<(K, U)>, m: map<K, U>, k: K, u: U) returns (i: nat, rest: seq<(K, U)>)
    requires Enumerates(e, AddValue(SameType(op), m, k, u))
    ensures i < |e| && rest == e[..i] + e[i + 1..]
    ensures e[i].1 == if k in m then op(m[k], u) else u
    ensures if k in m then Enumerates(rest + [(k, m[k])], m) else Enumerates(rest, m)
  {
    var full := AddValue(SameType(op), m, k, u);
    assert k in full;
    i :| 0 <= i < |e| && e[i].0 == k;
    rest := e[..i] + e[i + 1..];
    WithoutEntry(e, full, i);
    assert Minus(full, k) == Minus(m, k);
    if k in m {
      EnumerateSnoc(rest, Minus(m, k), k, m[k]);
      assert Minus(m, k)[k := m[k]] == m;
    } else {
      assert Minus(m, k) == m;
    }
  }

  lemma Seconds<K, U>(s: seq<(K, U)>, i: nat)
    requires i < |s|
    ensures Map(Second<K, U>(), s)[..i] + Map(Second<K, U>(), s)[i + 1..] == Map(Second<K, U>(), s[..i] + s[i + 1..])
    ensures Map(Second<K, U>(), s)[..i] == Map(Second<K, U>(), s[..i])
    ensures Map(Second<K, U>(), s)[..i + 1] == Map(Second<K, U>(), s[..i + 1])
    ensures Map(Second<K, U>(), s[..|s|]) == Map(Second<K, U>(), s)
  {
    assert s[..|s|] == s;
  }

  /** `mapPartition`: every object keyed by its partition modulo the new number of partitions. */
  method KeyByPartition<U>(level: seq<seq<U>>, cur: int) returns (keyed: seq<seq<(int, U)>>)
    requires cur > 0
    ensures |keyed| == |level| && Map(Second(), Flatten(keyed)) == Flatten(level)
    ensures forall i, j :: 0 <= i < |keyed| && 0 <= j < |keyed[i]| ==> keyed[i][j].0 == i % cur
  {
    keyed := seq(|level|, i requires 0 <= i < |level| => Map(x => (i % cur, x), level[i]));
    forall i | 0 <= i < |level| ensures level[i] == Map(Second<int, U>(), keyed[i]) {}
    FlattenMap(Second<int, U>(), keyed, level);
  }

  method ReduceLevel<U(!new)>(
      op: (U, U) -> U, ghost zero: U, codec: Codec<seq<(int, U)>>, hash: (int, int) -> int, buckets: Branching,
      memory: real, partitionFunc: int -> int, level: seq<seq<U>>, cur: int)
    returns (next: seq<seq<U>>)
    requires Monoid(op, zero) && PickledChunks(codec) && 0 < cur <= TWO_63
    ensures |next| == cur
    ensures FoldLeft(op, zero, Flatten(next)) == FoldLeft(op, zero, Flatten(level))
    ensures Flatten(level) != [] ==> Flatten(next) != []
  {
    var keyed := KeyByPartition(level, cur);
    var reduced := CombineByKey(SameType(op), codec, hash, buckets, memory, partitionFunc, cur, keyed, false);
    next := seq(cur, s requires 0 <= s < cur => Map(Second<int, U>(), reduced[s]));
    FlattenMap(Second<int, U>(), reduced, next);
    ReduceByKeyConserves(op, zero, Flatten(keyed), Flatten(reduced));
    if Flatten(level) != [] {
      var k := Flatten(keyed)[0].0;
      FoldValuesKeys(SameType(op), Flatten(keyed), k);
    }
  }

  // ----- treeAggregate

  /** The loop guard: another level would help. */
  predicate WorthAnotherLevel(n: real, scale: int)
    requires scale >= 2
  {
    n > scale as real + n / scale as real
  }

  /** Without a division: there are more than `scale * scale / (scale - 1)` partitions. */
  lemma AnotherLevelIff(n: real, scale: int)
    requires scale >= 2
    ensures WorthAnotherLevel(n, scale) <==> n * (scale - 1) as real > (scale * scale) as real
  {
    var s := scale as real;
    assert n / s * s == n;
    Magnified(n, n / s, s);
    assert (scale - 1) as real == s - 1.0 && (scale * scale) as real == s * s;
  }

  lemma Magnified(n: real, q: real, s: real)
    requires s > 0.0 && q * s == n
    ensures n > s + q <==> n * (s - 1.0) > s * s
  {
    var gap := n - s - q;
    assert gap * s == n * (s - 1.0) - s * s;
    if gap > 0.0 { assert gap * s > 0.0; } else { assert gap * s <= 0.0; }
  }

  /** Another level drops at least two partitions and keeps more than one. */
  lemma LevelShrinks(n: real, scale: int)
    requires scale >= 2 && WorthAnotherLevel(n, scale)
    ensures n / scale as real > 1.0 && n / scale as real <= n - 2.0
  {
    var s := scale as real;
    var q := n / s;
    assert q * s == n;
    assert q * (s - 1.0) == n - q;
    ProductPositive(q, s - 1.0);
    ProductAbove(q, s);
  }

  lemma ProductPositive(q: real, t: real)
    requires t > 0.0 && q * t > 0.0
    ensures q > 0.0
  {
  }

  lemma ProductAbove(q: real, s: real)
    requires s > 0.0 && q * s > s
    ensures q > 1.0
  {
    assert (q - 1.0) * s > 0.0;
    ProductPositive(q - 1.0, s);
  }

  /**
   `treeAggregate(zeroValue, seqOp, combOp, depth)` equals the flat `aggregate`, for every
   scale and so for every depth, and always terminates.
   */
  method TreeAggregate<T, U(!new)>(
      zero: U, seqOp: (U, T) -> U, combOp: (U, U) -> U, depth: int, scale: int, parts: seq<seq<T>>,
      codec: Codec<seq<(int, U)>>, hash: (int, int) -> int, buckets: Branching, memory: real,
      partitionFunc: int -> int)
    returns (r: Result<U, PyError>)
    requires Monoid(combOp, zero) && PickledChunks(codec) && scale >= 2 && |parts| <= TWO_63
    ensures r.Err? <==> depth < 1
    ensures r.Ok? ==> r.value == FoldLeft(combOp, zero, Partials(zero, seqOp, parts))
  {
    if depth < 1 { return Err(ValueError); }
    if |parts| == 0 { return Ok(zero); }
    var vals := AggregatePartitions(zero, seqOp, parts);
    var level := seq(|vals|, i requires 0 <= i < |vals| => [vals[i]]);
    Singletons(vals, level);
    var numPartitions := |parts| as real;
    while WorthAnotherLevel(numPartitions, scale)
      invariant numPartitions <= TWO_63 as real
      invariant Flatten(level) != [] && FoldLeft(combOp, zero, Flatten(level)) == FoldLeft(combOp, zero, vals)
      decreases numPartitions.Floor
    {
      LevelShrinks(numPartitions, scale);
      numPartitions := numPartitions / scale as real;
      var curNumPartitions := numPartitions.Floor;
      level := ReduceLevel(combOp, zero, codec, hash, buckets, memory, partitionFunc, level, curNumPartitions);
    }
    r := ReduceAll(combOp, level);
    ReduceIsFold(combOp, zero, Flatten(level));
  }

  lemma {:induction false} Singletons<U>(vals: seq<U>, level: seq<seq<U>>)
    requires |level| == |vals| && forall i :: 0 <= i < |vals| ==> level[i] == [vals[i]]
    ensures Flatten(level) == vals
  {
    if vals != [] { Singletons(vals[1..], level[1..]); }
  }
}
