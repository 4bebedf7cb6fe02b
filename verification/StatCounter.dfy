/**
 Streaming statistics, in exact real arithmetic: the running fields are the count, the mean
 and the sum of squared deviations of everything merged so far, in whatever way it was merged.
 */
module StatCounters {

  import opened Sequences
  import opened Wrappers

  // ----- what the fields stand for

  ghost function Square(x: real): real
  {
    x * x
  }

  ghost function SumSquares(xs: seq<real>): real
  {
    if xs == [] then 0.0 else Square(xs[0]) + SumSquares(xs[1..])
  }

  /** The sum of `(x - c)^2`. */
  ghost function Deviation(xs: seq<real>, c: real): real
  {
    if xs == [] then 0.0 else Square(xs[0] - c) + Deviation(xs[1..], c)
  }

  lemma {:induction false} SumAppend(a: seq<real>, b: seq<real>)
    ensures Sum(a + b) == Sum(a) + Sum(b) && SumSquares(a + b) == SumSquares(a) + SumSquares(b)
  {
    if a == [] {
      assert a + b == b;
    } else {
      SumAppend(a[1..], b);
      SumCons(a[0], a[1..] + b);
      SumCons(a[0], a[1..]);
      assert [a[0]] + (a[1..] + b) == a + b && [a[0]] + a[1..] == a;
    }
  }

  /** The square in the deviation from `c`, multiplied out over `n` values. */
  ghost predicate Expands(deviation: real, c: real, n: real, sum: real, squares: real)
  {
    deviation == squares - 2.0 * c * sum + n * (c * c)
  }

  lemma ExpandsMore(x: real, deviation: real, c: real, n: real, sum: real, squares: real)
    requires Expands(deviation, c, n, sum, squares)
    ensures Expands(Square(x - c) + deviation, c, n + 1.0, x + sum, Square(x) + squares)
  {
    assert (x - c) * (x - c) == x * x - 2.0 * c * x + c * c;
    assert 2.0 * c * (x + sum) == 2.0 * c * x + 2.0 * c * sum;
    assert (n + 1.0) * (c * c) == n * (c * c) + c * c;
  }

  lemma {:induction false} DeviationExpanded(xs: seq<real>, c: real)
    ensures Expands(Deviation(xs, c), c, |xs| as real, Sum(xs), SumSquares(xs))
  {
    if xs != [] {
      hide Expands, Square;
      DeviationExpanded(xs[1..], c);
      ExpandsMore(xs[0], Deviation(xs[1..], c), c, |xs[1..]| as real, Sum(xs[1..]), SumSquares(xs[1..]));
      assert |xs| as real == |xs[1..]| as real + 1.0;
    }
  }

  /** `mu` and `m2` are the mean of `xs` and the sum of squared deviations from it. */
  ghost predicate Describes(xs: seq<real>, mu: real, m2: real)
  {
    && |xs| as real * mu == Sum(xs)
    && m2 == Deviation(xs, mu)
    && (xs == [] ==> mu == 0.0)
  }

  /** The statistics of 1, 2, 3 and 4: mean 5/2, sum 10, variance 5/4, sample variance 5/3. */
  lemma DescribesFour()
    ensures Describes([1.0, 2.0, 3.0, 4.0], 2.5, 5.0) && Sum([1.0, 2.0, 3.0, 4.0]) == 10.0
  {
    var xs := [1.0, 2.0, 3.0, 4.0];
    assert xs[1..] == [2.0, 3.0, 4.0] && xs[1..][1..] == [3.0, 4.0] && xs[1..][1..][1..] == [4.0];
    assert Sum([4.0]) == 4.0 && Sum([3.0, 4.0]) == 7.0 && Sum([2.0, 3.0, 4.0]) == 9.0;
    assert Deviation([4.0], 2.5) == 2.25 && Deviation([3.0, 4.0], 2.5) == 2.5;
    assert Deviation([2.0, 3.0, 4.0], 2.5) == 2.75;
  }

  /** The same in terms of the moments alone: count, sum and sum of squares. */
  ghost predicate Fits(n: real, sum: real, squares: real, mu: real, m2: real)
  {
    n * mu == sum && m2 == squares - n * (mu * mu)
  }

  lemma DescribesMoments(xs: seq<real>, mu: real, m2: real)
    ensures Describes(xs, mu, m2) <==> Fits(|xs| as real, Sum(xs), SumSquares(xs), mu, m2) && (xs == [] ==> mu == 0.0)
  {
    hide Expands, Fits, Sum, SumSquares, Deviation;
    DeviationExpanded(xs, mu);
    ScalarMoments(|xs| as real, Sum(xs), SumSquares(xs), Deviation(xs, mu), mu, m2);
  }

  lemma ScalarMoments(n: real, sum: real, squares: real, deviation: real, mu: real, m2: real)
    requires Expands(deviation, mu, n, sum, squares)
    ensures n * mu == sum && m2 == deviation <==> Fits(n, sum, squares, mu, m2)
  {
    if n * mu == sum {
      assert mu * (n * mu) == n * (mu * mu);
    }
  }

  lemma {:induction false} SumPermuted(xs: seq<real>, ys: seq<real>)
    requires multiset(xs) == multiset(ys)
    ensures Sum(xs) == Sum(ys) && SumSquares(xs) == SumSquares(ys)
    decreases |xs|
  {
    if xs == [] {
      assert |multiset(xs)| == |xs| && |multiset(ys)| == |ys|;
    } else {
      hide *;
      var n := |xs| - 1;
      var i := FindLast(xs, ys);
      SumPermuted(xs[..n], ys[..i] + ys[i + 1..]);
      SumAt(xs, n);
      SumAt(ys, i);
      SumAppend(ys[..i], ys[i + 1..]);
      SumAppend(xs[..n], xs[n + 1..]);
      assert xs[..n] + xs[n + 1..] == xs[..n];
    }
  }

  lemma SumCons(x: real, xs: seq<real>)
    ensures Sum([x] + xs) == x + Sum(xs) && SumSquares([x] + xs) == Square(x) + SumSquares(xs)
  {
    assert ([x] + xs)[1..] == xs;
  }

  lemma SumAt(xs: seq<real>, i: nat)
    requires i < |xs|
    ensures Sum(xs) == Sum(xs[..i]) + xs[i] + Sum(xs[i + 1..])
    ensures SumSquares(xs) == SumSquares(xs[..i]) + Square(xs[i]) + SumSquares(xs[i + 1..])
  {
    hide *;
    var rest := [xs[i]] + xs[i + 1..];
    assert xs == xs[..i] + rest;
    SumAppend(xs[..i], rest);
    SumCons(xs[i], xs[i + 1..]);
  }

  /** The description is determined by the multiset of values, so no merge order can change it. */
  lemma DescriptionUnique(xs: seq<real>, ys: seq<real>, mu: real, m2: real, mu': real, m2': real)
    requires multiset(xs) == multiset(ys) && Describes(xs, mu, m2) && Describes(ys, mu', m2')
    ensures |xs| == |ys| && mu == mu' && m2 == m2'
  {
    assert |multiset(xs)| == |xs| && |multiset(ys)| == |ys|;
    SumPermuted(xs, ys);
    DescribesMoments(xs, mu, m2);
    DescribesMoments(ys, mu', m2');
    if xs != [] { FitsUnique(|xs| as real, Sum(xs), SumSquares(xs), mu, m2, mu', m2'); }
  }

  lemma FitsUnique(n: real, sum: real, squares: real, mu: real, m2: real, mu': real, m2': real)
    requires n > 0.0 && Fits(n, sum, squares, mu, m2) && Fits(n, sum, squares, mu', m2')
    ensures mu == mu' && m2 == m2'
  {
    Cancel(n, mu, mu');
  }

  lemma Cancel(n: real, a: real, b: real)
    requires n > 0.0 && n * a == n * b
    ensures a == b
  {
  }

  // ----- adding one value

  /** With `v = mu + (n + 1) q` the new sum of squares splits as the code computes it. */
  lemma MergeAlgebra(n: real, mu: real, q: real)
    ensures var v := mu + (n + 1.0) * q;
            (n + 1.0) * q * (v - (mu + q)) == v * v - (n + 1.0) * ((mu + q) * (mu + q)) + n * (mu * mu)
  {
    var k := n + 1.0;
    var v := mu + k * q;
    var kq, mq, qq := k * q, mu * q, q * q;
    assert v * v == mu * mu + 2.0 * (k * mq) + kq * kq;
    assert (mu + q) * (mu + q) == mu * mu + 2.0 * mq + qq;
    assert k * ((mu + q) * (mu + q)) == k * (mu * mu) + 2.0 * (k * mq) + k * qq;
    assert k * (mu * mu) == n * (mu * mu) + mu * mu;
    assert kq * (kq - q) == kq * kq - k * qq;
  }

  /** `m2` plus the product of the deviations from the old and from the new mean. */
  function Grow(m2: real, before: real, after: real): real
  {
    m2 + before * after
  }

  lemma FitsOneMore(n: int, sum: real, squares: real, mu: real, m2: real, v: real)
    requires n >= 0 && Fits(n as real, sum, squares, mu, m2)
    ensures var mu' := mu + (v - mu) / (n + 1) as real;
            Fits((n + 1) as real, sum + v, squares + v * v, mu', Grow(m2, v - mu, v - mu'))
  {
    var k := (n + 1) as real;
    assert k == n as real + 1.0;
    assert k * ((v - mu) / k) == v - mu;
    FitsOneMoreBy(n as real, sum, squares, mu, m2, v, (v - mu) / k);
  }

  lemma FitsOneMoreBy(n: real, sum: real, squares: real, mu: real, m2: real, v: real, q: real)
    requires n >= 0.0 && Fits(n, sum, squares, mu, m2) && (n + 1.0) * q == v - mu
    ensures Fits(n + 1.0, sum + v, squares + v * v, mu + q, Grow(m2, v - mu, v - (mu + q)))
  {
    assert (n + 1.0) * (mu + q) == (n + 1.0) * mu + (n + 1.0) * q;
    assert (n + 1.0) * mu == n * mu + mu;
    MergeAlgebra(n, mu, q);
  }

  // ----- merging two counters

  /** All three ways to compute the merged mean give the weighted mean. */
  lemma MeanBranches(n1: real, n2: real, mu1: real, mu2: real)
    requires n1 > 0.0 && n2 > 0.0
    ensures var n, delta := n1 + n2, mu2 - mu1;
            var mean := (mu1 * n1 + mu2 * n2) / n;
            && mean == mu1 + delta * n2 / n
            && mean == mu2 - delta * n1 / n
            && n * mean == n1 * mu1 + n2 * mu2
  {
    var n, delta := n1 + n2, mu2 - mu1;
    var total := mu1 * n1 + mu2 * n2;
    var mean := total / n;
    assert n * mean == total;
    var a, b := delta * n2 / n, delta * n1 / n;
    assert n * a == delta * n2 && n * b == delta * n1;
    assert n * (mu1 + a) == total by {
      assert n * (mu1 + a) == n * mu1 + n * a;
      assert n * mu1 == n1 * mu1 + n2 * mu1;
      assert delta * n2 == mu2 * n2 - mu1 * n2;
    }
    assert n * (mu2 - b) == total by {
      assert n * (mu2 - b) == n * mu2 - n * b;
      assert n * mu2 == n1 * mu2 + n2 * mu2;
      assert delta * n1 == mu2 * n1 - mu1 * n1;
    }
    Cancel(n, mean, mu1 + a);
    Cancel(n, mean, mu2 - b);
  }

  /** `n (n1 mu1^2 + n2 mu2^2) - (n1 mu1 + n2 mu2)^2 = n1 n2 (mu2 - mu1)^2` */
  lemma SpreadAlgebra(n1: real, n2: real, a: real, b: real)
    ensures (n1 + n2) * (n1 * (a * a) + n2 * (b * b)) - (n1 * a + n2 * b) * (n1 * a + n2 * b) ==
              (b - a) * (b - a) * n1 * n2
  {
    var p, q, aa, ab, bb := n1 * n1, n1 * n2, a * a, a * b, b * b;
    assert (n1 + n2) * (n1 * aa + n2 * bb) == p * aa + q * bb + q * aa + n2 * n2 * bb by {
      assert n1 * (n1 * aa) == p * aa && n1 * (n2 * bb) == q * bb;
      assert n2 * (n1 * aa) == q * aa && n2 * (n2 * bb) == n2 * n2 * bb;
    }
    var x, y := n1 * a, n2 * b;
    assert (x + y) * (x + y) == x * x + 2.0 * (x * y) + y * y;
    assert x * x == p * aa && x * y == q * ab && y * y == n2 * n2 * bb;
    assert (b - a) * (b - a) == bb - 2.0 * ab + aa;
    assert (bb - 2.0 * ab + aa) * n1 * n2 == (bb - 2.0 * ab + aa) * q;
    assert (bb - 2.0 * ab + aa) * q == q * bb - 2.0 * (q * ab) + q * aa;
  }

  function MergedSquares(n1: real, n2: real, mu1: real, mu2: real, m1: real, m2: real): real
    requires n1 + n2 > 0.0
  {
    var delta := mu2 - mu1;
    m1 + (m2 + delta * delta * n1 * n2 / (n1 + n2))
  }

  lemma FitsBoth(
      n1: real, s1: real, q1: real, mu1: real, m1: real, n2: real, s2: real, q2: real, mu2: real, m2: real,
      mean: real)
    requires n1 > 0.0 && n2 > 0.0 && Fits(n1, s1, q1, mu1, m1) && Fits(n2, s2, q2, mu2, m2)
    requires (n1 + n2) * mean == n1 * mu1 + n2 * mu2
    ensures Fits(n1 + n2, s1 + s2, q1 + q2, mean, MergedSquares(n1, n2, mu1, mu2, m1, m2))
  {
    SpreadOverMean(n1, n2, mu1, mu2, mean);
  }

  lemma SpreadOverMean(n1: real, n2: real, mu1: real, mu2: real, mean: real)
    requires n1 > 0.0 && n2 > 0.0 && (n1 + n2) * mean == n1 * mu1 + n2 * mu2
    ensures n1 * (mu1 * mu1) + n2 * (mu2 * mu2) - (n1 + n2) * (mean * mean) ==
              (mu2 - mu1) * (mu2 - mu1) * n1 * n2 / (n1 + n2)
  {
    var n := n1 + n2;
    var product := (mu2 - mu1) * (mu2 - mu1) * n1 * n2;
    var s := product / n;
    assert n * s == product;
    SpreadAlgebra(n1, n2, mu1, mu2);
    var w := n1 * (mu1 * mu1) + n2 * (mu2 * mu2);
    var mm := mean * mean;
    SquareOfProduct(n, mean);
    assert n * (w - n * mm) == n * w - n * (n * mm);
    Cancel(n, w - n * mm, s);
  }

  lemma SquareOfProduct(n: real, m: real)
    ensures n * (n * (m * m)) == (n * m) * (n * m)
  {
  }

  /** The mean of both samples. */
  function WeightedMean(n1: int, n2: int, mu1: real, mu2: real): (mean: real)
    requires n1 > 0 && n2 > 0
  {
    (mu1 * n1 as real + mu2 * n2 as real) / (n1 + n2) as real
  }

  lemma WeightedMeanIsMean(n1: int, n2: int, mu1: real, mu2: real)
    requires n1 > 0 && n2 > 0
    ensures (n1 + n2) as real * WeightedMean(n1, n2, mu1, mu2) == n1 as real * mu1 + n2 as real * mu2
  {
    MeanBranches(n1 as real, n2 as real, mu1, mu2);
  }

  /** Three ways to compute the mean, chosen by the sizes of the two samples. */
  method MergedMean(n1: int, n2: int, mu1: real, mu2: real) returns (mean: real)
    requires n1 > 0 && n2 > 0
    ensures mean == WeightedMean(n1, n2, mu1, mu2)
  {
    MeanBranches(n1 as real, n2 as real, mu1, mu2);
    var delta := mu2 - mu1;
    if n2 * 10 < n1 {
      mean := mu1 + delta * n2 as real / (n1 + n2) as real;
    } else if n1 * 10 < n2 {
      mean := mu2 - delta * n1 as real / (n1 + n2) as real;
    } else {
      mean := (mu1 * n1 as real + mu2 * n2 as real) / (n1 + n2) as real;
    }
  }

  // ----- the running summary

  /** Count, mean and sum of squared deviations. */
  datatype Summary = Summary(n: int, mu: real, m2: real)

  function Add(s: Summary, value: real): Summary
    requires s.n >= 0
  {
    var delta := value - s.mu;
    var mu := s.mu + delta / (s.n + 1) as real;
    Summary(s.n + 1, mu, Grow(s.m2, delta, value - mu))
  }

  function Combine(a: Summary, b: Summary): Summary
    requires a.n >= 0 && b.n >= 0
  {
    if a.n == 0 then b
    else if b.n == 0 then a
    else
      Summary(a.n + b.n, WeightedMean(a.n, b.n, a.mu, b.mu),
              MergedSquares(a.n as real, b.n as real, a.mu, b.mu, a.m2, b.m2))
  }

  /** One value after the other. */
  ghost function Summarize(xs: seq<real>): (s: Summary)
    ensures s.n == |xs|
  {
    if xs == [] then Summary(0, 0.0, 0.0) else Add(Summarize(xs[..|xs| - 1]), xs[|xs| - 1])
  }

  lemma SummarizeSnoc(xs: seq<real>, value: real)
    ensures Summarize(xs + [value]) == Add(Summarize(xs), value)
  {
    assert (xs + [value])[..|xs|] == xs;
  }

  lemma FitsAdd(s: Summary, sum: real, squares: real, v: real)
    requires s.n >= 0 && Fits(s.n as real, sum, squares, s.mu, s.m2)
    ensures var t := Add(s, v); Fits(t.n as real, sum + v, squares + v * v, t.mu, t.m2)
  {
    hide Fits, Grow;
    FitsOneMore(s.n, sum, squares, s.mu, s.m2, v);
  }

  /** The one-pass update computes the mean and the squared deviations from it. */
  lemma {:induction false} SummaryDescribes(xs: seq<real>)
    ensures var s := Summarize(xs); Describes(xs, s.mu, s.m2)
  {
    if xs == [] {
      return;
    }
    hide Fits, Add, Describes, SumSquares, Sum;
    var front, v := xs[..|xs| - 1], xs[|xs| - 1];
    SummaryDescribes(front);
    var s, s' := Summarize(front), Summarize(xs);
    DescribesMoments(front, s.mu, s.m2);
    FitsAdd(s, Sum(front), SumSquares(front), v);
    MomentsSnoc(front, v);
    assert front + [v] == xs;
    DescribesMoments(xs, s'.mu, s'.m2);
  }

  lemma MomentsSnoc(xs: seq<real>, v: real)
    ensures Sum(xs + [v]) == Sum(xs) + v && SumSquares(xs + [v]) == SumSquares(xs) + v * v
  {
    SumAppend(xs, [v]);
    assert [v][1..] == [];
  }

  /** Merging two summaries is summarizing the concatenation. */
  lemma CombineIsConcat(xs: seq<real>, ys: seq<real>)
    ensures Combine(Summarize(xs), Summarize(ys)) == Summarize(xs + ys)
  {
    var a, b, c := Summarize(xs), Summarize(ys), Summarize(xs + ys);
    if xs == [] {
      assert xs + ys == ys;
    } else if ys == [] {
      assert xs + ys == xs;
    } else {
      SummaryDescribes(xs);
      SummaryDescribes(ys);
      SummaryDescribes(xs + ys);
      DescribesMoments(xs, a.mu, a.m2);
      DescribesMoments(ys, b.mu, b.m2);
      DescribesMoments(xs + ys, c.mu, c.m2);
      SumAppend(xs, ys);
      var m := Combine(a, b);
      CombineFits(a, b, Sum(xs), SumSquares(xs), Sum(ys), SumSquares(ys));
      FitsUnique(|xs + ys| as real, Sum(xs + ys), SumSquares(xs + ys), m.mu, m.m2, c.mu, c.m2);
    }
  }

  lemma CombineFits(a: Summary, b: Summary, s1: real, q1: real, s2: real, q2: real)
    requires a.n > 0 && b.n > 0 && Fits(a.n as real, s1, q1, a.mu, a.m2) && Fits(b.n as real, s2, q2, b.mu, b.m2)
    ensures var m := Combine(a, b); Fits((a.n + b.n) as real, s1 + s2, q1 + q2, m.mu, m.m2)
  {
    hide Fits, WeightedMean, MergedSquares;
    WeightedMeanIsMean(a.n, b.n, a.mu, b.mu);
    assert (a.n + b.n) as real == a.n as real + b.n as real;
    FitsBoth(a.n as real, s1, q1, a.mu, a.m2, b.n as real, s2, q2, b.mu, b.m2, WeightedMean(a.n, b.n, a.mu, b.mu));
  }

  /** The summary of any merge order of the same values is the same. */
  lemma SummaryPermuted(xs: seq<real>, ys: seq<real>)
    requires multiset(xs) == multiset(ys)
    ensures Summarize(xs) == Summarize(ys)
  {
    SummaryDescribes(xs);
    SummaryDescribes(ys);
    DescriptionUnique(xs, ys, Summarize(xs).mu, Summarize(xs).m2, Summarize(ys).mu, Summarize(ys).m2);
  }

  // ----- extreme values

  datatype Extreme = MinusInfinity | Finite(x: real) | PlusInfinity

  predicate Less(a: Extreme, b: Extreme)
  {
    match (a, b)
    case (MinusInfinity, _) => b != MinusInfinity
    case (_, PlusInfinity) => a != PlusInfinity
    case (Finite(x), Finite(y)) => x < y
    case _ => false
  }

  function Maximum(a: Extreme, b: Extreme): Extreme
  {
    if Less(a, b) then b else a
  }

  function Minimum(a: Extreme, b: Extreme): Extreme
  {
    if Less(b, a) then b else a
  }

  /** `hi` is the greatest of `xs`, or minus infinity if there is none. */
  ghost predicate IsMaximum(xs: seq<real>, hi: Extreme)
  {
    if xs == [] then hi == MinusInfinity
    else hi.Finite? && hi.x in xs && forall x :: x in xs ==> x <= hi.x
  }

  ghost predicate IsMinimum(xs: seq<real>, lo: Extreme)
  {
    if xs == [] then lo == PlusInfinity
    else lo.Finite? && lo.x in xs && forall x :: x in xs ==> lo.x <= x
  }

  lemma ExtremesOfBoth(xs: seq<real>, ys: seq<real>, hi: Extreme, lo: Extreme, hi': Extreme, lo': Extreme)
    requires xs != [] && ys != []
    requires IsMaximum(xs, hi) && IsMinimum(xs, lo) && IsMaximum(ys, hi') && IsMinimum(ys, lo')
    ensures IsMaximum(xs + ys, Maximum(hi, hi')) && IsMinimum(xs + ys, Minimum(lo, lo'))
  {
    assert forall x :: x in xs + ys <==> x in xs || x in ys;
  }

  lemma ExtremesOfMore(xs: seq<real>, value: real, hi: Extreme, lo: Extreme)
    requires IsMaximum(xs, hi) && IsMinimum(xs, lo)
    ensures IsMaximum(xs + [value], Maximum(hi, Finite(value))) && IsMinimum(xs + [value], Minimum(lo, Finite(value)))
  {
    assert forall x :: x in xs + [value] <==> x in xs || x == value;
  }

  lemma MeanIsQuotient(n: real, mu: real, sum: real)
    requires n > 0.0 && n * mu == sum
    ensures mu == sum / n
  {
    assert n * (sum / n) == sum;
    Cancel(n, mu, sum / n);
  }

  lemma VarianceIsMean(xs: seq<real>, mu: real, m2: real, d: real)
    requires xs != [] && mu == Summarize(xs).mu && m2 == Summarize(xs).m2 && d > 0.0
    ensures m2 / d * d == Deviation(xs, Sum(xs) / |xs| as real)
  {
    hide Summarize, Deviation, Sum;
    SummaryDescribes(xs);
    MeanIsQuotient(|xs| as real, mu, Sum(xs));
    DivideMultiply(m2, d);
  }

  lemma DivideMultiply(a: real, d: real)
    requires d > 0.0
    ensures a / d * d == a
  {
  }

  // ----- the counter

  datatype StatError = TypeError

  class StatCounter {

    var n: int
    var mu: real
    var m2: real
    var maxValue: Extreme
    var minValue: Extreme

    /** Everything merged so far. */
    ghost var values: seq<real>

    ghost predicate Valid()
      reads this
    {
      && Summary(n, mu, m2) == Summarize(values)
      && IsMaximum(values, maxValue) && IsMinimum(values, minValue)
    }

    constructor (xs: seq<real>)
      ensures Valid() && values == xs
    {
      n, mu, m2 := 0, 0.0, 0.0;
      maxValue, minValue := MinusInfinity, PlusInfinity;
      values := [];
      new;
      for i := 0 to |xs|
        invariant Valid() && values == xs[..i]
      {
        Merge(xs[i]);
      }
    }

    method Merge(value: real)
      requires Valid()
      modifies this
      ensures Valid() && values == old(values) + [value]
      ensures n == |values| && Describes(values, mu, m2)
    {
      SummaryDescribes(values + [value]);
      hide Describes;
      hide Summarize, Grow, IsMaximum, IsMinimum, Maximum, Minimum;
      SummarizeSnoc(values, value);
      ExtremesOfMore(values, value, maxValue, minValue);
      var delta := value - mu;
      n := n + 1;
      mu := mu + delta / n as real;
      m2 := Grow(m2, delta, value - mu);
      maxValue := Maximum(maxValue, Finite(value));
      minValue := Minimum(minValue, Finite(value));
      values := values + [value];
    }

    /**
     Merging another counter.  Given the counter itself, the code hands a counter to `merge`,
     which expects a number: the call fails and nothing has changed.
     */
    method MergeStats(other: StatCounter) returns (error: Option<StatError>)
      requires Valid() && other.Valid()
      modifies this
      ensures Valid()
      ensures error.Some? <==> other == this
      ensures error.Some? ==> values == old(values) && n == old(n) && mu == old(mu) && m2 == old(m2)
      ensures error.None? ==> values == old(values) + other.values
      ensures n == |values| && Describes(values, mu, m2)
    {
      hide Describes;
      SummaryDescribes(values);
      SummaryDescribes(values + other.values);
      hide Summarize, WeightedMean;
      if other == this {
        return Some(TypeError);
      }
      error := None;
      if n == 0 {
        mu, m2, n := other.mu, other.m2, other.n;
        maxValue, minValue := other.maxValue, other.minValue;
        values := values + other.values;
        assert values == other.values;
        assert IsMaximum(values, maxValue) && IsMinimum(values, minValue);
      } else if other.n != 0 {
        MergeNonEmpty(other);
      } else {
        assert values + other.values == values;
      }
    }

    method MergeNonEmpty(other: StatCounter)
      requires Valid() && other.Valid() && other != this && n != 0 && other.n != 0
      modifies this
      ensures Valid() && values == old(values) + other.values
    {
      hide Summarize, WeightedMean, MergedSquares, IsMaximum, IsMinimum, Maximum, Minimum;
      CombineIsConcat(values, other.values);
      ExtremesOfBoth(values, other.values, maxValue, minValue, other.maxValue, other.minValue);
      var squares := MergedSquares(n as real, other.n as real, mu, other.mu, m2, other.m2);
      var mean := MergedMean(n, other.n, mu, other.mu);
      mu := mean;
      maxValue := Maximum(maxValue, other.maxValue);
      minValue := Minimum(minValue, other.minValue);
      m2 := squares;
      n := n + other.n;
      values := values + other.values;
    }

    method Total() returns (s: real)
      requires Valid()
      ensures s == Sum(values)
    {
      SummaryDescribes(values);
      hide Summarize, Deviation, Sum;
      s := n as real * mu;
    }

    method Max() returns (hi: Extreme)
      requires Valid()
      ensures hi == MinusInfinity <==> values == []
      ensures values != [] ==> hi.Finite? && hi.x in values && forall x :: x in values ==> x <= hi.x
    {
      hide Summarize;
      hi := maxValue;
    }

    method Min() returns (lo: Extreme)
      requires Valid()
      ensures lo == PlusInfinity <==> values == []
      ensures values != [] ==> lo.Finite? && lo.x in values && forall x :: x in values ==> lo.x <= x
    {
      hide Summarize;
      lo := minValue;
    }

    /** `None` is NaN. */
    method Variance() returns (v: Option<real>)
      requires Valid()
      ensures v.None? <==> values == []
      ensures v.Some? ==> v.value * |values| as real == Deviation(values, Sum(values) / |values| as real)
    {
      hide Summarize, Deviation, Sum;
      if n == 0 { return None; }
      v := Some(m2 / n as real);
      VarianceIsMean(values, mu, m2, n as real);
    }

    method SampleVariance() returns (v: Option<real>)
      requires Valid()
      ensures v.None? <==> |values| <= 1
      ensures v.Some? ==> v.value * (|values| - 1) as real == Deviation(values, Sum(values) / |values| as real)
    {
      hide Summarize, Deviation, Sum;
      if n <= 1 { return None; }
      v := Some(m2 / (n - 1) as real);
      VarianceIsMean(values, mu, m2, (n - 1) as real);
    }
  }

  // ----- merge trees

  datatype MergeTree = Leaf(xs: seq<real>) | Node(left: MergeTree, right: MergeTree)

  ghost function Leaves(t: MergeTree): seq<real>
  {
    match t
    case Leaf(xs) => xs
    case Node(l, r) => Leaves(l) + Leaves(r)
  }

  /** Any tree of merges describes the values at its leaves. */
  method Evaluate(t: MergeTree) returns (c: StatCounter)
    ensures fresh(c) && c.Valid() && c.values == Leaves(t)
    ensures c.n == |Leaves(t)| && Describes(Leaves(t), c.mu, c.m2)
  {
    hide Describes, Summarize, IsMaximum, IsMinimum;
    match t {
      case Leaf(xs) =>
        c := new StatCounter(xs);
      case Node(l, r) =>
        c := Evaluate(l);
        var d := Evaluate(r);
        var error := c.MergeStats(d);
    }
    SummaryDescribes(c.values);
  }

  /** `stats()`: one counter per partition, merged from left to right; `None` without partitions. */
  method Stats(parts: seq<seq<real>>) returns (c: StatCounter?)
    ensures c == null <==> parts == []
    ensures c != null ==> fresh(c) && c.Valid() && c.values == Flatten(parts)
    ensures c != null ==> c.n == |Flatten(parts)| && Describes(Flatten(parts), c.mu, c.m2)
  {
    hide Describes, Summarize, IsMaximum, IsMinimum;
    if parts == [] { return null; }
    var counter := new StatCounter(parts[0]);
    FlattenOne(parts[0]);
    assert parts[..1] == [parts[0]];
    for i := 1 to |parts|
      invariant fresh(counter) && counter.Valid() && counter.values == Flatten(parts[..i])
    {
      var next := new StatCounter(parts[i]);
      FlattenUpto(parts, i);
      var error := counter.MergeStats(next);
    }
    assert parts[..|parts|] == parts;
    SummaryDescribes(counter.values);
    c := counter;
  }
}
