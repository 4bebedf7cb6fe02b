/**
 `randomSplit`: one range sampler per weight.  All samplers of a partition replay the same
 sequence of draws, so the cumulative bounds decide which split a record goes to.
 */
module RandomSplitting {

  import opened Sampling
  import opened Sequences
  import opened Wrappers

  // ----- the bounds

  /** Starts at 0 and ends at 1. */
  ghost predicate UnitBounds(c: seq<real>)
  {
    |c| >= 1 && c[0] == 0.0 && c[|c| - 1] == 1.0
  }

  function Share(part: real, total: real): real
    requires total != 0.0
  {
    part / total
  }

  /** The share of the total that the first weights have, for every number of weights. */
  ghost function Normalized(ws: seq<real>): (c: seq<real>)
    requires ws == [] || Sum(ws) != 0.0
    ensures |c| == |ws| + 1
  {
    if ws == [] then [0.0] else seq(|ws| + 1, i requires 0 <= i <= |ws| => Share(Sum(ws[..i]), Sum(ws)))
  }

  lemma SumUpto(ws: seq<real>, j: nat)
    requires j < |ws|
    ensures Sum(ws[..j + 1]) == Sum(ws[..j]) + ws[j]
  {
    assert ws[..j + 1] == ws[..j] + [ws[j]];
    SumSnoc(ws[..j], ws[j]);
  }

  /** The shares grow by the normalized weights, from 0 to 1. */
  lemma NormalizedSteps(ws: seq<real>)
    requires ws == [] || Sum(ws) != 0.0
    ensures Normalized(ws)[0] == 0.0 && (ws != [] ==> UnitBounds(Normalized(ws)))
    ensures forall i :: 0 <= i < |ws| ==> Normalized(ws)[i + 1] == Normalized(ws)[i] + Share(ws[i], Sum(ws))
  {
    if ws != [] {
      assert ws[..0] == [] && ws[..|ws|] == ws;
      ShareBounds(Sum(ws));
      hide Share;
      forall i | 0 <= i < |ws| ensures Normalized(ws)[i + 1] == Normalized(ws)[i] + Share(ws[i], Sum(ws)) {
        NormalizedStep(ws, i);
      }
    }
  }

  /** Without a division: bound `i` times the total is the sum of the first `i` weights. */
  lemma NormalizedTimesTotal(ws: seq<real>, i: nat)
    requires ws != [] && Sum(ws) != 0.0 && i <= |ws|
    ensures Normalized(ws)[i] * Sum(ws) == Sum(ws[..i])
  {
    hide Sum, Share;
    ShareTimesTotal(Sum(ws[..i]), Sum(ws));
  }

  lemma ShareTimesTotal(part: real, total: real)
    requires total != 0.0
    ensures Share(part, total) * total == part
  {
  }

  lemma NormalizedStep(ws: seq<real>, i: nat)
    requires i < |ws| && Sum(ws) != 0.0
    ensures Normalized(ws)[i + 1] == Normalized(ws)[i] + Share(ws[i], Sum(ws))
  {
    hide Sum, Share;
    SumUpto(ws, i);
    SumOfShares(Sum(ws[..i]), ws[i], Sum(ws));
  }

  /** `float(sum(weights))` */
  method SumWeights(ws: seq<real>) returns (s: real)
    ensures s == Sum(ws)
  {
    s := 0.0;
    assert ws[..0] == [];
    for i := 0 to |ws|
      invariant s == Sum(ws[..i])
    {
      SumUpto(ws, i);
      s := s + ws[i];
    }
    assert ws[..|ws|] == ws;
  }

  /** `cweights` */
  method Cumulative(ws: seq<real>) returns (c: Option<seq<real>>)
    ensures c.None? <==> ws != [] && Sum(ws) == 0.0
    ensures c.Some? ==> c.value == Normalized(ws)
  {
    var s := SumWeights(ws);
    if ws != [] && s == 0.0 { return None; }
    NormalizedSteps(ws);
    hide Sum, Normalized, UnitBounds, Share;
    var cs := [0.0];
    for i := 0 to |ws|
      invariant cs == Normalized(ws)[..i + 1]
    {
      cs := cs + [cs[i] + Share(ws[i], s)];
    }
    c := Some(cs);
  }

  lemma ShareBounds(t: real)
    requires t != 0.0
    ensures Share(0.0, t) == 0.0 && Share(t, t) == 1.0
  {
    assert t / t * t == t;
    OneFactor(t / t, t);
  }

  lemma OneFactor(q: real, t: real)
    requires t != 0.0 && q * t == t
    ensures q == 1.0
  {
    assert (q - 1.0) * t == 0.0;
  }

  lemma SumOfShares(a: real, b: real, t: real)
    requires t != 0.0
    ensures Share(a, t) + Share(b, t) == Share(a + b, t)
  {
  }

  // ----- how often a draw is selected

  ghost predicate Hit(c: seq<real>, j: nat, u: real)
    requires j + 1 < |c|
  {
    c[j] <= u < c[j + 1]
  }

  /** The bounds pass the draw downwards. */
  ghost predicate Drop(c: seq<real>, j: nat, u: real)
    requires j + 1 < |c|
  {
    c[j + 1] <= u < c[j]
  }

  ghost function Hits(c: seq<real>, n: nat, u: real): nat
    requires n < |c|
  {
    if n == 0 then 0 else Hits(c, n - 1, u) + if Hit(c, n - 1, u) then 1 else 0
  }

  ghost function Drops(c: seq<real>, n: nat, u: real): nat
    requires n < |c|
  {
    if n == 0 then 0 else Drops(c, n - 1, u) + if Drop(c, n - 1, u) then 1 else 0
  }

  /** Every split but one that selects a draw is paid for by a step down across it. */
  lemma {:induction false} HitsAndDrops(c: seq<real>, n: nat, u: real)
    requires n < |c| && c[0] == 0.0 && u >= 0.0
    ensures Hits(c, n, u) == Drops(c, n, u) + if u < c[n] then 1 else 0
  {
    if n > 0 { HitsAndDrops(c, n - 1, u); }
  }

  lemma {:induction false} DropsNone(c: seq<real>, n: nat, u: real)
    requires n < |c|
    ensures Drops(c, n, u) == 0 <==> forall j :: 0 <= j < n ==> !Drop(c, j, u)
  {
    if n > 0 { DropsNone(c, n - 1, u); }
  }

  /** The bounds never step down inside `[0, 1)`. */
  ghost predicate NoStepDown(c: seq<real>)
  {
    forall j :: 0 <= j < |c| - 1 ==> c[j] <= c[j + 1] || c[j] <= 0.0 || c[j + 1] >= 1.0
  }

  /** Exactly one split selects the draw. */
  ghost predicate HitOnce(c: seq<real>, u: real)
    requires |c| >= 1
  {
    Hits(c, |c| - 1, u) == 1
  }

  ghost predicate EveryDrawHitOnce(c: seq<real>)
    requires |c| >= 1
  {
    forall u :: 0.0 <= u < 1.0 ==> HitOnce(c, u)
  }

  lemma HitOnceIff(c: seq<real>, u: real)
    requires UnitBounds(c) && 0.0 <= u < 1.0
    ensures HitOnce(c, u) <==> forall j :: 0 <= j < |c| - 1 ==> !Drop(c, j, u)
  {
    HitsAndDrops(c, |c| - 1, u);
    DropsNone(c, |c| - 1, u);
  }

  /** Every draw is selected by exactly one split just when the bounds never step down inside `[0, 1)`. */
  lemma ExactlyOneSplitIff(c: seq<real>)
    requires UnitBounds(c)
    ensures EveryDrawHitOnce(c) <==> NoStepDown(c)
  {
    hide HitOnce;
    forall u | 0.0 <= u < 1.0 ensures HitOnce(c, u) <==> forall j :: 0 <= j < |c| - 1 ==> !Drop(c, j, u) {
      HitOnceIff(c, u);
    }
    if !NoStepDown(c) {
      var j :| 0 <= j < |c| - 1 && !(c[j] <= c[j + 1] || c[j] <= 0.0 || c[j + 1] >= 1.0);
      var u := if c[j + 1] < 0.0 then 0.0 else c[j + 1];
      assert 0.0 <= u < 1.0 && Drop(c, j, u);
      assert !HitOnce(c, u);
    }
  }

  /**
   No weight takes the partial sums back from above nothing to below the total: a condition on
   the weights alone.
   */
  ghost predicate NeverStepsBack(ws: seq<real>)
  {
    var t := Sum(ws);
    forall j :: 0 <= j < |ws| ==>
      if t > 0.0 then ws[j] >= 0.0 || Sum(ws[..j]) <= 0.0 || Sum(ws[..j + 1]) >= t
      else ws[j] <= 0.0 || Sum(ws[..j]) >= 0.0 || Sum(ws[..j + 1]) <= t
  }

  /** Dividing by the total, of either sign, turns the condition on the weights into that on the bounds. */
  lemma StepsBackIff(ws: seq<real>)
    requires ws != [] && Sum(ws) != 0.0
    ensures NeverStepsBack(ws) <==> NoStepDown(Normalized(ws))
  {
    hide Sum, Share;
    var c, t := Normalized(ws), Sum(ws);
    forall j | 0 <= j < |ws|
      ensures c[j] <= c[j + 1] || c[j] <= 0.0 || c[j + 1] >= 1.0 <==>
              if t > 0.0 then ws[j] >= 0.0 || Sum(ws[..j]) <= 0.0 || Sum(ws[..j + 1]) >= t
              else ws[j] <= 0.0 || Sum(ws[..j]) >= 0.0 || Sum(ws[..j + 1]) <= t
    {
      SumUpto(ws, j);
      StepCases(Sum(ws[..j]), Sum(ws[..j + 1]), ws[j], t);
    }
  }

  lemma StepCases(a: real, b: real, w: real, t: real)
    requires t != 0.0 && b == a + w
    ensures Share(a, t) <= Share(b, t) || Share(a, t) <= 0.0 || Share(b, t) >= 1.0 <==>
            if t > 0.0 then w >= 0.0 || a <= 0.0 || b >= t else w <= 0.0 || a >= 0.0 || b <= t
  {
    hide Share;
    ShareOrder(a, b, t);
    ShareOrder(a, 0.0, t);
    ShareOrder(t, b, t);
    ShareBounds(t);
  }

  lemma ShareOrder(a: real, b: real, t: real)
    requires t != 0.0
    ensures Share(a, t) <= Share(b, t) <==> if t > 0.0 then a <= b else a >= b
  {
    var q := b / t - a / t;
    assert a / t * t == a && b / t * t == b;
    assert q * t == b - a;
    ProductSign(q, t);
  }

  lemma ProductSign(q: real, t: real)
    requires t != 0.0
    ensures q >= 0.0 <==> if t > 0.0 then q * t >= 0.0 else q * t <= 0.0
  {
  }

  /** Every draw is selected by exactly one split just when the weights never step back. */
  lemma WeightsSplitDrawsIff(ws: seq<real>)
    requires ws != [] && Sum(ws) != 0.0
    ensures EveryDrawHitOnce(Normalized(ws)) <==> NeverStepsBack(ws)
  {
    NormalizedSteps(ws);
    StepsBackIff(ws);
    ExactlyOneSplitIff(Normalized(ws));
  }

  ghost predicate SameSign(ws: seq<real>)
  {
    (forall i :: 0 <= i < |ws| ==> ws[i] >= 0.0) || (forall i :: 0 <= i < |ws| ==> ws[i] <= 0.0)
  }

  /** Weights that are not negative, or all not positive, never step back. */
  lemma SameSignNeverStepsBack(ws: seq<real>)
    requires SameSign(ws) && Sum(ws) != 0.0
    ensures NeverStepsBack(ws)
  {
    if forall i :: 0 <= i < |ws| ==> ws[i] >= 0.0 { SumSign(ws); } else { SumSignNegative(ws); }
  }

  lemma {:induction false} SumSign(ws: seq<real>)
    requires forall i :: 0 <= i < |ws| ==> ws[i] >= 0.0
    ensures Sum(ws) >= 0.0
  {
    if ws != [] { SumSign(ws[1..]); }
  }

  lemma {:induction false} SumSignNegative(ws: seq<real>)
    requires forall i :: 0 <= i < |ws| ==> ws[i] <= 0.0
    ensures Sum(ws) <= 0.0
  {
    if ws != [] { SumSignNegative(ws[1..]); }
  }

  lemma SumOfThree(a: real, b: real, c: real)
    ensures Sum([a]) == a && Sum([a, b]) == a + b && Sum([a, b, c]) == a + b + c
  {
    SumSnoc([], a);
    SumSnoc([a], b);
    SumSnoc([a, b], c);
    assert [] + [a] == [a] && [a] + [b] == [a, b] && [a, b] + [c] == [a, b, c];
  }

  /** The weights 1, -1/2, 1/2 step back: a draw of 3/4 is selected by the first and by the third split. */
  lemma NegativeWeightDuplicates()
    ensures var ws := [1.0, -0.5, 0.5];
            && Sum(ws) == 1.0 && !NeverStepsBack(ws)
            && Normalized(ws) == [0.0, 1.0, 0.5, 1.0] && Hits(Normalized(ws), 3, 0.75) == 2
  {
    var ws := [1.0, -0.5, 0.5];
    assert ws[..0] == [] && ws[..1] == [1.0] && ws[..2] == [1.0, -0.5] && ws[..3] == ws;
    SumOfThree(1.0, -0.5, 0.5);
    var c := Normalized(ws);
    assert c == [0.0 / 1.0, 1.0 / 1.0, 0.5 / 1.0, 1.0 / 1.0];
    assert Hits(c, 1, 0.75) == 1 && Hits(c, 2, 0.75) == 1;
  }

  // ----- randomSplit

  /** What the first `n` splits select from one partition, one after the other. */
  ghost function Chosen<T, S>(gen: Generator<S>, s: S, items: seq<T>, c: seq<real>, n: nat): seq<T>
    requires n < |c|
  {
    if n == 0 then [] else Chosen(gen, s, items, c, n - 1) + Selected(gen, s, items, c[n - 1], c[n])
  }

  /** A new item is chosen as often as its draw is hit. */
  lemma {:induction false} ChosenNext<T, S>(gen: Generator<S>, s: S, items: seq<T>, c: seq<real>, n: nat)
    requires n < |c| && items != []
    ensures multiset(Chosen(gen, s, items, c, n)) ==
              multiset(Chosen(gen, s, items[..|items| - 1], c, n)) +
              multiset{}[items[|items| - 1] := Hits(c, n, Draw(gen, s, |items| - 1))]
  {
    hide Selected, Draw, StateAt;
    if n > 0 {
      ChosenNext(gen, s, items, c, n - 1);
      SelectedNext(gen, s, items, c, n - 1);
    }
  }

  lemma SelectedNext<T, S>(gen: Generator<S>, s: S, items: seq<T>, c: seq<real>, j: nat)
    requires j + 1 < |c| && items != []
    ensures multiset(Selected(gen, s, items, c[j], c[j + 1])) ==
              multiset(Selected(gen, s, items[..|items| - 1], c[j], c[j + 1])) +
              multiset{}[items[|items| - 1] := if Hit(c, j, Draw(gen, s, |items| - 1)) then 1 else 0]
  {
  }

  /** If every draw is hit once, the splits of a partition together hold every item once. */
  lemma {:induction false} ChosenAll<T, S(!new)>(gen: Generator<S>, s: S, items: seq<T>, c: seq<real>)
    requires UnitDraws(gen) && |c| >= 1 && EveryDrawHitOnce(c)
    ensures multiset(Chosen(gen, s, items, c, |c| - 1)) == multiset(items)
    decreases |items|
  {
    hide Selected, StateAt, Chosen, Hits;
    if items == [] {
      ChosenNothing<T, S>(gen, s, c, |c| - 1);
    } else {
      var m := |items| - 1;
      ChosenAll(gen, s, items[..m], c);
      ChosenNext(gen, s, items, c, |c| - 1);
      assert HitOnce(c, Draw(gen, s, m));
      assert items == items[..m] + [items[m]];
    }
  }

  /** Whatever the bounds, no item is lost: a draw is hit at least once. */
  lemma {:induction false} NothingLost<T, S(!new)>(gen: Generator<S>, s: S, items: seq<T>, c: seq<real>)
    requires UnitDraws(gen) && UnitBounds(c)
    ensures multiset(items) <= multiset(Chosen(gen, s, items, c, |c| - 1))
    decreases |items|
  {
    hide Selected, StateAt, Chosen, Hits, Drops;
    if items != [] {
      var m := |items| - 1;
      NothingLost(gen, s, items[..m], c);
      ChosenNext(gen, s, items, c, |c| - 1);
      HitsAndDrops(c, |c| - 1, Draw(gen, s, m));
      assert items == items[..m] + [items[m]];
    }
  }

  /**
   Weights that never step back are exactly those that split a single item correctly whatever
   is drawn; all others can put it into more than one split.
   */
  lemma SplitsIff<T>(ws: seq<real>, x: T)
    requires ws != [] && Sum(ws) != 0.0
    ensures NeverStepsBack(ws) <==>
              forall u :: 0.0 <= u < 1.0 ==> SplitsOne(Normalized(ws), x, u)
  {
    var c := Normalized(ws);
    forall u | 0.0 <= u < 1.0 ensures SplitsOne(c, x, u) <==> HitOnce(c, u) {
      OneItemHits(c, x, u);
    }
    WeightsSplitDrawsIff(ws);
    if !NeverStepsBack(ws) {
      var u :| 0.0 <= u < 1.0 && !HitOnce(c, u);
      assert !SplitsOne(c, x, u);
    }
  }

  /** A single item, whose draw is `u`, ends up in exactly one split. */
  ghost predicate SplitsOne<T>(c: seq<real>, x: T, u: real)
    requires |c| >= 1
  {
    multiset(Chosen(Always(u), (), [x], c, |c| - 1)) == multiset{x}
  }

  lemma OneItemHits<T>(c: seq<real>, x: T, u: real)
    requires |c| >= 1
    ensures SplitsOne(c, x, u) <==> HitOnce(c, u)
  {
    hide Chosen, Hits;
    var n := |c| - 1;
    ChosenNext(Always(u), (), [x], c, n);
    assert [x][..0] == [];
    ChosenNothing<T, ()>(Always(u), (), c, n);
    assert Draw(Always(u), (), 0) == u;
    var chosen := multiset(Chosen(Always(u), (), [x], c, n));
    assert chosen[x] == Hits(c, n, u) && multiset{x}[x] == 1;
  }

  lemma {:induction false} ChosenNothing<T, S>(gen: Generator<S>, s: S, c: seq<real>, n: nat)
    requires n < |c|
    ensures Chosen<T, S>(gen, s, [], c, n) == []
  {
    if n > 0 { ChosenNothing<T, S>(gen, s, c, n - 1); }
  }

  /** Split `j` holds, in every partition, the items whose draw falls between bounds `j` and `j + 1`. */
  ghost predicate SplitsOf<T, S>(splits: seq<seq<seq<T>>>, gen: Generator<S>, mix: (int, int) -> int, seed: int,
                                 parts: seq<seq<T>>, c: seq<real>)
  {
    && |splits| + 1 == |c|
    && forall j :: 0 <= j < |splits| ==>
         && |splits[j]| == |parts|
         && forall p :: 0 <= p < |parts| ==>
             splits[j][p] == Selected(gen, Start(gen, mix, seed, p), parts[p], c[j], c[j + 1])
  }

  /**
   `randomSplit(weights, seed)`; weights that add up to zero are a division by zero, no weights
   give no splits.  No record is ever lost.  If the weights never step back, as weights of one
   sign do not, every record is in exactly one split.
   */
  method RandomSplit<T, S(!new)>(gen: Generator<S>, mix: (int, int) -> int, seed: int, weights: seq<real>,
                                 parts: seq<seq<T>>)
    returns (splits: Option<seq<seq<seq<T>>>>)
    requires UnitDraws(gen)
    ensures splits.None? <==> weights != [] && Sum(weights) == 0.0
    ensures splits.Some? ==> SplitsOf(splits.value, gen, mix, seed, parts, Normalized(weights))
    ensures splits.Some? && weights != [] ==>
              forall p :: 0 <= p < |parts| ==> multiset(parts[p]) <= multiset(Column(splits.value, p))
    ensures splits.Some? && weights != [] && (NeverStepsBack(weights) || SameSign(weights)) ==>
              forall p :: 0 <= p < |parts| ==> multiset(Column(splits.value, p)) == multiset(parts[p])
  {
    hide NeverStepsBack, SameSign, Normalized, Sum, Selected, Start, UnitDraws;
    var cweights := Cumulative(weights);
    if cweights.None? { return None; }
    ghost var c := Normalized(weights);
    var all := [];
    for j := 0 to |weights|
      invariant |all| == j
      invariant SplitsOf(all, gen, mix, seed, parts, c[..j + 1])
    {
      var split := SamplePartitions(gen, mix, cweights.value[j], cweights.value[j + 1], seed, parts);
      all := all + [split];
    }
    assert c[..|weights| + 1] == c;
    splits := Some(all);
    if weights != [] { SplitsHoldAll(all, gen, mix, seed, parts, weights); }
  }

  /** Record `i` of partition `p` is in split `j` just when draw `i` of that partition falls between its bounds. */
  lemma SplitsRecorded<T>(splits: seq<seq<seq<T>>>, d: Trace -> real, mix: (int, int) -> int, seed: int,
                          parts: seq<seq<T>>, c: seq<real>, j: nat, p: nat)
    requires SplitsOf(splits, Recorder(d), mix, seed, parts, c) && j < |splits| && p < |parts|
    ensures splits[j][p] ==
              Flatten(seq(|parts[p]|, i requires 0 <= i < |parts[p]| =>
                if c[j] <= d(Trace(mix(seed, p), 10, i)) < c[j + 1] then [parts[p][i]] else []))
  {
    SelectedRecorded(d, mix, seed, p, parts[p], c[j], c[j + 1]);
  }

  lemma SplitsHoldAll<T, S(!new)>(splits: seq<seq<seq<T>>>, gen: Generator<S>, mix: (int, int) -> int, seed: int,
                                  parts: seq<seq<T>>, weights: seq<real>)
    requires UnitDraws(gen) && weights != [] && Sum(weights) != 0.0
    requires SplitsOf(splits, gen, mix, seed, parts, Normalized(weights))
    ensures forall p :: 0 <= p < |parts| ==> multiset(parts[p]) <= multiset(Column(splits, p))
    ensures NeverStepsBack(weights) || SameSign(weights) ==>
              forall p :: 0 <= p < |parts| ==> multiset(Column(splits, p)) == multiset(parts[p])
  {
    hide NeverStepsBack, SameSign, EveryDrawHitOnce, UnitDraws, Start, Chosen, Normalized, Sum, UnitBounds;
    var c := Normalized(weights);
    NormalizedSteps(weights);
    WeightsSplitDrawsIff(weights);
    if SameSign(weights) { SameSignNeverStepsBack(weights); }
    assert splits[..|splits|] == splits;
    forall p | 0 <= p < |parts|
      ensures multiset(parts[p]) <= multiset(Column(splits, p))
      ensures NeverStepsBack(weights) ==> multiset(Column(splits, p)) == multiset(parts[p])
    {
      ColumnIsChosen(splits, gen, mix, seed, parts, c, p, |splits|);
      NothingLost(gen, Start(gen, mix, seed, p), parts[p], c);
      if NeverStepsBack(weights) { ChosenAll(gen, Start(gen, mix, seed, p), parts[p], c); }
    }
  }

  /** What all splits hold of partition `p`. */
  ghost function Column<T>(splits: seq<seq<seq<T>>>, p: nat): seq<T>
    requires forall j :: 0 <= j < |splits| ==> p < |splits[j]|
  {
    if splits == [] then [] else Column(splits[..|splits| - 1], p) + splits[|splits| - 1][p]
  }

  lemma {:induction false} ColumnIsChosen<T, S>(
      splits: seq<seq<seq<T>>>, gen: Generator<S>, mix: (int, int) -> int, seed: int, parts: seq<seq<T>>,
      c: seq<real>, p: nat, n: nat)
    requires SplitsOf(splits, gen, mix, seed, parts, c) && p < |parts| && n <= |splits|
    ensures Column(splits[..n], p) == Chosen(gen, Start(gen, mix, seed, p), parts[p], c, n)
  {
    if n > 0 {
      ColumnIsChosen(splits, gen, mix, seed, parts, c, p, n - 1);
      assert splits[..n][..n - 1] == splits[..n - 1];
    }
  }

  /** `mapPartitionsWithIndex(RDDRangeSampler(lb, ub, seed).func)` */
  method SamplePartitions<T, S>(
      gen: Generator<S>, mix: (int, int) -> int, lb: real, ub: real, seed: int, parts: seq<seq<T>>)
    returns (split: seq<seq<T>>)
    ensures |split| == |parts|
    ensures forall p :: 0 <= p < |parts| ==> split[p] == Selected(gen, Start(gen, mix, seed, p), parts[p], lb, ub)
  {
    split := [];
    for p := 0 to |parts|
      invariant |split| == p
      invariant forall q :: 0 <= q < p ==> split[q] == Selected(gen, Start(gen, mix, seed, q), parts[q], lb, ub)
    {
      var sampler := new RDDRangeSampler(gen, mix, lb, ub, seed);
      var items := sampler.Func(p, parts[p]);
      split := split + [items];
    }
  }
}
