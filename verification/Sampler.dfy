/** Random samplers: a seeded generator per partition, and one draw per record. */
module Sampling {

  import opened Sequences
  import opened Wrappers

  // ----- the generator

  /** A pseudo-random generator: seeding, one uniform draw, one `randint` call. */
  datatype Generator<!S> = Generator(init: int -> S, uniform: S -> (real, S), randint: S -> S)

  /** `random()` lies in `[0, 1)`. */
  ghost predicate UnitDraws<S(!new)>(gen: Generator<S>)
  {
    forall s :: 0.0 <= gen.uniform(s).0 < 1.0
  }

  /** The state after seeding and mixing. */
  ghost function Mixed<S>(gen: Generator<S>, s: S, n: nat): S
  {
    if n == 0 then s else gen.randint(Mixed(gen, s, n - 1))
  }

  ghost function Start<S>(gen: Generator<S>, mix: (int, int) -> int, seed: int, split: int): S
  {
    Mixed(gen, gen.init(mix(seed, split)), 10)
  }

  /** The state before draw `i`, and the draw itself. */
  ghost function StateAt<S>(gen: Generator<S>, s: S, i: nat): S
  {
    if i == 0 then s else gen.uniform(StateAt(gen, s, i - 1)).1
  }

  ghost function Draw<S>(gen: Generator<S>, s: S, i: nat): real
  {
    gen.uniform(StateAt(gen, s, i)).0
  }

  /** The items whose draw lies in `[lb, ub)`, in order. */
  ghost function Selected<T, S>(gen: Generator<S>, s: S, items: seq<T>, lb: real, ub: real): seq<T>
  {
    if items == [] then []
    else
      var n := |items| - 1;
      Selected(gen, s, items[..n], lb, ub) + if lb <= Draw(gen, s, n) < ub then [items[n]] else []
  }

  /** A generator that always draws `u`. */
  ghost function Always(u: real): Generator<()>
  {
    Generator(_ => (), _ => (u, ()), _ => ())
  }

  // ----- which draws decide

  /** What a generator was seeded with, its `randint` calls and its draws so far. */
  datatype Trace = Trace(seed: int, calls: nat, draws: nat)

  /** A generator that only keeps account of this; its draws are any function of it. */
  ghost function Recorder(d: Trace -> real): Generator<Trace>
  {
    Generator(seed => Trace(seed, 0, 0),
              (s: Trace) => (d(s), s.(draws := s.draws + 1)),
              (s: Trace) => s.(calls := s.calls + 1))
  }

  /** Every partition is seeded with its own number and mixed by ten calls before its first draw. */
  lemma StartRecorded(d: Trace -> real, mix: (int, int) -> int, seed: int, split: int)
    ensures Start(Recorder(d), mix, seed, split) == Trace(mix(seed, split), 10, 0)
  {
    MixedRecorded(d, Recorder(d).init(mix(seed, split)), 10);
  }

  lemma {:induction false} MixedRecorded(d: Trace -> real, s: Trace, n: nat)
    ensures Mixed(Recorder(d), s, n) == s.(calls := s.calls + n)
  {
    if n > 0 { MixedRecorded(d, s, n - 1); }
  }

  lemma {:induction false} DrawRecorded(d: Trace -> real, s: Trace, i: nat)
    ensures StateAt(Recorder(d), s, i) == s.(draws := s.draws + i)
    ensures Draw(Recorder(d), s, i) == d(s.(draws := s.draws + i))
  {
    if i > 0 { DrawRecorded(d, s, i - 1); }
  }

  /** Item `i` of a partition is kept just when draw `i` after the ten calls lies between the bounds. */
  lemma {:induction false} SelectedRecorded<T>(
      d: Trace -> real, mix: (int, int) -> int, seed: int, split: int, items: seq<T>, lb: real, ub: real)
    ensures Selected(Recorder(d), Start(Recorder(d), mix, seed, split), items, lb, ub) ==
              Flatten(seq(|items|, i requires 0 <= i < |items| =>
                if lb <= d(Trace(mix(seed, split), 10, i)) < ub then [items[i]] else []))
    decreases |items|
  {
    if items != [] {
      var n := |items| - 1;
      SelectedRecorded(d, mix, seed, split, items[..n], lb, ub);
      StartRecorded(d, mix, seed, split);
      DrawRecorded(d, Trace(mix(seed, split), 10, 0), n);
      var each := seq(|items|, i requires 0 <= i < |items| =>
        if lb <= d(Trace(mix(seed, split), 10, i)) < ub then [items[i]] else []);
      assert each[..n] == seq(n, i requires 0 <= i < n =>
        if lb <= d(Trace(mix(seed, split), 10, i)) < ub then [items[..n][i]] else []);
      FlattenUpto(each, n);
      assert each[..|items|] == each;
    }
  }

  /** `RDDSamplerBase`: the state that a range sampler and a plain sampler have in common. */
  class RDDSamplerBase<S> {

    const gen: Generator<S>
    const mix: (int, int) -> int
    const seed: int
    var random: Option<S>

    constructor (gen: Generator<S>, mix: (int, int) -> int, seed: int)
      ensures this.gen == gen && this.mix == mix && this.seed == seed && random == None
    {
      this.gen, this.mix, this.seed := gen, mix, seed;
      random := None;
    }

    /** `random.Random(seed ^ split)`, mixed by ten draws, because the seeds are close to each other. */
    method InitRandomGenerator(split: int)
      modifies this
      ensures random == Some(Start(gen, mix, seed, split))
    {
      var s := gen.init(mix(seed, split));
      ghost var s0 := s;
      for i := 0 to 10
        invariant s == Mixed(gen, s0, i)
      {
        s := gen.randint(s);
      }
      random := Some(s);
    }

    method GetUniformSample() returns (u: real)
      requires random.Some?
      modifies this
      ensures u == gen.uniform(old(random.value)).0 && random == Some(gen.uniform(old(random.value)).1)
    {
      var (v, next) := gen.uniform(random.value);
      u, random := v, Some(next);
    }
  }

  class RDDRangeSampler<S> {

    const base: RDDSamplerBase<S>
    const lowerBound: real
    const upperBound: real

    constructor (gen: Generator<S>, mix: (int, int) -> int, lowerBound: real, upperBound: real, seed: int)
      ensures fresh(base) && base.gen == gen && base.mix == mix && base.seed == seed
      ensures this.lowerBound == lowerBound && this.upperBound == upperBound
    {
      base := new RDDSamplerBase(gen, mix, seed);
      this.lowerBound, this.upperBound := lowerBound, upperBound;
    }

    method Func<T>(split: int, items: seq<T>) returns (r: seq<T>)
      modifies base
      ensures r == Selected(base.gen, Start(base.gen, base.mix, base.seed, split), items, lowerBound, upperBound)
    {
      base.InitRandomGenerator(split);
      ghost var s := base.random.value;
      r := [];
      for i := 0 to |items|
        invariant base.random == Some(StateAt(base.gen, s, i))
        invariant r == Selected(base.gen, s, items[..i], lowerBound, upperBound)
      {
        assert items[..i + 1][..i] == items[..i];
        var u := base.GetUniformSample();
        if lowerBound <= u < upperBound { r := r + [items[i]]; }
      }
      assert items[..|items|] == items;
    }
  }

  /** `RDDSampler` without replacement. */
  class RDDSampler<S(!new)> {

    const base: RDDSamplerBase<S>
    const fraction: real

    constructor (gen: Generator<S>, mix: (int, int) -> int, fraction: real, seed: int)
      ensures fresh(base) && base.gen == gen && base.mix == mix && base.seed == seed && this.fraction == fraction
    {
      base := new RDDSamplerBase(gen, mix, seed);
      this.fraction := fraction;
    }

    method Func<T>(split: int, items: seq<T>) returns (r: seq<T>)
      requires UnitDraws(base.gen)
      modifies base
      ensures r == Selected(base.gen, Start(base.gen, base.mix, base.seed, split), items, 0.0, fraction)
    {
      base.InitRandomGenerator(split);
      ghost var s := base.random.value;
      r := [];
      for i := 0 to |items|
        invariant base.random == Some(StateAt(base.gen, s, i))
        invariant r == Selected(base.gen, s, items[..i], 0.0, fraction)
      {
        assert items[..i + 1][..i] == items[..i];
        var u := base.GetUniformSample();
        if u < fraction { r := r + [items[i]]; }
      }
      assert items[..|items|] == items;
    }
  }

  /** What `sample(False, fraction, seed)` selects of each partition. */
  ghost function Sampled<T, S>(
      gen: Generator<S>, mix: (int, int) -> int, seed: int, parts: seq<seq<T>>, fraction: real):
      (r: seq<seq<T>>)
    ensures |r| == |parts|
  {
    seq(|parts|, p requires 0 <= p < |parts| => Selected(gen, Start(gen, mix, seed, p), parts[p], 0.0, fraction))
  }

  /** `sample(False, fraction, seed)` */
  method Sample<T, S(!new)>(gen: Generator<S>, mix: (int, int) -> int, seed: int, parts: seq<seq<T>>, fraction: real)
    returns (r: seq<seq<T>>)
    requires UnitDraws(gen)
    ensures r == Sampled(gen, mix, seed, parts, fraction)
  {
    hide UnitDraws, Selected, Start;
    r := [];
    for p := 0 to |parts|
      invariant r == Sampled(gen, mix, seed, parts, fraction)[..p]
    {
      var sampler := new RDDSampler(gen, mix, fraction, seed);
      var items := sampler.Func(p, parts[p]);
      r := r + [items];
    }
  }

  /** Record `i` of partition `p` is in the sample just when draw `i` of that partition is below the fraction. */
  lemma SampledRecorded<T>(
      d: Trace -> real, mix: (int, int) -> int, seed: int, parts: seq<seq<T>>, fraction: real, p: nat)
    requires p < |parts|
    ensures Sampled(Recorder(d), mix, seed, parts, fraction)[p] ==
              Flatten(seq(|parts[p]|, i requires 0 <= i < |parts[p]| =>
                if 0.0 <= d(Trace(mix(seed, p), 10, i)) < fraction then [parts[p][i]] else []))
  {
    SelectedRecorded(d, mix, seed, p, parts[p], 0.0, fraction);
  }

  /** A fraction of one keeps every record. */
  lemma {:induction false} SelectedAll<T, S(!new)>(gen: Generator<S>, s: S, items: seq<T>)
    requires UnitDraws(gen)
    ensures Selected(gen, s, items, 0.0, 1.0) == items
    decreases |items|
  {
    if items != [] {
      SelectedAll(gen, s, items[..|items| - 1]);
      assert items == items[..|items| - 1] + [items[|items| - 1]];
    }
  }

  lemma SampledAll<T, S(!new)>(gen: Generator<S>, mix: (int, int) -> int, seed: int, parts: seq<seq<T>>)
    requires UnitDraws(gen)
    ensures Sampled(gen, mix, seed, parts, 1.0) == parts
  {
    forall p | 0 <= p < |parts| ensures Sampled(gen, mix, seed, parts, 1.0)[p] == parts[p] {
      SelectedAll(gen, Start(gen, mix, seed, p), parts[p]);
    }
  }
}
