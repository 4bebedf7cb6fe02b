/** Sequence vocabulary shared by the other modules: flattening, filtering, grouping by key. */
module Sequences {

  function Flatten<T>(ss: seq<seq<T>>): (r: seq<T>)
  {
    if ss == [] then [] else ss[0] + Flatten(ss[1..])
  }

  lemma {:induction false} FlattenAppend<T>(a: seq<seq<T>>, b: seq<seq<T>>)
    ensures Flatten(a + b) == Flatten(a) + Flatten(b)
  {
    if a == [] {
      assert a + b == b;
    } else {
      assert (a + b)[1..] == a[1..] + b;
      FlattenAppend(a[1..], b);
    }
  }

  lemma Associate<T>(a: seq<T>, b: seq<T>, c: seq<T>)
    ensures a + (b + c) == (a + b) + c
  {
  }

  lemma FlattenSnoc<T>(a: seq<seq<T>>, s: seq<T>)
    ensures Flatten(a + [s]) == Flatten(a) + s
  {
    FlattenAppend(a, [s]);
    assert [s][1..] == [];
  }

  lemma FlattenOne<T>(s: seq<T>)
    ensures Flatten([s]) == s
  {
    assert [s][1..] == [] && s + [] == s;
  }

  lemma {:induction false} FlattenUpto<T>(ss: seq<seq<T>>, i: nat)
    requires i < |ss|
    ensures Flatten(ss[..i + 1]) == Flatten(ss[..i]) + ss[i]
  {
    assert ss[..i + 1] == ss[..i] + [ss[i]];
    FlattenSnoc(ss[..i], ss[i]);
  }

  lemma FlattenPrefix<T>(ss: seq<seq<T>>, n: nat)
    requires n <= |ss|
    ensures Flatten(ss[..n]) <= Flatten(ss)
  {
    assert ss == ss[..n] + ss[n..];
    FlattenAppend(ss[..n], ss[n..]);
  }

  lemma FlattenAt<T>(ss: seq<seq<T>>, i: nat)
    requires i < |ss|
    ensures Flatten(ss) == Flatten(ss[..i]) + ss[i] + Flatten(ss[i + 1..])
  {
    assert ss == ss[..i + 1] + ss[i + 1..];
    FlattenAppend(ss[..i + 1], ss[i + 1..]);
    FlattenUpto(ss, i);
  }

  lemma {:induction false} FlattenEmpty<T>(ss: seq<seq<T>>)
    requires forall i :: 0 <= i < |ss| ==> ss[i] == []
    ensures Flatten(ss) == []
  {
    if ss != [] { FlattenEmpty(ss[1..]); }
  }

  lemma {:induction false} InFlatten<T>(ss: seq<seq<T>>, x: T)
    ensures x in Flatten(ss) <==> exists i :: 0 <= i < |ss| && x in ss[i]
  {
    if ss != [] {
      InFlatten(ss[1..], x);
      if x in Flatten(ss[1..]) {
        var i :| 0 <= i < |ss[1..]| && x in ss[1..][i];
        assert x in ss[i + 1];
      }
      if i :| 0 <= i < |ss| && x in ss[i] {
        if i > 0 { assert x in ss[1..][i - 1]; }
      }
    }
  }

  function Filter<T>(p: T -> bool, s: seq<T>): (r: seq<T>)
  {
    if s == [] then [] else if p(s[0]) then [s[0]] + Filter(p, s[1..]) else Filter(p, s[1..])
  }

  lemma {:induction false} FilterAppend<T>(p: T -> bool, a: seq<T>, b: seq<T>)
    ensures Filter(p, a + b) == Filter(p, a) + Filter(p, b)
  {
    if a == [] {
      assert a + b == b;
    } else {
      FilterAppend(p, a[1..], b);
      assert (a + b)[1..] == a[1..] + b && (a + b)[0] == a[0];
    }
  }

  lemma FilterSnoc<T>(p: T -> bool, a: seq<T>, x: T)
    ensures Filter(p, a + [x]) == Filter(p, a) + if p(x) then [x] else []
  {
    FilterAppend(p, a, [x]);
    assert [x][1..] == [];
  }

  lemma {:induction false} FilterUpto<T>(p: T -> bool, s: seq<T>, i: nat)
    requires i < |s|
    ensures Filter(p, s[..i + 1]) == Filter(p, s[..i]) + if p(s[i]) then [s[i]] else []
  {
    assert s[..i + 1] == s[..i] + [s[i]];
    FilterSnoc(p, s[..i], s[i]);
  }

  lemma {:induction false} InFilter<T>(p: T -> bool, s: seq<T>, x: T)
    ensures x in Filter(p, s) <==> x in s && p(x)
  {
    if s != [] {
      InFilter(p, s[1..], x);
      assert s == [s[0]] + s[1..];
    }
  }

  lemma {:induction false} FilterNone<T>(p: T -> bool, s: seq<T>)
    requires forall x :: x in s ==> !p(x)
    ensures Filter(p, s) == []
  {
    if s != [] { FilterNone(p, s[1..]); }
  }

  lemma {:induction false} FilterAll<T>(p: T -> bool, s: seq<T>)
    requires forall x :: x in s ==> p(x)
    ensures Filter(p, s) == s
  {
    if s != [] { FilterAll(p, s[1..]); }
  }

  lemma {:induction false} FilterCount<T>(p: T -> bool, s: seq<T>, x: T)
    ensures multiset(Filter(p, s))[x] == if p(x) then multiset(s)[x] else 0
  {
    if s != [] {
      FilterCount(p, s[1..], x);
      assert s == [s[0]] + s[1..];
    }
  }

  lemma {:induction false} FilterSame<T>(p: T -> bool, q: T -> bool, s: seq<T>)
    requires forall x :: x in s ==> (p(x) <==> q(x))
    ensures Filter(p, s) == Filter(q, s)
  {
    if s != [] { FilterSame(p, q, s[1..]); }
  }

  function Map<S, T>(f: S -> T, s: seq<S>): (r: seq<T>)
    ensures |r| == |s| && forall i :: 0 <= i < |s| ==> r[i] == f(s[i])
  {
    seq(|s|, i requires 0 <= i < |s| => f(s[i]))
  }

  lemma MapCons<S, T>(f: S -> T, s: seq<S>)
    requires s != []
    ensures Map(f, s) == [f(s[0])] + Map(f, s[1..])
  {
  }

  lemma MapAppend<S, T>(f: S -> T, a: seq<S>, b: seq<S>)
    ensures Map(f, a + b) == Map(f, a) + Map(f, b)
  {
  }

  lemma CountHead<T>(s: seq<T>, x: T)
    requires s != []
    ensures multiset(s)[x] == multiset(s[1..])[x] + if s[0] == x then 1 else 0
  {
    assert s == [s[0]] + s[1..];
  }

  lemma {:induction false} MapCount<S(!new), T>(f: S -> T, s: seq<S>, x: S)
    requires forall y :: f(y) == f(x) ==> y == x
    ensures multiset(Map(f, s))[f(x)] == multiset(s)[x]
  {
    if s != [] {
      MapCons(f, s);
      MapCount(f, s[1..], x);
      CountHead(s, x);
      CountHead(Map(f, s), f(x));
    }
  }

  lemma MapNone<S(!new), T>(f: S -> T, s: seq<S>, t: T)
    requires forall y :: f(y) != t
    ensures multiset(Map(f, s))[t] == 0
  {
    assert t !in Map(f, s);
  }

  lemma {:induction false} FlattenMap<S, T>(f: S -> T, ss: seq<seq<S>>, tt: seq<seq<T>>)
    requires |tt| == |ss| && forall i :: 0 <= i < |ss| ==> tt[i] == Map(f, ss[i])
    ensures Flatten(tt) == Map(f, Flatten(ss))
  {
    if ss != [] {
      FlattenMap(f, ss[1..], tt[1..]);
      MapAppend(f, ss[0], Flatten(ss[1..]));
    }
  }

  ghost function Sum(xs: seq<real>): real
  {
    if xs == [] then 0.0 else xs[0] + Sum(xs[1..])
  }

  lemma {:induction false} SumSnoc(xs: seq<real>, x: real)
    ensures Sum(xs + [x]) == Sum(xs) + x
  {
    if xs == [] {
      assert (xs + [x])[1..] == [];
    } else {
      SumSnoc(xs[1..], x);
      assert (xs + [x])[1..] == xs[1..] + [x];
    }
  }

  function Second<K, V>(): ((K, V)) -> V
  {
    (r: (K, V)) => r.1
  }

  function WithKey<K, A>(k: K): A -> (K, A)
  {
    a => (k, a)
  }

  /** The values recorded for one key, in order. */
  function ValuesOf<K(==), V>(s: seq<(K, V)>, k: K): (r: seq<V>)
  {
    if s == [] then [] else if s[0].0 == k then [s[0].1] + ValuesOf(s[1..], k) else ValuesOf(s[1..], k)
  }

  lemma {:induction false} ValuesOfAppend<K, V>(a: seq<(K, V)>, b: seq<(K, V)>, k: K)
    ensures ValuesOf(a + b, k) == ValuesOf(a, k) + ValuesOf(b, k)
  {
    if a == [] {
      assert a + b == b;
    } else {
      ValuesOfAppend(a[1..], b, k);
      assert (a + b)[1..] == a[1..] + b && (a + b)[0] == a[0];
    }
  }

  lemma ValuesOfSnoc<K, V>(a: seq<(K, V)>, x: (K, V), k: K)
    ensures ValuesOf(a + [x], k) == ValuesOf(a, k) + if x.0 == k then [x.1] else []
  {
    ValuesOfAppend(a, [x], k);
    assert [x][1..] == [];
  }

  lemma {:induction false} PermuteFlatten<T>(ss: seq<seq<T>>, tt: seq<seq<T>>)
    requires |ss| == |tt|
    requires forall i :: 0 <= i < |ss| ==> multiset(ss[i]) == multiset(tt[i])
    ensures multiset(Flatten(ss)) == multiset(Flatten(tt))
  {
    if ss != [] { PermuteFlatten(ss[1..], tt[1..]); }
  }

  lemma SplitAt<T>(t: seq<T>, i: nat)
    requires i < |t|
    ensures t[..i] + [t[i]] + t[i + 1..] == t
  {
  }

  lemma RemoveAt<T>(t: seq<T>, i: nat)
    requires i < |t|
    ensures multiset(t) == multiset(t[..i] + t[i + 1..]) + multiset{t[i]}
  {
    SplitAt(t, i);
  }

  /** In a permutation `t` of `s`, an occurrence of the last element of `s`. */
  lemma FindLast<T>(s: seq<T>, t: seq<T>) returns (i: nat)
    requires s != [] && multiset(s) == multiset(t)
    ensures i < |t| && t[i] == s[|s| - 1]
    ensures multiset(s[..|s| - 1]) == multiset(t[..i] + t[i + 1..])
  {
    var n := |s| - 1;
    assert s[n] in multiset(s);
    i :| 0 <= i < |t| && t[i] == s[n];
    RemoveAt(t, i);
    RemoveAt(s, n);
    assert s[..n] + s[n + 1..] == s[..n];
    assert multiset(s[..n]) == multiset(s) - multiset{s[n]} == multiset(t) - multiset{t[i]};
  }

  /** The same elements in some order. */
  ghost predicate Reordered<T>(order: seq<T>, s: seq<T>)
  {
    multiset(order) == multiset(s)
  }

  /** If `tt` matches `ss` element by element, then some order of `tt` matches a given order of `ss`. */
  lemma {:induction false} MatchOrder<S, T>(ss: seq<S>, tt: seq<T>, so: seq<S>, matches: (S, T) -> bool)
    returns (to: seq<T>)
    requires |ss| == |tt| && Reordered(so, ss) && forall i :: 0 <= i < |ss| ==> matches(ss[i], tt[i])
    ensures Reordered(to, tt) && |to| == |so| && forall i :: 0 <= i < |so| ==> matches(so[i], to[i])
    decreases |so|
  {
    if so == [] {
      assert |multiset(so)| == |so| && |multiset(ss)| == |ss|;
      to := [];
    } else {
      var n := |so| - 1;
      var i := FindLast(so, ss);
      var front := MatchOrder(ss[..i] + ss[i + 1..], tt[..i] + tt[i + 1..], so[..n], matches);
      RemoveAt(tt, i);
      to := front + [tt[i]];
    }
  }

  lemma {:induction false} FlattenPermuted<T>(ss: seq<seq<T>>, tt: seq<seq<T>>)
    requires multiset(ss) == multiset(tt)
    ensures multiset(Flatten(ss)) == multiset(Flatten(tt))
    decreases |ss|
  {
    if ss == [] {
      assert |multiset(ss)| == |ss| && |multiset(tt)| == |tt|;
    } else {
      var n := |ss| - 1;
      var i := FindLast(ss, tt);
      FlattenPermuted(ss[..n], tt[..i] + tt[i + 1..]);
      FlattenAppend(tt[..i], tt[i + 1..]);
      FlattenAt(tt, i);
      FlattenAt(ss, n);
    }
  }

  lemma {:induction false} ValuesOfPermuted<K, V>(s: seq<(K, V)>, t: seq<(K, V)>, k: K)
    requires multiset(s) == multiset(t)
    ensures multiset(ValuesOf(s, k)) == multiset(ValuesOf(t, k))
    decreases |s|
  {
    if s == [] {
      assert |multiset(s)| == |s| && |multiset(t)| == |t|;
    } else {
      var n := |s| - 1;
      var i := FindLast(s, t);
      ValuesOfPermuted(s[..n], t[..i] + t[i + 1..], k);
      ValuesOfAppend(t[..i], t[i + 1..], k);
      ValuesOfAt(t, i, k);
      ValuesOfAt(s, n, k);
    }
  }

  lemma ValuesOfAround<K, V>(a: seq<(K, V)>, x: (K, V), b: seq<(K, V)>, k: K)
    ensures ValuesOf(a + [x] + b, k) == ValuesOf(a, k) + (if x.0 == k then [x.1] else []) + ValuesOf(b, k)
  {
    hide ValuesOf;
    ValuesOfSnoc(a, x, k);
    ValuesOfAppend(a + [x], b, k);
  }

  lemma ValuesOfAt<K, V>(t: seq<(K, V)>, i: nat, k: K)
    requires i < |t|
    ensures ValuesOf(t, k) == ValuesOf(t[..i], k) + (if t[i].0 == k then [t[i].1] else []) + ValuesOf(t[i + 1..], k)
  {
    hide ValuesOf;
    SplitAt(t, i);
    ValuesOfAround(t[..i], t[i], t[i + 1..], k);
  }

  /** Filtering by something that only depends on the key keeps or drops all values of a key. */
  lemma {:induction false} ValuesOfFilter<K, V>(p: ((K, V)) -> bool, s: seq<(K, V)>, k: K)
    requires forall v: V :: p((k, v))
    ensures ValuesOf(Filter(p, s), k) == ValuesOf(s, k)
  {
    if s != [] {
      ValuesOfFilter(p, s[1..], k);
      if s[0].0 == k { assert p((k, s[0].1)); }
    }
  }

  lemma {:induction false} ValuesOfCount<K, V>(s: seq<(K, V)>, k: K, v: V)
    ensures multiset(ValuesOf(s, k))[v] == multiset(s)[(k, v)]
  {
    if s != [] {
      ValuesOfCount(s[1..], k, v);
      assert s == [s[0]] + s[1..];
    }
  }
}
