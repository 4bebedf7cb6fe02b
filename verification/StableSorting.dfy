/**
 What "sorted, and stable" means, independently of any algorithm, and why it leaves exactly
 one answer.  `list.sort` is taken to compute that answer.
 */
module StableSorting {

  import opened Sequences

  ghost predicate TotalPreorder<T(!new)>(le: (T, T) -> bool)
  {
    && (forall a, b :: le(a, b) || le(b, a))
    && forall a, b, c :: le(a, b) && le(b, c) ==> le(a, c)
  }

  ghost predicate Sorted<T>(le: (T, T) -> bool, s: seq<T>)
  {
    forall i, j :: 0 <= i < j < |s| ==> le(s[i], s[j])
  }

  /** Neither before nor after `g`. */
  function Like<T>(le: (T, T) -> bool, g: T): T -> bool
  {
    x => le(g, x) && le(x, g)
  }

  /** Elements that compare equal stay in their order of `s`; nothing is lost or added. */
  ghost predicate SameClasses<T(!new)>(le: (T, T) -> bool, s: seq<T>, t: seq<T>)
  {
    forall g :: Filter(Like(le, g), s) == Filter(Like(le, g), t)
  }

  /** The stable sort of `s`: insertion from the back, before the first element that is not smaller. */
  function StableSort<T>(le: (T, T) -> bool, s: seq<T>): seq<T>
  {
    if s == [] then [] else Insert(le, s[0], StableSort(le, s[1..]))
  }

  function Insert<T>(le: (T, T) -> bool, x: T, s: seq<T>): seq<T>
  {
    if s == [] || le(x, s[0]) then [x] + s else [s[0]] + Insert(le, x, s[1..])
  }

  lemma {:induction false} InsertSorted<T(!new)>(le: (T, T) -> bool, x: T, s: seq<T>)
    requires TotalPreorder(le) && Sorted(le, s)
    ensures Sorted(le, Insert(le, x, s))
  {
    if s != [] && !le(x, s[0]) {
      InsertSorted(le, x, s[1..]);
      var r := Insert(le, x, s[1..]);
      forall j | 0 <= j < |r| ensures le(s[0], r[j]) {
        InsertElements(le, x, s[1..], r[j]);
        if r[j] != x {
          var i :| 0 <= i < |s[1..]| && s[1..][i] == r[j];
          assert le(s[0], s[i + 1]);
        }
      }
    }
  }

  lemma {:induction false} InsertElements<T>(le: (T, T) -> bool, x: T, s: seq<T>, y: T)
    ensures y in Insert(le, x, s) <==> y == x || y in s
  {
    InsertPermutes(le, x, s);
    assert y in Insert(le, x, s) <==> y in multiset(Insert(le, x, s));
  }

  /** An element only passes elements it is strictly greater than. */
  lemma {:induction false} InsertClass<T(!new)>(le: (T, T) -> bool, x: T, s: seq<T>, g: T)
    requires TotalPreorder(le)
    ensures Filter(Like(le, g), Insert(le, x, s)) == Filter(Like(le, g), [x] + s)
  {
    var p := Like(le, g);
    if s != [] && !le(x, s[0]) {
      InsertClass(le, x, s[1..], g);
      var r := Insert(le, x, s[1..]);
      assert ([s[0]] + r)[1..] == r && ([x] + s[1..])[1..] == s[1..] && ([x] + s)[1..] == s;
      assert !(p(x) && p(s[0]));
    }
  }

  /** The reference sort is sorted and stable. */
  lemma {:induction false} StableSortIsStable<T(!new)>(le: (T, T) -> bool, s: seq<T>)
    requires TotalPreorder(le)
    ensures Sorted(le, StableSort(le, s)) && SameClasses(le, StableSort(le, s), s)
  {
    if s != [] {
      StableSortIsStable(le, s[1..]);
      var t := StableSort(le, s[1..]);
      InsertSorted(le, s[0], t);
      forall g ensures Filter(Like(le, g), StableSort(le, s)) == Filter(Like(le, g), s) {
        InsertClass(le, s[0], t, g);
        assert Filter(Like(le, g), t) == Filter(Like(le, g), s[1..]);
        assert ([s[0]] + t)[1..] == t;
      }
    }
  }

  /** Being sorted and stable determines the result. */
  lemma {:induction false} StableUnique<T(!new)>(le: (T, T) -> bool, a: seq<T>, b: seq<T>)
    requires TotalPreorder(le) && Sorted(le, a) && Sorted(le, b) && SameClasses(le, a, b)
    ensures a == b
  {
    if a == [] {
      if b != [] { FirstIsLeast(le, b, a); }
    } else {
      FirstIsLeast(le, a, b);
      FirstIsLeast(le, b, a);
      var p := Like(le, a[0]);
      assert Filter(p, a)[0] == a[0] && Filter(p, b)[0] == b[0];
      forall g ensures Filter(Like(le, g), a[1..]) == Filter(Like(le, g), b[1..]) {
        var q := Like(le, g);
        assert Filter(q, a) == Filter(q, b);
        assert Filter(q, a[1..]) == Filter(q, a)[if q(a[0]) then 1 else 0..];
        assert Filter(q, b[1..]) == Filter(q, b)[if q(b[0]) then 1 else 0..];
      }
      StableUnique(le, a[1..], b[1..]);
    }
  }

  lemma FirstIsLeast<T(!new)>(le: (T, T) -> bool, a: seq<T>, b: seq<T>)
    requires TotalPreorder(le) && Sorted(le, b) && SameClasses(le, a, b) && a != []
    ensures b != [] && le(b[0], a[0])
  {
    var p := Like(le, a[0]);
    assert le(a[0], a[0]);
    InFilter(p, a, a[0]);
    InFilter(p, b, a[0]);
    var i :| 0 <= i < |b| && b[i] == a[0];
  }

  lemma StableSortUnique<T(!new)>(le: (T, T) -> bool, s: seq<T>, t: seq<T>)
    requires TotalPreorder(le) && Sorted(le, t) && SameClasses(le, t, s)
    ensures t == StableSort(le, s)
  {
    StableSortIsStable(le, s);
    forall g ensures Filter(Like(le, g), t) == Filter(Like(le, g), StableSort(le, s)) {
      assert Filter(Like(le, g), t) == Filter(Like(le, g), s);
    }
    StableUnique(le, t, StableSort(le, s));
  }

  lemma {:induction false} InsertPermutes<T>(le: (T, T) -> bool, x: T, s: seq<T>)
    ensures multiset(Insert(le, x, s)) == multiset{x} + multiset(s)
  {
    if s != [] && !le(x, s[0]) {
      InsertPermutes(le, x, s[1..]);
      assert s == [s[0]] + s[1..];
    }
  }

  lemma {:induction false} StableSortPermutes<T>(le: (T, T) -> bool, s: seq<T>)
    ensures multiset(StableSort(le, s)) == multiset(s)
  {
    if s != [] {
      StableSortPermutes(le, s[1..]);
      InsertPermutes(le, s[0], StableSort(le, s[1..]));
      assert s == [s[0]] + s[1..];
    }
  }

  /** The order of `reverse=True`: reversed comparisons, equal elements still in input order. */
  function Direction<T>(le: (T, T) -> bool, reverse: bool): (T, T) -> bool
  {
    if reverse then (a, b) => le(b, a) else le
  }

  lemma DirectionTotal<T(!new)>(le: (T, T) -> bool, reverse: bool)
    requires TotalPreorder(le)
    ensures TotalPreorder(Direction(le, reverse))
  {
  }

  /** Comparing by a key. */
  function By<T, R>(le: (R, R) -> bool, key: T -> R): (T, T) -> bool
  {
    (a, b) => le(key(a), key(b))
  }

  /** In terms of keys: they go up, or down if reversed. */
  lemma SortedMeans<T, R>(le: (R, R) -> bool, key: T -> R, reverse: bool, s: seq<T>)
    ensures Sorted(Direction(By(le, key), reverse), s) <==>
              forall i, j :: 0 <= i < j < |s| ==>
                if reverse then le(key(s[j]), key(s[i])) else le(key(s[i]), key(s[j]))
  {
    var order := Direction(By(le, key), reverse);
    forall i, j | 0 <= i < j < |s|
      ensures order(s[i], s[j]) <==> if reverse then le(key(s[j]), key(s[i])) else le(key(s[i]), key(s[j]))
    {
    }
  }

  /** Having a key that compares equal to that of `x`. */
  function SameKey<T, R>(le: (R, R) -> bool, key: T -> R, x: T): T -> bool
  {
    y => le(key(x), key(y)) && le(key(y), key(x))
  }

  /** In either direction, elements of one class are those with equal keys. */
  lemma ClassesMean<T(!new), R(!new)>(le: (R, R) -> bool, key: T -> R, reverse: bool, s: seq<T>, t: seq<T>)
    ensures SameClasses(Direction(By(le, key), reverse), s, t) <==>
              forall x :: Filter(SameKey(le, key, x), s) == Filter(SameKey(le, key, x), t)
  {
    var order := Direction(By(le, key), reverse);
    forall x
      ensures Filter(Like(order, x), s) == Filter(SameKey(le, key, x), s)
      ensures Filter(Like(order, x), t) == Filter(SameKey(le, key, x), t)
    {
      FilterSame(Like(order, x), SameKey(le, key, x), s);
      FilterSame(Like(order, x), SameKey(le, key, x), t);
    }
  }
}
