/**
 Joins by tagging, union, grouping and dispatch, against the relational definition: matching
 pairs, plus the unmatched rows of a side that the kind of join keeps.
 */
module Joining {

  import opened Aggregation
  import opened ExternalLists
  import opened ExternalMerging
  import opened GroupingByKey
  import opened Sequences
  import opened Serializers
  import opened Shuffling
  import opened Wrappers

  datatype JoinKind = Inner | LeftOuter | RightOuter | FullOuter {
    predicate KeepsLeft() { LeftOuter? || FullOuter? }
    predicate KeepsRight() { RightOuter? || FullOuter? }
  }

  /** A result row; `None` is the value of a missing side. */
  type Row<K, V, W> = (K, (Option<V>, Option<W>))

  // ----- the relational definition

  function Pair<K, V, W>(k: K, v: V): W -> Row<K, V, W>
  {
    w => (k, (Some(v), Some(w)))
  }

  function Matches<K(==), V, W>(l: seq<(K, V)>, r: seq<(K, W)>): seq<Row<K, V, W>>
  {
    if l == [] then [] else Map(Pair(l[0].0, l[0].1), ValuesOf(r, l[0].0)) + Matches(l[1..], r)
  }

  /** The rows of `l` whose key has no row in `r`. */
  function Unmatched<K(==), V, W>(l: seq<(K, V)>, r: seq<(K, W)>): seq<(K, V)>
  {
    Filter(NoPartner(r), l)
  }

  function NoPartner<K(==), V, W>(r: seq<(K, W)>): ((K, V)) -> bool
  {
    (x: (K, V)) => |ValuesOf(r, x.0)| == 0
  }

  function LeftOnly<K, V, W>(): ((K, V)) -> Row<K, V, W>
  {
    (x: (K, V)) => (x.0, (Some(x.1), None))
  }

  function RightOnly<K, V, W>(): ((K, W)) -> Row<K, V, W>
  {
    (x: (K, W)) => (x.0, (None, Some(x.1)))
  }

  function Join<K(==), V, W>(kind: JoinKind, l: seq<(K, V)>, r: seq<(K, W)>): seq<Row<K, V, W>>
  {
    Matches(l, r)
    + (if kind.KeepsLeft() then Map(LeftOnly(), Unmatched(l, r)) else [])
    + (if kind.KeepsRight() then Map(RightOnly(), Unmatched(r, l)) else [])
  }

  /** How often a row occurs in the join. */
  ghost function Multiplicity<K, V, W>(kind: JoinKind, l: seq<(K, V)>, r: seq<(K, W)>, row: Row<K, V, W>): nat
  {
    var k := row.0;
    match row.1
    case (Some(v), Some(w)) => multiset(l)[(k, v)] * multiset(r)[(k, w)]
    case (Some(v), None) => if kind.KeepsLeft() && ValuesOf(r, k) == [] then multiset(l)[(k, v)] else 0
    case (None, Some(w)) => if kind.KeepsRight() && ValuesOf(l, k) == [] then multiset(r)[(k, w)] else 0
    case (None, None) => 0
  }

  lemma {:induction false} MatchesCount<K(!new), V(!new), W(!new)>(l: seq<(K, V)>, r: seq<(K, W)>, row: Row<K, V, W>)
    ensures multiset(Matches(l, r))[row] == Multiplicity(Inner, l, r, row)
  {
    if l != [] {
      MatchesCount(l[1..], r, row);
      FirstMatches(l[0].0, l[0].1, r, row);
      if row.1.0.Some? && row.1.1.Some? {
        var x, y := (row.0, row.1.0.value), (row.0, row.1.1.value);
        CountHead(l, x);
        OneMore(multiset(l[1..])[x], multiset(r)[y]);
      }
    }
  }

  lemma OneMore(a: int, b: int)
    ensures (a + 1) * b == a * b + b
  {
  }

  lemma FirstMatches<K(!new), V(!new), W(!new)>(k: K, v: V, r: seq<(K, W)>, row: Row<K, V, W>)
    ensures multiset(Map(Pair<K, V, W>(k, v), ValuesOf(r, k)))[row]
         == if row.0 == k && row.1.0 == Some(v) && row.1.1.Some? then multiset(r)[(k, row.1.1.value)] else 0
  {
    if row.0 == k && row.1.0 == Some(v) && row.1.1.Some? {
      MapCount(Pair<K, V, W>(k, v), ValuesOf(r, k), row.1.1.value);
      ValuesOfCount(r, k, row.1.1.value);
    } else {
      MapNone(Pair<K, V, W>(k, v), ValuesOf(r, k), row);
    }
  }

  lemma JoinCount<K(!new), V(!new), W(!new)>(kind: JoinKind, l: seq<(K, V)>, r: seq<(K, W)>, row: Row<K, V, W>)
    ensures multiset(Join(kind, l, r))[row] == Multiplicity(kind, l, r, row)
  {
    MatchesCount(l, r, row);
    LeftOnlyCount(l, r, row);
    RightOnlyCount(l, r, row);
  }

  /** Every kind of join holds the matching pairs, and no row without a value. */
  lemma MatchedRows<K(!new), V(!new), W(!new)>(kind: JoinKind, l: seq<(K, V)>, r: seq<(K, W)>, k: K, v: V, w: W)
    ensures multiset(Join(kind, l, r))[(k, (Some(v), Some(w)))] == multiset(l)[(k, v)] * multiset(r)[(k, w)]
    ensures multiset(Join(kind, l, r))[(k, (None, None))] == 0
  {
    JoinCount(kind, l, r, (k, (Some(v), Some(w))));
    JoinCount(kind, l, r, (k, (None, None)));
  }

  /** A left row without a partner stays in the left and the full outer join, and in no other. */
  lemma UnmatchedLeftRows<K(!new), V(!new), W(!new)>(l: seq<(K, V)>, r: seq<(K, W)>, k: K, v: V)
    ensures var row: Row<K, V, W> := (k, (Some(v), None));
            && multiset(Join(Inner, l, r))[row] == 0
            && multiset(Join(RightOuter, l, r))[row] == 0
            && multiset(Join(LeftOuter, l, r))[row] == (if ValuesOf(r, k) == [] then multiset(l)[(k, v)] else 0)
            && multiset(Join(FullOuter, l, r))[row] == (if ValuesOf(r, k) == [] then multiset(l)[(k, v)] else 0)
  {
    var row: Row<K, V, W> := (k, (Some(v), None));
    JoinCount(Inner, l, r, row);
    JoinCount(LeftOuter, l, r, row);
    JoinCount(RightOuter, l, r, row);
    JoinCount(FullOuter, l, r, row);
  }

  /** A right row without a partner stays in the right and the full outer join, and in no other. */
  lemma UnmatchedRightRows<K(!new), V(!new), W(!new)>(l: seq<(K, V)>, r: seq<(K, W)>, k: K, w: W)
    ensures var row: Row<K, V, W> := (k, (None, Some(w)));
            && multiset(Join(Inner, l, r))[row] == 0
            && multiset(Join(LeftOuter, l, r))[row] == 0
            && multiset(Join(RightOuter, l, r))[row] == (if ValuesOf(l, k) == [] then multiset(r)[(k, w)] else 0)
            && multiset(Join(FullOuter, l, r))[row] == (if ValuesOf(l, k) == [] then multiset(r)[(k, w)] else 0)
  {
    var row: Row<K, V, W> := (k, (None, Some(w)));
    JoinCount(Inner, l, r, row);
    JoinCount(LeftOuter, l, r, row);
    JoinCount(RightOuter, l, r, row);
    JoinCount(FullOuter, l, r, row);
  }

  lemma LeftOnlyCount<K(!new), V(!new), W(!new)>(l: seq<(K, V)>, r: seq<(K, W)>, row: Row<K, V, W>)
    ensures multiset(Map(LeftOnly<K, V, W>(), Unmatched(l, r)))[row]
         == if row.1.0.Some? && row.1.1.None? && ValuesOf(r, row.0) == []
            then multiset(l)[(row.0, row.1.0.value)] else 0
  {
    if row.1.0.Some? && row.1.1.None? {
      var x := (row.0, row.1.0.value);
      MapCount(LeftOnly<K, V, W>(), Unmatched(l, r), x);
      FilterCount(NoPartner(r), l, x);
    } else {
      MapNone(LeftOnly<K, V, W>(), Unmatched(l, r), row);
    }
  }

  lemma RightOnlyCount<K(!new), V(!new), W(!new)>(l: seq<(K, V)>, r: seq<(K, W)>, row: Row<K, V, W>)
    ensures multiset(Map(RightOnly<K, V, W>(), Unmatched(r, l)))[row]
         == if row.1.0.None? && row.1.1.Some? && ValuesOf(l, row.0) == []
            then multiset(r)[(row.0, row.1.1.value)] else 0
  {
    if row.1.0.None? && row.1.1.Some? {
      var x := (row.0, row.1.1.value);
      MapCount(RightOnly<K, V, W>(), Unmatched(r, l), x);
      FilterCount(NoPartner(l), r, x);
    } else {
      MapNone(RightOnly<K, V, W>(), Unmatched(r, l), row);
    }
  }

  // ----- dispatch

  datatype Tagged<V, W> = One(v: V) | Two(w: W)

  function Ones<V, W>(s: seq<Tagged<V, W>>): seq<V>
  {
    if s == [] then [] else if s[0].One? then [s[0].v] + Ones(s[1..]) else Ones(s[1..])
  }

  function Twos<V, W>(s: seq<Tagged<V, W>>): seq<W>
  {
    if s == [] then [] else if s[0].Two? then [s[0].w] + Twos(s[1..]) else Twos(s[1..])
  }

  lemma {:induction false} OnesSnoc<V, W>(s: seq<Tagged<V, W>>, x: Tagged<V, W>)
    ensures Ones(s + [x]) == Ones(s) + if x.One? then [x.v] else []
  {
    if s == [] {
      assert s + [x] == [x] && [x][1..] == [];
    } else {
      OnesSnoc(s[1..], x);
      assert (s + [x])[1..] == s[1..] + [x] && (s + [x])[0] == s[0];
    }
  }

  lemma {:induction false} TwosSnoc<V, W>(s: seq<Tagged<V, W>>, x: Tagged<V, W>)
    ensures Twos(s + [x]) == Twos(s) + if x.Two? then [x.w] else []
  {
    if s == [] {
      assert s + [x] == [x] && [x][1..] == [];
    } else {
      TwosSnoc(s[1..], x);
      assert (s + [x])[1..] == s[1..] + [x] && (s + [x])[0] == s[0];
    }
  }

  /** Sort the tagged values of one key into two buffers. */
  method Buffers<V, W>(s: seq<Tagged<V, W>>) returns (vbuf: seq<V>, wbuf: seq<W>)
    ensures vbuf == Ones(s) && wbuf == Twos(s)
  {
    vbuf, wbuf := [], [];
    for i := 0 to |s|
      invariant vbuf == Ones(s[..i]) && wbuf == Twos(s[..i])
    {
      assert s[..i + 1] == s[..i] + [s[i]];
      OnesSnoc(s[..i], s[i]);
      TwosSnoc(s[..i], s[i]);
      if s[i].One? { vbuf := vbuf + [s[i].v]; } else { wbuf := wbuf + [s[i].w]; }
    }
    assert s[..|s|] == s;
  }

  /** `((v, w) for v in vbuf for w in wbuf)` */
  function Product<A, B>(vs: seq<A>, ws: seq<B>): seq<(A, B)>
  {
    if vs == [] then [] else Map(With(vs[0]), ws) + Product(vs[1..], ws)
  }

  function With<A, B>(v: A): B -> (A, B)
  {
    w => (v, w)
  }

  lemma {:induction false} ProductCount<A(!new), B(!new)>(vs: seq<A>, ws: seq<B>, v: A, w: B)
    ensures multiset(Product(vs, ws))[(v, w)] == multiset(vs)[v] * multiset(ws)[w]
  {
    if vs != [] {
      ProductCount(vs[1..], ws, v, w);
      CountHead(vs, v);
      OneMore(multiset(vs[1..])[v], multiset(ws)[w]);
      if v == vs[0] { MapCount(With(vs[0]), ws, w); } else { MapNone(With(vs[0]), ws, (v, w)); }
    }
  }

  /** The buffer of a side, holding a single `None` if it is empty and must not be. */
  function Padded<T>(s: seq<T>, pad: bool): seq<Option<T>>
  {
    if s == [] && pad then [None] else Present(s)
  }

  lemma PaddedCount<T(!new)>(s: seq<T>, pad: bool, o: Option<T>)
    ensures multiset(Padded(s, pad))[o] == if o.Some? then multiset(s)[o.value] else if s == [] && pad then 1 else 0
  {
    if s == [] && pad {
    } else if o.Some? {
      MapCount((x: T) => Some(x), s, o.value);
    } else {
      MapNone((x: T) => Some(x), s, o);
    }
  }

  method DispatchInner<V, W>(s: seq<Tagged<V, W>>) returns (pairs: seq<(Option<V>, Option<W>)>)
    ensures pairs == Product(Padded(Ones(s), false), Padded(Twos(s), false))
  {
    var vbuf, wbuf := Buffers(s);
    pairs := Product(Present(vbuf), Present(wbuf));
  }

  method DispatchRightOuter<V, W>(s: seq<Tagged<V, W>>) returns (pairs: seq<(Option<V>, Option<W>)>)
    ensures pairs == Product(Padded(Ones(s), true), Padded(Twos(s), false))
  {
    var vs, ws := Buffers(s);
    var vbuf, wbuf := Present(vs), Present(ws);
    if vbuf == [] { vbuf := vbuf + [None]; assert vbuf == [None]; }
    pairs := Product(vbuf, wbuf);
  }

  method DispatchLeftOuter<V, W>(s: seq<Tagged<V, W>>) returns (pairs: seq<(Option<V>, Option<W>)>)
    ensures pairs == Product(Padded(Ones(s), false), Padded(Twos(s), true))
  {
    var vs, ws := Buffers(s);
    var vbuf, wbuf := Present(vs), Present(ws);
    if wbuf == [] { wbuf := wbuf + [None]; assert wbuf == [None]; }
    pairs := Product(vbuf, wbuf);
  }

  method DispatchFullOuter<V, W>(s: seq<Tagged<V, W>>) returns (pairs: seq<(Option<V>, Option<W>)>)
    ensures pairs == Product(Padded(Ones(s), true), Padded(Twos(s), true))
  {
    var vs, ws := Buffers(s);
    var vbuf, wbuf := Present(vs), Present(ws);
    if vbuf == [] { vbuf := vbuf + [None]; assert vbuf == [None]; }
    if wbuf == [] { wbuf := wbuf + [None]; assert wbuf == [None]; }
    pairs := Product(vbuf, wbuf);
  }

  // ----- from groups to rows

  ghost function GroupRows<K, V, W>(kind: JoinKind, group: (K, seq<Tagged<V, W>>)): seq<Row<K, V, W>>
  {
    Map(WithKey(group.0), Product(Padded(Ones(group.1), kind.KeepsRight()), Padded(Twos(group.1), kind.KeepsLeft())))
  }

  ghost function Rows<K, V, W>(kind: JoinKind, groups: seq<(K, seq<Tagged<V, W>>)>): seq<Row<K, V, W>>
  {
    if groups == [] then [] else GroupRows(kind, groups[0]) + Rows(kind, groups[1..])
  }

  lemma {:induction false} RowsAppend<K, V, W>(
      kind: JoinKind, a: seq<(K, seq<Tagged<V, W>>)>, b: seq<(K, seq<Tagged<V, W>>)>)
    ensures Rows(kind, a + b) == Rows(kind, a) + Rows(kind, b)
  {
    hide GroupRows;
    if a == [] {
      assert a + b == b;
    } else {
      var first := GroupRows(kind, a[0]);
      calc {
        Rows(kind, a + b);
        { assert (a + b)[1..] == a[1..] + b && (a + b)[0] == a[0]; }
        first + Rows(kind, a[1..] + b);
        { RowsAppend(kind, a[1..], b); }
        first + (Rows(kind, a[1..]) + Rows(kind, b));
        { Associate(first, Rows(kind, a[1..]), Rows(kind, b)); }
        Rows(kind, a) + Rows(kind, b);
      }
    }
  }

  /** How often dispatch pairs these two. */
  ghost function PairCount<V, W>(kind: JoinKind, values: seq<Tagged<V, W>>, pair: (Option<V>, Option<W>)): nat
  {
    multiset(Padded(Ones(values), kind.KeepsRight()))[pair.0] * multiset(Padded(Twos(values), kind.KeepsLeft()))[pair.1]
  }

  lemma GroupRowsCount<K(!new), V(!new), W(!new)>(kind: JoinKind, group: (K, seq<Tagged<V, W>>), row: Row<K, V, W>)
    ensures row.0 != group.0 ==> multiset(GroupRows(kind, group))[row] == 0
    ensures row.0 == group.0 ==> multiset(GroupRows(kind, group))[row] == PairCount(kind, group.1, row.1)
  {
    var vs, ws := Padded(Ones(group.1), kind.KeepsRight()), Padded(Twos(group.1), kind.KeepsLeft());
    if row.0 == group.0 {
      MapCount(WithKey<K, (Option<V>, Option<W>)>(group.0), Product(vs, ws), row.1);
      ProductCount(vs, ws, row.1.0, row.1.1);
    } else {
      MapNone(WithKey<K, (Option<V>, Option<W>)>(group.0), Product(vs, ws), row);
    }
  }

  lemma {:induction false} RowsCount<K(!new), V(!new), W(!new)>(
      kind: JoinKind, groups: seq<(K, seq<Tagged<V, W>>)>, row: Row<K, V, W>)
    requires DistinctKeys(groups)
    ensures (forall i :: 0 <= i < |groups| ==> groups[i].0 != row.0) ==> multiset(Rows(kind, groups))[row] == 0
    ensures forall i :: 0 <= i < |groups| && groups[i].0 == row.0 ==>
              multiset(Rows(kind, groups))[row] == multiset(GroupRows(kind, groups[i]))[row]
  {
    if groups != [] {
      RowsCount(kind, groups[1..], row);
      GroupRowsCount(kind, groups[0], row);
      if groups[0].0 == row.0 {
        assert forall i :: 0 <= i < |groups[1..]| ==> groups[1..][i] == groups[i + 1];
      } else {
        forall i | 0 <= i < |groups| && groups[i].0 == row.0
          ensures multiset(Rows(kind, groups))[row] == multiset(GroupRows(kind, groups[i]))[row]
        {
          assert groups[1..][i - 1] == groups[i];
        }
      }
    }
  }

  // ----- tagging and union

  function TagOne<K, V, W>(): ((K, V)) -> (K, Tagged<V, W>)
  {
    (x: (K, V)) => (x.0, One(x.1))
  }

  function TagTwo<K, V, W>(): ((K, W)) -> (K, Tagged<V, W>)
  {
    (x: (K, W)) => (x.0, Two(x.1))
  }

  /** The tagged values of a key are the values of the key on either side. */
  lemma GroupSides<K(!new), V(!new), W(!new)>(
      l: seq<(K, V)>, r: seq<(K, W)>, u: seq<(K, Tagged<V, W>)>, k: K, values: seq<Tagged<V, W>>)
    requires multiset(u) == multiset(Map(TagOne<K, V, W>(), l)) + multiset(Map(TagTwo<K, V, W>(), r))
    requires multiset(values) == multiset(ValuesOf(u, k))
    ensures multiset(Ones(values)) == multiset(ValuesOf(l, k))
    ensures multiset(Twos(values)) == multiset(ValuesOf(r, k))
  {
    forall v: V ensures multiset(Ones(values))[v] == multiset(ValuesOf(l, k))[v] {
      CountOne(l, r, u, k, v);
      OnesCount(values, v);
      ValuesOfCount(l, k, v);
    }
    forall w: W ensures multiset(Twos(values))[w] == multiset(ValuesOf(r, k))[w] {
      CountTwo(l, r, u, k, w);
      TwosCount(values, w);
      ValuesOfCount(r, k, w);
    }
  }

  lemma {:induction false} OnesCount<V, W>(s: seq<Tagged<V, W>>, v: V)
    ensures multiset(Ones(s))[v] == multiset(s)[One(v)]
  {
    if s != [] {
      OnesCount(s[1..], v);
      assert s == [s[0]] + s[1..];
    }
  }

  lemma {:induction false} TwosCount<V, W>(s: seq<Tagged<V, W>>, w: W)
    ensures multiset(Twos(s))[w] == multiset(s)[Two(w)]
  {
    if s != [] {
      TwosCount(s[1..], w);
      assert s == [s[0]] + s[1..];
    }
  }

  lemma CountOne<K(!new), V(!new), W(!new)>(l: seq<(K, V)>, r: seq<(K, W)>, u: seq<(K, Tagged<V, W>)>, k: K, v: V)
    requires multiset(u) == multiset(Map(TagOne<K, V, W>(), l)) + multiset(Map(TagTwo<K, V, W>(), r))
    ensures multiset(ValuesOf(u, k))[One(v)] == multiset(l)[(k, v)]
  {
    ValuesOfCount(u, k, One(v));
    MapCount(TagOne<K, V, W>(), l, (k, v));
    MapNone(TagTwo<K, V, W>(), r, (k, One(v)));
  }

  lemma CountTwo<K(!new), V(!new), W(!new)>(l: seq<(K, V)>, r: seq<(K, W)>, u: seq<(K, Tagged<V, W>)>, k: K, w: W)
    requires multiset(u) == multiset(Map(TagOne<K, V, W>(), l)) + multiset(Map(TagTwo<K, V, W>(), r))
    ensures multiset(ValuesOf(u, k))[Two(w)] == multiset(r)[(k, w)]
  {
    ValuesOfCount(u, k, Two(w));
    MapCount(TagTwo<K, V, W>(), r, (k, w));
    MapNone(TagOne<K, V, W>(), l, (k, Two(w)));
  }

  // ----- the join

  /** Grouping the tagged union and dispatching every group computes the join. */
  lemma GroupsJoin<K(!new), V(!new), W(!new)>(kind: JoinKind, l: seq<(K, V)>, r: seq<(K, W)>, u: seq<(K, Tagged<V, W>)>,
                                              groups: seq<(K, seq<Tagged<V, W>>)>)
    requires multiset(u) == multiset(Map(TagOne<K, V, W>(), l)) + multiset(Map(TagTwo<K, V, W>(), r))
    requires Groups(groups, u)
    ensures multiset(Rows(kind, groups)) == multiset(Join(kind, l, r))
  {
    forall row ensures multiset(Rows(kind, groups))[row] == multiset(Join(kind, l, r))[row] {
      JoinCount(kind, l, r, row);
      RowsCount(kind, groups, row);
      if i :| 0 <= i < |groups| && groups[i].0 == row.0 {
        RowInGroup(kind, l, r, u, groups[i], row);
      } else {
        assert ValuesOf(u, row.0) == [];
        GroupSides(l, r, u, row.0, []);
        NoRow(kind, l, r, row);
      }
    }
  }

  lemma NoRow<K(!new), V(!new), W(!new)>(kind: JoinKind, l: seq<(K, V)>, r: seq<(K, W)>, row: Row<K, V, W>)
    requires multiset(ValuesOf(l, row.0)) == multiset{} && multiset(ValuesOf(r, row.0)) == multiset{}
    ensures Multiplicity(kind, l, r, row) == 0
  {
    if row.1.0.Some? { ValuesOfCount(l, row.0, row.1.0.value); }
    if row.1.1.Some? { ValuesOfCount(r, row.0, row.1.1.value); }
  }

  lemma RowInGroup<K(!new), V(!new), W(!new)>(kind: JoinKind, l: seq<(K, V)>, r: seq<(K, W)>, u: seq<(K, Tagged<V, W>)>,
                                              group: (K, seq<Tagged<V, W>>), row: Row<K, V, W>)
    requires multiset(u) == multiset(Map(TagOne<K, V, W>(), l)) + multiset(Map(TagTwo<K, V, W>(), r))
    requires group.0 == row.0 && ValuesOf(u, row.0) != [] && multiset(group.1) == multiset(ValuesOf(u, row.0))
    ensures multiset(GroupRows(kind, group))[row] == Multiplicity(kind, l, r, row)
  {
    var k := row.0;
    GroupSides(l, r, u, k, group.1);
    SameEmptiness(Ones(group.1), ValuesOf(l, k));
    SameEmptiness(Twos(group.1), ValuesOf(r, k));
    SameEmptiness(group.1, ValuesOf(u, k));
    assert Ones(group.1) != [] || Twos(group.1) != [];
    if row.1.0.Some? { ValuesOfCount(l, k, row.1.0.value); }
    if row.1.1.Some? { ValuesOfCount(r, k, row.1.1.value); }
    GroupRowsCount(kind, group, row);
    PaddedCounts(kind, group.1, row.1);
  }

  lemma PaddedCounts<V(!new), W(!new)>(kind: JoinKind, values: seq<Tagged<V, W>>, pair: (Option<V>, Option<W>))
    requires Ones(values) != [] || Twos(values) != []
    ensures PairCount(kind, values, pair)
         == match pair
            case (Some(v), Some(w)) => multiset(Ones(values))[v] * multiset(Twos(values))[w]
            case (Some(v), None) => if kind.KeepsLeft() && Twos(values) == [] then multiset(Ones(values))[v] else 0
            case (None, Some(w)) => if kind.KeepsRight() && Ones(values) == [] then multiset(Twos(values))[w] else 0
            case (None, None) => 0
  {
    hide Padded, Ones, Twos;
    var vs, ws := Ones(values), Twos(values);
    var a, b := multiset(Padded(vs, kind.KeepsRight()))[pair.0], multiset(Padded(ws, kind.KeepsLeft()))[pair.1];
    assert PairCount(kind, values, pair) == a * b;
    hide PairCount;
    PaddedCount(vs, kind.KeepsRight(), pair.0);
    PaddedCount(ws, kind.KeepsLeft(), pair.1);
    PairProduct(a, b, pair.0.Some?, pair.1.Some?, vs == [] && kind.KeepsRight(), ws == [] && kind.KeepsLeft());
  }

  /** A missing side counts once if it is padded, else not at all. */
  lemma PairProduct(a: int, b: int, left: bool, right: bool, padLeft: bool, padRight: bool)
    requires !left ==> a == if padLeft then 1 else 0
    requires !right ==> b == if padRight then 1 else 0
    ensures left && !right ==> a * b == if padRight then a else 0
    ensures !left && right ==> a * b == if padLeft then b else 0
    ensures !left && !right ==> a * b == if padLeft && padRight then 1 else 0
  {
    if !left { TimesBit(b, a); }
    if !right { TimesBit(a, b); }
  }

  lemma TimesBit(a: int, bit: int)
    requires bit == 0 || bit == 1
    ensures a * bit == (if bit == 1 then a else 0) == bit * a
  {
  }

  lemma SameEmptiness<T>(a: seq<T>, b: seq<T>)
    requires multiset(a) == multiset(b)
    ensures a == [] <==> b == []
  {
    assert |multiset(a)| == |a| && |multiset(b)| == |b|;
  }

  /**
   `join`, `leftOuterJoin`, `rightOuterJoin` and `fullOuterJoin`: the rows of the join, as
   often as the relational definition says, however the two sides are partitioned.  The union
   keeps the claim of a partitioner that both sides share only if their partitions were zipped.
   */
  method PythonJoin<K(==, !new), V(!new), W(!new)>(
      kind: JoinKind, le: (K, K) -> bool, codec: Codec<seq<(K, seq<Tagged<V, W>>)>>, hash: (K, int) -> int,
      buckets: Branching, memory: nat, partitionFunc: K -> int, numPartitions: int, left: seq<seq<(K, V)>>,
      right: seq<seq<(K, W)>>, claimed: bool)
    returns (out: seq<seq<Row<K, V, W>>>)
    requires TotalOrder(le) && PickledChunks(codec) && 0 < numPartitions <= TWO_63
    requires claimed ==>
               && |left| == |right| == numPartitions
               && Partitioned(left, SplitOf(partitionFunc, numPartitions))
               && Partitioned(right, SplitOf(partitionFunc, numPartitions))
    ensures |out| == numPartitions
    ensures multiset(Flatten(out)) == multiset(Join(kind, Flatten(left), Flatten(right)))
    ensures Partitioned(out, SplitOf(partitionFunc, numPartitions))
    ensures forall s, i :: 0 <= s < numPartitions && 0 <= i < |out[s]| ==>
              partitionFunc(out[s][i].0) % numPartitions == s
  {
    var vs := seq(|left|, s requires 0 <= s < |left| => Map(TagOne<K, V, W>(), left[s]));
    var ws := seq(|right|, s requires 0 <= s < |right| => Map(TagTwo<K, V, W>(), right[s]));
    FlattenMap(TagOne<K, V, W>(), left, vs);
    FlattenMap(TagTwo<K, V, W>(), right, ws);
    var union := JvmUnion(vs, ws);
    var kept := claimed && |union| == |vs|;
    if kept { TaggedPartitioned(left, right, union, SplitOf(partitionFunc, numPartitions)); }
    var groups := GroupByKeyOf(le, codec, hash, buckets, memory, partitionFunc, numPartitions, union, kept);
    GroupsJoin(kind, Flatten(left), Flatten(right), Flatten(union), Flatten(groups));
    out := DispatchAll(kind, groups);
    RowsPartitioned(kind, groups, out, SplitOf(partitionFunc, numPartitions));
    PlacedByRemainder(out, partitionFunc, numPartitions);
  }

  lemma TaggedPartitioned<K, V, W>(
      left: seq<seq<(K, V)>>, right: seq<seq<(K, W)>>, union: seq<seq<(K, Tagged<V, W>)>>, part: K -> int)
    requires |left| == |right| == |union| && Partitioned(left, part) && Partitioned(right, part)
    requires forall s :: 0 <= s < |union| ==>
              union[s] == Map(TagOne<K, V, W>(), left[s]) + Map(TagTwo<K, V, W>(), right[s])
    ensures Partitioned(union, part)
  {
    forall s, i | 0 <= s < |union| && 0 <= i < |union[s]| ensures part(union[s][i].0) == s {
      if i < |left[s]| {
        assert union[s][i].0 == left[s][i].0;
      } else {
        assert union[s][i].0 == right[s][i - |left[s]|].0;
      }
    }
  }

  lemma {:induction false} RowKeys<K, V, W>(kind: JoinKind, groups: seq<(K, seq<Tagged<V, W>>)>, row: Row<K, V, W>)
    requires row in Rows(kind, groups)
    ensures exists i :: 0 <= i < |groups| && groups[i].0 == row.0
  {
    if groups != [] {
      if row in GroupRows(kind, groups[0]) {
        assert groups[0].0 == row.0;
      } else {
        RowKeys(kind, groups[1..], row);
        var i :| 0 <= i < |groups[1..]| && groups[1..][i].0 == row.0;
        assert groups[i + 1].0 == row.0;
      }
    }
  }

  /** `flatMapValues` keeps keys, and so the partitioner. */
  lemma RowsPartitioned<K, V, W>(kind: JoinKind, groups: seq<seq<(K, seq<Tagged<V, W>>)>>, out: seq<seq<Row<K, V, W>>>,
                                 part: K -> int)
    requires |out| == |groups| && Partitioned(groups, part)
    requires forall s :: 0 <= s < |groups| ==> out[s] == Rows(kind, groups[s])
    ensures Partitioned(out, part)
  {
    hide Rows;
    forall s, i | 0 <= s < |out| && 0 <= i < |out[s]| ensures part(out[s][i].0) == s {
      RowKeys(kind, groups[s], out[s][i]);
      var j :| 0 <= j < |groups[s]| && groups[s][j].0 == out[s][i].0;
      assert part(groups[s][j].0) == s;
    }
  }

  /** `flatMapValues(dispatch)` */
  method DispatchAll<K, V, W>(
      kind: JoinKind, groups: seq<seq<(K, seq<Tagged<V, W>>)>>)
    returns (out: seq<seq<Row<K, V, W>>>)
    ensures |out| == |groups| && Flatten(out) == Rows(kind, Flatten(groups))
    ensures forall s :: 0 <= s < |groups| ==> out[s] == Rows(kind, groups[s])
  {
    hide GroupRows;
    out := [];
    for s := 0 to |groups|
      invariant |out| == s && Flatten(out) == Rows(kind, Flatten(groups[..s]))
      invariant forall t :: 0 <= t < s ==> out[t] == Rows(kind, groups[t])
    {
      var rows := DispatchGroups(kind, groups[s]);
      FlattenSnoc(out, rows);
      FlattenUpto(groups, s);
      RowsAppend(kind, Flatten(groups[..s]), groups[s]);
      out := out + [rows];
    }
    assert groups[..|groups|] == groups;
  }

  method DispatchGroups<K, V, W>(kind: JoinKind, groups: seq<(K, seq<Tagged<V, W>>)>) returns (rows: seq<Row<K, V, W>>)
    ensures rows == Rows(kind, groups)
  {
    hide GroupRows;
    rows := [];
    for i := 0 to |groups|
      invariant rows == Rows(kind, groups[..i])
    {
      RowsSnoc(kind, groups[..i], groups[i]);
      assert groups[..i + 1] == groups[..i] + [groups[i]];
      var more := DispatchGroup(kind, groups[i]);
      rows := rows + more;
    }
    assert groups[..|groups|] == groups;
  }

  lemma RowsSnoc<K, V, W>(kind: JoinKind, groups: seq<(K, seq<Tagged<V, W>>)>, group: (K, seq<Tagged<V, W>>))
    ensures Rows(kind, groups + [group]) == Rows(kind, groups) + GroupRows(kind, group)
  {
    hide GroupRows;
    RowsAppend(kind, groups, [group]);
    assert [group][1..] == [];
    assert Rows(kind, [group]) == GroupRows(kind, group) + [];
  }

  method DispatchGroup<K, V, W>(kind: JoinKind, group: (K, seq<Tagged<V, W>>)) returns (rows: seq<Row<K, V, W>>)
    ensures rows == GroupRows(kind, group)
  {
    var pairs;
    match kind {
      case Inner => pairs := DispatchInner(group.1);
      case LeftOuter => pairs := DispatchLeftOuter(group.1);
      case RightOuter => pairs := DispatchRightOuter(group.1);
      case FullOuter => pairs := DispatchFullOuter(group.1);
    }
    rows := Map(WithKey(group.0), pairs);
  }
}
