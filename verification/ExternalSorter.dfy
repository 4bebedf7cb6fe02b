/** External merge sort: sorted runs are spilled as memory fills up and merged at the end. */
module ExternalSorting {

  import opened Memory
  import opened Sequences
  import opened StableSorting

  // ----- the k-way merge

  /** `i` is the first chunk among those whose head is least. */
  ghost predicate LeastHead<T>(le: (T, T) -> bool, rest: seq<seq<T>>, i: nat)
  {
    && i < |rest| && rest[i] != []
    && (forall j :: 0 <= j < i && rest[j] != [] ==> !le(rest[j][0], rest[i][0]))
    && forall j :: i <= j < |rest| && rest[j] != [] ==> le(rest[i][0], rest[j][0])
  }

  ghost predicate AllSorted<T>(le: (T, T) -> bool, chunks: seq<seq<T>>)
  {
    forall i :: 0 <= i < |chunks| ==> Sorted(le, chunks[i])
  }

  function RemoveHead<T>(rest: seq<seq<T>>, i: nat): seq<seq<T>>
    requires i < |rest| && rest[i] != []
  {
    rest[i := rest[i][1..]]
  }

  lemma RemoveHeadFlatten<T>(rest: seq<seq<T>>, i: nat)
    requires i < |rest| && rest[i] != []
    ensures var tail := rest[i][1..] + Flatten(rest[i + 1..]);
            && Flatten(rest) == Flatten(rest[..i]) + [rest[i][0]] + tail
            && Flatten(RemoveHead(rest, i)) == Flatten(rest[..i]) + tail
  {
    var pre, x, t, post := Flatten(rest[..i]), rest[i][0], rest[i][1..], Flatten(rest[i + 1..]);
    calc {
      Flatten(rest);
      { FlattenAt(rest, i); }
      pre + rest[i] + post;
      { assert rest[i] == [x] + t; }
      pre + ([x] + t) + post;
      { Regroup(pre, x, t, post); }
      pre + [x] + (t + post);
    }
    var rest' := RemoveHead(rest, i);
    assert rest'[..i] == rest[..i] && rest'[i + 1..] == rest[i + 1..];
    calc {
      Flatten(rest');
      { FlattenAt(rest', i); }
      pre + t + post;
      { assert pre + t + post == pre + (t + post); }
      pre + (t + post);
    }
  }

  lemma Regroup<T>(a: seq<T>, x: T, b: seq<T>, c: seq<T>)
    ensures a + ([x] + b) + c == a + [x] + (b + c)
  {
  }

  /** The least head comes before everything that is left, strictly before what precedes it. */
  lemma LeastHeadBounds<T(!new)>(le: (T, T) -> bool, rest: seq<seq<T>>, i: nat)
    requires TotalPreorder(le) && AllSorted(le, rest) && LeastHead(le, rest, i)
    ensures forall y :: y in Flatten(rest) ==> le(rest[i][0], y)
    ensures forall y :: y in Flatten(rest[..i]) ==> !le(y, rest[i][0])
  {
    var x := rest[i][0];
    forall y | y in Flatten(rest) ensures le(x, y) {
      InFlatten(rest, y);
      var j :| 0 <= j < |rest| && y in rest[j];
      assert le(rest[j][0], y) by { HeadFirst(le, rest[j], y); }
      assert le(x, rest[j][0]);
    }
    forall y | y in Flatten(rest[..i]) ensures !le(y, x) {
      InFlatten(rest[..i], y);
      var j :| 0 <= j < i && y in rest[..i][j];
      assert le(rest[j][0], y) by { HeadFirst(le, rest[j], y); }
    }
  }

  lemma HeadFirst<T(!new)>(le: (T, T) -> bool, s: seq<T>, y: T)
    requires TotalPreorder(le) && Sorted(le, s) && y in s
    ensures le(s[0], y)
  {
    var i :| 0 <= i < |s| && s[i] == y;
  }

  /** Moving the least head in front of the rest leaves every class as it was. */
  lemma TakeHead<T(!new)>(le: (T, T) -> bool, out: seq<T>, rest: seq<seq<T>>, i: nat)
    requires TotalPreorder(le) && AllSorted(le, rest) && LeastHead(le, rest, i)
    ensures SameClasses(le, out + [rest[i][0]] + Flatten(RemoveHead(rest, i)), out + Flatten(rest))
  {
    RemoveHeadFlatten(rest, i);
    LeastHeadBounds(le, rest, i);
    var x, pre, tail := rest[i][0], Flatten(rest[..i]), rest[i][1..] + Flatten(rest[i + 1..]);
    forall g ensures Filter(Like(le, g), out + [x] + (pre + tail)) == Filter(Like(le, g), out + (pre + [x] + tail)) {
      var p := Like(le, g);
      if p(x) { FilterNone(p, pre); }
      FilterSwap(p, out, x, pre, tail);
    }
  }

  lemma FilterSwap<T>(p: T -> bool, out: seq<T>, x: T, pre: seq<T>, tail: seq<T>)
    requires p(x) ==> Filter(p, pre) == []
    ensures Filter(p, out + [x] + (pre + tail)) == Filter(p, out + (pre + [x] + tail))
  {
    var o, f, t := Filter(p, out), Filter(p, pre), Filter(p, tail);
    var e := if p(x) then [x] else [];
    calc {
      Filter(p, out + [x] + (pre + tail));
      { FilterAppend(p, out + [x], pre + tail); FilterSnoc(p, out, x); FilterAppend(p, pre, tail); }
      (o + e) + (f + t);
      { assert (o + e) + (f + t) == o + ((f + e) + t); }
      o + ((f + e) + t);
      { FilterSnoc(p, pre, x); FilterAppend(p, pre + [x], tail); }
      o + Filter(p, pre + [x] + tail);
      { FilterAppend(p, out, pre + [x] + tail); }
      Filter(p, out + (pre + [x] + tail));
    }
  }

  method PickLeast<T(!new)>(le: (T, T) -> bool, rest: seq<seq<T>>) returns (found: bool, i: nat)
    requires TotalPreorder(le)
    ensures found ==> LeastHead(le, rest, i)
    ensures !found ==> forall j :: 0 <= j < |rest| ==> rest[j] == []
  {
    found, i := false, 0;
    for n := 0 to |rest|
      invariant found ==> i < n && LeastHead(le, rest[..n], i)
      invariant !found ==> forall j :: 0 <= j < n ==> rest[j] == []
    {
      if rest[n] != [] && (!found || !le(rest[i][0], rest[n][0])) {
        found, i := true, n;
      }
    }
    assert rest[..|rest|] == rest;
  }

  /** What has been merged, `out`, is the start of the stable sort of `all`; `rest` is still to come. */
  ghost predicate Merging<T(!new)>(le: (T, T) -> bool, out: seq<T>, rest: seq<seq<T>>, all: seq<T>)
  {
    && AllSorted(le, rest) && Sorted(le, out)
    && (forall x, y :: x in out && y in Flatten(rest) ==> le(x, y))
    && SameClasses(le, out + Flatten(rest), all)
  }

  lemma MergeStep<T(!new)>(le: (T, T) -> bool, out: seq<T>, rest: seq<seq<T>>, i: nat, all: seq<T>)
    requires TotalPreorder(le) && Merging(le, out, rest, all) && LeastHead(le, rest, i)
    ensures Merging(le, out + [rest[i][0]], RemoveHead(rest, i), all)
    ensures |Flatten(RemoveHead(rest, i))| < |Flatten(rest)|
  {
    hide Flatten, Filter;
    var x, rest' := rest[i][0], RemoveHead(rest, i);
    TakeHead(le, out, rest, i);
    LeastHeadBounds(le, rest, i);
    RemoveHeadFlatten(rest, i);
    assert x in Flatten(rest);
    assert forall y :: y in Flatten(rest') ==> y in Flatten(rest);
    forall g ensures Filter(Like(le, g), out + [x] + Flatten(rest')) == Filter(Like(le, g), all) {
      assert Filter(Like(le, g), out + [x] + Flatten(rest')) == Filter(Like(le, g), out + Flatten(rest));
    }
  }

  /** `heapq.merge`: always the least head, the earliest chunk first among equals. */
  method HeapMerge<T(!new)>(le: (T, T) -> bool, chunks: seq<seq<T>>) returns (out: seq<T>)
    requires TotalPreorder(le) && AllSorted(le, chunks)
    ensures out == StableSort(le, Flatten(chunks))
  {
    hide TotalPreorder, Flatten, StableSort, RemoveHead;
    out := [];
    var rest := chunks;
    assert out + Flatten(rest) == Flatten(chunks);
    assert Merging(le, out, rest, Flatten(chunks));
    hide Merging;
    var more, i := PickLeast(le, rest);
    while more
      invariant Merging(le, out, rest, Flatten(chunks))
      invariant if more then LeastHead(le, rest, i) else forall j :: 0 <= j < |rest| ==> rest[j] == []
      decreases |Flatten(rest)|
    {
      MergeStep(le, out, rest, i, Flatten(chunks));
      out, rest := out + [rest[i][0]], RemoveHead(rest, i);
      more, i := PickLeast(le, rest);
    }
    MergeDone(le, out, rest, Flatten(chunks));
  }

  lemma MergeDone<T(!new)>(le: (T, T) -> bool, out: seq<T>, rest: seq<seq<T>>, all: seq<T>)
    requires TotalPreorder(le) && Merging(le, out, rest, all) && forall j :: 0 <= j < |rest| ==> rest[j] == []
    ensures out == StableSort(le, all)
  {
    FlattenEmpty(rest);
    assert out + Flatten(rest) == out;
    StableSortUnique(le, all, out);
  }

  // ----- the sorter

  ghost predicate SortedEach<T>(le: (T, T) -> bool, pieces: seq<seq<T>>, chunks: seq<seq<T>>)
  {
    |pieces| == |chunks| && forall i :: 0 <= i < |pieces| ==> chunks[i] == StableSort(le, pieces[i])
  }

  /** Sorting consecutive pieces keeps every class of the whole. */
  lemma {:induction false} SortedPieces<T(!new)>(le: (T, T) -> bool, pieces: seq<seq<T>>, chunks: seq<seq<T>>)
    requires TotalPreorder(le) && SortedEach(le, pieces, chunks)
    ensures AllSorted(le, chunks) && SameClasses(le, Flatten(chunks), Flatten(pieces))
  {
    if pieces != [] {
      SortedPieces(le, pieces[1..], chunks[1..]);
      StableSortIsStable(le, pieces[0]);
      forall i | 0 <= i < |chunks| ensures Sorted(le, chunks[i]) {
        if i > 0 { assert chunks[i] == chunks[1..][i - 1]; }
      }
      forall g ensures Filter(Like(le, g), Flatten(chunks)) == Filter(Like(le, g), Flatten(pieces)) {
        FilterAppend(Like(le, g), chunks[0], Flatten(chunks[1..]));
        FilterAppend(Like(le, g), pieces[0], Flatten(pieces[1..]));
      }
    }
  }

  /** The stable sort of the whole is the stable merge of the sorted pieces. */
  lemma MergedPieces<T(!new)>(le: (T, T) -> bool, pieces: seq<seq<T>>, chunks: seq<seq<T>>)
    requires TotalPreorder(le) && SortedEach(le, pieces, chunks)
    ensures StableSort(le, Flatten(chunks)) == StableSort(le, Flatten(pieces))
  {
    SortedPieces(le, pieces, chunks);
    StableSortIsStable(le, Flatten(chunks));
    var t := StableSort(le, Flatten(chunks));
    forall g ensures Filter(Like(le, g), t) == Filter(Like(le, g), Flatten(pieces)) {
      assert Filter(Like(le, g), t) == Filter(Like(le, g), Flatten(chunks));
    }
    StableSortUnique(le, Flatten(pieces), t);
  }

  lemma NextItems<T>(before: seq<T>, current: seq<T>, items: seq<T>, pos: nat, end: nat)
    requires pos <= end <= |items| && before + current == items[..pos]
    ensures before + (current + items[pos..end]) == items[..end]
  {
    assert items[..end] == items[..pos] + items[pos..end];
  }

  /** `ExternalSorter(memory_limit).sorted(iterator, key, reverse)` */
  method ExternalSort<T(!new), R(!new)>(
      memoryLimit: real, items: seq<T>, leKey: (R, R) -> bool, key: T -> R, reverse: bool)
    returns (out: seq<T>)
    requires TotalPreorder(leKey)
    ensures out == StableSort(Direction(By(leKey, key), reverse), items)
    ensures forall i, j :: 0 <= i < j < |out| ==>
              if reverse then leKey(key(out[j]), key(out[i])) else leKey(key(out[i]), key(out[j]))
    ensures forall x :: Filter(SameKey(leKey, key, x), out) == Filter(SameKey(leKey, key, x), items)
  {
    var le := Direction(By(leKey, key), reverse);
    var batch := 100;
    var limit, _ := NextLimit(memoryLimit);
    var chunks, currentChunk, pos := [], [], 0;
    ghost var pieces := [];
    var more := true;
    while more
      invariant 100 <= batch && 0 <= pos <= |items|
      invariant SortedEach(le, pieces, chunks)
      invariant Flatten(pieces) + currentChunk == items[..pos]
      invariant !more ==> pos == |items|
      decreases more, |items| - pos
    {
      var end := if pos + batch <= |items| then pos + batch else |items|;
      var chunk := items[pos..end];
      NextItems(Flatten(pieces), currentChunk, items, pos, end);
      currentChunk, pos := currentChunk + chunk, end;
      if |chunk| < batch {
        more := false;
      } else {
        var used := GetUsedMemory();
        if used as real > limit {
          FlattenSnoc(pieces, currentChunk);
          assert Flatten(pieces) + currentChunk + [] == Flatten(pieces) + currentChunk;
          pieces := pieces + [currentChunk];
          chunks := chunks + [StableSort(le, currentChunk)];
          currentChunk := [];
        } else if chunks == [] {
          batch := (batch as real * 1.5).Floor;
          if batch > 10000 { batch := 10000; }
        }
      }
    }
    assert items[..|items|] == items;
    if chunks == [] {
      assert pieces == [];
      SortedAndStable(leKey, key, reverse, items);
      return StableSort(le, currentChunk);
    }
    DirectionTotal(By(leKey, key), reverse);
    LastPiece(le, pieces, currentChunk);
    var last := StableSort(le, currentChunk);
    if last != [] { chunks := chunks + [last]; }
    ghost var all := if last != [] then pieces + [currentChunk] else pieces;
    SortedPieces(le, all, chunks);
    MergedPieces(le, all, chunks);
    out := HeapMerge(le, chunks);
    SortedAndStable(leKey, key, reverse, items);
  }

  /** In terms of keys: sorted in the direction asked for, and elements with equal keys in their order. */
  lemma SortedAndStable<T(!new), R(!new)>(leKey: (R, R) -> bool, key: T -> R, reverse: bool, items: seq<T>)
    requires TotalPreorder(leKey)
    ensures var out := StableSort(Direction(By(leKey, key), reverse), items);
            && (forall i, j :: 0 <= i < j < |out| ==>
                  if reverse then leKey(key(out[j]), key(out[i])) else leKey(key(out[i]), key(out[j])))
            && forall x :: Filter(SameKey(leKey, key, x), out) == Filter(SameKey(leKey, key, x), items)
  {
    var order := Direction(By(leKey, key), reverse);
    DirectionTotal(By(leKey, key), reverse);
    StableSortIsStable(order, items);
    SortedMeans(leKey, key, reverse, StableSort(order, items));
    ClassesMean(leKey, key, reverse, StableSort(order, items), items);
  }

  /** The chunk in memory is the last piece, unless it is empty. */
  lemma LastPiece<T>(le: (T, T) -> bool, pieces: seq<seq<T>>, chunk: seq<T>)
    ensures Flatten(if StableSort(le, chunk) != [] then pieces + [chunk] else pieces) == Flatten(pieces) + chunk
  {
    FlattenSnoc(pieces, chunk);
    StableSortPermutes(le, chunk);
    if StableSort(le, chunk) == [] {
      assert |multiset(chunk)| == |chunk|;
      assert chunk == [];
    }
  }
}
