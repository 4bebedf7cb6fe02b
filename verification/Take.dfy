/** `take(num)`: scan a few partitions at a time, estimating how many more are needed. */
module Taking {

  import opened Quotients
  import opened Sequences

  /** The first `n` elements, or all if there are fewer. */
  function Prefix<T>(s: seq<T>, n: int): seq<T>
  {
    if n <= 0 then [] else if n <= |s| then s[..n] else s
  }

  /** Each partition cut after `left` elements: what one job returns, chained. */
  function Truncated<T>(parts: seq<seq<T>>, left: int): seq<T>
  {
    if parts == [] then [] else Prefix(parts[0], left) + Truncated(parts[1..], left)
  }

  /** Cutting every partition at `left` does not show in the first `m <= left` elements. */
  lemma {:induction false} TruncatedPrefix<T>(parts: seq<seq<T>>, left: int, m: int)
    requires m <= left
    ensures Prefix(Truncated(parts, left), m) == Prefix(Flatten(parts), m)
  {
    if parts != [] && m > 0 {
      var p := parts[0];
      if |p| < m {
        assert Prefix(p, left) == p;
        TruncatedPrefix(parts[1..], left, m - |p|);
        PrefixConcat(p, Truncated(parts[1..], left), m);
        PrefixConcat(p, Flatten(parts[1..]), m);
      } else {
        assert Prefix(p, left)[..m] == p[..m];
      }
    }
  }

  lemma PrefixConcat<T>(a: seq<T>, b: seq<T>, m: int)
    requires |a| <= m
    ensures Prefix(a + b, m) == a + Prefix(b, m - |a|)
  {
  }

  /** The fewest leading partitions that hold `num` elements, or all of them. */
  ghost function Needed<T>(parts: seq<seq<T>>, num: int): (k: nat)
    ensures k <= |parts|
  {
    if parts == [] || num <= 0 then 0 else 1 + Needed(parts[1..], num - |parts[0]|)
  }

  lemma {:induction false} NeededIsLeast<T>(parts: seq<seq<T>>, num: int, i: nat)
    requires i <= |parts|
    ensures i < Needed(parts, num) ==> |Flatten(parts[..i])| < num
    ensures i >= Needed(parts, num) ==> |Flatten(parts[..i])| >= num || Needed(parts, num) == |parts|
  {
    if parts != [] && num > 0 && i > 0 {
      NeededIsLeast(parts[1..], num - |parts[0]|, i - 1);
      assert parts[..i][1..] == parts[1..][..i - 1];
    }
  }

  /** `takeUpToNumLeft` */
  method TakeUpTo<T>(partition: seq<T>, left: int) returns (r: seq<T>)
    ensures r == Prefix(partition, left)
  {
    r := [];
    var taken := 0;
    while taken < left
      invariant 0 <= taken <= |partition| && r == partition[..taken]
      invariant left > 0 ==> taken <= left
      invariant left <= 0 ==> taken == 0
    {
      if taken == |partition| { break; }
      r := r + [partition[taken]];
      taken := taken + 1;
    }
  }

  /** `runJob(rdd, takeUpToNumLeft, range(from, to))` */
  method RunJob<T>(parts: seq<seq<T>>, from: nat, to: nat, left: int) returns (r: seq<T>)
    requires from <= to <= |parts|
    ensures r == Truncated(parts[from..to], left)
  {
    r := [];
    var i := to;
    while i > from
      invariant from <= i <= to
      invariant r == Truncated(parts[i..to], left)
    {
      i := i - 1;
      var items := TakeUpTo(parts[i], left);
      assert parts[i..to][1..] == parts[i + 1..to];
      r := items + r;
    }
  }

  /** `total` partitions, rounded down, would at this rate yield one and a half times `num`. */
  lemma Interpolated(num: int, found: nat, scanned: nat, total: int)
    requires found > 0 && total == (1.5 * num as real * scanned as real / found as real).Floor
    ensures 2 * (total * found) <= 3 * (num * scanned) < 2 * ((total + 1) * found)
  {
    hide *;
    FloorOfQuotient(1.5 * num as real * scanned as real, found as real, total);
    Whole(total, found);
    Whole(total + 1, found);
    OneAndAHalf(num, scanned);
    Doubled(total * found, num * scanned, (total + 1) * found);
  }

  lemma Whole(i: int, n: int)
    ensures Times(i, n as real) == (i * n) as real
  {
  }

  lemma OneAndAHalf(i: int, n: int)
    ensures 1.5 * i as real * n as real == 1.5 * (i * n) as real
  {
  }

  lemma Doubled(low: int, x: int, high: int)
    requires low as real <= 1.5 * x as real < high as real
    ensures 2 * low <= 3 * x < 2 * high
  {
  }

  /** How many partitions to try next: one at first, then at most four times those tried so far. */
  method NumPartsToTry(num: int, found: nat, scanned: nat) returns (n: int)
    requires found < num
    ensures 1 <= n && (scanned == 0 ==> n == 1) && (scanned > 0 ==> n <= 4 * scanned)
    ensures scanned > 0 && found == 0 ==> n == 4 * scanned
    ensures scanned > 0 && found > 0 && n > 1 ==> 2 * ((scanned + n) * found) <= 3 * (num * scanned)
    ensures scanned > 0 && found > 0 && n < 4 * scanned ==> 3 * (num * scanned) < 2 * ((scanned + n + 1) * found)
  {
    n := 1;
    if scanned > 0 {
      if found == 0 {
        n := scanned * 4;
      } else {
        n := (1.5 * num as real * scanned as real / found as real).Floor - scanned;
        Interpolated(num, found, scanned, n + scanned);
        n := if n < 1 then 1 else n;
        n := if n > scanned * 4 then scanned * 4 else n;
      }
    }
  }

  /** Jobs run on consecutive ranges of partitions, starting at the first. */
  ghost predicate Consecutive(jobs: seq<(nat, nat)>, end: nat)
  {
    && (forall j :: 0 <= j < |jobs| ==> jobs[j].0 <= jobs[j].1)
    && (forall j :: 0 <= j < |jobs| - 1 ==> jobs[j].1 == jobs[j + 1].0)
    && (if jobs == [] then end == 0 else jobs[0].0 == 0 && jobs[|jobs| - 1].1 == end)
  }

  /**
   `take(num)`: exactly the first `num` elements.  No partition is run twice, and with `k`
   the fewest leading partitions that would do, at least `k` and at most `max(1, 5 (k - 1))` are run.
   */
  method Take<T>(parts: seq<seq<T>>, num: int) returns (r: seq<T>, jobs: seq<(nat, nat)>, ran: nat)
    ensures r == Prefix(Flatten(parts), num)
    ensures r <= Flatten(parts)
    ensures |r| == if num < 0 then 0 else if num < |Flatten(parts)| then num else |Flatten(parts)|
    ensures Consecutive(jobs, ran) && Needed(parts, num) <= ran <= |parts|
    ensures ran <= 1 || ran <= 5 * (Needed(parts, num) - 1)
  {
    hide Truncated, Needed;
    var items := [];
    var totalParts := |parts|;
    var partsScanned := 0;
    jobs, ran := [], 0;
    while |items| < num && partsScanned < totalParts
      invariant 0 <= partsScanned && ran == (if partsScanned < totalParts then partsScanned else totalParts)
      invariant Prefix(items, num) == Prefix(Flatten(parts[..ran]), num)
      invariant Consecutive(jobs, ran)
      invariant ran <= 1 || ran <= 5 * (Needed(parts, num) - 1)
      decreases totalParts - partsScanned
    {
      var numPartsToTry := NumPartsToTry(num, |items|, partsScanned);
      var left := num - |items|;
      var end := if partsScanned + numPartsToTry < totalParts then partsScanned + numPartsToTry else totalParts;
      var res := RunJob(parts, partsScanned, end, left);
      StillMissing(parts, num, items, ran);
      NextJob(parts, num, items, ran, end, left);
      jobs := jobs + [(partsScanned, end)];
      items := items + res;
      partsScanned := partsScanned + numPartsToTry;
      ran := end;
    }
    assert parts[..|parts|] == parts;
    if |items| >= num { EnoughFound(parts, num, items, ran); }
    EnoughRun(parts, num, items, ran);
    r := if num < 0 then [] else Prefix(items, num);
  }

  /** While elements are missing, all of those in the partitions run so far have been found. */
  lemma StillMissing<T>(parts: seq<seq<T>>, num: int, items: seq<T>, ran: nat)
    requires ran <= |parts| && |items| < num && Prefix(items, num) == Prefix(Flatten(parts[..ran]), num)
    ensures items == Flatten(parts[..ran])
    ensures ran < |parts| ==> ran < Needed(parts, num)
  {
    NeededIsLeast(parts, num, ran);
  }

  lemma NextJob<T>(parts: seq<seq<T>>, num: int, items: seq<T>, ran: nat, end: nat, left: int)
    requires ran <= end <= |parts| && items == Flatten(parts[..ran]) && left == num - |items| && left > 0
    ensures Prefix(items + Truncated(parts[ran..end], left), num) == Prefix(Flatten(parts[..end]), num)
  {
    assert parts[..end] == parts[..ran] + parts[ran..end];
    FlattenAppend(parts[..ran], parts[ran..end]);
    TruncatedPrefix(parts[ran..end], left, left);
    PrefixConcat(items, Truncated(parts[ran..end], left), num);
    PrefixConcat(items, Flatten(parts[ran..end]), num);
  }

  /** A scan that ends has run every partition that is needed. */
  lemma EnoughRun<T>(parts: seq<seq<T>>, num: int, items: seq<T>, ran: nat)
    requires ran <= |parts| && Prefix(items, num) == Prefix(Flatten(parts[..ran]), num)
    requires |items| >= num || ran == |parts|
    ensures Needed(parts, num) <= ran
  {
    if |items| >= num > 0 {
      assert |Flatten(parts[..ran])| >= num;
      NeededIsLeast(parts, num, ran);
    }
  }

  lemma EnoughFound<T>(parts: seq<seq<T>>, num: int, items: seq<T>, ran: nat)
    requires ran <= |parts| && |items| >= num && Prefix(items, num) == Prefix(Flatten(parts[..ran]), num)
    ensures Prefix(items, num) == Prefix(Flatten(parts), num)
  {
    FlattenPrefix(parts, ran);
    var f := Flatten(parts[..ran]);
    if num > 0 {
      assert |f| >= num;
      assert f[..num] == Flatten(parts)[..num];
    }
  }
}
