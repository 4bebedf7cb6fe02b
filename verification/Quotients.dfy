/** Where a quotient of reals is rounded down to, said by multiplication. */
module Quotients {

  /** `i * inc` */
  function Times(i: int, inc: real): real
  {
    i as real * inc
  }

  lemma TimesNext(i: int, inc: real)
    ensures Times(i + 1, inc) == Times(i, inc) + inc && Times(0, inc) == 0.0
  {
    assert (i + 1) as real == i as real + 1.0;
  }

  lemma TimesOrder(i: int, j: int, inc: real)
    requires inc > 0.0
    ensures i <= j <==> Times(i, inc) <= Times(j, inc)
  {
    Scale(i as real, j as real, inc);
  }

  lemma Scale(a: real, q: real, inc: real)
    requires inc > 0.0
    ensures a <= q <==> a * inc <= q * inc
  {
    if a <= q { assert (q - a) * inc >= 0.0; } else { assert (a - q) * inc > 0.0; }
  }

  /** The quotient `d / inc` lies in `[t, t + 1)` just when `d` lies between the multiples. */
  lemma FloorOfQuotient(d: real, inc: real, t: int)
    requires inc > 0.0
    ensures (d / inc).Floor == t <==> Times(t, inc) <= d < Times(t + 1, inc)
  {
    assert d / inc * inc == d;
    FloorBetween(d / inc, d, inc, t);
  }

  lemma FloorBetween(q: real, d: real, inc: real, t: int)
    requires inc > 0.0 && q * inc == d
    ensures q.Floor == t <==> Times(t, inc) <= d < Times(t + 1, inc)
  {
    NotAbove(t, q, d, inc);
    NotAbove(t + 1, q, d, inc);
    assert (t + 1) as real == t as real + 1.0;
    hide Times;
  }

  lemma NotAbove(t: int, q: real, d: real, inc: real)
    requires inc > 0.0 && q * inc == d
    ensures t as real <= q <==> Times(t, inc) <= d
  {
    Scale(t as real, q, inc);
  }
}
