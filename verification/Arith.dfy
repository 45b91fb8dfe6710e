/** Products and quotients of naturals, one fact at a time. */
module Arith {

  lemma Positive(x: nat, y: nat)
    requires 0 < x && 0 < y
    ensures 0 < x * y
  {
  }

  lemma MulLess(a: nat, b: nat, d: nat)
    requires 0 < d && a < b
    ensures a * d < b * d
  {
    assert b * d == a * d + (b - a) * d;
    Positive(b - a, d);
  }

  lemma MulAtMost(a: nat, b: nat, d: nat)
    requires a <= b
    ensures a * d <= b * d
  {
    assert b * d == a * d + (b - a) * d;
  }

  lemma ProductLess(x: nat, a: nat, y: nat, b: nat)
    requires x < a && y < b
    ensures x * y < a * b
  {
    MulAtMost(y, b, x);
    MulLess(x, a, b);
  }

  lemma CancelLess(a: nat, b: nat, d: nat)
    requires a * d < b * d
    ensures a < b
  {
    if b <= a { MulAtMost(b, a, d); }
  }

  /** Division with remainder. */
  lemma Divide(n: nat, d: nat)
    requires 0 < d
    ensures 0 <= n / d && (n / d) * d <= n < (n / d + 1) * d
  {
    assert n == d * (n / d) + n % d;
    assert (n / d + 1) * d == (n / d) * d + d;
  }

  lemma DivLess(n: nat, d: nat, q: nat)
    requires 0 < d && n < q * d
    ensures 0 <= n / d < q
  {
    Divide(n, d);
    CancelLess(n / d, q, d);
  }

  lemma FloorAtLeast(n: nat, d: nat, q: nat)
    requires 0 < d && q * d <= n
    ensures q <= n / d
  {
    Divide(n, d);
    CancelLess(q, n / d + 1, d);
  }

  lemma DivMonotone(m: nat, n: nat, d: nat)
    requires 0 < d && m <= n
    ensures m / d <= n / d
  {
    Divide(m, d);
    FloorAtLeast(n, d, m / d);
  }

  lemma DivAtMost(n: nat, d: nat)
    requires 0 < d
    ensures 0 <= n / d <= n
  {
    Divide(n, d);
    MulAtMost(1, d, n / d);
  }

  lemma QuotientBound(n: nat, d: nat, i: nat)
    requires 0 < d && n / d < i
    ensures n < d * i
  {
    Divide(n, d);
    MulAtMost(n / d + 1, i, d);
  }

  /** What a machine word with `bound` values keeps of `v`: `bound` is taken off until it fits. */
  function Wrap(v: nat, bound: nat): nat
    requires 0 < bound
    decreases v
  {
    if v < bound then v else Wrap(v - bound, bound)
  }

  lemma {:induction false} WrapIsRemainder(v: nat, bound: nat)
    requires 0 < bound
    ensures Wrap(v, bound) == v % bound
    decreases v
  {
    if v >= bound {
      WrapIsRemainder(v - bound, bound);
      var q, r := (v - bound) / bound, (v - bound) % bound;
      assert v == bound * (q + 1) + r;
      Remainder(v, bound, q + 1, r);
    }
  }

  lemma Remainder(v: nat, bound: nat, q: nat, r: nat)
    requires 0 < bound && r < bound && v == bound * q + r
    ensures v % bound == r
  {
    var d := v / bound;
    assert v == bound * d + v % bound;
    if d < q { MulAtMost(d + 1, q, bound); }
    if q < d { MulAtMost(q + 1, d, bound); }
  }
}
