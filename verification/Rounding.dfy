/** Rounding to the nearest integer, ties to even: the default rounding of decimal quantisation. */
module Rounding {

  function HalfEven(n: int, d: int): int
    requires d > 0
  {
    var q, r := n / d, n % d;
    if 2 * r < d then q
    else if 2 * r > d then q + 1
    else if q % 2 == 0 then q
    else q + 1
  }

  /** What rounding half to even means, without division: q is nearest to n/d, and even when two integers are. */
  ghost predicate IsHalfEven(n: int, d: int, q: int) {
    || -d < 2 * (n - d * q) < d
    || ((2 * (n - d * q) == d || 2 * (n - d * q) == -d) && q % 2 == 0)
  }

  lemma {:induction false} MulOrder(d: int, a: int, b: int)
    requires d > 0 && a <= b
    ensures d * a <= d * b
    ensures a < b ==> d * a + d <= d * b
    decreases b - a
  {
    if a < b {
      MulOrder(d, a, b - 1);
      assert d * b == d * (b - 1) + d;
    }
  }

  lemma NearestOfQuotient(f: int, r: int, d: int, q: int)
    requires 0 <= r < d
    ensures var up := 2 * r > d || (2 * r == d && f % 2 == 1);
            q == (if up then f + 1 else f) <==> IsHalfEven(d * f + r, d, q)
  {
    if q == f {
    } else if q == f + 1 {
      assert d * q == d * f + d;
    } else if q < f {
      MulOrder(d, q, f);
    } else {
      MulOrder(d, f + 1, q);
      assert d * (f + 1) == d * f + d;
    }
  }

  /** HalfEven computes the one integer that satisfies its definition. */
  lemma HalfEvenUnique(n: int, d: int, q: int)
    requires d > 0
    ensures q == HalfEven(n, d) <==> IsHalfEven(n, d, q)
  {
    NearestOfQuotient(n / d, n % d, d, q);
    assert n == d * (n / d) + n % d;
  }

  lemma HalfEvenMonotone(n: int, m: int, d: int)
    requires d > 0 && n <= m
    ensures HalfEven(n, d) <= HalfEven(m, d)
  {
    var a, b := HalfEven(n, d), HalfEven(m, d);
    HalfEvenUnique(n, d, a);
    HalfEvenUnique(m, d, b);
    if b < a {
      MulOrder(d, b, a);
    }
  }

  /** Whole multiples are left alone. */
  lemma HalfEvenExact(q: int, d: int)
    requires d > 0
    ensures HalfEven(q * d, d) == q
  {
    HalfEvenUnique(q * d, d, q);
  }
}
