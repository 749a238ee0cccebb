/** Facts about non-linear integer arithmetic that the solver does not find on its own. */
module Arith {

  lemma MulMonotone(a: nat, d: nat)
    ensures (a + 1) * d >= d
  {
  }

  lemma MulLe(a: nat, b: nat, c: nat)
    requires a <= b
    ensures a * c <= b * c
  {
    assert b * c == a * c + (b - a) * c;
  }

  /** Quotient and remainder are determined by n == q * d + r with 0 <= r < d. */
  lemma DivModUnique(n: int, d: int, q: int, r: int)
    requires d > 0 && 0 <= r < d && n == q * d + r
    ensures n / d == q && n % d == r
  {
    var q', r' := n / d, n % d;
    assert (q - q') * d == r' - r;
    if q - q' > 0 {
      assert (q - q') * d >= d by { MulMonotone(q - q' - 1, d); }
    } else if q - q' < 0 {
      assert (q' - q) * d >= d by { MulMonotone(q' - q - 1, d); }
    }
  }

  /** A number below count * d has its quotient by d below count. */
  lemma DivBelow(i: nat, d: nat, count: nat)
    requires d > 0 && i < count * d
    ensures i / d < count
  {
    if i / d >= count {
      assert (i / d) * d >= count * d by { MulLe(count, i / d, d); }
    }
  }

  /** q * d + r stays below count * d when q < count and r < d. */
  lemma MulAddBelow(q: nat, r: nat, d: nat, count: nat)
    requires q < count && r < d
    ensures q * d + r < count * d
  {
    MulLe(q + 1, count, d);
  }
}
