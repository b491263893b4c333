/** Facts about products and quotients that the solver does not find by itself. */
module Arith {

  lemma Scaled(k: int, a: int, b: int)
    requires k >= 0 && a <= b
    ensures k * a <= k * b
  {
  }

  lemma Quotient(d: int, n: int)
    requires n >= 1
    ensures n * (d / n) <= d < n * (d / n + 1)
  {
  }

  /** A multiple of n below another by less than n tells which quotient it is. */
  lemma {:induction false} Between(n: int, a: int, b: int)
    requires n >= 1 && n * a < n * b
    ensures a < b
  {
    if a >= b {
      Scaled(n, b, a);
      assert false;
    }
  }

  lemma QuotientIs(d: int, n: int, q: int)
    requires n >= 1 && n * q <= d < n * (q + 1)
    ensures d / n == q
  {
    Quotient(d, n);
    Between(n, q, d / n + 1);
    Between(n, d / n, q + 1);
  }
}
