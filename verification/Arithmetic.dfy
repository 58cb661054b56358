/** The products, quotients and remainders that the layouts are computed with. */
module Arithmetic {

  lemma {:induction false} MulMonotone(a: int, b: int, k: nat)
    requires a <= b
    ensures a * k <= b * k
  {
  }

  lemma {:induction false} Distribute(a: int, b: int, x: int)
    ensures a * x + b * x == (a + b) * x
  {
  }

  /** Quotient and remainder are unique. */
  lemma {:induction false} QuotientRemainder(n: nat, k: nat, q: nat, r: nat)
    requires r < k && n == q * k + r
    ensures n / k == q && n % k == r
  {
    var q', r' := n / k, n % k;
    assert n == q' * k + r';
    if q > q' {
      MulMonotone(q' + 1, q, k);
      Distribute(q', 1, k);
    } else if q < q' {
      MulMonotone(q + 1, q', k);
      Distribute(q, 1, k);
    }
  }

  lemma {:induction false} ModuloStep(m: nat, k: nat)
    requires k >= 1
    ensures (m + k) % k == m % k
    ensures (m + k) / k == m / k + 1
  {
    var q := m / k;
    assert m == q * k + m % k;
    Distribute(q, 1, k);
    QuotientRemainder(m + k, k, q + 1, m % k);
  }

  lemma {:induction false} MultipleModulo(m: nat, k: nat)
    requires k >= 1
    ensures m * k % k == 0
    ensures m * k / k == m
  {
    QuotientRemainder(m * k, k, m, 0);
  }

  /** A positive multiple of k has a whole k in it. */
  lemma {:induction false} NextMultiple(n: nat, k: nat, m: nat)
    requires n == m * k && n > 0
    ensures m >= 1 && n >= k && n - k == (m - 1) * k
  {
    MulMonotone(1, m, k);
    Distribute(m - 1, 1, k);
  }

  lemma {:induction false} ExactQuotient(n: nat, k: nat)
    requires k >= 1 && n % k == 0
    ensures n == n / k * k
  {
  }

  lemma {:induction false} Positive(a: nat, b: nat)
    requires a * b > 0
    ensures a >= 1 && b >= 1
  {
  }

  lemma {:induction false} QuotientBound(n: nat, m: nat, k: nat)
    requires n < m * k
    ensures k >= 1 && n / k < m && n == n / k * k + n % k
  {
    Positive(m, k);
    if n / k >= m { MulMonotone(m, n / k, k); }
  }

  lemma {:induction false} DivMod(n: nat, k: nat)
    requires k >= 1
    ensures n / k >= 0 && 0 <= n % k < k && n / k * k + n % k == n
  {
  }
}
