/** The few facts about products and quotients of two variables that the other modules need, one
    step each. */
module Arithmetic {

  /** Division with remainder. */
  lemma Quotient(k: nat, m: nat)
    requires m > 0
    ensures k == m * (k / m) + k % m && k % m < m
  {
  }

  lemma MulMono(a: nat, b: nat, k: nat)
    requires a <= b
    ensures a * k <= b * k
  {
    assert (b - a) * k >= 0;
  }

  lemma Multiple(a: nat, b: nat, k: nat)
    requires a < b
    ensures a * k + k <= b * k
  {
    MulMono(a + 1, b, k);
  }

  lemma Commute(a: nat, b: nat)
    ensures a * b == b * a
  {
  }

  lemma AtLeastOne(d: int, len: nat)
    requires d >= 1
    ensures d * len >= len
  {
    assert (d - 1) * len >= 0;
  }

  /** A quotient and remainder are the only ones. */
  lemma DivModUnique(k: nat, len: nat, q: nat, r: nat)
    requires r < len && k == q * len + r
    ensures k / len == q && k % len == r
  {
    Quotient(k, len);
    Commute(len, k / len);
    if q < k / len {
      Multiple(q, k / len, len);
    } else if k / len < q {
      Multiple(k / len, q, len);
    }
  }

  lemma DivAtLeast(len: nat, n: nat, b: nat)
    requires n > 0 && b * n <= len
    ensures b <= len / n
  {
    Quotient(len, n);
    Commute(n, len / n);
    if len / n < b {
      Multiple(len / n, b, n);
    }
  }

  lemma DivAtMost(len: nat, n: nat)
    requires n > 0
    ensures len / n <= len
  {
    Quotient(len, n);
    MulMono(1, n, len / n);
  }
}
