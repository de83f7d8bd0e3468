/** JavaScript's BigInt division. */
module BigInt {

  /** The fraction is dropped, toward zero. */
  function Quotient(n: int, d: int): int
    requires d > 0
  {
    if n >= 0 then n / d else -((-n) / d)
  }

  /** The quotient is no further from zero than the fraction, and less than one closer; signs carry over. */
  lemma TowardZero(n: int, d: int)
    requires n >= 0 && d > 0
    ensures d * Quotient(n, d) <= n < d * (Quotient(n, d) + 1)
    ensures Quotient(-n, d) == -Quotient(n, d)
  {
    assert n == d * (n / d) + n % d;
  }
}
