/** Facts about remainders by a modulus that is not a literal. */
module Remainders {
  /** The remainder is the only number below the modulus that differs from `x` by a multiple of it. */
  lemma RemainderIs(x: int, k: int, a: nat, modulus: nat)
    requires a < modulus && x == a + k * modulus
    ensures x % modulus == a
  {
    var q, r := x / modulus, x % modulus;
    QuotientAndRemainder(x, modulus);
    Distribute(k, q, modulus);
    NoMultipleBetween(k - q, modulus);
  }

  lemma QuotientAndRemainder(x: int, modulus: nat)
    requires modulus > 0
    ensures x == x / modulus * modulus + x % modulus
  {
  }

  lemma Distribute(k: int, q: int, m: int)
    ensures (k - q) * m == k * m - q * m
  {
  }

  lemma NoMultipleBetween(d: int, m: nat)
    requires 0 - m < d * m < m
    ensures d == 0
  {
    if d >= 1 {
      Distribute(d, 1, m);
      NonNegativeProduct(d - 1, m);
    } else if d <= -1 {
      Distribute(-1, d, m);
      NonNegativeProduct(-1 - d, m);
    }
  }

  lemma NonNegativeProduct(a: nat, b: nat)
    ensures a * b >= 0
  {
  }

  lemma RemainderShift(a: int, k: int, n: nat)
    requires n > 0
    ensures (a + k * n) % n == a % n
  {
    QuotientAndRemainder(a, n);
    Distribute(a / n, -k, n);
    RemainderIs(a + k * n, a / n + k, a % n, n);
  }

  lemma RemainderSmall(a: nat, n: nat)
    requires a < n
    ensures a % n == a
  {
    RemainderIs(a, 0, a, n);
  }
}
