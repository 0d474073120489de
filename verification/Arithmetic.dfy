// Facts about products, quotients and powers of two that the proofs share.

module Arithmetic {
  function Pow2(n: nat): (p: nat)
    ensures p >= 1
  {
    if n == 0 then 1 else 2 * Pow2(n - 1)
  }

  lemma DivModUnique(n: int, d: int, q: int, r: int)
    requires d > 0 && 0 <= r < d && n == d * q + r
    ensures n / d == q && n % d == r
  {
    var q', r' := n / d, n % d;
    assert n == d * q' + r';
    var k := q - q';
    assert d * k == r' - r by {
      assert d * k == d * q - d * q';
    }
    assert d * -k == -(d * k);
    if k >= 1 {
      MulAtLeast(d, k);
      assert false;
    }
    if k <= -1 {
      MulAtLeast(d, -k);
      assert false;
    }
  }

  lemma MulAtLeast(d: int, k: int)
    requires d > 0 && k >= 1
    ensures d * k >= d
  {
    assert d * k == d + d * (k - 1);
  }

  lemma MulMonotone(n: nat, a: nat, b: nat)
    ensures a <= b ==> n * a <= n * b && a * n <= b * n
  {
  }

  lemma MulHalf(x: nat, y: nat)
    ensures (2 * x) * y == x * (2 * y)
  {
  }

  /** Halving goes through a remainder by an even number. */
  lemma HalfMod(n: nat, p: nat)
    requires p > 0
    ensures (n % (2 * p)) % 2 == n % 2 && (n % (2 * p)) / 2 == (n / 2) % p
  {
    var k, b := (n / 2) / p, (n / 2) % p;
    assert n / 2 == p * k + b;
    MulHalf(p, k);
    assert 2 * (p * k) == p * (2 * k);
    DivModUnique(n, 2 * p, k, n % 2 + 2 * b);
  }

  lemma HalfDiv(n: nat, p: nat)
    requires p > 0
    ensures (n / 2) / p == n / (2 * p)
  {
    var q, r := n / (2 * p), n % (2 * p);
    assert n == (2 * p) * q + r;
    assert (2 * p) * q == 2 * (p * q);
    assert n / 2 == p * q + r / 2;
    DivModUnique(n / 2, p, q, r / 2);
  }
}
