/** Small facts of integer arithmetic the models lean on: products keep
    order, and Euclidean division has a unique quotient and remainder. */
module Arith {
  /** Multiplying by a non-negative number keeps order. */
  lemma MulMonotone(a: nat, b: nat, c: nat)
    requires a <= b
    ensures a * c <= b * c
  {
    assert b * c == a * c + (b - a) * c;
  }

  /** A non-zero multiple of m is at least m away from 0. */
  lemma MulAwayFromZero(d: int, m: nat)
    ensures d >= 1 ==> d * m >= m
    ensures d <= -1 ==> d * m + m <= 0
  {
    if d >= 1 {
      MulMonotone(1, d, m);
    } else if d <= -1 {
      MulMonotone(1, -d, m);
      assert (-d) * m == -(d * m);
    }
  }

  /** Euclidean division has one quotient and one remainder. */
  lemma ModUnique(n: int, m: nat, q: int, r: nat)
    requires r < m && n == q * m + r
    ensures n % m == r
  {
    var q', r' := n / m, n % m;
    assert n == q' * m + r';
    var d := q - q';
    assert d * m == r' - r by {
      assert q * m - q' * m == (q - q') * m;
    }
    MulAwayFromZero(d, m);
  }

  /** The remainder steps by one, or comes back to 0 after m - 1. */
  lemma ModNext(k: nat, m: nat)
    requires 0 < m
    ensures k % m + 1 < m ==> (k + 1) % m == k % m + 1
    ensures k % m + 1 == m ==> (k + 1) % m == 0
  {
    var q, r := k / m, k % m;
    assert k == q * m + r;
    if r + 1 < m {
      ModUnique(k + 1, m, q, r + 1);
    } else {
      assert k + 1 == (q + 1) * m + 0;
      ModUnique(k + 1, m, q + 1, 0);
    }
  }

  lemma MulSucc(a: nat, b: nat)
    ensures (a + 1) * b == a * b + b
  {
  }

  lemma MulRotate(a: nat, b: nat, c: nat)
    ensures a * (b * c) == (a * c) * b
  {
  }

  /** Reducing a factor modulo m first does not change the product modulo m. */
  lemma MulMod(a: int, b: int, m: nat)
    requires 0 < m
    ensures ((a % m) * b) % m == (a * b) % m
  {
    var q, r := a / m, a % m;
    var q2, r2 := (r * b) / m, (r * b) % m;
    SplitProduct(a, b, m, q, r, q2, r2);
    ModUnique(a * b, m, q * b + q2, r2);
  }

  lemma SplitProduct(a: int, b: int, m: nat, q: int, r: int, q2: int, r2: int)
    requires a == q * m + r && r * b == q2 * m + r2
    ensures a * b == (q * b + q2) * m + r2
  {
    assert a * b == q * m * b + r * b;
    assert q * m * b == (q * b) * m;
  }
}
