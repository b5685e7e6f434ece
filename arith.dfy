/** Facts about products and Euclidean remainders used by index arithmetic. */
module Arith {
  /** Below a larger factor there is room for one more multiple. */
  lemma MulStrict(x: nat, y: nat, n: nat)
    requires x < y
    ensures x * n + n <= y * n
  {
    var e := y - x - 1;
    assert y * n == x * n + n + e * n;
  }

  /** Euclidean division has one quotient and one remainder. */
  lemma ModUnique(x: nat, n: nat, d: nat, r: nat)
    requires r < n && x == d * n + r
    ensures x % n == r
  {
    var d', r' := x / n, x % n;
    assert x == d' * n + r';
    if d' < d {
      MulStrict(d', d, n);
    } else if d < d' {
      MulStrict(d, d', n);
    }
  }

  /** The remainder of p + 1 is the next remainder of p, wrapping to 0 at n. */
  lemma ModSucc(p: nat, n: nat)
    requires n > 0
    ensures (p + 1) % n == if p % n + 1 == n then 0 else p % n + 1
  {
    var d, q := p / n, p % n;
    assert p == d * n + q;
    if q + 1 < n {
      ModUnique(p + 1, n, d, q + 1);
    } else {
      assert p + 1 == (d + 1) * n + 0;
      ModUnique(p + 1, n, d + 1, 0);
    }
  }

  /** A positive divisor leaves a zero quotient exactly for the smaller numbers. */
  lemma DivIsZero(x: nat, n: nat)
    requires n > 0
    ensures x / n == 0 <==> x < n
  {
    var d, r := x / n, x % n;
    assert x == d * n + r;
    if d > 0 {
      MulStrict(0, d, n);
    }
  }
}
