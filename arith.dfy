/** Facts of integer and real arithmetic used by the proofs. The real
    facts are stated over distinct variables, so that they can be applied
    to squares by passing the same variable twice. */
module Arith {

  // ---------------------------------------------------------------------
  // Integers
  // ---------------------------------------------------------------------

  lemma MulLe(x: int, y: int, d: nat)
    requires x <= y
    ensures d * x <= d * y
  {
  }

  /** x <= y gives x * (n + 1) <= y * n + x and x * n + y <= y * (n + 1). */
  lemma ScaleStep(x: nat, y: nat, n: nat)
    requires x <= y
    ensures x * (n + 1) <= y * n + x
    ensures x * n + y <= y * (n + 1)
  {
  }

  /** Adding a value in [lo, hi] to a total of n values whose bounds lie in
      [lo, hi] gives a total of n + 1 values within lo and hi. */
  lemma BoundsStep(lo: nat, hi: nat, v: nat, restLo: nat, restHi: nat, total: nat, n: nat)
    requires lo <= v <= hi && lo <= restLo && restHi <= hi
    requires restLo * n <= total <= restHi * n
    ensures lo * (n + 1) <= v + total <= hi * (n + 1)
  {
    MulLe(lo, restLo, n);
    MulLe(restHi, hi, n);
  }

  /** One more multiple of d: (k − 1)·d + d = k·d. */
  lemma MulPred(k: nat, d: nat)
    requires k > 0
    ensures (k - 1) * d + d == k * d
  {
  }

  /** d·x < d·y gives x < y. */
  lemma MulLtCancel(x: int, y: int, d: nat)
    requires d * x < d * y
    ensures x < y
  {
    if y <= x { MulLe(y, x, d); }
  }

  /** The quotient a / d is at least lo when d·lo <= a. */
  lemma QuotientAtLeast(a: nat, d: nat, lo: nat)
    requires d > 0 && d * lo <= a
    ensures lo <= a / d
  {
    var q, r := a / d, a % d;
    assert a == d * q + r && 0 <= r < d;
    assert d * lo < d * (q + 1);
    MulLtCancel(lo, q + 1, d);
  }

  /** The quotient a / d is at most hi when a < d·(hi + 1). */
  lemma QuotientAtMost(a: nat, d: nat, hi: nat)
    requires d > 0 && a < d * (hi + 1)
    ensures a / d <= hi
  {
    var q, r := a / d, a % d;
    assert a == d * q + r && 0 <= r < d;
    assert d * q < d * (hi + 1);
    MulLtCancel(q, hi + 1, d);
  }

  /** The quotient a / d lies in [lo, hi] when d·lo <= a < d·(hi + 1). */
  lemma QuotientBetween(a: nat, d: nat, lo: nat, hi: nat)
    requires d > 0 && d * lo <= a < d * (hi + 1)
    ensures lo <= a / d <= hi
  {
    QuotientAtLeast(a, d, lo);
    QuotientAtMost(a, d, hi);
  }

  /** a / d is q when d·q <= a < d·q + d. */
  lemma QuotientExact(a: nat, d: nat, q: nat)
    requires d > 0 && d * q <= a < d * q + d
    ensures a / d == q
  {
    assert d * (q + 1) == d * q + d;
    QuotientBetween(a, d, q, q);
  }

  // ---------------------------------------------------------------------
  // Reals
  // ---------------------------------------------------------------------

  lemma MulPos(x: real, y: real)
    requires x > 0.0 && y > 0.0
    ensures x * y > 0.0
  {
  }

  lemma MulNonneg(x: real, y: real)
    requires x >= 0.0 && y >= 0.0
    ensures x * y >= 0.0
  {
  }

  lemma NegSquare(a: real)
    ensures (-a) * (-a) == a * a
  {
  }

  lemma SquareNonneg(a: real)
    ensures a * a >= 0.0
  {
    if a >= 0.0 { MulNonneg(a, a); } else { MulNonneg(-a, -a); NegSquare(a); }
  }

  lemma SquarePos(a: real)
    requires a != 0.0
    ensures a * a > 0.0
  {
    if a > 0.0 { MulPos(a, a); } else { MulPos(-a, -a); NegSquare(a); }
  }

  lemma QuotientPos(x: real, y: real, p: real)
    requires x * y > 0.0 && p > 0.0
    ensures x * y / p > 0.0
  {
  }

  lemma QuotientNonneg(x: real, y: real, p: real)
    requires x * y >= 0.0 && p > 0.0
    ensures x * y / p >= 0.0
  {
  }

  /** Multiplying x * y / p by some k no larger than p gives at most x * y. */
  lemma ShrinkQuotient(x: real, y: real, k: real, p: real)
    requires x * y >= 0.0 && 0.0 < k <= p
    ensures k * (x * y / p) <= x * y
  {
    var w := x * y / p;
    assert w >= 0.0;
    assert x * y == p * w;
    assert p * w - k * w == (p - k) * w;
    MulNonneg(p - k, w);
  }

  lemma ScaleQuotient(a: real, b: real, x: real, y: real, p: real)
    requires p > 0.0 && a == p * x && b == p * y
    ensures a * b / p == p * (x * y)
  {
  }

  lemma SquareOfSum(a: real, b: real)
    ensures (a + b) * (a + b) == a * a + 2.0 * (a * b) + b * b
  {
  }

  lemma WeightedSquare(p: real, q: real, d: real)
    requires p > 0.0 && q > 0.0
    ensures p * q * (d * d) >= 0.0
  {
    MulPos(p, q);
    SquareNonneg(d);
    var pq := p * q;
    var dd := d * d;
    MulNonneg(pq, dd);
  }

  /** lo * n <= s <= hi * n gives lo <= s / n <= hi. */
  lemma DivideBounds(s: real, n: real, lo: real, hi: real)
    requires n > 0.0 && lo * n <= s <= hi * n
    ensures lo <= s / n <= hi
  {
    assert s / n - lo == (s - lo * n) / n;
    assert hi - s / n == (hi * n - s) / n;
  }

  lemma CastProduct(x: int, y: int)
    ensures (x * y) as real == x as real * y as real
  {
  }

  /** The integer bounds lo * n <= s <= hi * n carried over to the reals. */
  lemma CastBounds(lo: nat, hi: nat, s: nat, n: nat)
    requires n > 0 && lo * n <= s <= hi * n
    ensures lo as real <= s as real / n as real <= hi as real
  {
    CastProduct(lo, n);
    CastProduct(hi, n);
    DivideBounds(s as real, n as real, lo as real, hi as real);
  }

  /** (v·n) / n = v over the reals. */
  lemma ProductQuotient(v: nat, n: nat)
    requires n > 0
    ensures (v * n) as real / n as real == v as real
  {
    CastProduct(v, n);
  }

  /** Dividing by d and multiplying back gives the dividend. */
  lemma DivTimes(x: real, d: real)
    requires d != 0.0
    ensures (x / d) * d == x
  {
  }

  lemma Cancel(u: real, v: real, m: real)
    requires m != 0.0 && u * m == v * m
    ensures u == v
  {
    assert (u - v) * m == 0.0;
  }

  /** The floor of the real quotient n / d is the integer quotient. */
  lemma FloorOfQuotient(n: nat, d: nat)
    requires d > 0
    ensures (n as real / d as real).Floor == n / d
  {
    var q, r := n / d, n % d;
    assert n == d * q + r;
    CastProduct(d, q);
    var x := n as real / d as real;
    assert x * d as real == n as real;
    assert q as real * d as real <= n as real < (q + 1) as real * d as real by {
      CastProduct(q + 1, d);
      CastProduct(q, d);
    }
    DivideBounds(n as real, d as real, q as real, (q + 1) as real);
    assert x != (q + 1) as real;
  }
}
