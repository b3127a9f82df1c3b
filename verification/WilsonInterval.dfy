/**
 `computeWilsonScoreInterval` over the reals. The square root is a parameter `s` with the one
 property the code relies on, that it is the non-negative root of the variance term.
 */
module WilsonInterval {

  datatype Interval = Interval(center: real, lower: real, upper: real)

  function Clamp(x: real): real {
    if x < 0.0 then 0.0 else if x > 1.0 then 1.0 else x
  }

  function Variance(k: real, n: real, z: real): real
    requires n != 0.0
  {
    k * (n - k) / n + z * z / 4.0
  }

  predicate IsRoot(s: real, v: real) {
    0.0 <= s && s * s == v
  }

  function Center(k: real, n: real, z: real): real
    requires n > 0.0
  {
    Positive(n, z);
    (k + z * z / 2.0) / (n + z * z)
  }

  function Margin(n: real, z: real, s: real): real
    requires n > 0.0
  {
    Positive(n, z);
    z * s / (n + z * z)
  }

  function Wilson(k: real, n: real, z: real, s: real): Interval
    requires n >= 0.0
  {
    if n == 0.0 then Interval(1.0, 1.0, 1.0)
    else
      var center, margin := Center(k, n, z), Margin(n, z, s);
      Interval(Clamp(center), Clamp(center - margin), Clamp(center + margin))
  }

  lemma Positive(n: real, z: real)
    requires n > 0.0
    ensures n + z * z > 0.0
  {
    assert z * z >= 0.0;
  }

  /** The equation the interval inverts: `p` is exactly `z` standard errors away from `k/n`. */
  predicate ScoreEquation(p: real, k: real, n: real, z: real)
    requires n > 0.0
  {
    (k / n - p) * (k / n - p) == z * z * p * (1.0 - p) / n
  }

  /** How far `p` is from satisfying the score equation, times `n`; `x` is the observed rate. */
  function Excess(p: real, x: real, n: real, z: real): real {
    n * (x - p) * (x - p) - z * z * p * (1.0 - p)
  }

  /** Everything the proofs need to know about a pair of unclamped end points. */
  predicate EndPoints(lo: real, hi: real, x: real, n: real, z: real, s: real) {
    && n > 0.0 && 0.0 <= x <= 1.0 && 0.0 <= z && 0.0 <= s
    && s * s == n * x * (1.0 - x) + z * z / 4.0
    && lo * (n + z * z) == n * x + z * z / 2.0 - z * s
    && hi * (n + z * z) == n * x + z * z / 2.0 + z * s
  }

  lemma RateTimes(k: real, n: real)
    requires n > 0.0
    ensures k / n * n == k
    ensures 0.0 <= k <= n ==> 0.0 <= k / n <= 1.0
  {
  }

  lemma VarianceByRate(k: real, n: real, z: real)
    requires n > 0.0
    ensures Variance(k, n, z) == n * (k / n) * (1.0 - k / n) + z * z / 4.0
  {
    var x := k / n;
    assert k == x * n;
    assert k * (n - k) == n * (n * (x * (1.0 - x)));
    assert k * (n - k) / n == n * (x * (1.0 - x));
  }

  lemma ToEndPoints(k: real, n: real, z: real, s: real)
    requires n > 0.0 && 0.0 <= k <= n && 0.0 <= z && IsRoot(s, Variance(k, n, z))
    ensures EndPoints(Center(k, n, z) - Margin(n, z, s), Center(k, n, z) + Margin(n, z, s), k / n, n, z, s)
  {
    Positive(n, z);
    RateTimes(k, n);
    VarianceByRate(k, n, z);
    var d := n + z * z;
    assert Center(k, n, z) * d == k + z * z / 2.0;
    assert Margin(n, z, s) * d == z * s;
  }

  /** The excess factors over the two end points. */
  lemma Factored(p: real, lo: real, hi: real, x: real, n: real, z: real, s: real)
    requires EndPoints(lo, hi, x, n, z, s)
    ensures Excess(p, x, n, z) == (n + z * z) * (p - lo) * (p - hi)
  {
    Positive(n, z);
    var d := n + z * z;
    var a, b := n * x + z * z / 2.0, z * s;
    assert b * b == z * z * (s * s);
    assert a * a - b * b == n * x * x * d;
    assert (lo * d) * (hi * d) == (a - b) * (a + b) == a * a - b * b;
    assert (lo * hi * d) * d == (n * x * x) * d;
    assert lo * hi * d == n * x * x;
    assert (lo + hi) * d == 2.0 * a;
    assert d * (p - lo) * (p - hi) == d * p * p - (lo + hi) * d * p + lo * hi * d;
  }

  /** The sign of a product tells on which side of the end points `p` lies. */
  lemma Between(p: real, lo: real, hi: real, d: real)
    requires d > 0.0 && lo <= hi
    ensures d * (p - lo) * (p - hi) <= 0.0 <==> lo <= p <= hi
    ensures d * (p - lo) * (p - hi) == 0.0 <==> p == lo || p == hi
  {
    var e := (p - lo) * (p - hi);
    assert d * (p - lo) * (p - hi) == d * e;
    assert e > 0.0 ==> d * e > 0.0;
    assert e < 0.0 ==> d * e < 0.0;
    if p < lo {
      assert (lo - p) * (hi - p) > 0.0 && e == (lo - p) * (hi - p);
    } else if p > hi {
      assert (p - lo) * (p - hi) > 0.0;
    } else if lo < p < hi {
      assert (p - lo) * (hi - p) > 0.0 && e == -((p - lo) * (hi - p));
    }
  }

  lemma Ordered(lo: real, hi: real, x: real, n: real, z: real, s: real)
    requires EndPoints(lo, hi, x, n, z, s)
    ensures lo <= hi
  {
    Positive(n, z);
    assert z * s >= 0.0;
    assert (hi - lo) * (n + z * z) >= 0.0;
    if lo > hi {
      ProductPositive(lo - hi, n + z * z);
      Distribute(lo, hi, n + z * z);
      Distribute(hi, lo, n + z * z);
      assert false;
    }
  }

  lemma ProductNonNegative(a: real, b: real)
    requires 0.0 <= a && 0.0 <= b
    ensures 0.0 <= a * b
  {
  }

  lemma ProductPositive(a: real, b: real)
    requires 0.0 < a && 0.0 < b
    ensures 0.0 < a * b
  {
  }

  lemma ProductOrder(a: real, b: real, c: real)
    requires a <= b && 0.0 <= c
    ensures a * c <= b * c
  {
    ProductNonNegative(b - a, c);
    assert (b - a) * c == b * c - a * c;
  }

  lemma Distribute(a: real, b: real, d: real)
    ensures (a - b) * d == a * d - b * d
  {
  }

  lemma SquareStep(a: real, c: real)
    ensures (a + c) * (a + c) == a * a + c * a + c * (a + c)
  {
  }

  lemma CancelOrder(a: real, b: real, d: real)
    requires d > 0.0 && a * d <= b * d
    ensures a <= b
  {
    if a > b {
      ProductPositive(a - b, d);
      Distribute(a, b, d);
      assert false;
    }
  }

  lemma SquareOrder(a: real, b: real)
    requires 0.0 <= a <= b
    ensures a * a <= b * b
  {
    ProductOrder(a, b, a);
    ProductOrder(a, b, b);
    assert a * b == b * a;
  }

  lemma RootOrder(a: real, b: real)
    requires 0.0 <= a && 0.0 <= b && b * b <= a * a
    ensures b <= a
  {
    if a < b {
      var c := b - a;
      ProductPositive(c, b);
      ProductNonNegative(c, a);
      SquareStep(a, c);
      assert false;
    }
  }

  lemma SquaresDiffer(n: real, x: real, z: real, s: real)
    requires s * s == n * x * (1.0 - x) + z * z / 4.0
    ensures var a, b := n * x + z * z / 2.0, z * s;
            a * a - b * b == n * (x * x) * (n + z * z)
  {
    assert (z * s) * (z * s) == z * z * (s * s);
  }

  lemma LowerNonNegative(lo: real, hi: real, x: real, n: real, z: real, s: real)
    requires EndPoints(lo, hi, x, n, z, s)
    ensures 0.0 <= lo
  {
    Positive(n, z);
    var d, a, b := n + z * z, n * x + z * z / 2.0, z * s;
    ProductNonNegative(n, x);
    ProductNonNegative(z, s);
    ProductNonNegative(x, x);
    ProductNonNegative(n, x * x);
    ProductNonNegative(n * (x * x), d);
    SquaresDiffer(n, x, z, s);
    RootOrder(a, b);
    CancelOrder(0.0, lo, d);
  }

  /** Counting failures instead of successes reflects the interval. */
  lemma Reflected(lo: real, hi: real, x: real, n: real, z: real, s: real)
    requires EndPoints(lo, hi, x, n, z, s)
    ensures EndPoints(1.0 - hi, 1.0 - lo, 1.0 - x, n, z, s)
  {
    var d := n + z * z;
    assert (1.0 - hi) * d == d - hi * d;
    assert (1.0 - lo) * d == d - lo * d;
    assert n * (1.0 - x) == n - n * x;
    assert n * (1.0 - x) * (1.0 - (1.0 - x)) == n * x * (1.0 - x);
  }

  lemma RateInside(lo: real, hi: real, x: real, n: real, z: real, s: real)
    requires EndPoints(lo, hi, x, n, z, s)
    ensures lo <= x <= hi
  {
    Positive(n, z);
    Ordered(lo, hi, x, n, z, s);
    Factored(x, lo, hi, x, n, z, s);
    Between(x, lo, hi, n + z * z);
    ProductNonNegative(x, 1.0 - x);
    ProductNonNegative(z * z, x * (1.0 - x));
    assert Excess(x, x, n, z) == -(z * z * (x * (1.0 - x)));
  }

  /** The end points enclose the observed rate and lie in the unit interval. */
  lemma Enclosed(lo: real, hi: real, x: real, n: real, z: real, s: real)
    requires EndPoints(lo, hi, x, n, z, s)
    ensures 0.0 <= lo <= x <= hi <= 1.0
  {
    RateInside(lo, hi, x, n, z, s);
    LowerNonNegative(lo, hi, x, n, z, s);
    Reflected(lo, hi, x, n, z, s);
    LowerNonNegative(1.0 - hi, 1.0 - lo, 1.0 - x, n, z, s);
  }

  lemma ScoreByExcess(p: real, k: real, n: real, z: real)
    requires n > 0.0
    ensures ScoreEquation(p, k, n, z) <==> Excess(p, k / n, n, z) == 0.0
  {
    var x := k / n;
    var left, right := (x - p) * (x - p), z * z * p * (1.0 - p);
    assert Excess(p, x, n, z) == n * left - right;
    assert right / n * n == right;
    if left == right / n {
      assert n * left == right;
    }
    if n * left == right {
      assert left * n == right / n * n;
      assert left == right / n;
    }
  }

  lemma ExcessZero(p: real, lo: real, hi: real, x: real, n: real, z: real, s: real)
    requires EndPoints(lo, hi, x, n, z, s)
    ensures Excess(p, x, n, z) == 0.0 <==> p == lo || p == hi
  {
    Positive(n, z);
    Ordered(lo, hi, x, n, z, s);
    Factored(p, lo, hi, x, n, z, s);
    Between(p, lo, hi, n + z * z);
  }

  /**
   The unclamped end points are exactly the two solutions of the score equation, whatever the
   counts and the quantile.
   */
  lemma RootsExactly(p: real, k: real, n: real, z: real, s: real)
    requires n > 0.0 && 0.0 <= k <= n && 0.0 <= z && IsRoot(s, Variance(k, n, z))
    ensures ScoreEquation(p, k, n, z) <==>
            p == Center(k, n, z) - Margin(n, z, s) || p == Center(k, n, z) + Margin(n, z, s)
  {
    var lo, hi := Center(k, n, z) - Margin(n, z, s), Center(k, n, z) + Margin(n, z, s);
    ToEndPoints(k, n, z, s);
    ExcessZero(p, lo, hi, k / n, n, z, s);
    ScoreByExcess(p, k, n, z);
  }

  /** The clamps never bite, and the interval always contains the observed rate. */
  lemma ClampsAreIdle(k: real, n: real, z: real, s: real)
    requires n > 0.0 && 0.0 <= k <= n && 0.0 <= z && IsRoot(s, Variance(k, n, z))
    ensures var center, margin := Center(k, n, z), Margin(n, z, s);
            && Wilson(k, n, z, s) == Interval(center, center - margin, center + margin)
            && 0.0 <= center - margin <= k / n <= center + margin <= 1.0
  {
    ToEndPoints(k, n, z, s);
    Enclosed(Center(k, n, z) - Margin(n, z, s), Center(k, n, z) + Margin(n, z, s), k / n, n, z, s);
  }

  lemma RateOrder(k1: real, k2: real, n: real)
    requires n > 0.0 && k1 <= k2
    ensures k1 / n <= k2 / n
  {
    RateTimes(k1, n);
    RateTimes(k2, n);
    CancelRates(k1 / n, k2 / n, k1, k2, n);
  }

  lemma CancelRates(x1: real, x2: real, k1: real, k2: real, n: real)
    requires n > 0.0 && x1 * n == k1 && x2 * n == k2 && k1 <= k2
    ensures x1 <= x2
  {
    CancelOrder(x1, x2, n);
  }

  lemma ExcessByRate(p: real, x1: real, x2: real, n: real, z: real)
    requires n > 0.0 && p <= x1 <= x2
    ensures Excess(p, x1, n, z) <= Excess(p, x2, n, z)
  {
    SquareOrder(x1 - p, x2 - p);
    ProductOrder((x1 - p) * (x1 - p), (x2 - p) * (x2 - p), n);
    assert n * (x1 - p) * (x1 - p) == (x1 - p) * (x1 - p) * n;
    assert n * (x2 - p) * (x2 - p) == (x2 - p) * (x2 - p) * n;
  }

  /** With a smaller rate, any `p` below it has a smaller excess, so the lower end point is no larger. */
  lemma LowerByRate(lo1: real, hi1: real, x1: real, s1: real, lo2: real, hi2: real, x2: real, s2: real, n: real,
                    z: real)
    requires EndPoints(lo1, hi1, x1, n, z, s1) && EndPoints(lo2, hi2, x2, n, z, s2)
    requires x1 <= x2
    ensures lo1 <= lo2
  {
    Positive(n, z);
    Enclosed(lo1, hi1, x1, n, z, s1);
    Enclosed(lo2, hi2, x2, n, z, s2);
    if lo2 < x1 {
      var p := lo2;
      Factored(p, lo2, hi2, x2, n, z, s2);
      assert (n + z * z) * (p - lo2) * (p - hi2) == 0.0;
      ExcessByRate(p, x1, x2, n, z);
      Factored(p, lo1, hi1, x1, n, z, s1);
      Between(p, lo1, hi1, n + z * z);
    }
  }

  /** More successes out of the same number of trials never lower the lower bound. */
  lemma LowerMonotone(k1: real, s1: real, k2: real, s2: real, n: real, z: real)
    requires n > 0.0 && 0.0 <= k1 <= k2 <= n && 0.0 <= z
    requires IsRoot(s1, Variance(k1, n, z)) && IsRoot(s2, Variance(k2, n, z))
    ensures Wilson(k1, n, z, s1).lower <= Wilson(k2, n, z, s2).lower
  {
    ClampsAreIdle(k1, n, z, s1);
    ClampsAreIdle(k2, n, z, s2);
    ToEndPoints(k1, n, z, s1);
    ToEndPoints(k2, n, z, s2);
    RateTimes(k1, n);
    RateTimes(k2, n);
    RateOrder(k1, k2, n);
    LowerByRate(Center(k1, n, z) - Margin(n, z, s1), Center(k1, n, z) + Margin(n, z, s1), k1 / n, s1,
                Center(k2, n, z) - Margin(n, z, s2), Center(k2, n, z) + Margin(n, z, s2), k2 / n, s2, n, z);
  }

  /** Without observations every figure is one; otherwise the center lies midway between the end points. */
  lemma CenterExactly(k: real, n: real, z: real, s: real)
    requires 0.0 <= n && (n > 0.0 ==> 0.0 <= k <= n && 0.0 <= z && IsRoot(s, Variance(k, n, z)))
    ensures var w := Wilson(k, n, z, s);
            if n == 0.0 then w.lower == w.center == w.upper == 1.0
            else w.center + w.center == w.lower + w.upper
  {
    if n > 0.0 {
      ClampsAreIdle(k, n, z, s);
    }
  }
}
