/** The two-sided Wilson score interval over exact reals. */
module Wilson {
  datatype Interval = Interval(successes: int, trials: int, estimate: real, lower: real, upper: real)

  /**
   The normal quantile of the confidence level and the square root, the two real functions the interval is built on.
   */
  datatype Quantile = Quantile(z: real, sqrt: real -> real)
  {
    ghost predicate Valid() {
      z > 0.0 && forall x: real | x >= 0.0 :: sqrt(x) >= 0.0 && sqrt(x) * sqrt(x) == x
    }
  }

  function Max(x: real, y: real): real {
    if x < y then y else x
  }

  function Min(x: real, y: real): real {
    if y < x then y else x
  }

  function Product(x: real, y: real): (xy: real)
    ensures x >= 0.0 && y >= 0.0 ==> xy >= 0.0
    ensures x > 0.0 && y > 0.0 ==> xy > 0.0
  {
    x * y
  }

  function Squared(z: real): (z2: real)
    ensures z > 0.0 ==> z2 > 0.0
  {
    Product(z, z)
  }

  /** What is under the square root for estimate e over n trials. */
  function Spread(e: real, n: real, z2: real): real
    requires n != 0.0
  {
    e * (1.0 - e) / n + z2 / (4.0 * n * n)
  }

  /** Center minus and plus margin before clamping, for the scaled root s = z * sqrt(spread). */
  function RawBounds(e: real, n: real, z2: real, s: real): (real, real)
    requires z2 > 0.0 && n > 0.0
  {
    QuotientSign(z2, n);
    var denominator := 1.0 + z2 / n;
    var center := (e + z2 / (2.0 * n)) / denominator;
    var margin := s / denominator;
    (center - margin, center + margin)
  }

  function ScaledRootOf(quantile: Quantile, e: real, n: real): real
    requires n > 0.0
  {
    quantile.z * quantile.sqrt(Spread(e, n, Squared(quantile.z)))
  }

  function WilsonInterval(successes: int, trials: int, quantile: Quantile): Interval
    requires quantile.z > 0.0
  {
    if trials <= 0 then Interval(successes, trials, 0.0, 0.0, 0.0)
    else
      var estimate := successes as real / trials as real;
      var n := trials as real;
      var bounds := RawBounds(estimate, n, Squared(quantile.z), ScaledRootOf(quantile, estimate, n));
      Interval(successes, trials, estimate, Max(0.0, bounds.0), Min(1.0, bounds.1))
  }

  // ----- the algebra, with a = z*z/n and r the scaled square root

  /** r is the non-negative root of a*e*(1-e) + a*a/4. */
  ghost predicate Root(a: real, e: real, r: real) {
    r >= 0.0 && r * r == a * e * (1.0 - e) + a * a / 4.0
  }

  lemma ProductSign(x: real, y: real)
    requires x >= 0.0 && y >= 0.0
    ensures x * y >= 0.0
    ensures x > 0.0 && y > 0.0 ==> x * y > 0.0
  {
  }

  lemma SquaresIncrease(y: real, x: real)
    requires 0.0 <= y < x
    ensures y * y < x * x
  {
    var d, s := x - y, x + y;
    ProductSign(d, s);
    assert d * s == x * x - y * y;
  }

  /** A value whose square lies below that of r lies between -r and r. */
  lemma WithinRoot(d: real, r: real, gap: real)
    requires r >= 0.0 && r * r - d * d == gap && gap >= 0.0
    ensures -r <= d <= r
    ensures gap > 0.0 ==> -r < d < r
  {
    var magnitude := if d < 0.0 then -d else d;
    assert magnitude * magnitude == d * d;
    if r < magnitude {
      SquaresIncrease(r, magnitude);
    }
  }

  /** How far the square of the root lies from the squares of its two bounds. */
  lemma RootGaps(a: real, e: real, r: real) returns (g: real, h: real)
    requires a > 0.0 && 0.0 <= e <= 1.0 && Root(a, e, r)
    ensures g >= 0.0 && (0.0 < e < 1.0 ==> g > 0.0) && h >= 0.0
    ensures r * r - (a / 2.0 - a * e) * (a / 2.0 - a * e) == g
    ensures (e + a / 2.0) * (e + a / 2.0) - r * r == h
  {
    var x, c, f, b := a * e, e + a / 2.0, 1.0 - e, 1.0 + a;
    var u, v, w := e * f, a * b, e * e;
    ProductSign(e, f);
    ProductSign(a, b);
    ProductSign(u, v);
    ProductSign(e, e);
    ProductSign(w, b);
    g, h := u * v, w * b;
    RootIdentities(a, e, r);
  }

  lemma RootIdentities(a: real, e: real, r: real)
    requires Root(a, e, r)
    ensures r * r - (a / 2.0 - a * e) * (a / 2.0 - a * e) == (e * (1.0 - e)) * (a * (1.0 + a))
    ensures (e + a / 2.0) * (e + a / 2.0) - r * r == (e * e) * (1.0 + a)
  {
    var x := a * e;
    var d, c := a / 2.0 - x, e + a / 2.0;
    assert d * d == a * a / 4.0 - a * x + x * x;
    assert a * x == a * a * e && x * x == a * a * (e * e);
    assert r * r == x - x * e + a * a / 4.0;
    assert x * e == a * (e * e);
    assert (e * (1.0 - e)) * (a * (1.0 + a)) == a * e - a * (e * e) + a * a * e - a * a * (e * e);
    assert c * c == e * e + a * e + a * a / 4.0;
  }

  /** The root lies between |a/2 - a*e| and e + a/2, and meets the first bound only at e = 0 or e = 1. */
  lemma RootBounds(a: real, e: real, r: real)
    requires a > 0.0 && 0.0 <= e <= 1.0 && Root(a, e, r)
    ensures -r <= a / 2.0 - a * e <= r
    ensures r <= e + a / 2.0
    ensures 0.0 < e < 1.0 ==> -r < a / 2.0 - a * e < r
  {
    var g, h := RootGaps(a, e, r);
    WithinRoot(a / 2.0 - a * e, r, g);
    assert e + a / 2.0 >= 0.0;
    WithinRoot(r, e + a / 2.0, h);
  }

  lemma RootDifference(a: real, e: real, r: real, f: real, q: real)
    requires Root(a, e, r) && Root(a, f, q)
    ensures (q - r) * (q + r) == (f - e) * (a * (1.0 - e - f))
  {
    assert (q - r) * (q + r) == q * q - r * r;
    assert q * q - r * r == a * (f * (1.0 - f)) - a * (e * (1.0 - e));
    assert f * (1.0 - f) - e * (1.0 - e) == (f - e) * (1.0 - e - f);
    Regroup(a, f * (1.0 - f), e * (1.0 - e));
    assert a * ((f - e) * (1.0 - e - f)) == (f - e) * (a * (1.0 - e - f));
  }

  lemma Regroup(a: real, x: real, y: real)
    ensures a * x - a * y == a * (x - y)
  {
  }

  /** The sum of two roots strictly dominates a*(1-e-f), whatever its sign. */
  lemma RootSum(a: real, e: real, r: real, f: real, q: real)
    requires a > 0.0 && 0.0 <= e < f <= 1.0 && Root(a, e, r) && Root(a, f, q)
    ensures q + r > a * (1.0 - e - f) && q + r > -(a * (1.0 - e - f))
  {
    RootBounds(a, e, r);
    RootBounds(a, f, q);
    assert a * (1.0 - e - f) == (a / 2.0 - a * e) + (a / 2.0 - a * f);
    if e == 0.0 && f == 1.0 {
      assert a * e == 0.0 && a * f == a;
    }
  }

  lemma Squeezed(d: real, k: real, w: real, gap: real)
    requires d > 0.0 && w > k && w > -k && gap * w == d * k
    ensures -d < gap < d
  {
    assert gap * w - d * w == (gap - d) * w && d * w - d * k == d * (w - k);
    assert -d * w - gap * w == (-d - gap) * w && d * w + d * k == d * (w + k);
    ProductSign(d, w - k);
    ProductSign(d, w + k);
    if gap >= d {
      ProductSign(gap - d, w);
    }
    if gap <= -d {
      ProductSign(-d - gap, w);
    }
  }

  /** The unscaled bounds both strictly increase with the estimate. */
  lemma BoundsIncrease(a: real, e: real, r: real, f: real, q: real)
    requires a > 0.0 && 0.0 <= e < f <= 1.0 && Root(a, e, r) && Root(a, f, q)
    ensures e - r < f - q
    ensures e + r < f + q
  {
    RootDifference(a, e, r, f, q);
    RootSum(a, e, r, f, q);
    Squeezed(f - e, a * (1.0 - e - f), q + r, q - r);
  }

  // ----- back to the interval

  lemma Cancel(x: real, y: real, n: real)
    requires n > 0.0 && x * n == y * n
    ensures x == y
  {
    var d, c := x - y, y - x;
    assert d * n == x * n - y * n && c * n == y * n - x * n;
    if d >= 0.0 {
      ProductSign(d, n);
    } else {
      ProductSign(c, n);
    }
  }

  lemma FourSquares(n: real) returns (m: real)
    requires n > 0.0
    ensures m == 4.0 * n * n && m > 0.0
  {
    var f := 4.0 * n;
    ProductSign(f, n);
    m := f * n;
  }

  /** The constant term under the root, scaled. */
  lemma ScaledConstant(z2: real, n: real)
    requires n > 0.0
    ensures 4.0 * n * n != 0.0 && z2 / (4.0 * n * n) * z2 == (z2 / n) * (z2 / n) / 4.0
  {
    var m := FourSquares(n);
    var a := z2 / n;
    var t := z2 / m;
    var k := t * n;
    assert t * m == z2 && a * n == z2;
    assert t * m == 4.0 * k * n;
    Cancel(4.0 * k, a, n);
    assert t * (a * n) == a * k;
    assert a * k == a * a / 4.0;
  }

  /** The root of the interval's spread, scaled by z, is the root of the normal form with a = z*z/n. */
  lemma ScaledRoot(z: real, z2: real, n: real, e: real, root: real)
    requires z > 0.0 && z2 == Squared(z) && n > 0.0 && root >= 0.0 && root * root == Spread(e, n, z2)
    ensures Root(z2 / n, e, z * root)
  {
    var a, x, s := z2 / n, e * (1.0 - e), root * root;
    ScaledConstant(z2, n);
    assert x / n * z2 == a * x;
    assert s == x / n + z2 / (4.0 * n * n);
    assert (z * root) * (z * root) == z2 * s;
    ProductSign(z, root);
    assert a * x == a * e * (1.0 - e);
  }

  lemma QuotientSign(x: real, m: real)
    requires x >= 0.0 && m > 0.0
    ensures x / m >= 0.0
    ensures x > 0.0 ==> x / m > 0.0
  {
  }

  lemma SpreadNonNegative(e: real, n: real, z2: real)
    requires 0.0 <= e <= 1.0 && n > 0.0 && z2 >= 0.0
    ensures Spread(e, n, z2) >= 0.0
  {
    var f := 1.0 - e;
    ProductSign(e, f);
    QuotientSign(e * f, n);
    var m := FourSquares(n);
    QuotientSign(z2, m);
    assert Spread(e, n, z2) == e * f / n + z2 / m;
  }

  /** The interval's inputs: at least one trial and no more successes than trials. */
  ghost predicate Counted(successes: int, trials: int, quantile: Quantile) {
    quantile.Valid() && trials > 0 && 0 <= successes <= trials
  }

  lemma QuotientSum(x: real, y: real, m: real)
    requires m > 0.0
    ensures (x + y) / m == x / m + y / m
    ensures (x - y) / m == x / m - y / m
  {
  }

  lemma HalfQuotient(x: real, n: real)
    requires n > 0.0
    ensures x / (2.0 * n) == (x / n) / 2.0
  {
  }

  lemma SelfQuotient(x: real, m: real)
    requires m > 0.0
    ensures m / m == 1.0 && x * m / m == x
  {
  }

  lemma FractionWithin(k: real, n: real)
    requires 0.0 <= k <= n && n > 0.0
    ensures 0.0 <= k / n <= 1.0
  {
    QuotientSign(k, n);
    QuotientSign(n - k, n);
    QuotientSum(n, k, n);
    SelfQuotient(1.0, n);
  }

  /** The raw bounds over a common denominator. */
  lemma NormalForm(e: real, n: real, z2: real, a: real, r: real)
    requires n > 0.0 && z2 > 0.0 && a == z2 / n
    ensures a > 0.0
    ensures RawBounds(e, n, z2, r) == ((e + a / 2.0 - r) / (1.0 + a), (e + a / 2.0 + r) / (1.0 + a))
  {
    QuotientSign(z2, n);
    HalfQuotient(z2, n);
    QuotientSum(e + a / 2.0, r, 1.0 + a);
  }

  lemma RootOfSpread(quantile: Quantile, e: real, n: real)
    requires quantile.Valid() && n > 0.0 && 0.0 <= e <= 1.0
    ensures Root(Squared(quantile.z) / n, e, ScaledRootOf(quantile, e, n))
  {
    SpreadNonNegative(e, n, Squared(quantile.z));
    ScaledRoot(quantile.z, Squared(quantile.z), n, e, quantile.sqrt(Spread(e, n, Squared(quantile.z))));
  }

  /** The interval before clamping, in terms of the normal form. */
  lemma Unclamped(successes: int, trials: int, quantile: Quantile) returns (a: real, e: real, r: real)
    requires Counted(successes, trials, quantile)
    ensures a == Squared(quantile.z) / trials as real && e == successes as real / trials as real
    ensures a > 0.0 && 0.0 <= e <= 1.0 && Root(a, e, r)
    ensures var interval := WilsonInterval(successes, trials, quantile);
      && interval.estimate == e
      && interval.lower == Max(0.0, (e + a / 2.0 - r) / (1.0 + a))
      && interval.upper == Min(1.0, (e + a / 2.0 + r) / (1.0 + a))
  {
    var n := trials as real;
    FractionWithin(successes as real, n);
    a, e := Squared(quantile.z) / n, successes as real / n;
    r := ScaledRootOf(quantile, e, n);
    RootOfSpread(quantile, e, n);
    NormalForm(e, n, Squared(quantile.z), a, r);
  }

  lemma QuotientOrder(x: real, y: real, m: real)
    requires m > 0.0
    ensures x <= y ==> x / m <= y / m
    ensures x < y ==> x / m < y / m
  {
    QuotientSum(y, x, m);
    if x <= y {
      QuotientSign(y - x, m);
    }
  }

  lemma UpperRoot(a: real, e: real, r: real)
    requires a > 0.0 && 0.0 <= e <= 1.0 && Root(a, e, r)
    ensures e + a / 2.0 + r <= 1.0 + a
  {
    assert a * (1.0 - e) * e == a * e * (1.0 - e);
    RootBounds(a, 1.0 - e, r);
  }

  /** Both unclamped bounds lie in [0, 1], on either side of the estimate. */
  lemma BoundsAround(a: real, e: real, r: real)
    requires a > 0.0 && 0.0 <= e <= 1.0 && Root(a, e, r)
    ensures 0.0 <= (e + a / 2.0 - r) / (1.0 + a) <= e <= (e + a / 2.0 + r) / (1.0 + a) <= 1.0
  {
    var m := 1.0 + a;
    var low, high, mid := e + a / 2.0 - r, e + a / 2.0 + r, e * m;
    assert mid == e + a * e;
    RootBounds(a, e, r);
    UpperRoot(a, e, r);
    SelfQuotient(e, m);
    QuotientSign(low, m);
    QuotientOrder(low, mid, m);
    QuotientOrder(mid, high, m);
    QuotientOrder(high, m, m);
  }

  /** The clamps change nothing, the interval contains the estimate, and it lies in [0, 1]. */
  lemma IntervalContainsEstimate(successes: int, trials: int, quantile: Quantile)
    requires Counted(successes, trials, quantile)
    ensures var interval := WilsonInterval(successes, trials, quantile);
      && interval.estimate == successes as real / trials as real
      && 0.0 <= interval.lower <= interval.estimate <= interval.upper <= 1.0
  {
    var a, e, r := Unclamped(successes, trials, quantile);
    BoundsAround(a, e, r);
  }

  /** One more success strictly raises both ends of the interval. */
  lemma IntervalIncreases(fewer: int, more: int, trials: int, quantile: Quantile)
    requires Counted(fewer, trials, quantile) && Counted(more, trials, quantile) && fewer < more
    ensures WilsonInterval(fewer, trials, quantile).lower < WilsonInterval(more, trials, quantile).lower
    ensures WilsonInterval(fewer, trials, quantile).upper < WilsonInterval(more, trials, quantile).upper
  {
    var a, e, r := Unclamped(fewer, trials, quantile);
    var b, f, q := Unclamped(more, trials, quantile);
    QuotientOrder(fewer as real, more as real, trials as real);
    BoundsIncrease(a, e, r, f, q);
    BoundsAround(a, e, r);
    BoundsAround(a, f, q);
    QuotientOrder(e + a / 2.0 - r, f + a / 2.0 - q, 1.0 + a);
    QuotientOrder(e + a / 2.0 + r, f + a / 2.0 + q, 1.0 + a);
  }
}
