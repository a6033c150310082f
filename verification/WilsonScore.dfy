/** The interval is that of the score test: the proportions the observed estimate does not contradict. */
module WilsonScore {
  import opened Wilson

  /**
   With `rr` the square under the root and y = (1 + a)*x, the squares of the root and of the distance of y to the middle
   of the bounds differ by (1 + a) times the slack of the test.
   */
  lemma SlackIdentity(a: real, e: real, x: real, rr: real, dd: real, slack: real)
    requires rr == a * e * (1.0 - e) + a * a / 4.0
    requires dd == (x + a * x - (e + a / 2.0)) * (x + a * x - (e + a / 2.0))
    requires slack == a * (x * (1.0 - x)) - (e - x) * (e - x)
    ensures rr - dd == (1.0 + a) * slack
  {
  }

  lemma ScaledOrder(q: real, x: real, b: real)
    requires b > 0.0
    ensures q <= x <==> q * b <= x * b
  {
    if q <= x {
      ProductSign(x - q, b);
    } else {
      ProductSign(q - x, b);
    }
  }

  /** x lies between two quotients exactly when its multiple lies between their numerators. */
  lemma BetweenQuotients(low: real, high: real, b: real, x: real)
    requires b > 0.0
    ensures low / b <= x <= high / b <==> low <= x * b <= high
  {
    ScaledOrder(low / b, x, b);
    ScaledOrder(x, high / b, b);
  }

  lemma SquareWithin(d: real, r: real)
    requires r >= 0.0
    ensures r * r - d * d >= 0.0 <==> -r <= d <= r
  {
    if r * r - d * d >= 0.0 {
      WithinRoot(d, r, r * r - d * d);
    } else {
      var magnitude := if d < 0.0 then -d else d;
      assert magnitude * magnitude == d * d;
      if magnitude < r {
        SquaresIncrease(magnitude, r);
      }
    }
  }

  lemma SameSign(b: real, s: real)
    requires b > 0.0
    ensures b * s >= 0.0 <==> s >= 0.0
  {
    if s >= 0.0 {
      ProductSign(b, s);
    } else {
      ProductSign(b, -s);
    }
  }

  /** Between the bounds means within r of their middle, once multiplied out. */
  lemma AroundMiddle(a: real, e: real, r: real, x: real)
    requires a > 0.0
    ensures (e + a / 2.0 - r) / (1.0 + a) <= x <= (e + a / 2.0 + r) / (1.0 + a)
        <==> -r <= x + a * x - (e + a / 2.0) <= r
  {
    BetweenQuotients(e + a / 2.0 - r, e + a / 2.0 + r, 1.0 + a, x);
    assert x * (1.0 + a) == x + a * x;
  }

  lemma SlackSign(a: real, e: real, r: real, x: real, d: real, slack: real)
    requires a > 0.0 && r >= 0.0 && r * r == a * e * (1.0 - e) + a * a / 4.0
    requires slack == a * (x * (1.0 - x)) - (e - x) * (e - x) && d == x + a * x - (e + a / 2.0)
    ensures slack >= 0.0 <==> r * r - d * d >= 0.0
  {
    SlackIdentity(a, e, x, r * r, d * d, slack);
    SameSign(1.0 + a, slack);
  }

  /** The bounds enclose exactly the values with some slack. */
  lemma WithinBounds(a: real, e: real, r: real, x: real, slack: real)
    requires a > 0.0 && r >= 0.0 && r * r == a * e * (1.0 - e) + a * a / 4.0
    requires slack == a * (x * (1.0 - x)) - (e - x) * (e - x)
    ensures (e + a / 2.0 - r) / (1.0 + a) <= x <= (e + a / 2.0 + r) / (1.0 + a) <==> slack >= 0.0
  {
    var d := x + a * x - (e + a / 2.0);
    AroundMiddle(a, e, r, x);
    SlackSign(a, e, r, x, d, slack);
    SquareWithin(d, r);
  }

  lemma WithinMeans(a: real, e: real, r: real, x: real)
    requires a > 0.0 && r >= 0.0 && r * r == a * e * (1.0 - e) + a * a / 4.0
    ensures (e + a / 2.0 - r) / (1.0 + a) <= x <= (e + a / 2.0 + r) / (1.0 + a)
        <==> (e - x) * (e - x) <= a * (x * (1.0 - x))
  {
    WithinBounds(a, e, r, x, a * (x * (1.0 - x)) - (e - x) * (e - x));
  }

  /** The clamped bounds are the unclamped ones. */
  lemma BoundsOf(successes: int, trials: int, quantile: Quantile) returns (a: real, e: real, r: real)
    requires Counted(successes, trials, quantile)
    ensures a == quantile.z * quantile.z / trials as real && e == successes as real / trials as real
    ensures a > 0.0 && r >= 0.0 && r * r == a * e * (1.0 - e) + a * a / 4.0
    ensures var interval := WilsonInterval(successes, trials, quantile);
      interval.lower == (e + a / 2.0 - r) / (1.0 + a) && interval.upper == (e + a / 2.0 + r) / (1.0 + a)
  {
    a, e, r := Unclamped(successes, trials, quantile);
    BoundsAround(a, e, r);
  }

  /**
   A proportion lies in the interval exactly when the estimate e lies within z standard errors of it, the error being
   that of the proportion itself: its squared distance is at most z*z*x*(1 - x)/n.
   */
  lemma IntervalIsScoreTest(successes: int, trials: int, quantile: Quantile, x: real) returns (a: real, e: real)
    requires Counted(successes, trials, quantile)
    ensures a == quantile.z * quantile.z / trials as real && e == successes as real / trials as real
    ensures var interval := WilsonInterval(successes, trials, quantile);
      interval.lower <= x <= interval.upper <==> (e - x) * (e - x) <= a * (x * (1.0 - x))
  {
    var r;
    a, e, r := BoundsOf(successes, trials, quantile);
    WithinMeans(a, e, r, x);
  }

  /** Without trials nothing is estimated and the interval is the point zero. */
  lemma NoTrials(successes: int, trials: int, quantile: Quantile, x: real)
    requires quantile.z > 0.0 && trials <= 0
    ensures var interval := WilsonInterval(successes, trials, quantile);
      interval.estimate == 0.0 && (interval.lower <= x <= interval.upper <==> x == 0.0)
  {
  }
}
