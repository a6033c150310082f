/** Retry amplification: expected attempts per edge, their product along a path, and what the product bounds. */
module Amplification {
  import opened Wrappers
  import opened Ids
  import opened Draws
  import opened Topology
  import opened Execution
  import opened Probability
  import opened Tries

  /** 1 + (1-a) + ... + (1-a)^(n-1). */
  function GeometricSum(a: real, n: nat): real {
    if n == 0 then 0.0 else GeometricSum(a, n - 1) + Power(1.0 - a, n - 1)
  }

  function ExpectedAttempts(a: real, n: nat): real {
    if n == 0 then 0.0 else if a <= 0.0 then n as real else GeometricSum(a, n)
  }

  method RetryExpectedAttempts(attemptSuccess: real, attempts: nat) returns (sum: real)
    ensures sum == ExpectedAttempts(attemptSuccess, attempts)
  {
    if attempts <= 0 {
      return 0.0;
    }
    if attemptSuccess <= 0.0 {
      return attempts as real;
    }
    sum := 0.0;
    var failure := 1.0;
    for attempt := 0 to attempts
      invariant sum == GeometricSum(attemptSuccess, attempt) && failure == Power(1.0 - attemptSuccess, attempt)
    {
      sum := sum + failure;
      failure := failure * (1.0 - attemptSuccess);
    }
  }

  lemma {:induction false} SumIsMean(a: real, n: nat)
    ensures GeometricSum(a, n) == MeanTries(a, n)
  {
    if n > 0 {
      SumIsMean(a, n - 1);
      Horner(a, n - 1);
    }
  }

  lemma {:induction false} Horner(a: real, n: nat)
    ensures GeometricSum(a, n + 1) == 1.0 + Thinned(a, GeometricSum(a, n))
  {
    if n > 0 {
      Horner(a, n - 1);
      var x, y, z := 1.0 - a, GeometricSum(a, n - 1), Power(1.0 - a, n - 1);
      assert x * (y + z) == x * y + x * z;
    }
  }

  lemma {:induction false} GeometricClosedForm(a: real, n: nat)
    ensures GeometricSum(a, n) * a == 1.0 - Power(1.0 - a, n)
  {
    if n > 0 {
      GeometricClosedForm(a, n - 1);
      var y, z := GeometricSum(a, n - 1), Power(1.0 - a, n - 1);
      assert (y + z) * a == y * a + z * a;
      assert (1.0 - a) * z == z - z * a;
    }
  }

  /** Wald's identity for the retry loop: mean attempts times the success of one is the success of the loop. */
  lemma AttemptsTimesSuccess(a: real, n: nat)
    requires 0.0 < a <= 1.0 && n > 0
    ensures ExpectedAttempts(a, n) * a == RetrySuccessProbability(a, n)
  {
    GeometricClosedForm(a, n);
    ClosedForm(a, n);
  }

  lemma {:induction false} SumBounds(a: real, n: nat)
    requires 0.0 < a <= 1.0 && n > 0
    ensures 1.0 <= GeometricSum(a, n) <= n as real
    ensures n > 1 ==> GeometricSum(a, n) < n as real
  {
    if n == 1 {
      assert GeometricSum(a, 1) == GeometricSum(a, 0) + Power(1.0 - a, 0);
    } else {
      SumBounds(a, n - 1);
      PowerBounds(1.0 - a, n - 1);
      if n == 2 {
        assert Power(1.0 - a, 1) == (1.0 - a) * Power(1.0 - a, 0);
      }
    }
  }

  lemma AttemptsBounds(a: real, n: nat)
    requires 0.0 <= a <= 1.0 && n > 0
    ensures 1.0 <= ExpectedAttempts(a, n) <= n as real
  {
    if a > 0.0 {
      SumBounds(a, n);
    }
  }

  lemma {:induction false} MeanTriesOfFailure(n: nat)
    ensures MeanTries(0.0, n) == n as real
  {
    if n > 0 {
      MeanTriesOfFailure(n - 1);
    }
  }

  // ----- along a path

  function Times(x: real, y: real): real {
    x * y
  }

  /** The attempts the engine expects over edge `i`. */
  function Factor(ctx: Context, path: Path, faults: Faults, i: nat): real
    requires path.Shaped() && i < |path.edgeIDs|
  {
    ExpectedAttempts(AttemptEstimate(ctx, path, faults, i), EffectiveAttempts(ctx.EdgeOf(path.edgeIDs[i]).resilience))
  }

  function PathAmplification(ctx: Context, path: Path, faults: Faults, i: nat): Option<real>
    requires path.Shaped() && i < |path.services|
    decreases |path.services| - i
  {
    if i == |path.services| - 1 then Some(1.0)
    else
      var policy := ctx.EdgeOf(path.edgeIDs[i]).resilience;
      if policy.None? || policy.value.retryMax.None? then None
      else
        var downstream := PathAmplification(ctx, path, faults, i + 1);
        if downstream.None? then None else Some(Times(Factor(ctx, path, faults, i), downstream.value))
  }

  /** The factors of the hops from `i` up to `j`, multiplied. */
  function FactorProduct(ctx: Context, path: Path, faults: Faults, i: nat, j: nat): real
    requires path.Shaped() && i <= j <= |path.edgeIDs|
    decreases j
  {
    if i == j then 1.0 else Times(FactorProduct(ctx, path, faults, i, j - 1), Factor(ctx, path, faults, j - 1))
  }

  lemma TimesRegroups(x: real, y: real, z: real)
    ensures Times(x, Times(y, z)) == Times(Times(x, y), z)
    ensures Times(x, 1.0) == Times(1.0, x) == x
  {
  }

  lemma {:induction false} ProductSplits(ctx: Context, path: Path, faults: Faults, i: nat, j: nat)
    requires path.Shaped() && i < j <= |path.edgeIDs|
    ensures FactorProduct(ctx, path, faults, i, j)
         == Times(Factor(ctx, path, faults, i), FactorProduct(ctx, path, faults, i + 1, j))
    decreases j
  {
    TimesRegroups(Factor(ctx, path, faults, i), 1.0, 1.0);
    if i + 1 < j {
      ProductSplits(ctx, path, faults, i, j - 1);
      TimesRegroups(Factor(ctx, path, faults, i), FactorProduct(ctx, path, faults, i + 1, j - 1),
        Factor(ctx, path, faults, j - 1));
    }
  }

  /** The edge has a policy with a retry block. */
  predicate Retries(ctx: Context, edgeID: Id) {
    && edgeID in ctx.edges && ctx.edges[edgeID].resilience.Some?
    && ctx.edges[edgeID].resilience.value.retryMax.Some?
  }

  /** Amplification is reported exactly when every hop has a retry block, and is then the product of the factors. */
  lemma {:induction false} AmplificationExactly(ctx: Context, path: Path, faults: Faults, i: nat)
    requires path.Shaped() && i < |path.services|
    ensures PathAmplification(ctx, path, faults, i)
         == if forall k | i <= k < |path.edgeIDs| :: Retries(ctx, path.edgeIDs[k])
            then Some(FactorProduct(ctx, path, faults, i, |path.edgeIDs|)) else None
    decreases |path.services| - i
  {
    if i < |path.edgeIDs| {
      AmplificationExactly(ctx, path, faults, i + 1);
      ProductSplits(ctx, path, faults, i, |path.edgeIDs|);
    }
  }

  /** The most attempts the edges from hop `i` on could multiply to. */
  function AttemptsProduct(ctx: Context, path: Path, i: nat): real
    requires path.Shaped() && i < |path.services|
    decreases |path.services| - i
  {
    if i == |path.services| - 1 then 1.0
    else Times(EffectiveAttempts(ctx.EdgeOf(path.edgeIDs[i]).resilience) as real, AttemptsProduct(ctx, path, i + 1))
  }

  ghost function HardKillWorld(ctx: Context, faults: Faults, path: Path): World {
    World(map[],
          map id | id in path.services :: !ServiceHardDead(ctx, faults, id),
          map id | id in path.edgeIDs :: id !in faults.hardEdgeKill)
  }

  lemma HardKillsOnly(ctx: Context, faults: Faults, path: Path)
    ensures OnlyHardKills(ctx, faults, path, HardKillWorld(ctx, faults, path))
  {
  }

  lemma StaticInRange(ctx: Context, path: Path, faults: Faults, i: nat)
    requires path.Shaped() && i < |path.services| && RatesInRange(ctx, faults)
    ensures 0.0 <= StaticPathSuccess(ctx, path, faults, i) <= 1.0
  {
    HardKillsOnly(ctx, faults, path);
    StaticSuccessIsExact(ctx, path, faults, HardKillWorld(ctx, faults, path), i);
  }

  lemma ThinnedInRange(rate: real, p: real)
    requires 0.0 <= rate <= 1.0 && 0.0 <= p <= 1.0
    ensures 0.0 <= Thinned(rate, p) <= 1.0
  {
    ProductOfProbabilities(1.0 - rate, p);
  }

  lemma AttemptEstimateInRange(ctx: Context, path: Path, faults: Faults, i: nat)
    requires path.Shaped() && i < |path.edgeIDs| && RatesInRange(ctx, faults)
    ensures 0.0 <= AttemptEstimate(ctx, path, faults, i) <= 1.0
  {
    StaticInRange(ctx, path, faults, i + 1);
    ThinnedInRange(EdgeErrorRate(ctx, faults, path.edgeIDs[i]), StaticPathSuccess(ctx, path, faults, i + 1));
  }

  lemma ProductBounds(x: real, n: real, y: real, p: real)
    requires 1.0 <= x <= n && 1.0 <= y <= p
    ensures 1.0 <= Times(x, y) <= Times(n, p)
  {
    var a, b, c := x - 1.0, n - x, p - y;
    assert a * y >= 0.0 && b * y >= 0.0 && n * c >= 0.0;
    assert x * y == y + a * y;
    assert n * p == x * y + b * y + n * c;
  }

  lemma FactorBounds(ctx: Context, path: Path, faults: Faults, i: nat)
    requires path.Shaped() && i < |path.edgeIDs| && RatesInRange(ctx, faults)
    ensures 1.0 <= Factor(ctx, path, faults, i) <= EffectiveAttempts(ctx.EdgeOf(path.edgeIDs[i]).resilience) as real
  {
    AttemptEstimateInRange(ctx, path, faults, i);
    AttemptsBounds(AttemptEstimate(ctx, path, faults, i), EffectiveAttempts(ctx.EdgeOf(path.edgeIDs[i]).resilience));
  }

  /** Available amplification is at least 1 and at most the product of the effective attempts. */
  lemma {:induction false} AmplificationBounds(ctx: Context, path: Path, faults: Faults, i: nat)
    requires path.Shaped() && i < |path.services| && RatesInRange(ctx, faults)
    ensures 1.0 <= AttemptsProduct(ctx, path, i)
    ensures PathAmplification(ctx, path, faults, i).Some? ==>
              1.0 <= PathAmplification(ctx, path, faults, i).value <= AttemptsProduct(ctx, path, i)
    decreases |path.services| - i
  {
    if i < |path.edgeIDs| {
      AmplificationBounds(ctx, path, faults, i + 1);
      FactorBounds(ctx, path, faults, i);
      var n, p := EffectiveAttempts(ctx.EdgeOf(path.edgeIDs[i]).resilience) as real, AttemptsProduct(ctx, path, i + 1);
      ProductBounds(1.0, n, 1.0, p);
      assert Times(1.0, 1.0) == 1.0;
      if PathAmplification(ctx, path, faults, i).Some? {
        ProductBounds(Factor(ctx, path, faults, i), n, PathAmplification(ctx, path, faults, i + 1).value, p);
      }
    }
  }

  /** A hard-killed edge is never attempted, yet it is priced with at least one attempt. */
  lemma KilledEdgeIsPriced(ctx: Context, path: Path, faults: Faults, world: World, stream: Stream, i: nat, pos: nat)
    requires path.Shaped() && i < |path.edgeIDs| && RatesInRange(ctx, faults) && OnlyHardKills(ctx, faults, path, world)
    requires path.edgeIDs[i] in faults.hardEdgeKill
    ensures EdgeRun(ctx, faults, path, world, stream, i, pos) == (false, pos)
    ensures AttemptsMade(ctx, faults, path, world, stream, i, pos) == 0
    ensures Factor(ctx, path, faults, i) >= 1.0
  {
    FactorBounds(ctx, path, faults, i);
  }

  /**
   The factor an edge contributes is the mean number of attempts execution makes over it, once it is reached, exactly
   when the edge is not hard-killed and does not time out with more than one attempt and hopes of success. A
   timing-out edge with retries makes all its attempts, while the factor still prices in successes that cannot happen;
   a killed edge makes none.
   */
  lemma FactorIsMeanExactly(ctx: Context, path: Path, faults: Faults, world: World, i: nat)
    requires path.Shaped() && i < |path.edgeIDs| && RatesInRange(ctx, faults) && OnlyHardKills(ctx, faults, path, world)
    ensures Factor(ctx, path, faults, i) == Mean(EdgeCost(ctx, faults, path, world, i))
        <==> && path.edgeIDs[i] !in faults.hardEdgeKill
             && (|| !TimesOut(ctx, faults, path, i)
                 || AttemptEstimate(ctx, path, faults, i) == 0.0
                 || EffectiveAttempts(ctx.EdgeOf(path.edgeIDs[i]).resilience) == 1)
  {
    var n := EffectiveAttempts(ctx.EdgeOf(path.edgeIDs[i]).resilience);
    var a := AttemptEstimate(ctx, path, faults, i);
    MeanAttempts(ctx, faults, path, world, i);
    FactorBounds(ctx, path, faults, i);
    AttemptEstimateInRange(ctx, path, faults, i);
    StaticSuccessIsExact(ctx, path, faults, world, i + 1);
    AttemptIsExact(ctx, path, faults, world, i);
    FactorOfLoop(a, n);
  }

  /**
   The factor of an estimate a is its mean tries; against hopeless attempts that is right for a = 0 or one attempt.
   */
  lemma FactorOfLoop(a: real, n: nat)
    requires 0.0 <= a <= 1.0 && n > 0
    ensures ExpectedAttempts(a, n) == MeanTries(a, n)
    ensures ExpectedAttempts(a, n) == MeanTries(0.0, n) <==> a == 0.0 || n == 1
  {
    SumIsMean(a, n);
    MeanTriesOfFailure(n);
    if a > 0.0 {
      SumBounds(a, n);
    }
  }
}
