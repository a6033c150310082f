/**
 The static success estimate is an exact probability. Path execution is unfolded into a decision tree whose branches
 are its comparisons of uniform draws; running the tree is execution, and its probability is the static estimate.
 */
module Probability {
  import opened Wrappers
  import opened Ids
  import opened Draws
  import opened Topology
  import opened Execution

  /** `Draw(rate, below, above)` reads one uniform draw and continues below or not below `rate`. */
  datatype Tree = Leaf(ok: bool) | Draw(rate: real, below: Tree, above: Tree)

  function Run(tree: Tree, stream: Stream, pos: nat): (bool, nat) {
    match tree
    case Leaf(ok) => (ok, pos)
    case Draw(rate, below, above) =>
      if stream.draw(pos) < rate then Run(below, stream, pos + 1) else Run(above, stream, pos + 1)
  }

  /** The mean of two values, the first taken with probability `rate`. */
  function Mix(rate: real, below: real, above: real): real {
    rate * below + (1.0 - rate) * above
  }

  /** The probability that a run succeeds when every draw is uniform and independent of the others. */
  function Prob(tree: Tree): real {
    match tree
    case Leaf(ok) => if ok then 1.0 else 0.0
    case Draw(rate, below, above) => Mix(rate, Prob(below), Prob(above))
  }

  /** Run `first`; if it fails, go on with `second` on the draws that remain. */
  function OrElse(first: Tree, second: Tree): Tree {
    match first
    case Leaf(ok) => if ok then first else second
    case Draw(rate, below, above) => Draw(rate, OrElse(below, second), OrElse(above, second))
  }

  lemma {:induction false} RunOrElse(first: Tree, second: Tree, stream: Stream, pos: nat)
    ensures Run(OrElse(first, second), stream, pos)
         == var one := Run(first, stream, pos); if one.0 then one else Run(second, stream, one.1)
  {
    match first
    case Leaf(ok) =>
    case Draw(rate, below, above) =>
      RunOrElse(below, second, stream, pos + 1);
      RunOrElse(above, second, stream, pos + 1);
  }

  /** The chance that at least one of two independent events happens. */
  function Either(x: real, y: real): real {
    x + (1.0 - x) * y
  }

  lemma {:induction false} ProbOrElse(first: Tree, second: Tree)
    ensures Prob(OrElse(first, second)) == Either(Prob(first), Prob(second))
  {
    match first
    case Leaf(ok) =>
    case Draw(rate, below, above) =>
      ProbOrElse(below, second);
      ProbOrElse(above, second);
      Mixture(rate, Prob(below), Prob(above), Prob(second));
  }

  lemma Mixture(rate: real, b: real, a: real, s: real)
    ensures Mix(rate, Either(b, s), Either(a, s)) == Either(Mix(rate, b, a), s)
  {
    var m := rate * b + (1.0 - rate) * a;
    assert rate * (b + (1.0 - b) * s) == rate * b + rate * s - (rate * b) * s;
    var q := 1.0 - rate;
    assert q * (a + (1.0 - a) * s) == q * a + q * s - (q * a) * s;
    assert rate * s + q * s == s;
    assert (1.0 - m) * s == s - (rate * b) * s - (q * a) * s;
  }

  // ----- the tree of a path

  /** Reading a draw only when the rate is positive, as the engine does. */
  function Guarded(rate: real, below: Tree, above: Tree): Tree {
    if rate > 0.0 then Draw(rate, below, above) else above
  }

  function ServiceTree(ctx: Context, faults: Faults, path: Path, world: World, i: nat): Tree
    requires path.Shaped() && i < |path.services|
    decreases |path.services| - i, 1, 0
  {
    if !Up(world.serviceAlive, path.services[i]) then Leaf(false)
    else
      Guarded(RateOf(faults.serviceErrorRates, path.services[i]), Leaf(false),
              if i == |path.services| - 1 then Leaf(true)
              else if !Up(world.edgeAlive, path.edgeIDs[i]) then Leaf(false)
              else AttemptsTree(ctx, faults, path, world, i, EffectiveAttempts(ctx.EdgeOf(path.edgeIDs[i]).resilience)))
  }

  /** One attempt over edge `i`. */
  function AttemptTree(ctx: Context, faults: Faults, path: Path, world: World, i: nat): Tree
    requires path.Shaped() && i < |path.edgeIDs|
    decreases |path.services| - i, 0, 0
  {
    Guarded(EdgeErrorRate(ctx, faults, path.edgeIDs[i]), Leaf(false),
            if TimesOut(ctx, faults, path, i) then Leaf(false) else ServiceTree(ctx, faults, path, world, i + 1))
  }

  function AttemptsTree(ctx: Context, faults: Faults, path: Path, world: World, i: nat, left: nat): Tree
    requires path.Shaped() && i < |path.edgeIDs|
    decreases |path.services| - i, 0, left + 1
  {
    if left == 0 then Leaf(false)
    else OrElse(AttemptTree(ctx, faults, path, world, i), AttemptsTree(ctx, faults, path, world, i, left - 1))
  }

  /** Running the tree is executing the path: same verdict, same draws consumed, on every stream. */
  lemma {:induction false} ServiceTreeRuns(ctx: Context, faults: Faults, path: Path, world: World, stream: Stream,
      i: nat, pos: nat)
    requires path.Shaped() && i < |path.services|
    ensures Run(ServiceTree(ctx, faults, path, world, i), stream, pos)
        == ServiceRun(ctx, faults, path, world, stream, i, pos)
    decreases |path.services| - i, 1, 0
  {
    if i < |path.edgeIDs| {
      var rate := RateOf(faults.serviceErrorRates, path.services[i]);
      AttemptsTreeRuns(ctx, faults, path, world, stream, i, EffectiveAttempts(ctx.EdgeOf(path.edgeIDs[i]).resilience),
                       if rate > 0.0 then pos + 1 else pos);
    }
  }

  lemma {:induction false} AttemptsTreeRuns(ctx: Context, faults: Faults, path: Path, world: World, stream: Stream,
      i: nat, left: nat, pos: nat)
    requires path.Shaped() && i < |path.edgeIDs|
    ensures Run(AttemptsTree(ctx, faults, path, world, i, left), stream, pos)
         == Attempts(ctx, faults, path, world, stream, i, left, pos)
    decreases |path.services| - i, 0, left
  {
    if left > 0 {
      var attempt := AttemptTree(ctx, faults, path, world, i);
      var rest := AttemptsTree(ctx, faults, path, world, i, left - 1);
      RunOrElse(attempt, rest, stream, pos);
      var rate := EdgeErrorRate(ctx, faults, path.edgeIDs[i]);
      var next := if rate > 0.0 then pos + 1 else pos;
      ServiceTreeRuns(ctx, faults, path, world, stream, i + 1, next);
      AttemptsTreeRuns(ctx, faults, path, world, stream, i, left - 1, Run(attempt, stream, pos).1);
    }
  }

  // ----- the static estimate

  function Power(x: real, n: nat): real {
    if n == 0 then 1.0 else x * Power(x, n - 1)
  }

  /** All of the service's buckets are hard-killed. */
  predicate ServiceHardDead(ctx: Context, faults: Faults, id: Id) {
    forall b: nat | b < |ctx.ServiceOf(id).replicas| :: ctx.ServiceOf(id).Bucket(b) in faults.hardBucketKill
  }

  function RetrySuccessProbability(attemptSuccess: real, attempts: nat): real {
    if attemptSuccess <= 0.0 then 0.0
    else if attemptSuccess >= 1.0 then 1.0
    else 1.0 - Power(1.0 - attemptSuccess, attempts)
  }

  /** What remains of a success probability when a failure of the given rate comes first. */
  function Thinned(rate: real, p: real): real {
    (1.0 - rate) * p
  }

  function StaticPathSuccess(ctx: Context, path: Path, faults: Faults, i: nat): real
    requires path.Shaped() && i < |path.services|
    decreases |path.services| - i
  {
    if ServiceHardDead(ctx, faults, path.services[i]) then 0.0
    else
      var errorRate := RateOf(faults.serviceErrorRates, path.services[i]);
      if i == |path.services| - 1 then 1.0 - errorRate
      else if path.edgeIDs[i] in faults.hardEdgeKill then 0.0
      else
        var attemptSuccess := if TimesOut(ctx, faults, path, i) then 0.0 else AttemptEstimate(ctx, path, faults, i);
        Thinned(errorRate, RetrySuccessProbability(attemptSuccess,
            EffectiveAttempts(ctx.EdgeOf(path.edgeIDs[i]).resilience)))
  }

  /** Success of one attempt over edge `i`, timeouts on that edge aside. */
  function AttemptEstimate(ctx: Context, path: Path, faults: Faults, i: nat): real
    requires path.Shaped() && i < |path.edgeIDs|
    decreases |path.services| - i, 0
  {
    Thinned(EdgeErrorRate(ctx, faults, path.edgeIDs[i]), StaticPathSuccess(ctx, path, faults, i + 1))
  }

  /** Error rates are probabilities, as validation of models and fault contracts guarantees. */
  ghost predicate RatesInRange(ctx: Context, faults: Faults) {
    && (forall id :: 0.0 <= RateOf(faults.serviceErrorRates, id) <= 1.0)
    && (forall id :: 0.0 <= EdgeErrorRate(ctx, faults, id) <= 1.0)
  }

  /** The world where exactly the hard-killed parts are down. */
  ghost predicate OnlyHardKills(ctx: Context, faults: Faults, path: Path, world: World) {
    && (forall i | 0 <= i < |path.services| ::
          Up(world.serviceAlive, path.services[i]) <==> !ServiceHardDead(ctx, faults, path.services[i]))
    && (forall i | 0 <= i < |path.edgeIDs| ::
          Up(world.edgeAlive, path.edgeIDs[i]) <==> path.edgeIDs[i] !in faults.hardEdgeKill)
  }

  lemma NonNegativeProduct(x: real, y: real)
    requires x >= 0.0 && y >= 0.0
    ensures x * y >= 0.0
  {
  }

  lemma ProductOfProbabilities(x: real, y: real)
    requires 0.0 <= x <= 1.0 && 0.0 <= y <= 1.0
    ensures 0.0 <= x * y <= 1.0
  {
    var z := 1.0 - y;
    NonNegativeProduct(x, y);
    NonNegativeProduct(x, z);
    assert x * y == x - x * z;
  }

  lemma {:induction false} PowerBounds(x: real, n: nat)
    requires 0.0 <= x <= 1.0
    ensures 0.0 <= Power(x, n) <= 1.0
  {
    if n > 0 {
      PowerBounds(x, n - 1);
      ProductOfProbabilities(x, Power(x, n - 1));
    }
  }

  lemma ZeroOnePowers(n: nat)
    ensures Power(1.0, n) == 1.0
    ensures n > 0 ==> Power(0.0, n) == 0.0
  {
    if n > 0 {
      ZeroOnePowers(n - 1);
    }
  }

  lemma EitherPower(a: real, n: nat)
    requires n > 0
    ensures Either(a, 1.0 - Power(1.0 - a, n - 1)) == 1.0 - Power(1.0 - a, n)
  {
    var x, y := 1.0 - a, Power(1.0 - a, n - 1);
    assert Power(x, n) == x * y;
    assert x * (1.0 - y) == x - x * y;
  }

  /** n independent attempts of success a: the closed form with its clamps is the probability of the attempt loop. */
  lemma {:induction false} AttemptsProb(ctx: Context, faults: Faults, path: Path, world: World, i: nat, n: nat)
    requires path.Shaped() && i < |path.edgeIDs|
    ensures Prob(AttemptsTree(ctx, faults, path, world, i, n))
        == 1.0 - Power(1.0 - Prob(AttemptTree(ctx, faults, path, world, i)), n)
  {
    if n > 0 {
      var attempt := AttemptTree(ctx, faults, path, world, i);
      AttemptsProb(ctx, faults, path, world, i, n - 1);
      ProbOrElse(attempt, AttemptsTree(ctx, faults, path, world, i, n - 1));
      EitherPower(Prob(attempt), n);
    }
  }

  lemma ClosedForm(a: real, n: nat)
    requires 0.0 <= a <= 1.0 && n > 0
    ensures RetrySuccessProbability(a, n) == 1.0 - Power(1.0 - a, n)
    ensures 0.0 <= RetrySuccessProbability(a, n) <= 1.0
  {
    ZeroOnePowers(n);
    PowerBounds(1.0 - a, n);
  }

  /** The success of one attempt as the static estimate sees it. */
  function EstimatedAttempt(ctx: Context, path: Path, faults: Faults, i: nat): real
    requires path.Shaped() && i < |path.edgeIDs|
  {
    if TimesOut(ctx, faults, path, i) then 0.0 else AttemptEstimate(ctx, path, faults, i)
  }

  lemma GuardedProb(rate: real, inner: Tree)
    requires rate >= 0.0
    ensures Prob(Guarded(rate, Leaf(false), inner)) == Thinned(rate, Prob(inner))
  {
  }

  lemma GuardedTree(rate: real, inner: Tree, p: real)
    requires 0.0 <= rate <= 1.0 && Prob(inner) == p && 0.0 <= p <= 1.0
    ensures Prob(Guarded(rate, Leaf(false), inner)) == Thinned(rate, p)
    ensures 0.0 <= Thinned(rate, p) <= 1.0
  {
    GuardedProb(rate, inner);
    ProductOfProbabilities(1.0 - rate, p);
  }

  lemma AttemptUnfolds(ctx: Context, path: Path, faults: Faults, world: World, i: nat)
    requires path.Shaped() && i < |path.edgeIDs|
    ensures var rate := EdgeErrorRate(ctx, faults, path.edgeIDs[i]);
      if TimesOut(ctx, faults, path, i) then
        AttemptTree(ctx, faults, path, world, i) == Guarded(rate, Leaf(false), Leaf(false))
            && EstimatedAttempt(ctx, path, faults, i) == 0.0
      else
        && AttemptTree(ctx, faults, path, world, i)
            == Guarded(rate, Leaf(false), ServiceTree(ctx, faults, path, world, i + 1))
        && EstimatedAttempt(ctx, path, faults, i) == Thinned(rate, StaticPathSuccess(ctx, path, faults, i + 1))
  {
  }

  /** One attempt over an edge, given that the estimate downstream is exact. */
  lemma AttemptIsExact(ctx: Context, path: Path, faults: Faults, world: World, i: nat)
    requires path.Shaped() && i < |path.edgeIDs| && 0.0 <= EdgeErrorRate(ctx, faults, path.edgeIDs[i]) <= 1.0
    requires StaticPathSuccess(ctx, path, faults, i + 1) == Prob(ServiceTree(ctx, faults, path, world, i + 1))
    requires 0.0 <= StaticPathSuccess(ctx, path, faults, i + 1) <= 1.0
    ensures var a := EstimatedAttempt(ctx, path, faults, i);
      Prob(AttemptTree(ctx, faults, path, world, i)) == a && 0.0 <= a <= 1.0
  {
    var rate := EdgeErrorRate(ctx, faults, path.edgeIDs[i]);
    AttemptUnfolds(ctx, path, faults, world, i);
    if TimesOut(ctx, faults, path, i) {
      GuardedTree(rate, Leaf(false), 0.0);
      assert Thinned(rate, 0.0) == 0.0;
    } else {
      GuardedTree(rate, ServiceTree(ctx, faults, path, world, i + 1), StaticPathSuccess(ctx, path, faults, i + 1));
    }
  }

  /** All attempts over an edge, given that one of them is estimated exactly. */
  lemma RetriesAreExact(ctx: Context, path: Path, faults: Faults, world: World, i: nat, n: nat, a: real)
    requires path.Shaped() && i < |path.edgeIDs| && n > 0
    requires Prob(AttemptTree(ctx, faults, path, world, i)) == a && 0.0 <= a <= 1.0
    ensures Prob(AttemptsTree(ctx, faults, path, world, i, n)) == RetrySuccessProbability(a, n)
    ensures 0.0 <= RetrySuccessProbability(a, n) <= 1.0
  {
    AttemptsProb(ctx, faults, path, world, i, n);
    ClosedForm(a, n);
  }

  lemma ServiceTreeUnfolds(ctx: Context, path: Path, faults: Faults, world: World, i: nat, n: nat)
    requires path.Shaped() && i < |path.edgeIDs| && OnlyHardKills(ctx, faults, path, world)
    requires n == EffectiveAttempts(ctx.EdgeOf(path.edgeIDs[i]).resilience)
    requires !ServiceHardDead(ctx, faults, path.services[i]) && path.edgeIDs[i] !in faults.hardEdgeKill
    ensures ServiceTree(ctx, faults, path, world, i)
         == Guarded(RateOf(faults.serviceErrorRates, path.services[i]), Leaf(false),
             AttemptsTree(ctx, faults, path, world, i, n))
    ensures StaticPathSuccess(ctx, path, faults, i)
         == Thinned(RateOf(faults.serviceErrorRates, path.services[i]),
             RetrySuccessProbability(EstimatedAttempt(ctx, path, faults, i), n))
  {
  }

  /** The estimate from service `i` on is exact. */
  ghost predicate ExactFrom(ctx: Context, path: Path, faults: Faults, world: World, i: nat)
    requires path.Shaped() && i < |path.services|
  {
    && StaticPathSuccess(ctx, path, faults, i) == Prob(ServiceTree(ctx, faults, path, world, i))
    && 0.0 <= StaticPathSuccess(ctx, path, faults, i) <= 1.0
  }

  lemma LastServiceExact(ctx: Context, path: Path, faults: Faults, world: World)
    requires path.Shaped() && OnlyHardKills(ctx, faults, path, world)
    requires 0.0 <= RateOf(faults.serviceErrorRates, path.services[|path.edgeIDs|]) <= 1.0
    ensures ExactFrom(ctx, path, faults, world, |path.edgeIDs|)
  {
    GuardedTree(RateOf(faults.serviceErrorRates, path.services[|path.edgeIDs|]), Leaf(true), 1.0);
  }

  lemma DeadPartExact(ctx: Context, path: Path, faults: Faults, world: World, i: nat)
    requires path.Shaped() && i < |path.edgeIDs| && OnlyHardKills(ctx, faults, path, world)
    requires 0.0 <= RateOf(faults.serviceErrorRates, path.services[i]) <= 1.0
    requires ServiceHardDead(ctx, faults, path.services[i]) || path.edgeIDs[i] in faults.hardEdgeKill
    ensures ExactFrom(ctx, path, faults, world, i)
  {
    GuardedTree(RateOf(faults.serviceErrorRates, path.services[i]), Leaf(false), 0.0);
  }

  lemma LivePartExact(ctx: Context, path: Path, faults: Faults, world: World, i: nat)
    requires path.Shaped() && i < |path.edgeIDs| && OnlyHardKills(ctx, faults, path, world)
    requires 0.0 <= RateOf(faults.serviceErrorRates, path.services[i]) <= 1.0
    requires 0.0 <= EdgeErrorRate(ctx, faults, path.edgeIDs[i]) <= 1.0
    requires !ServiceHardDead(ctx, faults, path.services[i]) && path.edgeIDs[i] !in faults.hardEdgeKill
    requires ExactFrom(ctx, path, faults, world, i + 1)
    ensures ExactFrom(ctx, path, faults, world, i)
  {
    var n, a := EffectiveAttempts(ctx.EdgeOf(path.edgeIDs[i]).resilience), EstimatedAttempt(ctx, path, faults, i);
    AttemptIsExact(ctx, path, faults, world, i);
    RetriesAreExact(ctx, path, faults, world, i, n, a);
    ServiceTreeUnfolds(ctx, path, faults, world, i, n);
    GuardedTree(RateOf(faults.serviceErrorRates, path.services[i]), AttemptsTree(ctx, faults, path, world, i, n),
                RetrySuccessProbability(a, n));
  }

  /** The static estimate is the exact success probability of execution when only hard-killed parts are down. */
  lemma {:induction false} StaticSuccessIsExact(ctx: Context, path: Path, faults: Faults, world: World, i: nat)
    requires path.Shaped() && i < |path.services| && RatesInRange(ctx, faults)
        && OnlyHardKills(ctx, faults, path, world)
    ensures StaticPathSuccess(ctx, path, faults, i) == Prob(ServiceTree(ctx, faults, path, world, i))
    ensures 0.0 <= StaticPathSuccess(ctx, path, faults, i) <= 1.0
    decreases |path.services| - i
  {
    if i == |path.edgeIDs| {
      LastServiceExact(ctx, path, faults, world);
    } else if ServiceHardDead(ctx, faults, path.services[i]) || path.edgeIDs[i] in faults.hardEdgeKill {
      DeadPartExact(ctx, path, faults, world, i);
    } else {
      StaticSuccessIsExact(ctx, path, faults, world, i + 1);
      LivePartExact(ctx, path, faults, world, i);
    }
  }
}
