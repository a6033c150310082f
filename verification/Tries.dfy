/** How many attempts a run makes over an edge, and the exact mean of that number over uniform independent draws. */
module Tries {
  import opened Wrappers
  import opened Ids
  import opened Draws
  import opened Topology
  import opened Execution
  import opened Probability

  // ----- counting the attempts of a run

  /** The attempt loop with its verdict, its generator position, and the number of attempts it makes. */
  function CountedAttempts(ctx: Context, faults: Faults, path: Path, world: World, stream: Stream, i: nat, left: nat,
      pos: nat): (bool, nat, nat)
    requires path.Shaped() && i < |path.edgeIDs|
    decreases left
  {
    if left == 0 then (false, pos, 0)
    else
      var rate := EdgeErrorRate(ctx, faults, path.edgeIDs[i]);
      var failed := rate > 0.0 && stream.draw(pos) < rate;
      var next := if rate > 0.0 then pos + 1 else pos;
      var down := if failed || TimesOut(ctx, faults, path, i) then (false, next)
                  else ServiceRun(ctx, faults, path, world, stream, i + 1, next);
      if down.0 then (true, down.1, 1)
      else
        var rest := CountedAttempts(ctx, faults, path, world, stream, i, left - 1, down.1);
        (rest.0, rest.1, rest.2 + 1)
  }

  /** Counting changes nothing: the verdict and the position are those of the attempt loop. */
  lemma {:induction false} CountingIsExecution(ctx: Context, faults: Faults, path: Path, world: World, stream: Stream,
      i: nat, left: nat, pos: nat)
    requires path.Shaped() && i < |path.edgeIDs|
    ensures var counted := CountedAttempts(ctx, faults, path, world, stream, i, left, pos);
      && (counted.0, counted.1) == Attempts(ctx, faults, path, world, stream, i, left, pos)
      && counted.2 <= left && (!counted.0 ==> counted.2 == left)
  {
    if left > 0 {
      var rate := EdgeErrorRate(ctx, faults, path.edgeIDs[i]);
      var next := if rate > 0.0 then pos + 1 else pos;
      var failed := rate > 0.0 && stream.draw(pos) < rate;
      var down := if failed || TimesOut(ctx, faults, path, i) then (false, next)
                  else ServiceRun(ctx, faults, path, world, stream, i + 1, next);
      CountingIsExecution(ctx, faults, path, world, stream, i, left - 1, down.1);
    }
  }

  /** The attempts a run makes over edge `i` once it is reached; none over an edge that is down. */
  function AttemptsMade(ctx: Context, faults: Faults, path: Path, world: World, stream: Stream, i: nat, pos: nat): nat
    requires path.Shaped() && i < |path.edgeIDs|
  {
    if !Up(world.edgeAlive, path.edgeIDs[i]) then 0
    else
      var n := EffectiveAttempts(ctx.EdgeOf(path.edgeIDs[i]).resilience);
      CountedAttempts(ctx, faults, path, world, stream, i, n, pos).2
  }

  // ----- the same number as a decision tree

  datatype Cost = Done(tries: nat) | Toss(rate: real, below: Cost, above: Cost)

  function Spend(cost: Cost, stream: Stream, pos: nat): nat {
    match cost
    case Done(tries) => tries
    case Toss(rate, below, above) =>
      if stream.draw(pos) < rate then Spend(below, stream, pos + 1) else Spend(above, stream, pos + 1)
  }

  /** The mean over uniform draws, each independent of the others. */
  function Mean(cost: Cost): real {
    match cost
    case Done(tries) => tries as real
    case Toss(rate, below, above) => Mix(rate, Mean(below), Mean(above))
  }

  function OneMore(cost: Cost): Cost {
    match cost
    case Done(tries) => Done(tries + 1)
    case Toss(rate, below, above) => Toss(rate, OneMore(below), OneMore(above))
  }

  /** One attempt, and the rest if it fails, on the draws that remain. */
  function Try(attempt: Tree, rest: Cost): Cost {
    match attempt
    case Leaf(ok) => if ok then Done(1) else OneMore(rest)
    case Draw(rate, below, above) => Toss(rate, Try(below, rest), Try(above, rest))
  }

  function TriesCost(attempt: Tree, n: nat): Cost {
    if n == 0 then Done(0) else Try(attempt, TriesCost(attempt, n - 1))
  }

  function EdgeCost(ctx: Context, faults: Faults, path: Path, world: World, i: nat): Cost
    requires path.Shaped() && i < |path.edgeIDs|
  {
    if !Up(world.edgeAlive, path.edgeIDs[i]) then Done(0)
    else
      TriesCost(AttemptTree(ctx, faults, path, world, i), EffectiveAttempts(ctx.EdgeOf(path.edgeIDs[i]).resilience))
  }

  lemma {:induction false} SpendOneMore(cost: Cost, stream: Stream, pos: nat)
    ensures Spend(OneMore(cost), stream, pos) == Spend(cost, stream, pos) + 1
  {
    match cost
    case Done(tries) =>
    case Toss(rate, below, above) =>
      SpendOneMore(below, stream, pos + 1);
      SpendOneMore(above, stream, pos + 1);
  }

  lemma {:induction false} SpendTry(attempt: Tree, rest: Cost, stream: Stream, pos: nat)
    ensures Spend(Try(attempt, rest), stream, pos)
         == var one := Run(attempt, stream, pos); if one.0 then 1 else 1 + Spend(rest, stream, one.1)
  {
    match attempt
    case Leaf(ok) => SpendOneMore(rest, stream, pos);
    case Draw(rate, below, above) =>
      SpendTry(below, rest, stream, pos + 1);
      SpendTry(above, rest, stream, pos + 1);
  }

  /** What one attempt does: an error draw, the timeout, or the run downstream. */
  lemma AttemptRuns(ctx: Context, faults: Faults, path: Path, world: World, stream: Stream, i: nat, pos: nat)
    requires path.Shaped() && i < |path.edgeIDs|
    ensures Run(AttemptTree(ctx, faults, path, world, i), stream, pos)
         == var rate := EdgeErrorRate(ctx, faults, path.edgeIDs[i]);
            var next := if rate > 0.0 then pos + 1 else pos;
            if (rate > 0.0 && stream.draw(pos) < rate) || TimesOut(ctx, faults, path, i) then (false, next)
            else ServiceRun(ctx, faults, path, world, stream, i + 1, next)
  {
    var rate := EdgeErrorRate(ctx, faults, path.edgeIDs[i]);
    ServiceTreeRuns(ctx, faults, path, world, stream, i + 1, if rate > 0.0 then pos + 1 else pos);
  }

  lemma {:induction false} TriesCostSpends(ctx: Context, faults: Faults, path: Path, world: World, stream: Stream,
      i: nat, n: nat, pos: nat)
    requires path.Shaped() && i < |path.edgeIDs|
    ensures Spend(TriesCost(AttemptTree(ctx, faults, path, world, i), n), stream, pos)
         == CountedAttempts(ctx, faults, path, world, stream, i, n, pos).2
  {
    if n > 0 {
      var attempt := AttemptTree(ctx, faults, path, world, i);
      SpendTry(attempt, TriesCost(attempt, n - 1), stream, pos);
      AttemptRuns(ctx, faults, path, world, stream, i, pos);
      TriesCostSpends(ctx, faults, path, world, stream, i, n - 1, Run(attempt, stream, pos).1);
    }
  }

  /** On every stream the tree spends exactly the attempts the run makes. */
  lemma EdgeCostIsAttempts(ctx: Context, faults: Faults, path: Path, world: World, stream: Stream, i: nat, pos: nat)
    requires path.Shaped() && i < |path.edgeIDs|
    ensures Spend(EdgeCost(ctx, faults, path, world, i), stream, pos)
         == AttemptsMade(ctx, faults, path, world, stream, i, pos)
  {
    TriesCostSpends(ctx, faults, path, world, stream, i, EffectiveAttempts(ctx.EdgeOf(path.edgeIDs[i]).resilience),
        pos);
  }

  // ----- its exact mean

  /** Mean tries of a loop that stops at the first success, each try succeeding with probability a. */
  function MeanTries(a: real, n: nat): real {
    if n == 0 then 0.0 else 1.0 + Thinned(a, MeanTries(a, n - 1))
  }

  lemma MixShift(rate: real, x: real, y: real)
    ensures Mix(rate, x + 1.0, y + 1.0) == Mix(rate, x, y) + 1.0
  {
    assert rate * (x + 1.0) == rate * x + rate;
    assert (1.0 - rate) * (y + 1.0) == (1.0 - rate) * y + (1.0 - rate);
  }

  lemma {:induction false} MeanOneMore(cost: Cost)
    ensures Mean(OneMore(cost)) == Mean(cost) + 1.0
  {
    match cost
    case Done(tries) =>
    case Toss(rate, below, above) =>
      MeanOneMore(below);
      MeanOneMore(above);
      MixShift(rate, Mean(below), Mean(above));
  }

  lemma MixThinned(rate: real, p: real, q: real, m: real)
    ensures Mix(rate, 1.0 + Thinned(p, m), 1.0 + Thinned(q, m)) == 1.0 + Thinned(Mix(rate, p, q), m)
  {
    var s := 1.0 - rate;
    assert rate * (1.0 + (1.0 - p) * m) == rate + rate * m - (rate * p) * m;
    assert s * (1.0 + (1.0 - q) * m) == s + s * m - (s * q) * m;
    assert rate * m + s * m == m;
    assert (1.0 - Mix(rate, p, q)) * m == m - (rate * p) * m - (s * q) * m;
  }

  lemma {:induction false} MeanTry(attempt: Tree, rest: Cost)
    ensures Mean(Try(attempt, rest)) == 1.0 + Thinned(Prob(attempt), Mean(rest))
  {
    match attempt
    case Leaf(ok) => MeanOneMore(rest);
    case Draw(rate, below, above) =>
      MeanTry(below, rest);
      MeanTry(above, rest);
      MixThinned(rate, Prob(below), Prob(above), Mean(rest));
  }

  lemma {:induction false} MeanOfTries(attempt: Tree, n: nat)
    ensures Mean(TriesCost(attempt, n)) == MeanTries(Prob(attempt), n)
  {
    if n > 0 {
      MeanOfTries(attempt, n - 1);
      MeanTry(attempt, TriesCost(attempt, n - 1));
    }
  }

  /** The mean number of attempts a run makes over an edge that is up, and none over one that is down. */
  lemma MeanAttempts(ctx: Context, faults: Faults, path: Path, world: World, i: nat)
    requires path.Shaped() && i < |path.edgeIDs|
    ensures Mean(EdgeCost(ctx, faults, path, world, i))
         == if Up(world.edgeAlive, path.edgeIDs[i])
            then MeanTries(Prob(AttemptTree(ctx, faults, path, world, i)),
                           EffectiveAttempts(ctx.EdgeOf(path.edgeIDs[i]).resilience))
            else 0.0
  {
    MeanOfTries(AttemptTree(ctx, faults, path, world, i), EffectiveAttempts(ctx.EdgeOf(path.edgeIDs[i]).resilience));
  }
}
