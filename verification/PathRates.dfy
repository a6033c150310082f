/** The reported success rate of a path: what the shared path counter measures, and when it is the path's own rate. */
module PathRates {
  import opened Wrappers
  import opened Ids
  import opened Draws
  import opened Topology
  import opened Execution
  import opened Endpoints
  import opened ProfileRun
  import opened Counting
  import opened Sampling
  import opened Chances
  import Predicates
  import TargetPaths

  /** How many of the first `n` endpoints list a path of this ID. */
  function Listings(endpoints: seq<Endpoint>, id: string, n: nat): nat
    requires n <= |endpoints|
  {
    if n == 0 then 0
    else
      var paths := endpoints[n - 1].diagnostic;
      Listings(endpoints, id, n - 1) + if Listed(paths, |paths|, id) then 1 else 0
  }

  lemma {:induction false} ResultsListed(setup: Setup, world: World, trial: nat, paths: seq<Path>, n: nat, pos: nat,
      id: string)
    requires n <= |paths| && forall i | 0 <= i < |paths| :: paths[i].Shaped()
    requires Up(PathResults(setup, world, trial, paths, n, pos).0, id)
    ensures Listed(paths, n, id)
  {
    if paths[n - 1].id != id {
      ResultsListed(setup, world, trial, paths, n - 1, pos, id);
    }
  }

  lemma {:induction false} HitsBounded(setup: Setup, world: World, trial: nat, n: nat, pos: nat, id: string)
    requires setup.Shaped() && n <= |setup.endpoints|
    ensures PathHits(setup, world, trial, n, pos, id) <= Listings(setup.endpoints, id, n)
  {
    if n > 0 {
      HitsBounded(setup, world, trial, n - 1, pos, id);
      var paths := setup.endpoints[n - 1].diagnostic;
      var start := Verdicts(setup, world, trial, n - 1, pos).1;
      if Up(PathResults(setup, world, trial, paths, |paths|, start).0, id) {
        ResultsListed(setup, world, trial, paths, |paths|, start, id);
      }
    }
  }

  lemma TrialHitsBounded(setup: Setup, id: string, trial: nat)
    requires setup.Runnable()
    ensures TrialHits(setup, trial, id) <= Listings(setup.endpoints, id, |setup.endpoints|)
  {
    var sampled := TrialWorld(setup, trial, Cursor(setup, trial));
    HitsBounded(setup, sampled.0, trial, |setup.endpoints|, sampled.1, id);
  }

  /** The counter never exceeds one success per trial and listing; with one listing the reported rate is at most 1. */
  lemma CounterBounded(setup: Setup, id: string, n: nat)
    requires setup.Runnable()
    ensures PathSuccesses(setup, id, n) <= n * Listings(setup.endpoints, id, |setup.endpoints|)
  {
    forall t: nat | t < n
      ensures HitsEach(setup, id)(t) <= Listings(setup.endpoints, id, |setup.endpoints|)
    {
      TrialHitsBounded(setup, id, t);
    }
    SumBounded(HitsEach(setup, id), Listings(setup.endpoints, id, |setup.endpoints|), n);
  }

  // ----- what each listing counts

  /**
   Whether endpoint `e` finds a path of this ID successful in a trial's world. Its list is executed on the trial's
   generators, the shared one standing where the endpoints before it left it.
   */
  ghost predicate ListingWinsIn(setup: Setup, world: World, trial: nat, e: nat, pos: nat, id: string)
    requires setup.Shaped() && e < |setup.endpoints|
  {
    var paths := setup.endpoints[e].diagnostic;
    Up(PathResults(setup, world, trial, paths, |paths|, Verdicts(setup, world, trial, e, pos).1).0, id)
  }

  ghost predicate ListingWins(setup: Setup, id: string, e: nat, trial: nat)
    requires setup.Runnable() && e < |setup.endpoints|
  {
    var sampled := TrialWorld(setup, trial, Cursor(setup, trial));
    ListingWinsIn(setup, sampled.0, trial, e, sampled.1, id)
  }

  ghost function ListingWinning(setup: Setup, id: string, e: nat): nat -> bool
    requires setup.Runnable() && e < |setup.endpoints|
  {
    (trial: nat) => ListingWins(setup, id, e, trial)
  }

  /** The trials in which endpoint `e`, by its own listing, sees the path succeed. */
  ghost function ListingSuccesses(setup: Setup, id: string, e: nat, n: nat): nat
    requires setup.Runnable() && e < |setup.endpoints|
  {
    CountTrue(ListingWinning(setup, id, e), n)
  }

  ghost function OwnSuccesses(setup: Setup, id: string, n: nat): nat -> nat
    requires setup.Runnable()
  {
    (e: nat) => if e < |setup.endpoints| then ListingSuccesses(setup, id, e, n) else 0
  }

  /** The successes of the first `m` endpoints' own listings over `n` trials. */
  ghost function SumListings(setup: Setup, id: string, m: nat, n: nat): nat
    requires setup.Runnable()
  {
    SumOver(OwnSuccesses(setup, id, n), m)
  }

  lemma OwnNextTrial(setup: Setup, id: string, e: nat, n: nat)
    requires setup.Runnable() && e < |setup.endpoints|
    ensures OwnSuccesses(setup, id, n + 1)(e) == OwnSuccesses(setup, id, n)(e) + if ListingWins(setup, id, e, n) then 1
        else 0
  {
  }

  ghost function WinsEach(setup: Setup, id: string, trial: nat): nat -> nat
    requires setup.Runnable()
  {
    (e: nat) => if e < |setup.endpoints| && ListingWins(setup, id, e, trial) then 1 else 0
  }

  lemma HitsStep(setup: Setup, world: World, trial: nat, n: nat, pos: nat, id: string)
    requires setup.Shaped() && n < |setup.endpoints|
    ensures PathHits(setup, world, trial, n + 1, pos, id)
         == PathHits(setup, world, trial, n, pos, id)
            + if ListingWinsIn(setup, world, trial, n, pos, id) then 1 else 0
  {
  }

  /** The hits of a trial are the listings that win in it. */
  lemma {:induction false} HitsCountWins(setup: Setup, world: World, trial: nat, n: nat, pos: nat, id: string,
      f: nat -> nat)
    requires setup.Shaped() && n <= |setup.endpoints|
    requires forall e: nat | e < n :: f(e) == if ListingWinsIn(setup, world, trial, e, pos, id) then 1 else 0
    ensures PathHits(setup, world, trial, n, pos, id) == SumOver(f, n)
  {
    if n > 0 {
      HitsCountWins(setup, world, trial, n - 1, pos, id, f);
      HitsStep(setup, world, trial, n - 1, pos, id);
    }
  }

  lemma HitsAreWins(setup: Setup, id: string, trial: nat)
    requires setup.Runnable()
    ensures TrialHits(setup, trial, id) == SumOver(WinsEach(setup, id, trial), |setup.endpoints|)
  {
    var sampled := TrialWorld(setup, trial, Cursor(setup, trial));
    HitsCountWins(setup, sampled.0, trial, |setup.endpoints|, sampled.1, id, WinsEach(setup, id, trial));
  }

  lemma SumNextTrial(setup: Setup, id: string, n: nat)
    requires setup.Runnable()
    ensures var m := |setup.endpoints|;
      SumListings(setup, id, m, n + 1) == SumListings(setup, id, m, n) + TrialHits(setup, n, id)
  {
    var m := |setup.endpoints|;
    forall e: nat | e < m
      ensures OwnSuccesses(setup, id, n + 1)(e) == OwnSuccesses(setup, id, n)(e) + WinsEach(setup, id, n)(e)
    {
      OwnNextTrial(setup, id, e, n);
    }
    SumAdds(OwnSuccesses(setup, id, n), WinsEach(setup, id, n), OwnSuccesses(setup, id, n + 1), m);
    HitsAreWins(setup, id, n);
  }

  lemma NoTrials(setup: Setup, id: string)
    requires setup.Runnable()
    ensures SumListings(setup, id, |setup.endpoints|, 0) == 0
  {
    SumOfNone(OwnSuccesses(setup, id, 0), |setup.endpoints|);
  }

  ghost function CounterAfter(setup: Setup, id: string): nat -> nat
    requires setup.Runnable()
  {
    (n: nat) => PathSuccesses(setup, id, n)
  }

  ghost function SumAfter(setup: Setup, id: string): nat -> nat
    requires setup.Runnable()
  {
    (n: nat) => SumListings(setup, id, |setup.endpoints|, n)
  }

  lemma SameStep(setup: Setup, id: string, n: nat)
    requires setup.Runnable()
    ensures CounterAfter(setup, id)(n + 1) == CounterAfter(setup, id)(n) + TrialHits(setup, n, id)
    ensures SumAfter(setup, id)(n + 1) == SumAfter(setup, id)(n) + TrialHits(setup, n, id)
  {
    assert HitsEach(setup, id)(n) == TrialHits(setup, n, id);
    SumNextTrial(setup, id, n);
  }

  /** In every run, coupled or not, the counter of an ID adds up the own successes of all endpoints' listings. */
  lemma CounterIsSum(setup: Setup, id: string, n: nat)
    requires setup.Runnable()
    ensures PathSuccesses(setup, id, n) == SumListings(setup, id, |setup.endpoints|, n)
  {
    NoTrials(setup, id);
    forall k: nat | k < n
      ensures CounterAfter(setup, id)(k + 1) - CounterAfter(setup, id)(k)
          == SumAfter(setup, id)(k + 1) - SumAfter(setup, id)(k)
    {
      SameStep(setup, id, k);
    }
    SameSteps(CounterAfter(setup, id), SumAfter(setup, id), n);
  }

  // ----- whether a listing can succeed at all

  /** The entry at `j` of the list is a path of this ID that can succeed. */
  predicate Hopeful(setup: Setup, paths: seq<Path>, id: string, j: nat)
    requires j < |paths| && paths[j].Shaped()
  {
    paths[j].id == id && CanSucceed(setup.ctx, setup.profile, setup.faults, paths[j])
  }

  ghost predicate MaySucceed(setup: Setup, id: string, e: nat)
    requires setup.Shaped() && e < |setup.endpoints|
  {
    exists j: nat | j < |setup.endpoints[e].diagnostic| :: Hopeful(setup, setup.endpoints[e].diagnostic, id, j)
  }

  /** The verdict recorded for an ID is that of executing some listed path of the ID. */
  lemma {:induction false} ResultIsRun(setup: Setup, world: World, trial: nat, paths: seq<Path>, n: nat, pos: nat,
      id: string)
    returns (j: nat)
    requires n <= |paths| && forall i | 0 <= i < |paths| :: paths[i].Shaped()
    requires Up(PathResults(setup, world, trial, paths, n, pos).0, id)
    ensures j < n && paths[j].id == id
    ensures ServiceRun(setup.ctx, setup.faults, paths[j], world, PathStream(setup, trial, paths[j]), 0,
                       From(setup, PathResults(setup, world, trial, paths, j, pos).1)).0
  {
    if paths[n - 1].id == id {
      j := n - 1;
    } else {
      j := ResultIsRun(setup, world, trial, paths, n - 1, pos, id);
    }
  }

  lemma WinsNeedHope(setup: Setup, id: string, e: nat, trial: nat)
    requires setup.Runnable() && setup.ctx.Valid() && e < |setup.endpoints| && ListingWins(setup, id, e, trial)
    ensures MaySucceed(setup, id, e)
  {
    var from := From(setup, Cursor(setup, trial));
    var sampled := TrialWorld(setup, trial, Cursor(setup, trial));
    var paths := setup.endpoints[e].diagnostic;
    var start := Verdicts(setup, sampled.0, trial, e, sampled.1).1;
    assert forall i | 0 <= i < |paths| :: paths[i].Shaped();
    var j := ResultIsRun(setup, sampled.0, trial, paths, |paths|, start, id);
    SampleFailsExactly(setup.ctx, setup.profile, setup.faults, StateStream(setup, trial), from);
    SuccessNeedsChance(setup.ctx, setup.profile, setup.faults, StateStream(setup, trial), from, paths[j],
                       PathStream(setup, trial, paths[j]), From(setup,
                       PathResults(setup, sampled.0, trial, paths, j, start).1));
    assert Hopeful(setup, paths, id, j);
  }

  lemma HopelessNeverWins(setup: Setup, id: string, e: nat, n: nat)
    requires setup.Runnable() && setup.ctx.Valid() && e < |setup.endpoints| && !MaySucceed(setup, id, e)
    ensures ListingSuccesses(setup, id, e, n) == 0
  {
    forall t: nat | t < n
      ensures !ListingWinning(setup, id, e)(t)
    {
      if ListingWins(setup, id, e, t) {
        WinsNeedHope(setup, id, e, t);
      }
    }
    CountNone(ListingWinning(setup, id, e), n);
  }

  // ----- entropy that makes every listing of a path succeed in the first trial

  /** The first trial's world has the path up, and whatever the path then reads is `high`. */
  ghost predicate Grants(setup: Setup, path: Path, high: real)
    requires setup.Runnable()
  {
    var sampled := TrialWorld(setup, 0, 0);
    && PathUp(sampled.0, path)
    && HighFrom(PathStream(setup, 0, path), high, if setup.profile.coupledTrials then 0 else sampled.1)
  }

  /** Whatever permutations cost a generator, some entropy grants a path that can succeed a world and high draws. */
  lemma GrantingEntropy(setup: Setup, path: Path, high: real, after: (nat, nat) -> nat) returns (entropy: Entropy)
    requires setup.Runnable() && setup.ctx.Valid() && path.Shaped() && 0.0 <= high < 1.0
    requires CanSucceed(setup.ctx, setup.profile, setup.faults, path)
    ensures setup.(entropy := entropy).Runnable() && Grants(setup.(entropy := entropy), path, high)
    ensures forall seed :: entropy.source(seed).afterPerm == after
  {
    var seed := setup.profile.seed;
    var state := ChanceGrants(setup.ctx, setup.profile, setup.faults, path, high, after);
    var later := SplicedTape(0, high, [], after);
    entropy := Entropy(
      (s: int) => if s == seed then state else later,
      (s: int, name: string, index: int) => s,
      (s: int, trial: nat, subject: Subject) => if subject == StateLabel then s else s + 1);
    var granted := setup.(entropy := entropy);
    assert granted.Shaped() by {
      assert granted.endpoints == setup.endpoints;
    }
    assert StateStream(granted, 0) == state && From(granted, 0) == 0;
    assert PathStream(granted, 0, path) == if setup.profile.coupledTrials then later else state;
  }

  lemma {:induction false} ResultsMoveOn(setup: Setup, world: World, trial: nat, paths: seq<Path>, n: nat, pos: nat)
    requires n <= |paths| && forall i | 0 <= i < |paths| :: paths[i].Shaped()
    ensures PathResults(setup, world, trial, paths, n, pos).1 >= pos
  {
    if n > 0 {
      ResultsMoveOn(setup, world, trial, paths, n - 1, pos);
      var at := PathResults(setup, world, trial, paths, n - 1, pos).1;
      RunMovesOn(setup.ctx, setup.faults, paths[n - 1], world, PathStream(setup, trial, paths[n - 1]), 0,
          From(setup, at));
    }
  }

  lemma {:induction false} VerdictsMoveOn(setup: Setup, world: World, trial: nat, n: nat, pos: nat)
    requires setup.Shaped() && n <= |setup.endpoints|
    ensures Verdicts(setup, world, trial, n, pos).1 >= pos
  {
    if n > 0 {
      VerdictsMoveOn(setup, world, trial, n - 1, pos);
      var paths := setup.endpoints[n - 1].diagnostic;
      assert forall i | 0 <= i < |paths| :: paths[i].Shaped();
      ResultsMoveOn(setup, world, trial, paths, |paths|, Verdicts(setup, world, trial, n - 1, pos).1);
    }
  }

  lemma OtherResult(setup: Setup, world: World, trial: nat, paths: seq<Path>, n: nat, pos: nat, id: string)
    requires 0 < n <= |paths| && (forall i | 0 <= i < |paths| :: paths[i].Shaped()) && paths[n - 1].id != id
    ensures Up(PathResults(setup, world, trial, paths, n, pos).0, id)
        == Up(PathResults(setup, world, trial, paths, n - 1, pos).0, id)
  {
  }

  lemma LastResult(setup: Setup, world: World, trial: nat, paths: seq<Path>, n: nat, pos: nat)
    requires 0 < n <= |paths| && forall i | 0 <= i < |paths| :: paths[i].Shaped()
    ensures Up(PathResults(setup, world, trial, paths, n, pos).0, paths[n - 1].id)
         == ServiceRun(setup.ctx, setup.faults, paths[n - 1], world, PathStream(setup, trial, paths[n - 1]), 0,
                       From(setup, PathResults(setup, world, trial, paths, n - 1, pos).1)).0
  {
  }

  lemma {:induction false} ResultKept(setup: Setup, world: World, trial: nat, paths: seq<Path>, n: nat, pos: nat,
      j: nat)
    requires j < n <= |paths| && TargetPaths.DistinctIDs(paths) && forall i | 0 <= i < |paths| :: paths[i].Shaped()
    ensures Up(PathResults(setup, world, trial, paths, n, pos).0, paths[j].id)
         == Up(PathResults(setup, world, trial, paths, j + 1, pos).0, paths[j].id)
  {
    if j < n - 1 {
      ResultKept(setup, world, trial, paths, n - 1, pos, j);
      OtherResult(setup, world, trial, paths, n, pos, paths[j].id);
    }
  }

  /** A listed path keeps its own verdict when no other entry has its ID. */
  lemma ResultOfPath(setup: Setup, world: World, trial: nat, paths: seq<Path>, n: nat, pos: nat, j: nat)
    requires j < n <= |paths| && TargetPaths.DistinctIDs(paths) && forall i | 0 <= i < |paths| :: paths[i].Shaped()
    ensures Up(PathResults(setup, world, trial, paths, n, pos).0, paths[j].id)
         == ServiceRun(setup.ctx, setup.faults, paths[j], world, PathStream(setup, trial, paths[j]), 0,
                       From(setup, PathResults(setup, world, trial, paths, j, pos).1)).0
  {
    ResultKept(setup, world, trial, paths, n, pos, j);
    LastResult(setup, world, trial, paths, j + 1, pos);
  }

  lemma GrantedWins(setup: Setup, path: Path, high: real, e: nat, j: nat)
    requires setup.Runnable() && setup.DistinctLists() && path.Shaped() && Grants(setup, path, high)
    requires Passable(setup.ctx, setup.faults, path)
    requires Exceeds(setup.ctx, setup.faults, path, high, |path.services|, |path.edgeIDs|)
    requires e < |setup.endpoints| && j < |setup.endpoints[e].diagnostic| && setup.endpoints[e].diagnostic[j] == path
    ensures ListingWins(setup, path.id, e, 0)
  {
    var sampled := TrialWorld(setup, 0, 0);
    var paths := setup.endpoints[e].diagnostic;
    var start := Verdicts(setup, sampled.0, 0, e, sampled.1).1;
    assert Cursor(setup, 0) == 0;
    assert forall i | 0 <= i < |paths| :: paths[i].Shaped();
    VerdictsMoveOn(setup, sampled.0, 0, e, sampled.1);
    ResultsMoveOn(setup, sampled.0, 0, paths, j, start);
    ResultOfPath(setup, sampled.0, 0, paths, |paths|, start, j);
    HighDrawsSucceed(setup.ctx, setup.faults, path, sampled.0, PathStream(setup, 0, path), high, 0,
                     From(setup, PathResults(setup, sampled.0, 0, paths, j, start).1));
  }

  // ----- when the reported rate is a listing's own

  ghost function ReportedRate(setup: Setup, id: string, n: nat): real
    requires setup.Runnable() && n > 0
  {
    PathSuccesses(setup, id, n) as real / n as real
  }

  ghost function OwnRate(setup: Setup, id: string, e: nat, n: nat): real
    requires setup.Runnable() && e < |setup.endpoints| && n > 0
  {
    ListingSuccesses(setup, id, e, n) as real / n as real
  }

  /** With this entropy the rate reported for the ID is the one endpoint `e` measures by its own listing. */
  ghost predicate RateIsOwn(setup: Setup, entropy: Entropy, id: string, e: nat, n: nat)
    requires setup.Runnable() && e < |setup.endpoints| && n > 0
  {
    var run := setup.(entropy := entropy);
    run.Runnable() && ReportedRate(run, id, n) == OwnRate(run, id, e, n)
  }

  lemma SameSetup(setup: Setup, entropy: Entropy)
    requires setup.Runnable()
    ensures setup.(entropy := entropy).Runnable()
    ensures setup.DistinctLists() ==> setup.(entropy := entropy).DistinctLists()
  {
    var run := setup.(entropy := entropy);
    assert run.endpoints == setup.endpoints;
  }

  lemma OthersHopeless(setup: Setup, entropy: Entropy, id: string, e: nat, n: nat)
    requires setup.Runnable() && setup.ctx.Valid() && e < |setup.endpoints| && n > 0
    requires forall f | 0 <= f < |setup.endpoints| && f != e :: !MaySucceed(setup, id, f)
    ensures RateIsOwn(setup, entropy, id, e, n)
  {
    SameSetup(setup, entropy);
    var run := setup.(entropy := entropy);
    forall f | 0 <= f < |run.endpoints| && f != e
      ensures ListingSuccesses(run, id, f, n) == 0
    {
      assert !MaySucceed(setup, id, f);
      assert !MaySucceed(run, id, f) by {
        forall j: nat | j < |run.endpoints[f].diagnostic|
          ensures !Hopeful(run, run.endpoints[f].diagnostic, id, j)
        {
          assert !Hopeful(setup, setup.endpoints[f].diagnostic, id, j);
        }
      }
      HopelessNeverWins(run, id, f, n);
    }
    CounterIsSum(run, id, n);
    SumOfOne(OwnSuccesses(run, id, n), |run.endpoints|, e);
  }

  /** Some entropy makes a listing that can succeed do so in the first trial. */
  lemma HopefulWins(setup: Setup, id: string, f: nat) returns (entropy: Entropy)
    requires setup.Runnable() && setup.ctx.Valid() && setup.DistinctLists()
    requires f < |setup.endpoints| && MaySucceed(setup, id, f)
    ensures setup.(entropy := entropy).Runnable() && ListingWins(setup.(entropy := entropy), id, f, 0)
  {
    var j: nat :| j < |setup.endpoints[f].diagnostic| && Hopeful(setup, setup.endpoints[f].diagnostic, id, j);
    var path := setup.endpoints[f].diagnostic[j];
    var high := HighDraw(setup.ctx, setup.faults, path);
    entropy := GrantingEntropy(setup, path, high, (p: nat, m: nat) => p + m);
    SameSetup(setup, entropy);
    GrantedWins(setup.(entropy := entropy), path, high, f, j);
  }

  lemma AnotherWinRaisesRate(run: Setup, id: string, e: nat, f: nat, n: nat)
    requires run.Runnable() && e < |run.endpoints| && f < |run.endpoints| && e != f && n > 0
        && ListingWins(run, id, f, 0)
    ensures ReportedRate(run, id, n) != OwnRate(run, id, e, n)
  {
    WinCounts(ListingWinning(run, id, f), 0, n);
    SumOfTwo(OwnSuccesses(run, id, n), |run.endpoints|, e, f);
    CounterIsSum(run, id, n);
    SameRate(PathSuccesses(run, id, n), ListingSuccesses(run, id, e, n), n);
  }

  /**
   Whatever is drawn, the rate reported for an ID is the one endpoint `e` measures by its own listing: exactly when no
   other endpoint lists a path of the ID that can succeed. For any numbers of trials, coupled or not.
   */
  lemma RateIsOwnExactly(setup: Setup, id: string, e: nat, trials: nat)
    requires setup.Runnable() && setup.ctx.Valid() && setup.DistinctLists() && e < |setup.endpoints| && trials > 0
    ensures (forall entropy: Entropy :: RateIsOwn(setup, entropy, id, e, trials))
        <==> forall f | 0 <= f < |setup.endpoints| && f != e :: !MaySucceed(setup, id, f)
  {
    if f :| 0 <= f < |setup.endpoints| && f != e && MaySucceed(setup, id, f) {
      var entropy := HopefulWins(setup, id, f);
      AnotherWinRaisesRate(setup.(entropy := entropy), id, e, f, trials);
      assert !RateIsOwn(setup, entropy, id, e, trials);
    } else {
      forall entropy: Entropy
        ensures RateIsOwn(setup, entropy, id, e, trials)
      {
        OthersHopeless(setup, entropy, id, e, trials);
      }
    }
  }

  // ----- one path, listed by several endpoints

  /** Whoever lists the ID lists this very path. */
  ghost predicate OnePath(paths: seq<Path>, path: Path) {
    forall i | 0 <= i < |paths| && paths[i].id == path.id :: paths[i] == path
  }

  ghost predicate OnePathEverywhere(endpoints: seq<Endpoint>, path: Path) {
    forall e | 0 <= e < |endpoints| :: OnePath(endpoints[e].diagnostic, path)
  }

  ghost predicate ListedBy(endpoints: seq<Endpoint>, e: nat, id: string)
    requires e < |endpoints|
  {
    Listed(endpoints[e].diagnostic, |endpoints[e].diagnostic|, id)
  }

  lemma {:induction false} ListingsElsewhere(endpoints: seq<Endpoint>, id: string, n: nat, e: nat)
    requires n <= |endpoints| && e < |endpoints| && ListedBy(endpoints, e, id)
    ensures Listings(endpoints, id, n) >= if e < n then 1 else 0
    ensures Listings(endpoints, id, n) == (if e < n then 1 else 0)
        <==> forall f | 0 <= f < n && f != e :: !ListedBy(endpoints, f, id)
  {
    if n > 0 {
      ListingsElsewhere(endpoints, id, n - 1, e);
      if n - 1 != e && ListedBy(endpoints, n - 1, id) {
        assert Listings(endpoints, id, n) == Listings(endpoints, id, n - 1) + 1;
      } else {
        assert Listings(endpoints, id, n) == Listings(endpoints, id, n - 1) + if n - 1 == e then 1 else 0;
      }
    }
  }

  lemma MaySucceedListed(setup: Setup, path: Path, e: nat)
    requires setup.Shaped() && path.Shaped() && OnePathEverywhere(setup.endpoints, path) && e < |setup.endpoints|
    ensures MaySucceed(setup, path.id, e)
        <==> ListedBy(setup.endpoints, e, path.id) && CanSucceed(setup.ctx, setup.profile, setup.faults, path)
  {
    var paths := setup.endpoints[e].diagnostic;
    assert OnePath(paths, path);
    if ListedBy(setup.endpoints, e, path.id) && CanSucceed(setup.ctx, setup.profile, setup.faults, path) {
      var j :| 0 <= j < |paths| && paths[j].id == path.id;
      assert Hopeful(setup, paths, path.id, j);
    }
  }

  /**
   Whatever is drawn, the rate reported for a path is the one an endpoint listing it measures: exactly when that
   endpoint is the only one to list it or the path cannot succeed. The counter is shared by all endpoints.
   */
  lemma PathRateExactly(setup: Setup, path: Path, e: nat, trials: nat)
    requires setup.Runnable() && setup.ctx.Valid() && setup.DistinctLists() && trials > 0
    requires path.Shaped() && OnePathEverywhere(setup.endpoints, path)
    requires e < |setup.endpoints| && ListedBy(setup.endpoints, e, path.id)
    ensures (forall entropy: Entropy :: RateIsOwn(setup, entropy, path.id, e, trials))
        <==> Listings(setup.endpoints, path.id, |setup.endpoints|) == 1
             || !CanSucceed(setup.ctx, setup.profile, setup.faults, path)
  {
    RateIsOwnExactly(setup, path.id, e, trials);
    ListingsElsewhere(setup.endpoints, path.id, |setup.endpoints|, e);
    forall f: nat | f < |setup.endpoints|
      ensures MaySucceed(setup, path.id, f)
          <==> ListedBy(setup.endpoints, f, path.id) && CanSucceed(setup.ctx, setup.profile, setup.faults, path)
    {
      MaySucceedListed(setup, path, f);
    }
  }

  lemma ListingHit(setup: Setup, path: Path, high: real, e: nat)
    requires setup.Runnable() && setup.DistinctLists() && path.Shaped() && Grants(setup, path, high)
    requires Passable(setup.ctx, setup.faults, path)
    requires Exceeds(setup.ctx, setup.faults, path, high, |path.services|, |path.edgeIDs|)
    requires e < |setup.endpoints| && OnePath(setup.endpoints[e].diagnostic, path)
        && ListedBy(setup.endpoints, e, path.id)
    ensures ListingSuccesses(setup, path.id, e, 1) > 0
  {
    var paths := setup.endpoints[e].diagnostic;
    var j :| 0 <= j < |paths| && paths[j].id == path.id;
    GrantedWins(setup, path, high, e, j);
    WinCounts(ListingWinning(setup, path.id, e), 0, 1);
  }

  lemma ListingsHit(setup: Setup, path: Path, high: real)
    requires setup.Runnable() && setup.DistinctLists() && path.Shaped() && Grants(setup, path, high)
    requires Passable(setup.ctx, setup.faults, path) && OnePathEverywhere(setup.endpoints, path)
    requires Exceeds(setup.ctx, setup.faults, path, high, |path.services|, |path.edgeIDs|)
    ensures forall e: nat | e < |setup.endpoints| ::
              ListedBy(setup.endpoints, e, path.id) ==> OwnSuccesses(setup, path.id, 1)(e) > 0
  {
    forall e: nat | e < |setup.endpoints| && ListedBy(setup.endpoints, e, path.id)
      ensures OwnSuccesses(setup, path.id, 1)(e) > 0
    {
      ListingHit(setup, path, high, e);
    }
  }

  /** Counting at least one for every listing adds up to at least the number of listings. */
  lemma {:induction false} SumCoversListings(endpoints: seq<Endpoint>, id: string, f: nat -> nat, m: nat)
    requires m <= |endpoints| && forall e: nat | e < m :: ListedBy(endpoints, e, id) ==> f(e) > 0
    ensures SumOver(f, m) >= Listings(endpoints, id, m)
  {
    if m > 0 {
      SumCoversListings(endpoints, id, f, m - 1);
      assert ListedBy(endpoints, m - 1, id) ==> f(m - 1) > 0;
    }
  }

  /** A path that can succeed is reported, on some run of one trial, at a rate equal to the number of its listings. */
  lemma RateReachesListings(setup: Setup, path: Path) returns (entropy: Entropy)
    requires setup.Runnable() && setup.ctx.Valid() && setup.DistinctLists()
    requires path.Shaped() && OnePathEverywhere(setup.endpoints, path)
    requires CanSucceed(setup.ctx, setup.profile, setup.faults, path)
    ensures var run := setup.(entropy := entropy);
      run.Runnable() && ReportedRate(run, path.id, 1) == Listings(setup.endpoints, path.id, |setup.endpoints|) as real
  {
    var high := HighDraw(setup.ctx, setup.faults, path);
    entropy := GrantingEntropy(setup, path, high, (p: nat, m: nat) => p + m);
    var run := setup.(entropy := entropy);
    SameSetup(setup, entropy);
    ListingsHit(run, path, high);
    SumCoversListings(run.endpoints, path.id, OwnSuccesses(run, path.id, 1), |run.endpoints|);
    CounterIsSum(run, path.id, 1);
    CounterBounded(run, path.id, 1);
  }

  // ----- in coupled trials every listing sees the same execution

  /** The path succeeds in a trial's world on the trial's own generator for its ID. */
  ghost predicate PathWinsIn(setup: Setup, world: World, trial: nat, path: Path)
    requires path.Shaped()
  {
    Succeeds(setup.ctx, setup.faults, path, world,
        setup.entropy.EventStream(setup.profile.seed, trial, PathLabel(path.id)))
  }

  ghost predicate PathWinsAt(setup: Setup, path: Path, trial: nat)
    requires setup.Runnable() && path.Shaped()
  {
    PathWinsIn(setup, TrialWorld(setup, trial, Cursor(setup, trial)).0, trial, path)
  }

  ghost function PathWinning(setup: Setup, path: Path): nat -> bool
    requires setup.Runnable() && path.Shaped()
  {
    (trial: nat) => PathWinsAt(setup, path, trial)
  }

  /** The trials in which the path itself succeeds. */
  ghost function PathWins(setup: Setup, path: Path, n: nat): nat
    requires setup.Runnable() && path.Shaped()
  {
    CountTrue(PathWinning(setup, path), n)
  }

  lemma {:induction false} ResultIsWin(setup: Setup, world: World, trial: nat, paths: seq<Path>, n: nat, pos: nat,
      path: Path)
    requires setup.profile.coupledTrials && path.Shaped() && OnePath(paths, path)
    requires n <= |paths| && forall i | 0 <= i < |paths| :: paths[i].Shaped()
    ensures Up(PathResults(setup, world, trial, paths, n, pos).0, path.id)
        <==> Listed(paths, n, path.id) && PathWinsIn(setup, world, trial, path)
  {
    if n > 0 {
      ResultIsWin(setup, world, trial, paths, n - 1, pos, path);
      if paths[n - 1].id == path.id {
        assert paths[n - 1] == path;
        assert Listed(paths, n, path.id);
      } else {
        assert Listed(paths, n, path.id) <==> Listed(paths, n - 1, path.id);
      }
    }
  }

  lemma ListingIsWin(setup: Setup, world: World, trial: nat, e: nat, pos: nat, path: Path)
    requires setup.profile.coupledTrials && path.Shaped() && OnePathEverywhere(setup.endpoints, path)
    requires setup.Shaped() && e < |setup.endpoints|
    ensures ListingWinsIn(setup, world, trial, e, pos, path.id)
        <==> ListedBy(setup.endpoints, e, path.id) && PathWinsIn(setup, world, trial, path)
  {
    var paths := setup.endpoints[e].diagnostic;
    assert OnePath(paths, path);
    ResultIsWin(setup, world, trial, paths, |paths|, Verdicts(setup, world, trial, e, pos).1, path);
  }

  lemma {:induction false} HitsAreListings(setup: Setup, world: World, trial: nat, n: nat, pos: nat, path: Path)
    requires setup.Shaped() && n <= |setup.endpoints| && path.Shaped()
    requires forall e: nat | e < n ::
               ListingWinsIn(setup, world, trial, e, pos, path.id)
               <==> ListedBy(setup.endpoints, e, path.id) && PathWinsIn(setup, world, trial, path)
    ensures PathHits(setup, world, trial, n, pos, path.id)
         == if PathWinsIn(setup, world, trial, path) then Listings(setup.endpoints, path.id, n) else 0
  {
    if n > 0 {
      HitsAreListings(setup, world, trial, n - 1, pos, path);
      assert ListingWinsIn(setup, world, trial, n - 1, pos, path.id)
          <==> ListedBy(setup.endpoints, n - 1, path.id) && PathWinsIn(setup, world, trial, path);
    }
  }

  lemma TrialHitsAreListings(setup: Setup, path: Path, trial: nat)
    requires setup.Runnable() && setup.profile.coupledTrials && path.Shaped()
        && OnePathEverywhere(setup.endpoints, path)
    ensures TrialHits(setup, trial, path.id)
         == if PathWinsAt(setup, path, trial) then Listings(setup.endpoints, path.id, |setup.endpoints|) else 0
  {
    var sampled := TrialWorld(setup, trial, Cursor(setup, trial));
    forall e: nat | e < |setup.endpoints|
      ensures ListingWinsIn(setup, sampled.0, trial, e, sampled.1, path.id)
          <==> ListedBy(setup.endpoints, e, path.id) && PathWinsIn(setup, sampled.0, trial, path)
    {
      ListingIsWin(setup, sampled.0, trial, e, sampled.1, path);
    }
    HitsAreListings(setup, sampled.0, trial, |setup.endpoints|, sampled.1, path);
  }

  /** In coupled trials the counter is the number of listings times the path's own successes. */
  lemma CounterIsMultiple(setup: Setup, path: Path, n: nat)
    requires setup.Runnable() && setup.profile.coupledTrials && path.Shaped()
        && OnePathEverywhere(setup.endpoints, path)
    ensures PathSuccesses(setup, path.id, n) == Listings(setup.endpoints, path.id, |setup.endpoints|) * PathWins(setup,
        path, n)
  {
    var m := Listings(setup.endpoints, path.id, |setup.endpoints|);
    forall t: nat | t < n
      ensures HitsEach(setup, path.id)(t) == if PathWinning(setup, path)(t) then m else 0
    {
      TrialHitsAreListings(setup, path, t);
    }
    SumIsMultiple(HitsEach(setup, path.id), PathWinning(setup, path), m, n);
  }

  lemma SameRate(a: nat, b: nat, n: nat)
    requires n > 0
    ensures a as real / n as real == b as real / n as real <==> a == b
  {
    var x, y := a as real / n as real, b as real / n as real;
    assert x * n as real == a as real && y * n as real == b as real;
  }

  // ----- a rate above 1

  const LONE := Context(map["a" := Service("a", false, [1])], ["a"], map[], [])

  const VISIT := Path("a", ["a"], [])

  const NO_RULE := Predicates.Definition(Predicates.AnyOf, [], [], 0, "", [], [], [])

  /** One service that errs half of the time, visited by two endpoints, in a profile that is not coupled. */
  function VisitedTwice(entropy: Entropy): Setup {
    Setup(LONE,
          Profile("steady", 1, 0, IndependentReplica, 0.0, 0, None, None, map[], map[], false),
          [Endpoint("x", JourneyMode, NO_RULE, map[], [VISIT]), Endpoint("y", JourneyMode, NO_RULE, map[], [VISIT])],
          Faults({}, {}, map["a" := 0.5], map[], map[], map[]),
          entropy)
  }

  lemma LoneIsValid()
    ensures LONE.Valid()
  {
    assert forall id :: id in LONE.serviceIDs <==> id == "a";
    assert forall id :: id in LONE.services <==> id == "a";
  }

  lemma VisitsCanSucceed(setup: Setup)
    requires setup == VisitedTwice(setup.entropy)
    ensures CanSucceed(setup.ctx, setup.profile, setup.faults, VISIT)
  {
    assert LONE.ServiceOf("a").Bucket(0) !in setup.faults.hardBucketKill;
    assert Exposed(LONE, VISIT) == {};
  }

  lemma VisitedByBoth(endpoints: seq<Endpoint>)
    requires |endpoints| == 2 && endpoints[0].diagnostic == [VISIT] && endpoints[1].diagnostic == [VISIT]
    ensures Listings(endpoints, "a", 2) == 2 && OnePathEverywhere(endpoints, VISIT)
  {
    assert [VISIT][0].id == "a";
    assert Listings(endpoints, "a", 0) == 0 && Listings(endpoints, "a", 1) == 1;
  }

  lemma VisitsAreRunnable(entropy: Entropy)
    ensures VisitedTwice(entropy).Valid() && VisitedTwice(entropy).Runnable() && VisitedTwice(entropy).DistinctLists()
  {
    LoneIsValid();
    assert VISIT.Within(LONE);
  }

  /** An ordinary run of one trial reports this path at a success rate of 2. */
  lemma RateAboveOne(any: Entropy) returns (entropy: Entropy)
    ensures !VisitedTwice(entropy).profile.coupledTrials && VisitedTwice(entropy).Valid()
    ensures VisitedTwice(entropy).Runnable() && ReportedRate(VisitedTwice(entropy), "a", 1) == 2.0
  {
    VisitsAreRunnable(any);
    VisitsCanSucceed(VisitedTwice(any));
    VisitedByBoth(VisitedTwice(any).endpoints);
    entropy := RateReachesListings(VisitedTwice(any), VISIT);
    VisitsAreRunnable(entropy);
    assert VisitedTwice(any).(entropy := entropy) == VisitedTwice(entropy);
  }
}
