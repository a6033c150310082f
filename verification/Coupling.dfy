/** Coupled runs: raising the stress never raises any endpoint's success count. */
module Coupling {
  import opened Wrappers
  import opened Ids
  import opened Draws
  import opened Topology
  import opened Execution
  import opened Sampling
  import opened Nesting
  import opened Endpoints
  import opened Counting
  import opened ProfileRun

  /** Two coupled runs of the same endpoints on the same seed, the first under at least as much stress. */
  ghost predicate Coupled(harsh: Setup, mild: Setup) {
    && harsh.Valid() && harsh.Shaped() && mild.Shaped()
    && harsh.ctx == mild.ctx && harsh.endpoints == mild.endpoints && harsh.faults == mild.faults
    && harsh.entropy == mild.entropy
    && harsh.profile.coupledTrials && mild.profile.coupledTrials && harsh.profile.seed == mild.profile.seed
    && Harsher(harsh.ctx, harsh.profile, mild.profile)
  }

  /** Both runs execute paths on the same event streams. */
  ghost predicate SameStreams(harsh: Setup, mild: Setup) {
    && harsh.ctx == mild.ctx && harsh.faults == mild.faults && harsh.entropy == mild.entropy
    && harsh.profile.coupledTrials && mild.profile.coupledTrials && harsh.profile.seed == mild.profile.seed
  }

  ghost predicate PathsWithin(ctx: Context, paths: seq<Path>) {
    forall i | 0 <= i < |paths| :: paths[i].Within(ctx)
  }

  ghost predicate AllWithin(ctx: Context, endpoints: seq<Endpoint>) {
    forall e | 0 <= e < |endpoints| :: PathsWithin(ctx, endpoints[e].diagnostic)
  }

  /** The edge draws of both runs line up, or do not matter. */
  ghost predicate Aligned(harsh: Setup, mild: Setup) {
    Misaligned(harsh.profile, mild.profile) ==> EdgesCertain(harsh.ctx, harsh.faults, harsh.profile, mild.profile)
  }

  lemma {:induction false} PathResultsNest(harsh: Setup, mild: Setup, worse: World, better: World, trial: nat,
      paths: seq<Path>, n: nat, p: nat, q: nat)
    requires SameStreams(harsh, mild) && NoBetter(worse, better)
    requires n <= |paths| && PathsWithin(harsh.ctx, paths) && forall i | 0 <= i < |paths| :: paths[i].Shaped()
    ensures forall id :: Up(PathResults(harsh, worse, trial, paths, n, p).0, id)
                     ==> Up(PathResults(mild, better, trial, paths, n, q).0, id)
  {
    if n > 0 {
      PathResultsNest(harsh, mild, worse, better, trial, paths, n - 1, p, q);
      var path := paths[n - 1];
      var stream := PathStream(harsh, trial, path);
      assert path.Within(harsh.ctx);
      ExecutionFactors(harsh.ctx, harsh.faults, path, worse, stream, 0);
      ExecutionFactors(harsh.ctx, harsh.faults, path, better, stream, 0);
      UpdateNests(PathResults(harsh, worse, trial, paths, n - 1, p).0,
          PathResults(mild, better, trial, paths, n - 1, q).0, path.id,
                  Succeeds(harsh.ctx, harsh.faults, path, worse, stream),
                  Succeeds(harsh.ctx, harsh.faults, path, better, stream),
                  PathResults(harsh, worse, trial, paths, n, p).0, PathResults(mild, better, trial, paths, n, q).0);
    }
  }

  ghost predicate VerdictsNoBetter(worse: seq<bool>, better: seq<bool>) {
    |worse| == |better| && forall e | 0 <= e < |worse| :: worse[e] ==> better[e]
  }

  lemma {:induction false} VerdictsNest(harsh: Setup, mild: Setup, worse: World, better: World, trial: nat, n: nat,
      p: nat, q: nat)
    requires SameStreams(harsh, mild) && NoBetter(worse, better) && harsh.endpoints == mild.endpoints
        && n <= |harsh.endpoints|
    requires AllWithin(harsh.ctx, harsh.endpoints) && harsh.Shaped() && mild.Shaped()
    ensures VerdictsNoBetter(Verdicts(harsh, worse, trial, n, p).0, Verdicts(mild, better, trial, n, q).0)
  {
    if n > 0 {
      VerdictsNest(harsh, mild, worse, better, trial, n - 1, p, q);
      var endpoint := harsh.endpoints[n - 1];
      assert PathsWithin(harsh.ctx, endpoint.diagnostic);
      var before, before' := Verdicts(harsh, worse, trial, n - 1, p), Verdicts(mild, better, trial, n - 1, q);
      PathResultsNest(harsh, mild, worse, better, trial, endpoint.diagnostic, |endpoint.diagnostic|, before.1,
          before'.1);
      OutcomeMonotone(endpoint, worse, better,
                      PathResults(harsh, worse, trial, endpoint.diagnostic, |endpoint.diagnostic|, before.1).0,
                      PathResults(mild, better, trial, endpoint.diagnostic, |endpoint.diagnostic|, before'.1).0);
    }
  }

  lemma ValidIsWithin(setup: Setup)
    requires setup.Valid()
    ensures AllWithin(setup.ctx, setup.endpoints)
  {
    forall e | 0 <= e < |setup.endpoints|
      ensures PathsWithin(setup.ctx, setup.endpoints[e].diagnostic)
    {
      assert setup.endpoints[e].Valid(setup.ctx);
    }
  }

  lemma MilderFits(ctx: Context, harsh: Profile, mild: Profile)
    requires Harsher(ctx, harsh, mild) && Fits(ctx, harsh)
    ensures Fits(ctx, mild)
  {
  }

  lemma TrialNests(harsh: Setup, mild: Setup, e: nat, n: nat)
    requires Coupled(harsh, mild) && Aligned(harsh, mild) && harsh.Runnable() && mild.Runnable()
    ensures Wins(harsh, e, n) ==> Wins(mild, e, n)
  {
    var p, q := Cursor(harsh, n), Cursor(mild, n);
    var stream := StateStream(harsh, n);
    SampleFailsExactly(harsh.ctx, harsh.profile, harsh.faults, stream, 0);
    SampleNests(harsh.ctx, harsh.profile, mild.profile, harsh.faults, stream, 0);
    var worse, better := TrialWorld(harsh, n, p), TrialWorld(mild, n, q);
    ValidIsWithin(harsh);
    VerdictsNest(harsh, mild, worse.0, better.0, n, |harsh.endpoints|, worse.1, better.1);
  }

  /** In every trial, and so in the counts, the harsher coupled run never does better. */
  lemma SuccessesNest(harsh: Setup, mild: Setup, e: nat, n: nat)
    requires Coupled(harsh, mild) && Aligned(harsh, mild) && harsh.Runnable()
    ensures mild.Runnable() && Successes(harsh, e, n) <= Successes(mild, e, n)
  {
    MilderFits(harsh.ctx, harsh.profile, mild.profile);
    forall m: nat | m < n
      ensures Winning(harsh, e)(m) ==> Winning(mild, e)(m)
    {
      TrialNests(harsh, mild, e, m);
    }
    CountMonotone(Winning(harsh, e), Winning(mild, e), n);
  }
}
