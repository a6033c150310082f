/** Running a profile: trials over one shared generator, or coupled trials with a generator per event. */
module ProfileRun {
  import opened Wrappers
  import opened Ids
  import opened Draws
  import opened Topology
  import opened Execution
  import opened Sampling
  import opened Nesting
  import opened Endpoints
  import opened Counting
  import Slots
  import TargetPaths

  /** A resolved profile together with everything its trials read. */
  datatype Setup = Setup(ctx: Context, profile: Profile, endpoints: seq<Endpoint>, faults: Faults, entropy: Entropy)
  {
    ghost predicate Valid() {
      && ctx.Valid()
      && (forall e | 0 <= e < |endpoints| :: endpoints[e].Valid(ctx))
      && DistinctEndpoints()
    }

    predicate DistinctEndpoints() {
      forall e, f | 0 <= e < f < |endpoints| :: endpoints[e].id != endpoints[f].id
    }

    /** No endpoint lists two paths of one ID. */
    ghost predicate DistinctLists() {
      forall e | 0 <= e < |endpoints| :: TargetPaths.DistinctIDs(endpoints[e].diagnostic)
    }

    /** Every listed path has one edge per hop. */
    predicate Shaped() {
      forall e, i | 0 <= e < |endpoints| && 0 <= i < |endpoints[e].diagnostic| :: endpoints[e].diagnostic[i].Shaped()
    }

    /** The setup can be sampled and executed at all. */
    ghost predicate Runnable() {
      Shaped() && Fits(ctx, profile)
    }
  }

  /** The generator the state of a trial is sampled on. */
  function StateStream(setup: Setup, trial: nat): Stream {
    if setup.profile.coupledTrials then setup.entropy.EventStream(setup.profile.seed, trial, StateLabel)
    else setup.entropy.source(setup.profile.seed)
  }

  function PathStream(setup: Setup, trial: nat, path: Path): Stream {
    if setup.profile.coupledTrials then setup.entropy.EventStream(setup.profile.seed, trial, PathLabel(path.id))
    else setup.entropy.source(setup.profile.seed)
  }

  /** Where a generator is read: event generators start afresh, the shared one goes on from `pos`. */
  function From(setup: Setup, pos: nat): nat {
    if setup.profile.coupledTrials then 0 else pos
  }

  /** Where the shared generator stands afterwards; event generators leave it alone. */
  function After(setup: Setup, pos: nat, reached: nat): nat {
    if setup.profile.coupledTrials then pos else reached
  }

  /** Results of the first `n` paths of a trial, and the shared generator's position. */
  function PathResults(setup: Setup, world: World, trial: nat, paths: seq<Path>, n: nat, pos: nat): (map<string, bool>,
      nat)
    requires n <= |paths| && forall i | 0 <= i < |paths| :: paths[i].Shaped()
  {
    if n == 0 then (map[], pos)
    else
      var before := PathResults(setup, world, trial, paths, n - 1, pos);
      var path := paths[n - 1];
      var run := ServiceRun(setup.ctx, setup.faults, path, world, PathStream(setup, trial, path), 0,
          From(setup, before.1));
      (before.0[path.id := run.0], After(setup, before.1, run.1))
  }

  /** Verdicts of the first `n` endpoints in a trial's world. */
  ghost function Verdicts(setup: Setup, world: World, trial: nat, n: nat, pos: nat): (seq<bool>, nat)
    requires setup.Shaped() && n <= |setup.endpoints|
  {
    if n == 0 then ([], pos)
    else
      var before := Verdicts(setup, world, trial, n - 1, pos);
      var endpoint := setup.endpoints[n - 1];
      var results := PathResults(setup, world, trial, endpoint.diagnostic, |endpoint.diagnostic|, before.1);
      (before.0 + [Outcome(endpoint, world, results.0)], results.1)
  }

  /** The sampled world of a trial, and where the shared generator then stands. */
  ghost function TrialWorld(setup: Setup, trial: nat, pos: nat): (World, nat)
    requires Fits(setup.ctx, setup.profile)
  {
    SampleFailsExactly(setup.ctx, setup.profile, setup.faults, StateStream(setup, trial), From(setup, pos));
    var sample := Sample(setup.ctx, setup.profile, setup.faults, StateStream(setup, trial), From(setup, pos)).value;
    (sample.0, After(setup, pos, sample.1))
  }

  /** One trial: every endpoint's verdict, and the shared generator's position afterwards. */
  ghost function Trial(setup: Setup, trial: nat, pos: nat): (seq<bool>, nat)
    requires setup.Runnable()
  {
    var sampled := TrialWorld(setup, trial, pos);
    Verdicts(setup, sampled.0, trial, |setup.endpoints|, sampled.1)
  }

  /** The shared generator's position before trial `n`. */
  ghost function Cursor(setup: Setup, n: nat): nat
    requires setup.Runnable()
  {
    if n == 0 then 0 else Trial(setup, n - 1, Cursor(setup, n - 1)).1
  }

  /** Whether endpoint `e` succeeds in trial `n`. */
  ghost predicate Wins(setup: Setup, e: nat, n: nat)
    requires setup.Runnable()
  {
    var verdicts := Trial(setup, n, Cursor(setup, n)).0;
    e < |verdicts| && verdicts[e]
  }

  ghost function Winning(setup: Setup, e: nat): nat -> bool
    requires setup.Runnable()
  {
    (n: nat) => Wins(setup, e, n)
  }

  /** Endpoint `e`'s successes over the first `n` trials. */
  ghost function Successes(setup: Setup, e: nat, n: nat): nat
    requires setup.Runnable()
  {
    CountTrue(Winning(setup, e), n)
  }

  /** How many of the first `n` endpoints find a path of this ID successful in a trial's world. */
  ghost function PathHits(setup: Setup, world: World, trial: nat, n: nat, pos: nat, id: string): nat
    requires setup.Shaped() && n <= |setup.endpoints|
  {
    if n == 0 then 0
    else
      var paths := setup.endpoints[n - 1].diagnostic;
      var results := PathResults(setup, world, trial, paths, |paths|, Verdicts(setup, world, trial, n - 1, pos).1).0;
      PathHits(setup, world, trial, n - 1, pos, id) + if Up(results, id) then 1 else 0
  }

  ghost function TrialHits(setup: Setup, trial: nat, id: string): nat
    requires setup.Runnable()
  {
    var sampled := TrialWorld(setup, trial, Cursor(setup, trial));
    PathHits(setup, sampled.0, trial, |setup.endpoints|, sampled.1, id)
  }

  ghost function HitsEach(setup: Setup, id: string): nat -> nat
    requires setup.Runnable()
  {
    (trial: nat) => TrialHits(setup, trial, id)
  }

  /** The path counter of an ID after `n` trials: it counts once per endpoint that lists the path. */
  ghost function PathSuccesses(setup: Setup, id: string, n: nat): nat
    requires setup.Runnable()
  {
    SumOver(HitsEach(setup, id), n)
  }

  // ----- the engine's loop

  datatype Counters = Counters(endpoints: map<Id, nat>, paths: map<string, nat>)

  /** One success more for every ID whose result is a success. */
  ghost predicate PathsBumped(before: map<string, nat>, after: map<string, nat>, results: map<string, bool>) {
    forall id :: Tally(after, id) == Tally(before, id) + if Up(results, id) then 1 else 0
  }

  /** Executing one path on the shared generator, or on the trial's own generator for its ID. */
  method ExecuteDiagnostic(setup: Setup, world: World, trial: nat, path: Path, rng: Rng) returns (ok: bool)
    requires path.Shaped() && rng.stream == setup.entropy.source(setup.profile.seed)
    modifies rng
    ensures var run := ServiceRun(setup.ctx, setup.faults, path, world, PathStream(setup, trial, path), 0,
        From(setup, old(rng.pos)));
      ok == run.0 && rng.pos == After(setup, old(rng.pos), run.1)
  {
    var pathRNG := rng;
    if setup.profile.coupledTrials {
      pathRNG := new Rng(setup.entropy.EventStream(setup.profile.seed, trial, PathLabel(path.id)));
    }
    ok := ExecutePath(setup.ctx, world, setup.faults, path, pathRNG);
  }

  lemma BumpPath(before: map<string, nat>, after: map<string, nat>, results: map<string, bool>, id: string, ok: bool)
    requires PathsBumped(before, after, results) && id !in results
    ensures PathsBumped(before, if ok then after[id := Tally(after, id) + 1] else after, results[id := ok])
  {
  }

  method ExecuteDiagnostics(setup: Setup, world: World, trial: nat, paths: seq<Path>, rng: Rng, pathSuccess: map<string,
      nat>)
    returns (results: map<string, bool>, updated: map<string, nat>)
    requires TargetPaths.DistinctIDs(paths) && forall i | 0 <= i < |paths| :: paths[i].Shaped()
    requires rng.stream == setup.entropy.source(setup.profile.seed)
    modifies rng
    ensures (results, rng.pos) == PathResults(setup, world, trial, paths, |paths|, old(rng.pos))
    ensures PathsBumped(pathSuccess, updated, results)
  {
    results, updated := map[], pathSuccess;
    for n := 0 to |paths|
      invariant (results, rng.pos) == PathResults(setup, world, trial, paths, n, old(rng.pos))
      invariant PathsBumped(pathSuccess, updated, results)
      invariant forall i | n <= i < |paths| :: paths[i].id !in results
    {
      var ok := ExecuteDiagnostic(setup, world, trial, paths[n], rng);
      BumpPath(pathSuccess, updated, results, paths[n].id, ok);
      if ok {
        updated := updated[paths[n].id := Tally(updated, paths[n].id) + 1];
      }
      results := results[paths[n].id := ok];
    }
  }

  /** The counts after adding one to every listed endpoint that succeeded. */
  ghost predicate Bumped(before: map<Id, nat>, after: map<Id, nat>, endpoints: seq<Endpoint>, verdicts: seq<bool>) {
    forall e | 0 <= e < |endpoints| ::
      Tally(after, endpoints[e].id) == Tally(before, endpoints[e].id) + if e < |verdicts| && verdicts[e] then 1 else 0
  }

  lemma BumpOne(before: map<Id, nat>, after: map<Id, nat>, endpoints: seq<Endpoint>, verdicts: seq<bool>, ok: bool)
    requires |verdicts| < |endpoints| && Bumped(before, after, endpoints, verdicts)
    requires forall e, f | 0 <= e < f < |endpoints| :: endpoints[e].id != endpoints[f].id
    ensures var id := endpoints[|verdicts|].id;
      Bumped(before, if ok then after[id := Tally(after, id) + 1] else after, endpoints, verdicts + [ok])
  {
  }

  /** The path counters after the first `n` endpoints of a trial. */
  ghost predicate HitsAdded(setup: Setup, world: World, trial: nat, n: nat, pos: nat, before: map<string, nat>,
      after: map<string, nat>)
    requires setup.Shaped() && n <= |setup.endpoints|
  {
    forall id :: Tally(after, id) == Tally(before, id) + PathHits(setup, world, trial, n, pos, id)
  }

  method RunEndpoints(setup: Setup, world: World, trial: nat, rng: Rng, counts: Counters) returns (updated: Counters)
    requires setup.DistinctEndpoints() && setup.DistinctLists() && setup.Shaped()
    requires rng.stream == setup.entropy.source(setup.profile.seed)
    modifies rng
    ensures rng.pos == Verdicts(setup, world, trial, |setup.endpoints|, old(rng.pos)).1
    ensures Bumped(counts.endpoints, updated.endpoints, setup.endpoints,
        Verdicts(setup, world, trial, |setup.endpoints|, old(rng.pos)).0)
    ensures HitsAdded(setup, world, trial, |setup.endpoints|, old(rng.pos), counts.paths, updated.paths)
  {
    var successes: map<Id, nat>, paths: map<string, nat> := counts.endpoints, counts.paths;
    ghost var verdicts: seq<bool> := [];
    for n := 0 to |setup.endpoints|
      invariant (verdicts, rng.pos) == Verdicts(setup, world, trial, n, old(rng.pos)) && |verdicts| == n
      invariant Bumped(counts.endpoints, successes, setup.endpoints, verdicts)
      invariant HitsAdded(setup, world, trial, n, old(rng.pos), counts.paths, paths)
    {
      var ok, after := RunEndpoint(setup, world, trial, n, rng, paths);
      HitsStep(setup, world, trial, n, old(rng.pos), counts.paths, paths, after);
      BumpOne(counts.endpoints, successes, setup.endpoints, verdicts, ok);
      if ok {
        successes := successes[setup.endpoints[n].id := Tally(successes, setup.endpoints[n].id) + 1];
      }
      paths := after;
      verdicts := verdicts + [ok];
    }
    return Counters(successes, paths);
  }

  lemma HitsStep(setup: Setup, world: World, trial: nat, n: nat, pos: nat, start: map<string, nat>, before: map<string,
      nat>, after: map<string, nat>)
    requires setup.Shaped() && n < |setup.endpoints| && HitsAdded(setup, world, trial, n, pos, start, before)
    requires var paths := setup.endpoints[n].diagnostic;
      PathsBumped(before, after, PathResults(setup, world, trial, paths, |paths|,
          Verdicts(setup, world, trial, n, pos).1).0)
    ensures HitsAdded(setup, world, trial, n + 1, pos, start, after)
  {
  }

  method RunEndpoint(setup: Setup, world: World, trial: nat, n: nat, rng: Rng, pathSuccess: map<string, nat>)
    returns (ok: bool, updated: map<string, nat>)
    requires setup.Shaped() && n < |setup.endpoints| && rng.stream == setup.entropy.source(setup.profile.seed)
    requires TargetPaths.DistinctIDs(setup.endpoints[n].diagnostic)
    modifies rng
    ensures var endpoint := setup.endpoints[n];
      var results := PathResults(setup, world, trial, endpoint.diagnostic, |endpoint.diagnostic|, old(rng.pos));
      ok == Outcome(endpoint, world, results.0) && rng.pos == results.1 && PathsBumped(pathSuccess, updated, results.0)
  {
    var endpoint := setup.endpoints[n];
    var results;
    results, updated := ExecuteDiagnostics(setup, world, trial, endpoint.diagnostic, rng, pathSuccess);
    ok := EndpointSucceeds(endpoint, world, results);
  }

  /** One trial of the engine: sample on the shared or the trial's own generator, then evaluate every endpoint. */
  method RunTrial(setup: Setup, trial: nat, rng: Rng, counts: Counters) returns (r: Result<Counters>)
    requires setup.DistinctEndpoints() && setup.DistinctLists() && setup.Shaped()
        && rng.stream == setup.entropy.source(setup.profile.seed)
    requires setup.Runnable() ==> Reached(setup, trial, rng.pos, counts)
    modifies rng
    ensures r.Ok? <==> setup.Runnable()
    ensures r.Ok? ==> Reached(setup, trial + 1, rng.pos, r.value)
  {
    ghost var start := rng.pos;
    var stateRNG := rng;
    if setup.profile.coupledTrials {
      stateRNG := new Rng(setup.entropy.EventStream(setup.profile.seed, trial, StateLabel));
    }
    SampleFailsExactly(setup.ctx, setup.profile, setup.faults, stateRNG.stream, stateRNG.pos);
    var state := SampleAdvancedState(setup.ctx, setup.profile, stateRNG, setup.faults);
    if state.Err? {
      return Err(state.error);
    }
    assert (state.value.Snapshot(), rng.pos) == TrialWorld(setup, trial, start);
    var updated := RunEndpoints(setup, state.value.Snapshot(), trial, rng, counts);
    CountedOneMore(setup, trial, counts.endpoints, updated.endpoints);
    HitsOneMore(setup, trial, counts.paths, updated.paths);
    return Ok(updated);
  }

  datatype ProfileOutput = ProfileOutput(trials: nat, successes: map<Id, nat>, availability: map<Id, real>,
      pathSuccesses: map<string, nat>)

  /** The counts and availabilities a run of the given length must report. */
  ghost predicate Reports(setup: Setup, output: ProfileOutput, trials: nat)
    requires setup.Runnable() && trials > 0
  {
    EndpointReports(setup, output, trials) && PathCountsAre(setup, output.pathSuccesses, trials)
  }

  ghost predicate EndpointReports(setup: Setup, output: ProfileOutput, trials: nat)
    requires setup.Runnable() && trials > 0
  {
    && output.trials == trials
    && forall e | 0 <= e < |setup.endpoints| ::
         var id := setup.endpoints[e].id;
         && Tally(output.successes, id) == Successes(setup, e, trials)
         && id in output.availability && output.availability[id] == Successes(setup, e, trials) as real / trials as real
  }

  ghost predicate PathCountsAre(setup: Setup, paths: map<string, nat>, n: nat)
    requires setup.Runnable()
  {
    forall id :: Tally(paths, id) == PathSuccesses(setup, id, n)
  }

  lemma HitsOneMore(setup: Setup, n: nat, before: map<string, nat>, after: map<string, nat>)
    requires setup.Runnable() && PathCountsAre(setup, before, n)
    requires var sampled := TrialWorld(setup, n, Cursor(setup, n));
      HitsAdded(setup, sampled.0, n, |setup.endpoints|, sampled.1, before, after)
    ensures PathCountsAre(setup, after, n + 1)
  {
    forall id
      ensures Tally(after, id) == PathSuccesses(setup, id, n + 1)
    {
      assert HitsEach(setup, id)(n) == TrialHits(setup, n, id);
    }
  }

  /** The map holds every endpoint's successes over the first `n` trials. */
  ghost predicate CountsAre(setup: Setup, counts: map<Id, nat>, n: nat)
    requires setup.Runnable()
  {
    forall e | 0 <= e < |setup.endpoints| :: Tally(counts, setup.endpoints[e].id) == Successes(setup, e, n)
  }

  /** Where the engine's loop stands before trial `n`. */
  ghost predicate Reached(setup: Setup, n: nat, pos: nat, counts: Counters)
    requires setup.Runnable()
  {
    pos == Cursor(setup, n) && CountsAre(setup, counts.endpoints, n) && PathCountsAre(setup, counts.paths, n)
  }

  lemma CountedOneMore(setup: Setup, n: nat, before: map<Id, nat>, after: map<Id, nat>)
    requires setup.Runnable() && CountsAre(setup, before, n)
    requires Bumped(before, after, setup.endpoints, Trial(setup, n, Cursor(setup, n)).0)
    ensures CountsAre(setup, after, n + 1)
  {
    var verdicts := Trial(setup, n, Cursor(setup, n)).0;
    forall e | 0 <= e < |setup.endpoints|
      ensures Tally(after, setup.endpoints[e].id) == Successes(setup, e, n + 1)
    {
      assert Winning(setup, e)(n) == (e < |verdicts| && verdicts[e]);
    }
  }

  method RunTrials(setup: Setup, trials: nat) returns (r: Result<Counters>)
    requires setup.DistinctEndpoints() && setup.DistinctLists() && setup.Shaped() && trials > 0
    ensures r.Ok? <==> setup.Runnable()
    ensures r.Ok? ==> CountsAre(setup, r.value.endpoints, trials) && PathCountsAre(setup, r.value.paths, trials)
  {
    var rng := new Rng(setup.entropy.source(setup.profile.seed));
    var counts := Counters(map[], map[]);
    for trial := 0 to trials
      invariant rng.stream == setup.entropy.source(setup.profile.seed)
      invariant trial > 0 ==> setup.Runnable()
      invariant setup.Runnable() ==> Reached(setup, trial, rng.pos, counts)
    {
      r := RunTrial(setup, trial, rng, counts);
      if r.Err? {
        return;
      }
      counts := r.value;
    }
    return Ok(counts);
  }

  /** Reliability overrides may only name known services and edges. */
  predicate ReliabilityKnown(ctx: Context, profile: Profile) {
    (forall id | id in profile.serviceLive :: id in ctx.services)
        && (forall id | id in profile.edgeLives :: id in ctx.edges)
  }

  function Resolved(ctx: Context, requested: Profile): Result<Profile> {
    Slots.ResolveDerivedFixedK(requested, Slots.TotalSlots(ctx, |ctx.serviceIDs|))
  }

  predicate CanRun(ctx: Context, requested: Profile) {
    ReliabilityKnown(ctx, requested) && Resolved(ctx, requested).Ok? && Fits(ctx, Resolved(ctx, requested).value)
  }

  method RunAdvancedProfile(ctx: Context, requested: Profile, endpoints: seq<Endpoint>, faults: Faults,
      entropy: Entropy)
    returns (r: Result<ProfileOutput>)
    requires requested.trials > 0
    requires Setup(ctx, requested, endpoints, faults, entropy).Valid()
        && Setup(ctx, requested, endpoints, faults, entropy).Shaped()
    ensures r.Ok? <==> CanRun(ctx, requested)
    ensures r.Ok? ==> Reports(Setup(ctx, Resolved(ctx, requested).value, endpoints, faults, entropy), r.value,
        requested.trials)
  {
    if !ReliabilityKnown(ctx, requested) {
      return Err("reliability references unknown service or edge");
    }
    var total := TotalReplicaSlots(ctx);
    var resolved := Slots.ResolveDerivedFixedK(requested, total);
    if resolved.Err? {
      return Err(resolved.error);
    }
    var setup := Setup(ctx, resolved.value, endpoints, faults, entropy);
    assert setup.DistinctLists() by {
      forall e | 0 <= e < |endpoints|
        ensures TargetPaths.DistinctIDs(endpoints[e].diagnostic)
      {
        assert endpoints[e].Valid(ctx);
      }
    }
    var counts := RunTrials(setup, requested.trials);
    if counts.Err? {
      return Err(counts.error);
    }
    var availability := Availabilities(endpoints, counts.value.endpoints, requested.trials);
    return Ok(ProfileOutput(requested.trials, counts.value.endpoints, availability, counts.value.paths));
  }

  method Availabilities(endpoints: seq<Endpoint>, counts: map<Id, nat>, trials: nat)
      returns (availability: map<Id, real>)
    requires trials > 0
    ensures forall e | 0 <= e < |endpoints| ::
              && endpoints[e].id in availability
              && availability[endpoints[e].id] == Tally(counts, endpoints[e].id) as real / trials as real
  {
    availability := map[];
    for e := 0 to |endpoints|
      invariant forall f | 0 <= f < e ::
                  && endpoints[f].id in availability
                  && availability[endpoints[f].id] == Tally(counts, endpoints[f].id) as real / trials as real
    {
      availability := availability[endpoints[e].id := Tally(counts, endpoints[e].id) as real / trials as real];
    }
  }

  method TotalReplicaSlots(ctx: Context) returns (total: nat)
    ensures total == Slots.TotalSlots(ctx, |ctx.serviceIDs|)
  {
    total := 0;
    for n := 0 to |ctx.serviceIDs|
      invariant total == Slots.TotalSlots(ctx, n)
    {
      var svc := ctx.ServiceOf(ctx.serviceIDs[n]);
      if !svc.samplingEligible {
        continue;
      }
      ghost var before := total;
      for b := 0 to |svc.replicas|
        invariant total == before + Slots.ReplicasIn(svc, b)
      {
        total := total + svc.replicas[b];
      }
    }
  }
}
