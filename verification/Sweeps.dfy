/** Ordered sweeps: one coupled run per axis value, and why their curves never rise. */
module Sweeps {
  import opened Wrappers
  import opened Ids
  import opened Draws
  import opened Topology
  import opened Sampling
  import opened Nesting
  import opened Endpoints
  import opened ProfileRun
  import opened Coupling
  import opened Wilson
  import opened Boundaries
  import Sorting
  import Slots

  datatype Axis = ReplicaFailureProbability | FailedReplicaSlots

  datatype Sweep = Sweep(name: string, base: Profile, axis: Axis, values: seq<real>, targets: seq<Target>)
  {
    /** What configuration validation guarantees of a sweep. */
    ghost predicate Valid() {
      && base.trials > 0
      && values != []
      && (forall i, j | 0 <= i < j < |values| :: values[i] < values[j])
      && (axis.ReplicaFailureProbability? ==> forall i | 0 <= i < |values| :: 0.0 <= values[i] <= 1.0)
      && (axis.FailedReplicaSlots? ==>
            forall i | 0 <= i < |values| :: values[i] >= 0.0 && values[i] == values[i].Floor as real)
    }
  }

  /** The profile evaluated at one axis value. */
  function PointProfile(sweep: Sweep, value: real, seed: int): Profile {
    var shared := sweep.base.(name := "sweep:" + sweep.name, seed := seed, coupledTrials := true);
    match sweep.axis
    case ReplicaFailureProbability =>
      shared.(mode := IndependentReplica, failureProbability := value, fixedKFailures := 0,
              nodeLive := Some(1.0 - value), serviceLive := map[])
    case FailedReplicaSlots =>
      shared.(mode := FixedKReplicaSlots, failureProbability := 0.0, fixedKFailures := value.Floor)
  }

  predicate Probability(x: real) {
    0.0 <= x <= 1.0
  }

  predicate ReliabilityInRange(profile: Profile) {
    && (profile.nodeLive.Some? ==> Probability(profile.nodeLive.value))
    && (profile.edgeLive.Some? ==> Probability(profile.edgeLive.value))
    && (forall id | id in profile.serviceLive :: Probability(profile.serviceLive[id]))
    && (forall id | id in profile.edgeLives :: Probability(profile.edgeLives[id]))
  }

  /** A profile without a seed gets one derived from its position; parameters out of range are errors. */
  function NormalizeProfile(profile: Profile, seed: int, index: int, entropy: Entropy): Result<Profile> {
    var seeded := if profile.seed == 0 then profile.(seed := entropy.profileSeed(seed, profile.name, index))
        else profile;
    if profile.trials <= 0 then Err("trials must be > 0")
    else if profile.mode.Unsupported? then Err("unsupported sampling mode")
    else if !profile.mode.FixedKServiceSet? && !Probability(profile.failureProbability) then
      Err("failure_probability must be in range [0,1]")
    else if (profile.mode.FixedKServiceSet? || profile.mode.FixedKReplicaSlots?) && profile.fixedKFailures < 0 then
      Err("fixed_k_failures must be >= 0")
    else if !ReliabilityInRange(profile) then Err("reliability must be in range [0,1]")
    else Ok(seeded)
  }

  /** The run behind point `i`, once its profile is normalized; slot sweeps pass their k explicitly. */
  function PointSetup(sweep: Sweep, i: nat, seed: int, ctx: Context, endpoints: seq<Endpoint>, faults: Faults,
      entropy: Entropy): Setup
    requires i < |sweep.values|
  {
    var profile := PointProfile(sweep, sweep.values[i], seed);
    Setup(ctx, if seed == 0 then profile.(seed := entropy.profileSeed(seed, profile.name, i))
        else profile, endpoints, faults, entropy)
  }

  predicate HasEndpoint(endpoints: seq<Endpoint>, id: Id) {
    exists e | 0 <= e < |endpoints| :: endpoints[e].id == id
  }

  predicate KnownTargets(sweep: Sweep, endpoints: seq<Endpoint>) {
    forall t | 0 <= t < |sweep.targets| :: HasEndpoint(endpoints, sweep.targets[t].endpointID)
  }

  /** The point records what its run counted for every target. */
  ghost predicate Records(setup: Setup, sweep: Sweep, point: Point, quantile: Quantile)
    requires setup.Runnable() && sweep.base.trials > 0 && quantile.z > 0.0
  {
    forall t, e | 0 <= t < |sweep.targets| && 0 <= e < |setup.endpoints|
        && setup.endpoints[e].id == sweep.targets[t].endpointID ::
      var id, successes := sweep.targets[t].endpointID, Successes(setup, e, sweep.base.trials);
      && AvailabilityOf(point, id) == successes as real / sweep.base.trials as real
      && ConfidenceOf(point, id) == WilsonInterval(successes, sweep.base.trials, quantile)
  }

  ghost predicate IsPoint(sweep: Sweep, i: nat, seed: int, ctx: Context, endpoints: seq<Endpoint>, faults: Faults,
      entropy: Entropy, quantile: Quantile, point: Point)
    requires i < |sweep.values| && sweep.base.trials > 0 && quantile.z > 0.0
  {
    var setup := PointSetup(sweep, i, seed, ctx, endpoints, faults, entropy);
    point.axis == sweep.values[i] && setup.Runnable() && Records(setup, sweep, point, quantile)
  }

  /** The points of a sweep: one per axis value, in order. */
  ghost predicate Curve(sweep: Sweep, seed: int, ctx: Context, endpoints: seq<Endpoint>, faults: Faults,
      entropy: Entropy, quantile: Quantile, points: seq<Point>)
    requires sweep.base.trials > 0 && quantile.z > 0.0
  {
    && |points| == |sweep.values|
    && forall i | 0 <= i < |points| :: IsPoint(sweep, i, seed, ctx, endpoints, faults, entropy, quantile, points[i])
  }

  /** The fingerprint is an opaque token: it tells whether two sweeps were configured alike. */
  datatype SweepOutput = SweepOutput(name: string, fingerprint: string, points: seq<Point>, boundaries: seq<Boundary>)

  /** The endpoints a run evaluates, with their paths: the same for every profile of an analysis. */
  ghost predicate GoodEndpoints(ctx: Context, endpoints: seq<Endpoint>) {
    && ctx.Valid()
    && (forall e | 0 <= e < |endpoints| :: endpoints[e].Valid(ctx))
    && (forall e, f | 0 <= e < f < |endpoints| :: endpoints[e].id != endpoints[f].id)
    && (forall e, i | 0 <= e < |endpoints| && 0 <= i < |endpoints[e].diagnostic| :: endpoints[e].diagnostic[i].Shaped())
  }

  /** Slot sweeps pass their k explicitly, so nothing is derived. */
  lemma PointResolves(sweep: Sweep, value: real, seed: int, pointSeed: int, ctx: Context)
    requires Resolved(ctx, PointProfile(sweep, value, seed).(seed := pointSeed)).Ok?
    ensures Resolved(ctx, PointProfile(sweep, value, seed).(seed := pointSeed)).value
         == PointProfile(sweep, value, seed).(seed := pointSeed)
  {
  }

  /** Point `i` can be evaluated: its profile is in range, names known parts, and asks for no more slots than exist. */
  predicate PointRuns(sweep: Sweep, i: nat, seed: int, ctx: Context, entropy: Entropy)
    requires i < |sweep.values|
  {
    var normalized := NormalizeProfile(PointProfile(sweep, sweep.values[i], seed), seed, i, entropy);
    normalized.Ok? && CanRun(ctx, normalized.value)
  }

  method RunSweep(sweep: Sweep, seed: int, ctx: Context, endpoints: seq<Endpoint>, faults: Faults, entropy: Entropy,
      quantile: Quantile, fingerprint: string)
    returns (r: Result<SweepOutput>)
    requires sweep.base.trials > 0 && quantile.z > 0.0 && GoodEndpoints(ctx, endpoints)
    ensures r.Ok?
        <==> KnownTargets(sweep, endpoints)
             && forall i | 0 <= i < |sweep.values| :: PointRuns(sweep, i, seed, ctx, entropy)
    ensures r.Ok? ==>
              && Curve(sweep, seed, ctx, endpoints, faults, entropy, quantile, r.value.points)
              && r.value.boundaries == Sorting.Sort(BoundaryLeq, BoundariesOf(r.value.points, sweep.targets))
              && r.value.name == sweep.name && r.value.fingerprint == fingerprint
  {
    for t := 0 to |sweep.targets|
      invariant forall u | 0 <= u < t :: HasEndpoint(endpoints, sweep.targets[u].endpointID)
    {
      if !HasEndpoint(endpoints, sweep.targets[t].endpointID) {
        return Err("sweep target endpoint is not present in the artifact");
      }
    }
    var points: seq<Point> := [];
    for i := 0 to |sweep.values|
      invariant |points| == i
      invariant forall j | 0 <= j < i ::
                  PointRuns(sweep, j, seed, ctx, entropy)
                  && IsPoint(sweep, j, seed, ctx, endpoints, faults, entropy, quantile, points[j])
    {
      var point := RunPoint(sweep, i, seed, ctx, endpoints, faults, entropy, quantile);
      if point.Err? {
        return Err(point.error);
      }
      points := points + [point.value];
    }
    var boundaries := BuildSweepBoundaries(points, sweep.targets);
    return Ok(SweepOutput(sweep.name, fingerprint, points, boundaries));
  }

  method RunPoint(sweep: Sweep, i: nat, seed: int, ctx: Context, endpoints: seq<Endpoint>, faults: Faults,
      entropy: Entropy, quantile: Quantile)
    returns (r: Result<Point>)
    requires i < |sweep.values| && sweep.base.trials > 0 && quantile.z > 0.0 && GoodEndpoints(ctx, endpoints)
    ensures r.Ok? <==> PointRuns(sweep, i, seed, ctx, entropy)
    ensures r.Ok? ==> IsPoint(sweep, i, seed, ctx, endpoints, faults, entropy, quantile, r.value)
  {
    var profile := NormalizeProfile(PointProfile(sweep, sweep.values[i], seed), seed, i, entropy);
    if profile.Err? {
      return Err(profile.error);
    }
    ghost var setup := PointSetup(sweep, i, seed, ctx, endpoints, faults, entropy);
    r := EvaluatePoint(sweep, i, seed, ctx, endpoints, faults, entropy, quantile, profile.value, setup);
  }

  method EvaluatePoint(sweep: Sweep, i: nat, seed: int, ctx: Context, endpoints: seq<Endpoint>, faults: Faults,
      entropy: Entropy, quantile: Quantile, profile: Profile, ghost setup: Setup)
    returns (r: Result<Point>)
    requires i < |sweep.values| && sweep.base.trials > 0 && quantile.z > 0.0 && GoodEndpoints(ctx, endpoints)
    requires setup == Setup(ctx, profile, endpoints, faults, entropy)
    requires profile == PointProfile(sweep, sweep.values[i], seed).(seed := profile.seed)
    ensures r.Ok? <==> CanRun(ctx, profile)
    ensures r.Ok? ==> r.value.axis == sweep.values[i] && setup.Runnable() && Records(setup, sweep, r.value, quantile)
  {
    var output := RunAdvancedProfile(ctx, profile, endpoints, faults, entropy);
    if output.Err? {
      return Err(output.error);
    }
    PointResolves(sweep, sweep.values[i], seed, profile.seed, ctx);
    r := RecordTargets(sweep, sweep.values[i], setup, output.value, quantile);
  }

  method RecordTargets(sweep: Sweep, value: real, ghost setup: Setup, output: ProfileOutput, quantile: Quantile)
    returns (r: Result<Point>)
    requires sweep.base.trials > 0 && quantile.z > 0.0 && setup.Runnable()
        && EndpointReports(setup, output, sweep.base.trials)
    ensures r.Ok? && r.value.axis == value && Records(setup, sweep, r.value, quantile)
  {
    var availability: map<Id, real> := map[];
    var confidence: map<Id, Interval> := map[];
    for t := 0 to |sweep.targets|
      invariant forall u | 0 <= u < t ::
                  var id := sweep.targets[u].endpointID;
                  && id in availability && id in confidence
                  && availability[id] == (if id in output.availability then output.availability[id] else 0.0)
                  && confidence[id] == WilsonInterval(Tally(output.successes, id), output.trials, quantile)
    {
      var id := sweep.targets[t].endpointID;
      availability := availability[id := if id in output.availability then output.availability[id] else 0.0];
      confidence := confidence[id := WilsonInterval(Tally(output.successes, id), output.trials, quantile)];
    }
    return Ok(Point(value, availability, confidence));
  }
}
