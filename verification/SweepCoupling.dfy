/** The promise behind ordered sweeps: coupled points nest, so an observed curve is never non-monotonic. */
module SweepCoupling {
  import opened Wrappers
  import opened Ids
  import opened Draws
  import opened Topology
  import opened Sampling
  import opened Nesting
  import opened Endpoints
  import opened ProfileRun
  import opened Coupling
  import opened Counting
  import opened Wilson
  import opened Boundaries
  import opened Sweeps

  /** A slot sweep that starts at 0 keeps its edge draws aligned only if no surviving edge is uncertain. */
  ghost predicate StartsCertain(sweep: Sweep, ctx: Context, faults: Faults) {
    sweep.axis.FailedReplicaSlots? && sweep.values != [] && sweep.values[0] == 0.0 ==>
      forall i | 0 <= i < |ctx.edgeIDs| && ctx.edgeIDs[i] !in faults.hardEdgeKill ::
        EdgeLiveProbability(sweep.base, ctx.edgeIDs[i]) >= 1.0 || EdgeLiveProbability(sweep.base, ctx.edgeIDs[i]) <= 0.0
  }

  lemma PointProfilesHarsher(sweep: Sweep, i: nat, j: nat, seed: int, ctx: Context)
    requires sweep.Valid() && i <= j < |sweep.values|
    ensures Harsher(ctx, PointProfile(sweep, sweep.values[j], seed), PointProfile(sweep, sweep.values[i], seed))
  {
    var mild, harsh := PointProfile(sweep, sweep.values[i], seed), PointProfile(sweep, sweep.values[j], seed);
    assert sweep.values[i] <= sweep.values[j];
    forall id
      ensures ServiceLiveProbability(harsh, id) <= ServiceLiveProbability(mild, id)
      ensures EdgeLiveProbability(harsh, id) == EdgeLiveProbability(mild, id)
    {
    }
  }

  lemma PointsCoupled(sweep: Sweep, i: nat, j: nat, seed: int, ctx: Context, endpoints: seq<Endpoint>, faults: Faults,
      entropy: Entropy)
    requires sweep.Valid() && GoodEndpoints(ctx, endpoints) && seed != 0 && i <= j < |sweep.values|
    ensures Coupled(PointSetup(sweep, j, seed, ctx, endpoints, faults, entropy),
        PointSetup(sweep, i, seed, ctx, endpoints, faults, entropy))
  {
    PointProfilesHarsher(sweep, i, j, seed, ctx);
  }

  lemma PointsAligned(sweep: Sweep, i: nat, j: nat, seed: int, ctx: Context, endpoints: seq<Endpoint>, faults: Faults,
      entropy: Entropy)
    requires sweep.Valid() && StartsCertain(sweep, ctx, faults) && i < j < |sweep.values|
    ensures Aligned(PointSetup(sweep, j, seed, ctx, endpoints, faults, entropy),
        PointSetup(sweep, i, seed, ctx, endpoints, faults, entropy))
  {
    var mild, harsh := PointProfile(sweep, sweep.values[i], seed), PointProfile(sweep, sweep.values[j], seed);
    if Misaligned(harsh, mild) {
      assert sweep.values[i] == 0.0;
      assert i == 0;
      forall e | 0 <= e < |ctx.edgeIDs|
        ensures EdgeLiveProbability(mild, ctx.edgeIDs[e]) == EdgeLiveProbability(harsh, ctx.edgeIDs[e])
             == EdgeLiveProbability(sweep.base, ctx.edgeIDs[e])
      {
      }
    }
  }

  lemma RecordOrder(fewer: nat, more: nat, trials: nat)
    requires fewer <= more && trials > 0
    ensures fewer as real / trials as real <= more as real / trials as real
  {
    QuotientOrder(fewer as real, more as real, trials as real);
  }

  /**
   Whatever the graph, the fault overlay and the random streams, a sweep with a non-zero seed gives every target a
   non-increasing availability curve, so its boundary is never reported non-monotonic, and every point's confidence
   interval contains its availability.
   */
  lemma CurvesNeverRise(sweep: Sweep, seed: int, ctx: Context, endpoints: seq<Endpoint>, faults: Faults,
      entropy: Entropy, quantile: Quantile, points: seq<Point>, t: nat)
    requires sweep.Valid() && GoodEndpoints(ctx, endpoints) && seed != 0 && StartsCertain(sweep, ctx, faults)
    requires quantile.Valid() && KnownTargets(sweep, endpoints) && t < |sweep.targets|
    requires Curve(sweep, seed, ctx, endpoints, faults, entropy, quantile, points)
    ensures NonIncreasing(points, sweep.targets[t].endpointID)
    ensures IntervalsContain(points, sweep.targets[t].endpointID)
    ensures BoundaryOf(points, sweep.targets[t]).observedMonotonic
        && !BoundaryOf(points, sweep.targets[t]).status.NonMonotonic?
  {
    var id := sweep.targets[t].endpointID;
    assert HasEndpoint(endpoints, id);
    var e :| 0 <= e < |endpoints| && endpoints[e].id == id;
    forall i | 0 <= i < |points|
      ensures ConfidenceOf(points[i], id).lower <= AvailabilityOf(points[i], id) <= ConfidenceOf(points[i], id).upper
    {
      PointContains(sweep, i, seed, ctx, endpoints, faults, entropy, quantile, points[i], t, e);
    }
    forall i | 0 < i < |points|
      ensures AvailabilityOf(points[i], id) <= AvailabilityOf(points[i - 1], id)
    {
      PointsOrdered(sweep, i, seed, ctx, endpoints, faults, entropy, quantile, points[i - 1], points[i], t, e);
    }
  }

  lemma PointContains(sweep: Sweep, i: nat, seed: int, ctx: Context, endpoints: seq<Endpoint>, faults: Faults,
      entropy: Entropy, quantile: Quantile, point: Point, t: nat, e: nat)
    requires sweep.base.trials > 0 && quantile.Valid() && i < |sweep.values|
    requires t < |sweep.targets| && e < |endpoints| && endpoints[e].id == sweep.targets[t].endpointID
    requires IsPoint(sweep, i, seed, ctx, endpoints, faults, entropy, quantile, point)
    ensures var id := sweep.targets[t].endpointID;
      ConfidenceOf(point, id).lower <= AvailabilityOf(point, id) <= ConfidenceOf(point, id).upper
  {
    var setup := PointSetup(sweep, i, seed, ctx, endpoints, faults, entropy);
    CountBounded(Winning(setup, e), sweep.base.trials);
    IntervalContainsEstimate(Successes(setup, e, sweep.base.trials), sweep.base.trials, quantile);
  }

  lemma PointSuccessesNest(sweep: Sweep, i: nat, seed: int, ctx: Context, endpoints: seq<Endpoint>, faults: Faults,
      entropy: Entropy, e: nat)
    requires sweep.Valid() && GoodEndpoints(ctx, endpoints) && seed != 0 && StartsCertain(sweep, ctx, faults)
    requires 0 < i < |sweep.values| && PointSetup(sweep, i, seed, ctx, endpoints, faults, entropy).Runnable()
    ensures var harsh := PointSetup(sweep, i, seed, ctx, endpoints, faults, entropy);
      var mild := PointSetup(sweep, i - 1, seed, ctx, endpoints, faults, entropy);
      mild.Runnable() && Successes(harsh, e, sweep.base.trials) <= Successes(mild, e, sweep.base.trials)
  {
    var harsh := PointSetup(sweep, i, seed, ctx, endpoints, faults, entropy);
    var mild := PointSetup(sweep, i - 1, seed, ctx, endpoints, faults, entropy);
    PointsCoupled(sweep, i - 1, i, seed, ctx, endpoints, faults, entropy);
    PointsAligned(sweep, i - 1, i, seed, ctx, endpoints, faults, entropy);
    SuccessesNest(harsh, mild, e, sweep.base.trials);
  }

  lemma RecordedAvailability(setup: Setup, sweep: Sweep, point: Point, quantile: Quantile, t: nat, e: nat)
    requires setup.Runnable() && sweep.base.trials > 0 && quantile.z > 0.0 && Records(setup, sweep, point, quantile)
    requires t < |sweep.targets| && e < |setup.endpoints| && setup.endpoints[e].id == sweep.targets[t].endpointID
    ensures AvailabilityOf(point, sweep.targets[t].endpointID)
         == Successes(setup, e, sweep.base.trials) as real / sweep.base.trials as real
  {
  }

  lemma PointsOrdered(sweep: Sweep, i: nat, seed: int, ctx: Context, endpoints: seq<Endpoint>, faults: Faults,
      entropy: Entropy, quantile: Quantile, before: Point, point: Point, t: nat, e: nat)
    requires sweep.Valid() && GoodEndpoints(ctx, endpoints) && seed != 0 && StartsCertain(sweep, ctx, faults)
        && quantile.z > 0.0
    requires 0 < i < |sweep.values| && t < |sweep.targets| && e < |endpoints|
        && endpoints[e].id == sweep.targets[t].endpointID
    requires IsPoint(sweep, i - 1, seed, ctx, endpoints, faults, entropy, quantile, before)
    requires IsPoint(sweep, i, seed, ctx, endpoints, faults, entropy, quantile, point)
    ensures AvailabilityOf(point, endpoints[e].id) <= AvailabilityOf(before, endpoints[e].id)
  {
    var harsh := PointSetup(sweep, i, seed, ctx, endpoints, faults, entropy);
    var mild := PointSetup(sweep, i - 1, seed, ctx, endpoints, faults, entropy);
    PointSuccessesNest(sweep, i, seed, ctx, endpoints, faults, entropy, e);
    RecordedAvailability(harsh, sweep, point, quantile, t, e);
    RecordedAvailability(mild, sweep, before, quantile, t, e);
    RecordOrder(Successes(harsh, e, sweep.base.trials), Successes(mild, e, sweep.base.trials), sweep.base.trials);
  }

  /**
   All points of a sweep share their event streams for every seed derivation exactly when the sweep's seed is not 0.
   */
  lemma SharedSeedExactly(sweep: Sweep, seed: int, ctx: Context, endpoints: seq<Endpoint>, faults: Faults,
      source: int -> Stream, eventSeed: (int, nat, Subject) -> int)
    requires |sweep.values| > 1
    ensures (forall profileSeed: (int, string, int) -> int, i: nat, j: nat | i < |sweep.values| && j < |sweep.values| ::
               var entropy := Entropy(source, profileSeed, eventSeed);
               PointSetup(sweep, i, seed, ctx, endpoints, faults, entropy).profile.seed
               == PointSetup(sweep, j, seed, ctx, endpoints, faults, entropy).profile.seed)
        <==> seed != 0
  {
    var byPosition := (base: int, name: string, index: int) => index;
    var entropy := Entropy(source, byPosition, eventSeed);
    assert seed == 0 ==>
        PointSetup(sweep, 0, seed, ctx, endpoints, faults, entropy).profile.seed
        != PointSetup(sweep, 1, seed, ctx, endpoints, faults, entropy).profile.seed;
  }
}
