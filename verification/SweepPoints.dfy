/** What the points of a sweep vary: the replicas' failure probability, or the number of failed slots. */
module SweepPoints {
  import opened Wrappers
  import opened Ids
  import opened Draws
  import opened Topology
  import opened Sampling
  import opened Probability
  import opened Expectation
  import opened LiveStates
  import opened Endpoints
  import opened ProfileRun
  import opened Sweeps
  import opened Birnbaum
  import opened BirnbaumMeaning
  import opened Reliability
  import Nesting
  import SlotList = Slots

  /** The profile point `i` runs with. */
  function RunAt(sweep: Sweep, i: nat, seed: int, ctx: Context, endpoints: seq<Endpoint>, faults: Faults,
      entropy: Entropy): Profile
    requires i < |sweep.values|
  {
    PointSetup(sweep, i, seed, ctx, endpoints, faults, entropy).profile
  }

  /**
   At axis value v of a replica sweep every replica of an eligible service is down with probability v, whatever the base
   profile says of services; edges live as the base profile has them live.
   */
  lemma ReplicaPointExactly(sweep: Sweep, i: nat, seed: int, ctx: Context, endpoints: seq<Endpoint>, faults: Faults,
      entropy: Entropy, spot: Spot, chance: real)
    requires i < |sweep.values| && sweep.axis.ReplicaFailureProbability?
    requires SlotList.Entries(ctx) && Nesting.DistinctEdges(ctx) && InRange(ctx, spot)
    ensures var profile, component := RunAt(sweep, i, seed, ctx, endpoints, faults, entropy), ComponentAt(ctx, spot);
      Chance(Rates(ctx, profile), IsUpOn(ctx, profile, component)) == chance
      <==> if component.kind.EdgeKind? then GivesEdge(sweep.base, component.id, chance)
           else if !ctx.ServiceOf(component.id).samplingEligible then chance == 1.0
           else chance == 1.0 - Power(sweep.values[i], SlotList.ReplicasIn(ctx.ServiceOf(component.id),
                                                                         |ctx.ServiceOf(component.id).replicas|))
  {
    var profile, component := RunAt(sweep, i, seed, ctx, endpoints, faults, entropy), ComponentAt(ctx, spot);
    ChanceFromFields(ctx, profile, spot, chance);
    PointChance(ctx, sweep.base, profile, component, sweep.values[i], chance);
  }

  /** The chance under a profile in which nothing but the common value v decides of services. */
  lemma PointChance(ctx: Context, base: Profile, profile: Profile, component: Component, v: real, chance: real)
    requires profile.mode.IndependentReplica? && profile.serviceLive == map[] && profile.nodeLive == Some(1.0 - v)
    requires profile.edgeLive == base.edgeLive && profile.edgeLives == base.edgeLives
    ensures var svc := ctx.ServiceOf(component.id);
      HasChance(ctx, profile, component, chance)
      <==> if component.kind.EdgeKind? then GivesEdge(base, component.id, chance)
           else if !svc.samplingEligible then chance == 1.0
           else chance == 1.0 - Power(v, SlotList.ReplicasIn(svc, |svc.replicas|))
  {
    var svc := ctx.ServiceOf(component.id);
    assert GivesService(profile, component.id, 1.0 - v);
    assert forall p | GivesService(profile, component.id, p) :: p == 1.0 - v;
    SameBase(1.0 - (1.0 - v), v, SlotList.ReplicasIn(svc, |svc.replicas|));
  }

  lemma SameBase(x: real, y: real, n: nat)
    requires x == y
    ensures Power(x, n) == Power(y, n)
  {
  }

  /** At axis value v of a slot sweep exactly v replica slots of eligible services fail, in every trial. */
  lemma SlotPointExactly(sweep: Sweep, i: nat, seed: int, ctx: Context, endpoints: seq<Endpoint>, faults: Faults,
      entropy: Entropy, stream: Stream, pos: nat)
    requires ctx.Valid() && sweep.Valid() && i < |sweep.values| && sweep.axis.FailedReplicaSlots?
    requires sweep.values[i] <= SlotList.TotalSlots(ctx, |ctx.serviceIDs|) as real
    ensures 0 <= sweep.values[i].Floor <= SlotList.TotalSlots(ctx, |ctx.serviceIDs|)
    ensures var profile := RunAt(sweep, i, seed, ctx, endpoints, faults, entropy);
      var failed := SlotList.FailedSlots(ctx, stream, pos, sweep.values[i].Floor);
      && SlotList.FailedTotal(ctx, failed, |ctx.serviceIDs|) as real == sweep.values[i]
      && (forall id | id in ctx.services :: SlotList.SlotsAccounted(ctx, failed, id))
      && BucketStage(ctx, profile, stream, pos).Ok?
      && BucketStage(ctx, profile, stream, pos).value.0 == SurvivingSlots(ctx, failed, |ctx.serviceIDs|)
      && forall id, chance :: GivesEdge(profile, id, chance) <==> GivesEdge(sweep.base, id, chance)
  {
    SlotList.SlotConservation(ctx, RunAt(sweep, i, seed, ctx, endpoints, faults, entropy), stream, pos);
  }

  /** Every point samples as many trials as the base asks for, each trial on the same streams as the other points. */
  lemma PointTrials(sweep: Sweep, i: nat, seed: int, ctx: Context, endpoints: seq<Endpoint>, faults: Faults,
      entropy: Entropy)
    requires i < |sweep.values|
    ensures var profile := RunAt(sweep, i, seed, ctx, endpoints, faults, entropy);
      && profile.trials == sweep.base.trials && profile.coupledTrials
      && (seed != 0 ==> profile.seed == seed)
      && (seed == 0 ==> profile.seed == entropy.profileSeed(seed, "sweep:" + sweep.name, i))
  {
  }
}
