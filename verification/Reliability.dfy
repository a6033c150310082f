/** Which field of a profile decides how likely a service or an edge is up, and what follows for single draws. */
module Reliability {
  import opened Wrappers
  import opened Ids
  import opened Draws
  import opened Topology
  import opened Sampling
  import opened Probability
  import opened Expectation
  import opened LiveStates
  import opened Birnbaum
  import opened BirnbaumMeaning
  import Populations
  import Chances
  import Nesting
  import SlotList = Slots

  // ----- the fields

  /** The profile gives the service the live probability p: its own, else that of nodes, else what is not failure. */
  ghost predicate GivesService(profile: Profile, id: Id, p: real) {
    || (id in profile.serviceLive && p == profile.serviceLive[id])
    || (id !in profile.serviceLive && profile.nodeLive == Some(p))
    || (id !in profile.serviceLive && profile.nodeLive.None? && p == 1.0 - profile.failureProbability)
  }

  /** The profile gives the edge the live probability p: its own, else that of all edges, else certainty. */
  ghost predicate GivesEdge(profile: Profile, id: Id, p: real) {
    || (id in profile.edgeLives && p == profile.edgeLives[id])
    || (id !in profile.edgeLives && profile.edgeLive == Some(p))
    || (id !in profile.edgeLives && profile.edgeLive.None? && p == 1.0)
  }

  lemma GivenIsUsed(profile: Profile, id: Id, p: real)
    ensures GivesService(profile, id, p) <==> ServiceLiveProbability(profile, id) == p
    ensures GivesEdge(profile, id, p) <==> EdgeLiveProbability(profile, id) == p
  {
  }

  // ----- chances

  /** The chance that a component is up, from the probability its fields give it and its number of replicas. */
  ghost predicate HasChance(ctx: Context, profile: Profile, component: Component, chance: real) {
    match component.kind
    case EdgeKind => GivesEdge(profile, component.id, chance)
    case ServiceKind =>
      var svc := ctx.ServiceOf(component.id);
      if !svc.samplingEligible then chance == 1.0
      else if profile.mode.IndependentService? then GivesService(profile, component.id, chance)
      else exists p :: GivesService(profile, component.id, p)
                       && chance == 1.0 - Power(1.0 - p, SlotList.ReplicasIn(svc, |svc.replicas|))
  }

  /** Sampling leaves a component up with exactly the chance its fields give it. */
  lemma ChanceFromFields(ctx: Context, profile: Profile, spot: Spot, chance: real)
    requires SlotList.Entries(ctx) && Nesting.DistinctEdges(ctx) && InRange(ctx, spot) && Independent(profile)
    ensures HasChance(ctx, profile, ComponentAt(ctx, spot), chance)
        <==> Chance(Rates(ctx, profile), IsUpOn(ctx, profile, ComponentAt(ctx, spot))) == chance
  {
    var component := ComponentAt(ctx, spot);
    LiveProbabilityExact(ctx, profile, spot);
    GivenIsUsed(profile, component.id, chance);
    GivenIsUsed(profile, component.id, ServiceLiveProbability(profile, component.id));
    if spot.AtService? && profile.mode.IndependentReplica? && ctx.ServiceOf(component.id).samplingEligible {
      forall p
        ensures GivesService(profile, component.id, p) <==> p == ServiceLiveProbability(profile, component.id)
      {
        GivenIsUsed(profile, component.id, p);
      }
    }
  }

  /** Setting a component's own live probability to p makes it live with chance p, per replica in replica mode. */
  lemma ChanceWithOwnValue(ctx: Context, profile: Profile, spot: Spot, p: real)
    requires SlotList.Entries(ctx) && Nesting.DistinctEdges(ctx) && InRange(ctx, spot) && Independent(profile)
    ensures var component := ComponentAt(ctx, spot);
      var with := WithLive(profile, component, p);
      var svc := ctx.ServiceOf(component.id);
      Chance(Rates(ctx, with), IsUpOn(ctx, with, component))
      == if component.kind.EdgeKind? then p
         else if !svc.samplingEligible then 1.0
         else if profile.mode.IndependentService? then p
         else 1.0 - Power(1.0 - p, SlotList.ReplicasIn(svc, |svc.replicas|))
  {
    var component := ComponentAt(ctx, spot);
    var with, svc := WithLive(profile, component, p), ctx.ServiceOf(component.id);
    var chance := if component.kind.EdgeKind? then p
                  else if !svc.samplingEligible then 1.0
                  else if profile.mode.IndependentService? then p
                  else 1.0 - Power(1.0 - p, SlotList.ReplicasIn(svc, |svc.replicas|));
    assert GivesService(with, component.id, p) || component.kind.EdgeKind?;
    assert HasChance(ctx, with, component, chance);
    ChanceFromFields(ctx, with, spot, chance);
  }

  // ----- single samples

  /** Both profiles sample in the same way, whatever probabilities they use. */
  predicate SameWay(a: Profile, b: Profile) {
    a.mode == b.mode && a.fixedKFailures == b.fixedKFailures
  }

  lemma {:induction false} DrawsRegardless(svc: Service, p: real, q: real, stream: Stream, m: nat, pos: nat)
    requires m <= |svc.replicas|
    ensures ReplicaDraws(svc, p, stream, m, pos).1 == ReplicaDraws(svc, q, stream, m, pos).1
  {
    if m > 0 {
      DrawsRegardless(svc, p, q, stream, m - 1, pos);
    }
  }

  lemma {:induction false} StageRegardless(ctx: Context, a: Profile, b: Profile, stream: Stream, n: nat, pos: nat)
    requires n <= |ctx.serviceIDs| && SameWay(a, b)
    ensures Populations.Stage(ctx, a, stream, n, pos).1 == Populations.Stage(ctx, b, stream, n, pos).1
  {
    if n > 0 {
      StageRegardless(ctx, a, b, stream, n - 1, pos);
      Populations.StageStep(ctx, a, stream, n, pos);
      Populations.StageStep(ctx, b, stream, n, pos);
      var id := ctx.serviceIDs[n - 1];
      DrawsRegardless(ctx.ServiceOf(id), ServiceLiveProbability(a, id), ServiceLiveProbability(b, id), stream,
        |ctx.ServiceOf(id).replicas|, Populations.Stage(ctx, a, stream, n - 1, pos).1);
    }
  }

  /** Where edge sampling starts does not depend on probabilities. */
  lemma EdgesStartRegardless(ctx: Context, a: Profile, b: Profile, stream: Stream, pos: nat)
    requires SameWay(a, b) && Fits(ctx, a)
    ensures Fits(ctx, b) && BucketStage(ctx, a, stream, pos).Ok? && BucketStage(ctx, b, stream, pos).Ok?
    ensures BucketStage(ctx, a, stream, pos).value.1 == BucketStage(ctx, b, stream, pos).value.1
  {
    StageRegardless(ctx, a, b, stream, |ctx.serviceIDs|, pos);
  }

  /** A service's buckets depend on its own live probability only. */
  lemma SameBuckets(ctx: Context, a: Profile, b: Profile, stream: Stream, pos: nat, i: nat, bucket: nat)
    requires SlotList.Entries(ctx) && i < |ctx.serviceIDs| && SameWay(a, b) && Fits(ctx, a) && Fits(ctx, b)
    requires ServiceLiveProbability(a, ctx.serviceIDs[i]) == ServiceLiveProbability(b, ctx.serviceIDs[i])
    ensures Up(Chances.Buckets(ctx, a, stream, pos), ctx.ServiceOf(ctx.serviceIDs[i]).Bucket(bucket))
        <==> Up(Chances.Buckets(ctx, b, stream, pos), ctx.ServiceOf(ctx.serviceIDs[i]).Bucket(bucket))
  {
    if Independent(a) {
      StageKeeps(ctx, a, stream, |ctx.serviceIDs|, pos, i, bucket);
      StageKeeps(ctx, b, stream, |ctx.serviceIDs|, pos, i, bucket);
      StageRegardless(ctx, a, b, stream, i, pos);
    }
  }

  lemma SameServiceState(ctx: Context, a: Profile, b: Profile, faults: Faults, stream: Stream, pos: nat, id: Id)
    requires SlotList.Entries(ctx) && SameWay(a, b) && Fits(ctx, a) && Fits(ctx, b)
    requires ServiceLiveProbability(a, id) == ServiceLiveProbability(b, id)
    ensures ServiceSampledUp(ctx, a, faults, stream, pos, id) <==> ServiceSampledUp(ctx, b, faults, stream, pos, id)
  {
    Chances.ServiceStandsIfUp(ctx, a, faults, stream, pos, id);
    Chances.ServiceStandsIfUp(ctx, b, faults, stream, pos, id);
    if id in ctx.serviceIDs {
      var i: nat :| i < |ctx.serviceIDs| && ctx.serviceIDs[i] == id;
      forall bucket: nat
        ensures Up(Chances.Buckets(ctx, a, stream, pos), ctx.ServiceOf(id).Bucket(bucket))
            <==> Up(Chances.Buckets(ctx, b, stream, pos), ctx.ServiceOf(id).Bucket(bucket))
      {
        SameBuckets(ctx, a, b, stream, pos, i, bucket);
      }
    }
  }

  ghost predicate ServiceSampledUp(ctx: Context, profile: Profile, faults: Faults, stream: Stream, pos: nat, id: Id)
    requires Fits(ctx, profile)
  {
    SampleFailsExactly(ctx, profile, faults, stream, pos);
    Up(Sample(ctx, profile, faults, stream, pos).value.0.serviceAlive, id)
  }

  ghost predicate EdgeSampledUp(ctx: Context, profile: Profile, faults: Faults, stream: Stream, pos: nat, id: Id)
    requires Fits(ctx, profile)
  {
    SampleFailsExactly(ctx, profile, faults, stream, pos);
    Up(Sample(ctx, profile, faults, stream, pos).value.0.edgeAlive, id)
  }

  lemma SameEdgeState(ctx: Context, a: Profile, b: Profile, faults: Faults, stream: Stream, pos: nat, j: nat)
    requires Nesting.DistinctEdges(ctx) && SameWay(a, b) && Fits(ctx, a) && Fits(ctx, b) && j < |ctx.edgeIDs|
    requires EdgeLiveProbability(a, ctx.edgeIDs[j]) == EdgeLiveProbability(b, ctx.edgeIDs[j])
    ensures EdgeSampledUp(ctx, a, faults, stream, pos, ctx.edgeIDs[j])
        <==> EdgeSampledUp(ctx, b, faults, stream, pos, ctx.edgeIDs[j])
  {
    EdgesStartRegardless(ctx, a, b, stream, pos);
    var start := BucketStage(ctx, a, stream, pos).value.1;
    var one := Nesting.EdgeStateAt(ctx, a, faults, stream, |ctx.edgeIDs|, start, j);
    var two := Nesting.EdgeStateAt(ctx, b, faults, stream, |ctx.edgeIDs|, start, j);
  }

  /** The profile with other values for everything that is not specific to one service or edge. */
  function WithGeneral(profile: Profile, node: Option<real>, edge: Option<real>, failure: real): Profile {
    profile.(nodeLive := node, edgeLive := edge, failureProbability := failure)
  }

  /** On every stream and in every mode a service with its own value is sampled regardless of the general ones. */
  lemma OwnValueDecidesService(ctx: Context, profile: Profile, faults: Faults, stream: Stream, pos: nat, id: Id,
      node: Option<real>, edge: Option<real>, failure: real)
    requires SlotList.Entries(ctx) && Fits(ctx, profile) && id in profile.serviceLive
    ensures Fits(ctx, WithGeneral(profile, node, edge, failure))
    ensures ServiceSampledUp(ctx, WithGeneral(profile, node, edge, failure), faults, stream, pos, id)
        <==> ServiceSampledUp(ctx, profile, faults, stream, pos, id)
  {
    SameServiceState(ctx, WithGeneral(profile, node, edge, failure), profile, faults, stream, pos, id);
  }

  lemma OwnValueDecidesEdge(ctx: Context, profile: Profile, faults: Faults, stream: Stream, pos: nat, j: nat,
      node: Option<real>, edge: Option<real>, failure: real)
    requires Nesting.DistinctEdges(ctx) && Fits(ctx, profile)
    requires j < |ctx.edgeIDs| && ctx.edgeIDs[j] in profile.edgeLives
    ensures Fits(ctx, WithGeneral(profile, node, edge, failure))
    ensures EdgeSampledUp(ctx, WithGeneral(profile, node, edge, failure), faults, stream, pos, ctx.edgeIDs[j])
        <==> EdgeSampledUp(ctx, profile, faults, stream, pos, ctx.edgeIDs[j])
  {
    SameEdgeState(ctx, WithGeneral(profile, node, edge, failure), profile, faults, stream, pos, j);
  }

  /** A service without a value of its own is sampled as if the node value, or what is not failure, were its own. */
  lemma GeneralValueForService(ctx: Context, profile: Profile, faults: Faults, stream: Stream, pos: nat, id: Id)
    requires SlotList.Entries(ctx) && Fits(ctx, profile) && id !in profile.serviceLive
    ensures var p := if profile.nodeLive.Some? then profile.nodeLive.value else 1.0 - profile.failureProbability;
      var with := WithLive(profile, Component(ServiceKind, id), p);
      && Fits(ctx, with)
      && (ServiceSampledUp(ctx, with, faults, stream, pos, id)
          <==> ServiceSampledUp(ctx, profile, faults, stream, pos, id))
  {
    var p := if profile.nodeLive.Some? then profile.nodeLive.value else 1.0 - profile.failureProbability;
    SameServiceState(ctx, WithLive(profile, Component(ServiceKind, id), p), profile, faults, stream, pos, id);
  }

  /** An edge without a value of its own is sampled as if the general one were its own, and is certain without it. */
  lemma GeneralValueForEdge(ctx: Context, profile: Profile, faults: Faults, stream: Stream, pos: nat, j: nat)
    requires Nesting.DistinctEdges(ctx) && Fits(ctx, profile) && j < |ctx.edgeIDs|
    requires ctx.edgeIDs[j] !in profile.edgeLives
    ensures profile.edgeLive.Some? ==>
              var with := WithLive(profile, Component(EdgeKind, ctx.edgeIDs[j]), profile.edgeLive.value);
              && Fits(ctx, with)
              && (EdgeSampledUp(ctx, with, faults, stream, pos, ctx.edgeIDs[j])
                  <==> EdgeSampledUp(ctx, profile, faults, stream, pos, ctx.edgeIDs[j]))
    ensures profile.edgeLive.None? ==>
              (EdgeSampledUp(ctx, profile, faults, stream, pos, ctx.edgeIDs[j])
               <==> ctx.edgeIDs[j] !in faults.hardEdgeKill)
  {
    if profile.edgeLive.Some? {
      var with := WithLive(profile, Component(EdgeKind, ctx.edgeIDs[j]), profile.edgeLive.value);
      SameEdgeState(ctx, with, profile, faults, stream, pos, j);
    } else {
      var start := BucketStage(ctx, profile, stream, pos).value.1;
      var at := Nesting.EdgeStateAt(ctx, profile, faults, stream, |ctx.edgeIDs|, start, j);
      assert stream.draw(at) < 1.0;
    }
  }
}
