/** When a profile or the point of a sweep can be run, in terms of the fields of the configuration. */
module Feasibility {
  import opened Wrappers
  import opened Ids
  import opened Draws
  import opened Topology
  import opened Sampling
  import opened ProfileRun
  import opened Sweeps
  import SlotList = Slots
  import Nesting

  ghost function EligibleServices(ctx: Context): set<Id> {
    set id | id in ctx.services && ctx.services[id].samplingEligible
  }

  /** The positions of the eligible services among the first `n`. */
  ghost function EligibleAt(ctx: Context, n: nat): set<nat>
    requires n <= |ctx.serviceIDs|
  {
    set i: nat | i < n && ctx.ServiceOf(ctx.serviceIDs[i]).samplingEligible
  }

  lemma EligibleStep(ctx: Context, n: nat)
    requires n < |ctx.serviceIDs|
    ensures |EligibleAt(ctx, n + 1)|
         == |EligibleAt(ctx, n)| + if ctx.ServiceOf(ctx.serviceIDs[n]).samplingEligible then 1 else 0
  {
    var before := EligibleAt(ctx, n);
    assert n !in before;
    assert EligibleAt(ctx, n + 1) == if ctx.ServiceOf(ctx.serviceIDs[n]).samplingEligible then before + {n} else before;
  }

  lemma {:induction false} CandidatesCount(ctx: Context, n: nat)
    requires n <= |ctx.serviceIDs|
    ensures |Candidates(ctx, n)| == |EligibleAt(ctx, n)|
  {
    if n > 0 {
      CandidatesCount(ctx, n - 1);
      EligibleStep(ctx, n - 1);
    }
  }

  lemma {:induction false} ImageSize<T>(ids: seq<T>, indices: set<nat>, image: set<T>)
    requires forall i | i in indices :: i < |ids|
    requires forall i, j | i in indices && j in indices && ids[i] == ids[j] :: i == j
    requires forall x :: x in image <==> exists i | i in indices :: ids[i] == x
    ensures |image| == |indices|
    decreases |indices|
  {
    if indices == {} {
      assert forall x :: x !in image;
      assert image == {};
    } else {
      var i :| i in indices;
      assert ids[i] in image;
      ImageSize(ids, indices - {i}, image - {ids[i]});
    }
  }

  /** The population of service-set sampling is as large as the set of eligible services. */
  lemma PopulationIsEligible(ctx: Context)
    requires ctx.Valid()
    ensures |Candidates(ctx, |ctx.serviceIDs|)| == |EligibleServices(ctx)|
  {
    var n := |ctx.serviceIDs|;
    var indices := EligibleAt(ctx, n);
    CandidatesCount(ctx, n);
    forall x | x in EligibleServices(ctx)
      ensures exists i | i in indices :: ctx.serviceIDs[i] == x
    {
      assert x in ctx.serviceIDs;
      var i: nat :| i < n && ctx.serviceIDs[i] == x;
      assert i in indices;
    }
    ImageSize(ctx.serviceIDs, indices, EligibleServices(ctx));
  }

  /** The overrides of the profile name known services and edges only. */
  ghost predicate NamesKnown(ctx: Context, profile: Profile) {
    profile.serviceLive.Keys <= ctx.services.Keys && profile.edgeLives.Keys <= ctx.edges.Keys
  }

  /** Slot sampling without a number of its own asks for a share of all slots. */
  predicate AsksForShare(profile: Profile) {
    profile.mode.FixedKReplicaSlots? && profile.fixedKFailures == 0 && profile.failureProbability > 0.0
  }

  lemma CeilIs(x: real)
    ensures x <= SlotList.Ceil(x) as real < x + 1.0
  {
  }

  /** A share of at most one fits; rounding it up never asks for more than there are. */
  lemma ShareFits(p: real, total: nat)
    ensures SlotList.Ceil(p * total as real) <= total <==> p * total as real <= total as real
  {
    CeilIs(p * total as real);
  }

  /** The share of all slots, as the profile asks for it. */
  function Share(profile: Profile, total: nat): real {
    profile.failureProbability * total as real
  }

  lemma DerivedExactly(profile: Profile, total: nat)
    ensures var r := SlotList.ResolveDerivedFixedK(profile, total);
      && (r.Ok? ==> r.value == profile.(fixedKFailures := r.value.fixedKFailures))
      && (r.Ok? && !AsksForShare(profile) ==> r.value == profile)
      && (r.Ok? && AsksForShare(profile) ==>
            Share(profile, total) <= r.value.fixedKFailures as real < Share(profile, total) + 1.0)
      && (r.Ok? <==> || !profile.mode.FixedKReplicaSlots?
                     || if AsksForShare(profile) then Share(profile, total) <= total as real
                        else profile.fixedKFailures <= total)
  {
    CeilIs(Share(profile, total));
    ShareFits(profile.failureProbability, total);
  }

  lemma ShareBelow(share: real, k: int, total: nat)
    requires share <= k as real < share + 1.0 && share <= total as real
    ensures k <= total
  {
  }

  lemma SlotsFit(ctx: Context, profile: Profile)
    requires profile.mode.FixedKReplicaSlots?
    ensures var resolved, total := Resolved(ctx, profile), SlotList.TotalSlots(ctx, |ctx.serviceIDs|);
      resolved.Ok? && Fits(ctx, resolved.value)
      <==> if AsksForShare(profile) then Share(profile, total) <= total as real else profile.fixedKFailures <= total
  {
    var resolved, total := Resolved(ctx, profile), SlotList.TotalSlots(ctx, |ctx.serviceIDs|);
    DerivedExactly(profile, total);
    if resolved.Ok? && AsksForShare(profile) {
      ShareBelow(Share(profile, total), resolved.value.fixedKFailures, total);
    }
  }

  /** Which profiles run: known names, a supported mode, and no more failures than there is to fail. */
  lemma CanRunExactly(ctx: Context, profile: Profile)
    requires ctx.Valid()
    ensures CanRun(ctx, profile)
        <==> && NamesKnown(ctx, profile)
             && match profile.mode
                case IndependentReplica => true
                case IndependentService => true
                case FixedKServiceSet => profile.fixedKFailures <= |EligibleServices(ctx)|
                case FixedKReplicaSlots =>
                  var total := SlotList.TotalSlots(ctx, |ctx.serviceIDs|);
                  if AsksForShare(profile) then Share(profile, total) <= total as real
                  else profile.fixedKFailures <= total
                case Unsupported => false
  {
    PopulationIsEligible(ctx);
    if profile.mode.FixedKReplicaSlots? {
      SlotsFit(ctx, profile);
    }
    assert NamesKnown(ctx, profile) <==> ReliabilityKnown(ctx, profile);
  }

  /** What runs is the profile itself, with the share it asks for, if it does, rounded up to a number of slots. */
  lemma ResolvedExactly(ctx: Context, profile: Profile)
    requires Resolved(ctx, profile).Ok?
    ensures var resolved := Resolved(ctx, profile).value;
      && resolved == profile.(fixedKFailures := resolved.fixedKFailures)
      && (!AsksForShare(profile) ==> resolved == profile)
      && (AsksForShare(profile) ==>
            var share := Share(profile, SlotList.TotalSlots(ctx, |ctx.serviceIDs|));
            share <= resolved.fixedKFailures as real < share + 1.0)
  {
    DerivedExactly(profile, SlotList.TotalSlots(ctx, |ctx.serviceIDs|));
  }

  // ----- the points of a sweep

  ghost predicate InUnit(x: real) {
    0.0 <= x && x <= 1.0
  }

  ghost predicate EdgesInUnit(profile: Profile) {
    (profile.edgeLive.Some? ==> InUnit(profile.edgeLive.value))
    && forall id | id in profile.edgeLives :: InUnit(profile.edgeLives[id])
  }

  ghost predicate ServicesInUnit(profile: Profile) {
    (profile.nodeLive.Some? ==> InUnit(profile.nodeLive.value))
    && forall id | id in profile.serviceLive :: InUnit(profile.serviceLive[id])
  }

  /**
   Which points of a valid sweep run. The service reliabilities of the base only matter to slot sweeps; replica sweeps
   run whatever they are.
   */
  lemma PointRunsExactly(sweep: Sweep, i: nat, seed: int, ctx: Context, entropy: Entropy)
    requires sweep.Valid() && ctx.Valid() && i < |sweep.values|
    ensures PointRuns(sweep, i, seed, ctx, entropy)
        <==> && EdgesInUnit(sweep.base) && sweep.base.edgeLives.Keys <= ctx.edges.Keys
             && (sweep.axis.FailedReplicaSlots? ==>
                   && ServicesInUnit(sweep.base) && sweep.base.serviceLive.Keys <= ctx.services.Keys
                   && sweep.values[i] <= SlotList.TotalSlots(ctx, |ctx.serviceIDs|) as real)
  {
    var profile := PointProfile(sweep, sweep.values[i], seed);
    var normalized := NormalizeProfile(profile, seed, i, entropy);
    NormalizedExactly(profile, seed, i, entropy);
    if normalized.Ok? {
      CanRunExactly(ctx, normalized.value);
    }
  }

  lemma NormalizedExactly(profile: Profile, seed: int, index: int, entropy: Entropy)
    ensures var normalized := NormalizeProfile(profile, seed, index, entropy);
      && (normalized.Ok?
          <==> && profile.trials > 0 && !profile.mode.Unsupported? && ServicesInUnit(profile) && EdgesInUnit(profile)
               && (profile.mode.FixedKServiceSet? || InUnit(profile.failureProbability))
               && (profile.mode.FixedKServiceSet? || profile.mode.FixedKReplicaSlots? ==> profile.fixedKFailures >= 0))
      && (normalized.Ok? ==>
            && normalized.value == profile.(seed := normalized.value.seed)
            && (profile.seed != 0 ==> normalized.value.seed == profile.seed)
            && (profile.seed == 0 ==> normalized.value.seed == entropy.profileSeed(seed, profile.name, index)))
  {
  }
}
