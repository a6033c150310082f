/**
 When a path can succeed at all: a condition on the inputs that no draws can do without and some draws suffice for.
 */
module Chances {
  import opened Wrappers
  import opened Ids
  import opened Draws
  import opened Topology
  import opened Execution
  import opened Sampling
  import opened Spares
  import opened Populations
  import Nesting
  import Probability
  import SlotList = Slots

  // ----- the condition

  /** Nothing on the path fails for certain: no error rate reaches 1 and no hop times out. */
  predicate Passable(ctx: Context, faults: Faults, path: Path)
    requires path.Shaped()
  {
    && (forall i | 0 <= i < |path.services| :: RateOf(faults.serviceErrorRates, path.services[i]) < 1.0)
    && (forall i | 0 <= i < |path.edgeIDs| ::
          EdgeErrorRate(ctx, faults, path.edgeIDs[i]) < 1.0 && !TimesOut(ctx, faults, path, i))
  }

  /** No part of the path is hard-killed, and every edge lives with positive probability. */
  predicate MayStand(ctx: Context, profile: Profile, faults: Faults, path: Path) {
    && (forall i | 0 <= i < |path.services| :: !Probability.ServiceHardDead(ctx, faults, path.services[i]))
    && (forall i | 0 <= i < |path.edgeIDs| :: EdgeMayLive(ctx, profile, faults, path.edgeIDs[i]))
  }

  predicate EdgeMayLive(ctx: Context, profile: Profile, faults: Faults, id: Id) {
    id in ctx.edges && id !in faults.hardEdgeKill && EdgeLiveProbability(profile, id) > 0.0
  }

  /** The services of the path that sampling may fail. */
  function Exposed(ctx: Context, path: Path): set<Id> {
    set i | 0 <= i < |path.services| && ctx.ServiceOf(path.services[i]).samplingEligible :: path.services[i]
  }

  /** Sampling leaves room for the path: positive live probabilities, or failures enough to place elsewhere. */
  predicate HasRoom(ctx: Context, profile: Profile, path: Path) {
    match profile.mode
    case IndependentReplica => forall id | id in Exposed(ctx, path) :: ServiceLiveProbability(profile, id) > 0.0
    case IndependentService => forall id | id in Exposed(ctx, path) :: ServiceLiveProbability(profile, id) > 0.0
    case FixedKServiceSet =>
      profile.fixedKFailures <= 0 || profile.fixedKFailures
          + |Exposed(ctx, path)| <= |Candidates(ctx, |ctx.serviceIDs|)|
    case FixedKReplicaSlots =>
      profile.fixedKFailures <= 0 || profile.fixedKFailures + |Exposed(ctx, path)| <= |Slots(ctx, |ctx.serviceIDs|)|
    case Unsupported => false
  }

  predicate CanSucceed(ctx: Context, profile: Profile, faults: Faults, path: Path)
    requires path.Shaped()
  {
    Passable(ctx, faults, path) && MayStand(ctx, profile, faults, path) && HasRoom(ctx, profile, path)
  }

  // ----- what success needs of the path's rates and timeouts

  predicate PassableFrom(ctx: Context, faults: Faults, path: Path, i: nat, j: nat)
    requires path.Shaped()
  {
    && (forall s | i <= s < |path.services| :: RateOf(faults.serviceErrorRates, path.services[s]) < 1.0)
    && (forall e | j <= e < |path.edgeIDs| ::
          EdgeErrorRate(ctx, faults, path.edgeIDs[e]) < 1.0 && !TimesOut(ctx, faults, path, e))
  }

  lemma {:induction false} SuccessPasses(ctx: Context, faults: Faults, path: Path, world: World, stream: Stream, i: nat,
      pos: nat)
    requires path.Shaped() && i < |path.services|
    requires ServiceRun(ctx, faults, path, world, stream, i, pos).0
    ensures PassableFrom(ctx, faults, path, i, i)
    decreases |path.services| - i, 1, 0
  {
    var rate := RateOf(faults.serviceErrorRates, path.services[i]);
    assert rate < 1.0 by {
      assert stream.draw(pos) < 1.0;
    }
    if i < |path.edgeIDs| {
      AttemptPasses(ctx, faults, path, world, stream, i, EffectiveAttempts(ctx.EdgeOf(path.edgeIDs[i]).resilience),
                    if rate > 0.0 then pos + 1 else pos);
    }
  }

  lemma {:induction false} AttemptPasses(ctx: Context, faults: Faults, path: Path, world: World, stream: Stream,
      i: nat, left: nat, pos: nat)
    requires path.Shaped() && i < |path.edgeIDs|
    requires Attempts(ctx, faults, path, world, stream, i, left, pos).0
    ensures PassableFrom(ctx, faults, path, i + 1, i)
    decreases |path.services| - i, 0, left
  {
    var rate := EdgeErrorRate(ctx, faults, path.edgeIDs[i]);
    var next := if rate > 0.0 then pos + 1 else pos;
    if rate > 0.0 && stream.draw(pos) < rate {
      AttemptPasses(ctx, faults, path, world, stream, i, left - 1, pos + 1);
    } else if TimesOut(ctx, faults, path, i) {
      AttemptPasses(ctx, faults, path, world, stream, i, left - 1, next);
    } else {
      var down := ServiceRun(ctx, faults, path, world, stream, i + 1, next);
      if down.0 {
        SuccessPasses(ctx, faults, path, world, stream, i + 1, next);
        assert rate < 1.0 by {
          assert stream.draw(pos) < 1.0;
        }
      } else {
        AttemptPasses(ctx, faults, path, world, stream, i, left - 1, down.1);
      }
    }
  }

  // ----- what standing needs of the sample

  /** The sampled bucket map, before kills. */
  ghost function Buckets(ctx: Context, profile: Profile, stream: Stream, pos: nat): map<BucketId, bool>
    requires Fits(ctx, profile)
  {
    BucketStage(ctx, profile, stream, pos).value.0
  }

  /** The order in which a fixed number of failures is placed. */
  ghost predicate PlacedBy(ctx: Context, profile: Profile, stream: Stream, pos: nat, order: seq<nat>) {
    && (profile.mode.FixedKServiceSet? ==> order == stream.perm(pos, |Candidates(ctx, |ctx.serviceIDs|)|))
    && (profile.mode.FixedKReplicaSlots? ==> order == stream.perm(pos, |Slots(ctx, |ctx.serviceIDs|)|))
  }

  predicate FixedK(profile: Profile) {
    (profile.mode.FixedKServiceSet? || profile.mode.FixedKReplicaSlots?) && profile.fixedKFailures > 0
  }

  function Names(ctx: Context, profile: Profile, faults: Faults): seq<Option<Id>> {
    if profile.mode.FixedKServiceSet? then ServiceNames(ctx) else SlotNames(ctx, faults)
  }

  /** In a sampled bucket map, an exposed service that stands may live, and some failure spares it. */
  lemma StandingNeeds(ctx: Context, profile: Profile, faults: Faults, stream: Stream, pos: nat, order: seq<nat>, i: nat)
    requires SlotList.Entries(ctx) && i < |ctx.serviceIDs| && Fits(ctx, profile)
    requires ctx.ServiceOf(ctx.serviceIDs[i]).samplingEligible && PlacedBy(ctx, profile, stream, pos, order)
    requires Stands(ctx, faults, Buckets(ctx, profile, stream, pos), ctx.serviceIDs[i])
    ensures profile.mode.IndependentReplica? || profile.mode.IndependentService? ==> MayLive(ctx, profile, i)
    ensures FixedK(profile) ==> Survives(Names(ctx, profile, faults), order, profile.fixedKFailures, ctx.serviceIDs[i])
  {
    var svc, n := ctx.ServiceOf(ctx.serviceIDs[i]), |ctx.serviceIDs|;
    var buckets := Buckets(ctx, profile, stream, pos);
    var b: nat :| b < |svc.replicas| && svc.Bucket(b) !in faults.hardBucketKill && Up(buckets, svc.Bucket(b));
    if profile.mode.IndependentReplica? || profile.mode.IndependentService? {
      StageAt(ctx, profile, stream, n, pos, i, b);
    } else if FixedK(profile) {
      if profile.mode.FixedKServiceSet? {
        ServicesSurvive(ctx, order, profile.fixedKFailures, i);
        SurvivingServicesAt(ctx, Hit(Candidates(ctx, n), order, profile.fixedKFailures), n, i, b);
      } else {
        SlotsSurvive(ctx, faults, order, profile.fixedKFailures, i);
      }
    }
  }

  /** Where bucket `b` of a service may live, or survives the placed failures, it is up. */
  ghost predicate Granted(ctx: Context, profile: Profile, faults: Faults, order: seq<nat>, i: nat)
    requires i < |ctx.serviceIDs|
  {
    ctx.ServiceOf(ctx.serviceIDs[i]).samplingEligible ==>
      && (profile.mode.IndependentReplica? || profile.mode.IndependentService? ==> MayLive(ctx, profile, i))
      && (FixedK(profile) ==> Survives(Names(ctx, profile, faults), order, profile.fixedKFailures, ctx.serviceIDs[i]))
  }

  lemma GrantedIndependent(ctx: Context, profile: Profile, faults: Faults, stream: Stream, pos: nat, i: nat, b: nat)
    requires SlotList.Entries(ctx) && i < |ctx.serviceIDs|
    requires profile.mode.IndependentReplica? || profile.mode.IndependentService?
    requires MayLive(ctx, profile, i) && ZeroFrom(stream, pos, BucketStage(ctx, profile, stream, pos).value.1)
    requires var svc := ctx.ServiceOf(ctx.serviceIDs[i]);
      b < |svc.replicas| && svc.replicas[b] > 0 && svc.Bucket(b) !in faults.hardBucketKill
    ensures Stands(ctx, faults, Buckets(ctx, profile, stream, pos), ctx.serviceIDs[i])
  {
    StageAt(ctx, profile, stream, |ctx.serviceIDs|, pos, i, b);
  }

  lemma GrantedServices(ctx: Context, profile: Profile, faults: Faults, stream: Stream, pos: nat, order: seq<nat>,
      i: nat, b: nat)
    requires SlotList.Entries(ctx) && i < |ctx.serviceIDs| && profile.mode.FixedKServiceSet? && Fits(ctx, profile)
    requires PlacedBy(ctx, profile, stream, pos, order) && Granted(ctx, profile, faults, order, i)
    requires var svc := ctx.ServiceOf(ctx.serviceIDs[i]);
      b < |svc.replicas| && svc.Bucket(b) !in faults.hardBucketKill
    ensures Stands(ctx, faults, Buckets(ctx, profile, stream, pos), ctx.serviceIDs[i])
  {
    var n, k, id := |ctx.serviceIDs|, profile.fixedKFailures, ctx.serviceIDs[i];
    var all := Candidates(ctx, n);
    var failed := if k <= 0 then [] else Hit(all, order, k);
    if k > 0 {
      if ctx.ServiceOf(id).samplingEligible {
        ServicesSurvive(ctx, order, k, i);
      } else if id in failed {
        var j: nat :| j < |failed| && failed[j] == id;
        var at := CandidateAt(ctx, n, order[j]);
        assert false;
      }
    }
    SurvivingServicesAt(ctx, failed, n, i, b);
    assert Up(Buckets(ctx, profile, stream, pos), ctx.ServiceOf(id).Bucket(b));
  }

  lemma GrantedSlots(ctx: Context, profile: Profile, faults: Faults, stream: Stream, pos: nat, order: seq<nat>, i: nat,
      b: nat)
    requires SlotList.Entries(ctx) && i < |ctx.serviceIDs| && profile.mode.FixedKReplicaSlots? && Fits(ctx, profile)
    requires PlacedBy(ctx, profile, stream, pos, order) && Granted(ctx, profile, faults, order, i)
    requires var svc := ctx.ServiceOf(ctx.serviceIDs[i]);
      b < |svc.replicas| && svc.replicas[b] > 0 && svc.Bucket(b) !in faults.hardBucketKill
    ensures Stands(ctx, faults, Buckets(ctx, profile, stream, pos), ctx.serviceIDs[i])
  {
    var n, k, svc := |ctx.serviceIDs|, profile.fixedKFailures, ctx.ServiceOf(ctx.serviceIDs[i]);
    var all := Slots(ctx, n);
    if k > 0 && svc.samplingEligible {
      SlotsSurvive(ctx, faults, order, k, i);
    } else {
      var failed := if k <= 0 then multiset{} else multiset(Hit(all, order, k));
      if k > 0 {
        SlotList.HitBounded(all, order, k);
        SlotList.BucketsBounded(ctx, failed, i, b);
      }
      SlotList.SurvivingSlotsAt(ctx, failed, n, i, b);
      assert Up(Buckets(ctx, profile, stream, pos), svc.Bucket(b));
    }
  }

  // ----- the sampled world

  lemma ServiceStandsIfUp(ctx: Context, profile: Profile, faults: Faults, stream: Stream, pos: nat, id: Id)
    requires Fits(ctx, profile)
    ensures Sample(ctx, profile, faults, stream, pos).Ok?
    ensures Up(Sample(ctx, profile, faults, stream, pos).value.0.serviceAlive, id)
        <==> id in ctx.serviceIDs && Stands(ctx, faults, Buckets(ctx, profile, stream, pos), id)
  {
    SampleFailsExactly(ctx, profile, faults, stream, pos);
    StandingIsUp(ctx, faults, Buckets(ctx, profile, stream, pos), id);
  }

  ghost function OrderOf(ctx: Context, profile: Profile, stream: Stream, pos: nat): (order: seq<nat>)
    ensures PlacedBy(ctx, profile, stream, pos, order)
  {
    if profile.mode.FixedKServiceSet? then stream.perm(pos, |Candidates(ctx, |ctx.serviceIDs|)|)
    else if profile.mode.FixedKReplicaSlots? then stream.perm(pos, |Slots(ctx, |ctx.serviceIDs|)|)
    else []
  }

  /** The exposed services of a path that is up all stand. */
  lemma ExposedStand(ctx: Context, profile: Profile, faults: Faults, stream: Stream, pos: nat, path: Path, id: Id)
    requires SlotList.Entries(ctx) && Fits(ctx, profile) && id in Exposed(ctx, path)
    requires Sample(ctx, profile, faults, stream, pos).Ok?
        && PathUp(Sample(ctx, profile, faults, stream, pos).value.0, path)
    ensures profile.mode.IndependentReplica? || profile.mode.IndependentService?
        ==> ServiceLiveProbability(profile, id) > 0.0
    ensures FixedK(profile) ==>
              Survives(Names(ctx, profile, faults), OrderOf(ctx, profile, stream, pos), profile.fixedKFailures, id)
  {
    ServiceStandsIfUp(ctx, profile, faults, stream, pos, id);
    var i: nat :| i < |ctx.serviceIDs| && ctx.serviceIDs[i] == id;
    StandingNeeds(ctx, profile, faults, stream, pos, OrderOf(ctx, profile, stream, pos), i);
  }

  lemma UpNeedsRoom(ctx: Context, profile: Profile, faults: Faults, stream: Stream, pos: nat, path: Path)
    requires SlotList.Entries(ctx) && Fits(ctx, profile)
    requires Sample(ctx, profile, faults, stream, pos).Ok?
        && PathUp(Sample(ctx, profile, faults, stream, pos).value.0, path)
    ensures HasRoom(ctx, profile, path)
  {
    forall id | id in Exposed(ctx, path)
      ensures profile.mode.IndependentReplica? || profile.mode.IndependentService?
          ==> ServiceLiveProbability(profile, id) > 0.0
      ensures FixedK(profile) ==>
                Survives(Names(ctx, profile, faults), OrderOf(ctx, profile, stream, pos), profile.fixedKFailures, id)
    {
      ExposedStand(ctx, profile, faults, stream, pos, path, id);
    }
    if FixedK(profile) {
      SurvivorsFit(Names(ctx, profile, faults), OrderOf(ctx, profile, stream, pos), profile.fixedKFailures,
          Exposed(ctx, path));
    }
  }

  lemma EdgeUpNeeds(ctx: Context, profile: Profile, faults: Faults, stream: Stream, pos: nat, id: Id)
    requires Nesting.DistinctEdges(ctx) && (forall e | e in ctx.edgeIDs :: e in ctx.edges)
    requires Up(EdgeStates(ctx, profile, faults, stream, |ctx.edgeIDs|, pos).0, id)
    ensures EdgeMayLive(ctx, profile, faults, id)
  {
    Nesting.EdgeCursor(ctx, profile, faults, stream, |ctx.edgeIDs|, pos);
    var i :| 0 <= i < |ctx.edgeIDs| && ctx.edgeIDs[i] == id;
    var at := Nesting.EdgeStateAt(ctx, profile, faults, stream, |ctx.edgeIDs|, pos, i);
    assert stream.draw(at) >= 0.0;
  }

  /** Where a sampled world has the whole path up, sampling can grant it. */
  lemma UpNeedsChance(ctx: Context, profile: Profile, faults: Faults, stream: Stream, pos: nat, path: Path)
    requires ctx.Valid() && Fits(ctx, profile)
    requires Sample(ctx, profile, faults, stream, pos).Ok?
        && PathUp(Sample(ctx, profile, faults, stream, pos).value.0, path)
    ensures MayStand(ctx, profile, faults, path) && HasRoom(ctx, profile, path)
  {
    SlotList.ValidEntries(ctx);
    UpNeedsRoom(ctx, profile, faults, stream, pos, path);
    forall i | 0 <= i < |path.services|
      ensures !Probability.ServiceHardDead(ctx, faults, path.services[i])
    {
      ServiceStandsIfUp(ctx, profile, faults, stream, pos, path.services[i]);
    }
    forall i | 0 <= i < |path.edgeIDs|
      ensures EdgeMayLive(ctx, profile, faults, path.edgeIDs[i])
    {
      EdgeUpNeeds(ctx, profile, faults, stream, BucketStage(ctx, profile, stream, pos).value.1, path.edgeIDs[i]);
    }
  }

  /** A path that succeeds in a sampled world, on whatever generator, meets the condition. */
  lemma SuccessNeedsChance(ctx: Context, profile: Profile, faults: Faults, stream: Stream, pos: nat, path: Path,
      other: Stream, from: nat)
    requires ctx.Valid() && Fits(ctx, profile) && path.Shaped() && Sample(ctx, profile, faults, stream, pos).Ok?
    requires ServiceRun(ctx, faults, path, Sample(ctx, profile, faults, stream, pos).value.0, other, 0, from).0
    ensures CanSucceed(ctx, profile, faults, path)
  {
    var world := Sample(ctx, profile, faults, stream, pos).value.0;
    SuccessNeedsPartsUp(ctx, faults, path, world, other, 0, from);
    UpNeedsChance(ctx, profile, faults, stream, pos, path);
    SuccessPasses(ctx, faults, path, world, other, 0, from);
  }

  // ----- draws that grant success

  /**
   A tape of zeros up to `n` and of `high` draws from there on, with one chosen permutation and any permutation cost.
   */
  ghost predicate Splices(stream: Stream, n: nat, high: real, order: seq<nat>, after: (nat, nat) -> nat) {
    && (forall p: nat :: stream.draw(p) == if p < n then 0.0 else high)
    && (forall p: nat :: stream.perm(p, |order|) == order)
    && stream.afterPerm == after
  }

  lemma SplicedTape(n: nat, high: real, order: seq<nat>, after: (nat, nat) -> nat) returns (stream: Stream)
    requires 0.0 <= high < 1.0 && IsPermutation(order, |order|)
    ensures Splices(stream, n, high, order, after)
  {
    var tape := Tape((p: nat) => if p < n then 0.0 else high,
                     (p: nat, m: nat) => if m == |order| then order else seq(m, i => i),
                     after);
    forall p: nat, m: nat
      ensures IsPermutation(tape.perm(p, m), m)
    {
      assert m != |order| ==> tape.perm(p, m) == seq(m, i => i);
    }
    stream := tape;
  }

  lemma {:induction false} EdgesCursor(ctx: Context, profile: Profile, faults: Faults, stream: Stream, other: Stream,
      n: nat, pos: nat)
    requires n <= |ctx.edgeIDs|
    ensures EdgeStates(ctx, profile, faults, stream, n, pos).1
        == EdgeStates(ctx, profile, faults, other, n, pos).1 >= pos
  {
    if n > 0 {
      EdgesCursor(ctx, profile, faults, stream, other, n - 1, pos);
    }
  }

  /** Where sampling stops depends on what permutations cost, not on what is drawn. */
  lemma SampleCursor(ctx: Context, profile: Profile, faults: Faults, stream: Stream, other: Stream, pos: nat)
    requires Fits(ctx, profile) && stream.afterPerm == other.afterPerm
    ensures Sample(ctx, profile, faults, stream, pos).Ok? && Sample(ctx, profile, faults, other, pos).Ok?
    ensures Sample(ctx, profile, faults, stream, pos).value.1 == Sample(ctx, profile, faults, other, pos).value.1
    ensures BucketStage(ctx, profile, stream, pos).value.1 <= Sample(ctx, profile, faults, stream, pos).value.1
  {
    SampleFailsExactly(ctx, profile, faults, stream, pos);
    SampleFailsExactly(ctx, profile, faults, other, pos);
    if profile.mode.IndependentReplica? || profile.mode.IndependentService? {
      StageCursor(ctx, profile, stream, other, |ctx.serviceIDs|, pos);
    }
    EdgesCursor(ctx, profile, faults, stream, other, |ctx.edgeIDs|, BucketStage(ctx, profile, stream, pos).value.1);
  }

  /** An order of failures that spares the exposed services of the path. */
  lemma GrantingOrder(ctx: Context, profile: Profile, faults: Faults, path: Path) returns (order: seq<nat>)
    requires SlotList.Entries(ctx) && ctx.Valid() && MayStand(ctx, profile, faults, path) && HasRoom(ctx, profile, path)
    ensures IsPermutation(order, |order|)
    ensures FixedK(profile) ==>
              && |order| == |Names(ctx, profile, faults)|
              && forall id | id in Exposed(ctx, path) ::
                  Survives(Names(ctx, profile, faults), order, profile.fixedKFailures, id)
  {
    order := [];
    if FixedK(profile) {
      forall id | id in Exposed(ctx, path)
        ensures Kept(Names(ctx, profile, faults), id)
      {
        ExposedKept(ctx, profile, faults, id);
      }
      order := SparingOrderExists(Names(ctx, profile, faults), Exposed(ctx, path), profile.fixedKFailures);
    }
  }

  lemma ExposedKept(ctx: Context, profile: Profile, faults: Faults, id: Id)
    requires SlotList.Entries(ctx) && ctx.Valid() && FixedK(profile)
    requires ctx.ServiceOf(id).samplingEligible && !Probability.ServiceHardDead(ctx, faults, id)
    ensures Kept(Names(ctx, profile, faults), id)
  {
    var b: nat :| b < |ctx.ServiceOf(id).replicas| && ctx.ServiceOf(id).Bucket(b) !in faults.hardBucketKill;
    var i := SlotList.IndexOf(ctx, id);
    if profile.mode.FixedKServiceSet? {
      var j := CandidateIndex(ctx, |ctx.serviceIDs|, i);
      assert Keeper(ServiceNames(ctx), id, j);
    } else {
      SlotsKeep(ctx, faults, i, b);
    }
  }

  lemma EdgeGranted(ctx: Context, profile: Profile, faults: Faults, stream: Stream, pos: nat, id: Id)
    requires Nesting.DistinctEdges(ctx) && id in ctx.edgeIDs && EdgeMayLive(ctx, profile, faults, id)
    requires ZeroFrom(stream, pos, EdgeStates(ctx, profile, faults, stream, |ctx.edgeIDs|, pos).1)
    ensures Up(EdgeStates(ctx, profile, faults, stream, |ctx.edgeIDs|, pos).0, id)
  {
    var i :| 0 <= i < |ctx.edgeIDs| && ctx.edgeIDs[i] == id;
    var at := Nesting.EdgeStateAt(ctx, profile, faults, stream, |ctx.edgeIDs|, pos, i);
  }

  lemma ServiceGranted(ctx: Context, profile: Profile, faults: Faults, stream: Stream, order: seq<nat>, id: Id)
    requires SlotList.Entries(ctx) && ctx.Valid() && Fits(ctx, profile) && PlacedBy(ctx, profile, stream, 0, order)
    requires ZeroFrom(stream, 0, BucketStage(ctx, profile, stream, 0).value.1)
    requires !Probability.ServiceHardDead(ctx, faults, id)
    requires ctx.ServiceOf(id).samplingEligible ==>
               && (profile.mode.IndependentReplica? || profile.mode.IndependentService?
                   ==> ServiceLiveProbability(profile, id) > 0.0)
               && (FixedK(profile) ==> Survives(Names(ctx, profile, faults), order, profile.fixedKFailures, id))
    ensures id in ctx.serviceIDs && Stands(ctx, faults, Buckets(ctx, profile, stream, 0), id)
  {
    var b: nat :| b < |ctx.ServiceOf(id).replicas| && ctx.ServiceOf(id).Bucket(b) !in faults.hardBucketKill;
    var i := SlotList.IndexOf(ctx, id);
    assert ctx.ServiceOf(id).replicas[b] > 0;
    match profile.mode {
      case IndependentReplica => GrantedIndependent(ctx, profile, faults, stream, 0, i, b);
      case IndependentService => GrantedIndependent(ctx, profile, faults, stream, 0, i, b);
      case FixedKServiceSet => GrantedServices(ctx, profile, faults, stream, 0, order, i, b);
      case FixedKReplicaSlots => GrantedSlots(ctx, profile, faults, stream, 0, order, i, b);
    }
  }

  /** For any permutation cost, some tape samples a world with the whole path up and goes on with high draws. */
  lemma ChanceGrants(ctx: Context, profile: Profile, faults: Faults, path: Path, high: real, after: (nat, nat) -> nat)
    returns (stream: Stream)
    requires ctx.Valid() && MayStand(ctx, profile, faults, path) && HasRoom(ctx, profile, path) && 0.0 <= high < 1.0
    ensures Fits(ctx, profile) && stream.afterPerm == after && Sample(ctx, profile, faults, stream, 0).Ok?
    ensures PathUp(Sample(ctx, profile, faults, stream, 0).value.0, path)
    ensures forall p: nat | p >= Sample(ctx, profile, faults, stream, 0).value.1 :: stream.draw(p) == high
  {
    SlotList.ValidEntries(ctx);
    var order := GrantingOrder(ctx, profile, faults, path);
    var base := SplicedTape(0, high, order, after);
    SampleFailsExactly(ctx, profile, faults, base, 0);
    var n := Sample(ctx, profile, faults, base, 0).value.1;
    stream := SplicedTape(n, high, order, after);
    SampleCursor(ctx, profile, faults, stream, base, 0);
    SplicedGrants(ctx, profile, faults, path, stream, n, high, order);
  }

  lemma SplicedGrants(ctx: Context, profile: Profile, faults: Faults, path: Path, stream: Stream, n: nat, high: real,
      order: seq<nat>)
    requires ctx.Valid() && MayStand(ctx, profile, faults, path) && HasRoom(ctx, profile, path) && Fits(ctx, profile)
    requires Splices(stream, n, high, order, stream.afterPerm) && Sample(ctx, profile, faults, stream, 0).Ok?
    requires Sample(ctx, profile, faults, stream, 0).value.1 == n
    requires FixedK(profile) ==>
               && |order| == |Names(ctx, profile, faults)|
               && forall id | id in Exposed(ctx, path) ::
                   Survives(Names(ctx, profile, faults), order, profile.fixedKFailures, id)
    ensures PathUp(Sample(ctx, profile, faults, stream, 0).value.0, path)
  {
    SlotList.ValidEntries(ctx);
    SampleCursor(ctx, profile, faults, stream, stream, 0);
    var start := BucketStage(ctx, profile, stream, 0).value.1;
    var placed := if FixedK(profile) then order else OrderOf(ctx, profile, stream, 0);
    forall i | 0 <= i < |path.services|
      ensures Up(Sample(ctx, profile, faults, stream, 0).value.0.serviceAlive, path.services[i])
    {
      ServiceGranted(ctx, profile, faults, stream, placed, path.services[i]);
      ServiceStandsIfUp(ctx, profile, faults, stream, 0, path.services[i]);
    }
    forall i | 0 <= i < |path.edgeIDs|
      ensures Up(Sample(ctx, profile, faults, stream, 0).value.0.edgeAlive, path.edgeIDs[i])
    {
      EdgeGranted(ctx, profile, faults, stream, start, path.edgeIDs[i]);
    }
  }

  // ----- high draws carry a path through

  /** A draw below 1 that no rate on a passable path exceeds. */
  lemma HighDraw(ctx: Context, faults: Faults, path: Path) returns (high: real)
    requires path.Shaped() && Passable(ctx, faults, path)
    ensures 0.0 <= high < 1.0 && Exceeds(ctx, faults, path, high, |path.services|, |path.edgeIDs|)
  {
    high := 0.0;
    for i := 0 to |path.services|
      invariant 0.0 <= high < 1.0 && Exceeds(ctx, faults, path, high, i, 0)
    {
      if high < RateOf(faults.serviceErrorRates, path.services[i]) {
        high := RateOf(faults.serviceErrorRates, path.services[i]);
      }
    }
    for i := 0 to |path.edgeIDs|
      invariant 0.0 <= high < 1.0 && Exceeds(ctx, faults, path, high, |path.services|, i)
    {
      if high < EdgeErrorRate(ctx, faults, path.edgeIDs[i]) {
        high := EdgeErrorRate(ctx, faults, path.edgeIDs[i]);
      }
    }
  }

  /** None of the first `m` services' and `n` edges' rates exceeds the draw. */
  predicate Exceeds(ctx: Context, faults: Faults, path: Path, high: real, m: nat, n: nat)
    requires m <= |path.services| && n <= |path.edgeIDs|
  {
    && (forall i | 0 <= i < m :: RateOf(faults.serviceErrorRates, path.services[i]) <= high)
    && (forall i | 0 <= i < n :: EdgeErrorRate(ctx, faults, path.edgeIDs[i]) <= high)
  }

  ghost predicate HighFrom(stream: Stream, high: real, pos: nat) {
    forall p: nat | p >= pos :: stream.draw(p) == high
  }

  lemma {:induction false} HighDrawsSucceed(ctx: Context, faults: Faults, path: Path, world: World, stream: Stream,
      high: real, i: nat, pos: nat)
    requires path.Shaped() && i < |path.services| && Passable(ctx, faults, path) && PathUp(world, path)
    requires Exceeds(ctx, faults, path, high, |path.services|, |path.edgeIDs|) && HighFrom(stream, high, pos)
    ensures ServiceRun(ctx, faults, path, world, stream, i, pos).0
    decreases |path.services| - i
  {
    var rate := RateOf(faults.serviceErrorRates, path.services[i]);
    var next := if rate > 0.0 then pos + 1 else pos;
    assert stream.draw(pos) == high;
    if i < |path.edgeIDs| {
      assert stream.draw(next) == high;
      var after := if EdgeErrorRate(ctx, faults, path.edgeIDs[i]) > 0.0 then next + 1 else next;
      HighDrawsSucceed(ctx, faults, path, world, stream, high, i + 1, after);
      var n := EffectiveAttempts(ctx.EdgeOf(path.edgeIDs[i]).resilience);
      assert Attempts(ctx, faults, path, world, stream, i, n, next).0;
      assert EdgeRun(ctx, faults, path, world, stream, i, next).0;
    }
  }

  /** Executing never moves a generator backwards. */
  lemma {:induction false} RunMovesOn(ctx: Context, faults: Faults, path: Path, world: World, stream: Stream, i: nat,
      pos: nat)
    requires path.Shaped() && i < |path.services|
    ensures ServiceRun(ctx, faults, path, world, stream, i, pos).1 >= pos
    decreases |path.services| - i, 1, 0
  {
    if i < |path.edgeIDs| {
      var rate := RateOf(faults.serviceErrorRates, path.services[i]);
      AttemptsMoveOn(ctx, faults, path, world, stream, i, EffectiveAttempts(ctx.EdgeOf(path.edgeIDs[i]).resilience),
                     if rate > 0.0 then pos + 1 else pos);
    }
  }

  lemma {:induction false} AttemptsMoveOn(ctx: Context, faults: Faults, path: Path, world: World, stream: Stream,
      i: nat, left: nat, pos: nat)
    requires path.Shaped() && i < |path.edgeIDs|
    ensures Attempts(ctx, faults, path, world, stream, i, left, pos).1 >= pos
    decreases |path.services| - i, 0, left
  {
    if left > 0 {
      var next := if EdgeErrorRate(ctx, faults, path.edgeIDs[i]) > 0.0 then pos + 1 else pos;
      RunMovesOn(ctx, faults, path, world, stream, i + 1, next);
      AttemptsMoveOn(ctx, faults, path, world, stream, i, left - 1, next);
      AttemptsMoveOn(ctx, faults, path, world, stream, i, left - 1,
                     ServiceRun(ctx, faults, path, world, stream, i + 1, next).1);
    }
  }

  // ----- the condition is exact

  /** Sampling on one generator and executing on another, the path succeeds. */
  ghost predicate SucceedsOn(ctx: Context, profile: Profile, faults: Faults, path: Path, state: Stream, run: Stream)
    requires path.Shaped()
  {
    && Sample(ctx, profile, faults, state, 0).Ok?
    && Succeeds(ctx, faults, path, Sample(ctx, profile, faults, state, 0).value.0, run)
  }

  lemma ChanceSucceeds(ctx: Context, profile: Profile, faults: Faults, path: Path) returns (state: Stream, run: Stream)
    requires ctx.Valid() && path.Shaped() && CanSucceed(ctx, profile, faults, path)
    ensures SucceedsOn(ctx, profile, faults, path, state, run)
  {
    var high := HighDraw(ctx, faults, path);
    state := ChanceGrants(ctx, profile, faults, path, high, (p: nat, m: nat) => p + m);
    run := SplicedTape(0, high, [], (p: nat, m: nat) => p + m);
    var world := Sample(ctx, profile, faults, state, 0).value.0;
    HighDrawsSucceed(ctx, faults, path, world, run, high, 0, 0);
  }

  /**
   Some draws make the path succeed in a sampled world exactly when nothing on it fails for certain, no part of it is
   hard-killed, its edges may live, and the profile leaves room for its services: positive live probabilities, or a
   number of failures that can be placed entirely elsewhere.
   */
  lemma ChanceExactly(ctx: Context, profile: Profile, faults: Faults, path: Path)
    requires ctx.Valid() && path.Shaped()
    ensures (exists state: Stream, run: Stream :: SucceedsOn(ctx, profile, faults, path, state, run))
        <==> CanSucceed(ctx, profile, faults, path)
  {
    if state: Stream, run: Stream :| SucceedsOn(ctx, profile, faults, path, state, run) {
      SampleFailsExactly(ctx, profile, faults, state, 0);
      SuccessNeedsChance(ctx, profile, faults, state, 0, path, run, 0);
    }
    if CanSucceed(ctx, profile, faults, path) {
      var state, run := ChanceSucceeds(ctx, profile, faults, path);
      assert SucceedsOn(ctx, profile, faults, path, state, run);
    }
  }
}
