/** The legacy sampler, which works on services directly, and its agreement with the bucket sampler. */
module Legacy {
  import opened Wrappers
  import opened Ids
  import opened Draws
  import opened Topology
  import opened Sampling

  type Liveness = map<Id, bool>

  /** Reading a missing replica count gives zero. */
  function ReplicasOf(replicas: map<Id, nat>, id: Id): nat {
    if id in replicas then replicas[id] else 0
  }

  // ----- what the legacy sampler computes, mode by mode

  function AllAlive(serviceIDs: seq<Id>): Liveness {
    map id | id in serviceIDs :: true
  }

  function DrawReplicas(profile: Profile, replicas: map<Id, nat>, start: Liveness, candidates: seq<Id>, stream: Stream,
      pos: nat)
    : (Liveness, nat)
  {
    if candidates == [] then (start, pos)
    else
      var n := |candidates| - 1;
      var id := candidates[n];
      var before := DrawReplicas(profile, replicas, start, candidates[..n], stream, pos);
      (before.0[id := AnyBelow(stream, before.1, ReplicasOf(replicas, id), ServiceLiveProbability(profile, id))],
       before.1 + ReplicasOf(replicas, id))
  }

  function DrawServices(profile: Profile, start: Liveness, candidates: seq<Id>, stream: Stream, pos: nat): (Liveness,
      nat) {
    if candidates == [] then (start, pos)
    else
      var n := |candidates| - 1;
      var before := DrawServices(profile, start, candidates[..n], stream, pos);
      (before.0[candidates[n] := stream.draw(before.1) < ServiceLiveProbability(profile, candidates[n])], before.1 + 1)
  }

  function SlotServices(replicas: map<Id, nat>, candidates: seq<Id>): seq<Id> {
    if candidates == [] then []
    else
      var n := |candidates| - 1;
      SlotServices(replicas, candidates[..n]) + seq(ReplicasOf(replicas, candidates[n]), _ => candidates[n])
  }

  function Without(start: Liveness, failed: set<Id>): Liveness {
    start + map id | id in failed :: false
  }

  /** The candidates that lost at least as many slots as they have replicas. */
  function Exhausted(replicas: map<Id, nat>, candidates: seq<Id>, failed: multiset<Id>): set<Id> {
    set id | id in candidates && failed[id] >= ReplicasOf(replicas, id)
  }

  ghost function Alive(profile: Profile, stream: Stream, pos: nat, serviceIDs: seq<Id>, candidates: seq<Id>,
      replicas: map<Id, nat>)
    : Result<(Liveness, nat)>
    requires profile.fixedKFailures >= 0
  {
    var k := profile.fixedKFailures;
    match profile.mode
    case IndependentReplica => Ok(DrawReplicas(profile, replicas, AllAlive(serviceIDs), candidates, stream, pos))
    case IndependentService => Ok(DrawServices(profile, AllAlive(serviceIDs), candidates, stream, pos))
    case FixedKServiceSet =>
      if k > |candidates| then Err("fixed_k_failures exceeds failure-eligible service count")
      else if k == 0 then Ok((AllAlive(serviceIDs), pos))
      else
        var hit := Hit(candidates, stream.perm(pos, |candidates|), k);
        Ok((Without(AllAlive(serviceIDs), set id | id in hit), stream.afterPerm(pos, |candidates|)))
    case FixedKReplicaSlots =>
      var slots := SlotServices(replicas, candidates);
      if k > |slots| then Err("fixed_k_failures exceeds replica slot count")
      else if k == 0 then Ok((AllAlive(serviceIDs), pos))
      else
        var hit := Hit(slots, stream.perm(pos, |slots|), k);
        Ok((Without(AllAlive(serviceIDs), Exhausted(replicas, candidates, multiset(hit))),
            stream.afterPerm(pos, |slots|)))
    case Unsupported => Err("unsupported sampling mode")
  }

  // ----- the engine's sampler

  method ReplicaSlotServiceIDs(candidates: seq<Id>, replicas: map<Id, nat>) returns (out: seq<Id>)
    ensures out == SlotServices(replicas, candidates)
  {
    out := [];
    for i := 0 to |candidates|
      invariant out == SlotServices(replicas, candidates[..i])
    {
      ghost var before := out;
      for replica := 0 to ReplicasOf(replicas, candidates[i])
        invariant out == before + seq(replica, _ => candidates[i])
      {
        out := out + [candidates[i]];
      }
      assert candidates[..i + 1][..i] == candidates[..i];
    }
    assert candidates[..|candidates|] == candidates;
  }

  method CountFailed(slots: seq<Id>, indices: seq<nat>, k: nat) returns (failedByService: map<Id, nat>)
    requires IsPermutation(indices, |slots|) && k <= |slots|
    ensures Tallies(failedByService, multiset(Hit(slots, indices, k)))
  {
    failedByService := map[];
    for i := 0 to k
      invariant Tallies(failedByService, multiset(Hit(slots, indices, i)))
    {
      var id := slots[indices[i]];
      assert Hit(slots, indices, i + 1) == Hit(slots, indices, i) + [id];
      failedByService := failedByService[id := Tally(failedByService, id) + 1];
    }
  }

  method SampleReplicas(profile: Profile, rng: Rng, start: Liveness, candidates: seq<Id>, replicas: map<Id, nat>)
    returns (alive: Liveness)
    modifies rng
    ensures (alive, rng.pos) == DrawReplicas(profile, replicas, start, candidates, rng.stream, old(rng.pos))
  {
    alive := start;
    for i := 0 to |candidates|
      invariant (alive, rng.pos) == DrawReplicas(profile, replicas, start, candidates[..i], rng.stream, old(rng.pos))
    {
      var live := false;
      var liveProbability := ServiceLiveProbability(profile, candidates[i]);
      ghost var from := rng.pos;
      for replica := 0 to ReplicasOf(replicas, candidates[i])
        invariant rng.pos == from + replica
        invariant live == AnyBelow(rng.stream, from, replica, liveProbability)
      {
        var x := rng.Float64();
        assert x == rng.stream.draw(from + replica);
        live := live || x < liveProbability;
      }
      alive := alive[candidates[i] := live];
      assert candidates[..i + 1][..i] == candidates[..i];
    }
    assert candidates[..|candidates|] == candidates;
  }

  method SampleServices(profile: Profile, rng: Rng, start: Liveness, candidates: seq<Id>) returns (alive: Liveness)
    modifies rng
    ensures (alive, rng.pos) == DrawServices(profile, start, candidates, rng.stream, old(rng.pos))
  {
    alive := start;
    for i := 0 to |candidates|
      invariant (alive, rng.pos) == DrawServices(profile, start, candidates[..i], rng.stream, old(rng.pos))
    {
      var x := rng.Float64();
      alive := alive[candidates[i] := x < ServiceLiveProbability(profile, candidates[i])];
      assert candidates[..i + 1][..i] == candidates[..i];
    }
    assert candidates[..|candidates|] == candidates;
  }

  lemma WithoutOneMore(start: Liveness, before: set<Id>, after: set<Id>, id: Id)
    requires after == before + {id}
    ensures Without(start, after) == Without(start, before)[id := false]
  {
  }

  method FailHit(start: Liveness, candidates: seq<Id>, indices: seq<nat>, k: nat) returns (alive: Liveness)
    requires IsPermutation(indices, |candidates|) && k <= |candidates|
    ensures alive == Without(start, set id | id in Hit(candidates, indices, k))
  {
    alive := start;
    for i := 0 to k
      invariant alive == Without(start, set id | id in Hit(candidates, indices, i))
    {
      var id := candidates[indices[i]];
      assert Hit(candidates, indices, i + 1) == Hit(candidates, indices, i) + [id];
      ghost var before, after := Hit(candidates, indices, i), Hit(candidates, indices, i + 1);
      WithoutOneMore(start, (set x | x in before), (set x | x in after), id);
      alive := alive[id := false];
    }
  }

  method FailExhausted(start: Liveness, candidates: seq<Id>, replicas: map<Id, nat>, failedByService: map<Id, nat>,
      ghost failed: multiset<Id>)
    returns (alive: Liveness)
    requires Tallies(failedByService, failed)
    ensures alive == Without(start, Exhausted(replicas, candidates, failed))
  {
    alive := start;
    for i := 0 to |candidates|
      invariant alive == Without(start, Exhausted(replicas, candidates[..i], failed))
    {
      assert candidates[..i + 1] == candidates[..i] + [candidates[i]];
      ghost var before, after := Exhausted(replicas, candidates[..i], failed),
          Exhausted(replicas, candidates[..i + 1], failed);
      if Tally(failedByService, candidates[i]) >= ReplicasOf(replicas, candidates[i]) {
        WithoutOneMore(start, before, after, candidates[i]);
        alive := alive[candidates[i] := false];
      } else {
        assert before == after;
      }
    }
    assert candidates[..|candidates|] == candidates;
  }

  method SampleAlive(profile: Profile, rng: Rng, serviceIDs: seq<Id>, candidates: seq<Id>, replicas: map<Id, nat>)
    returns (r: Result<Liveness>)
    requires profile.fixedKFailures >= 0
    modifies rng
    ensures var legacy := Alive(profile, rng.stream, old(rng.pos), serviceIDs, candidates, replicas);
      if r.Err? then legacy == Err(r.error) else legacy == Ok((r.value, rng.pos))
  {
    var alive := AllAlive(serviceIDs);
    var k := profile.fixedKFailures;
    match profile.mode {
      case IndependentReplica =>
        alive := SampleReplicas(profile, rng, alive, candidates, replicas);
      case IndependentService =>
        alive := SampleServices(profile, rng, alive, candidates);
      case FixedKServiceSet =>
        if k > |candidates| {
          return Err("fixed_k_failures exceeds failure-eligible service count");
        }
        if k == 0 {
          return Ok(alive);
        }
        var indices := rng.Perm(|candidates|);
        alive := FailHit(alive, candidates, indices, k);
      case FixedKReplicaSlots =>
        var slots := ReplicaSlotServiceIDs(candidates, replicas);
        if k > |slots| {
          return Err("fixed_k_failures exceeds replica slot count");
        }
        if k == 0 {
          return Ok(alive);
        }
        var indices := rng.Perm(|slots|);
        var failedByService := CountFailed(slots, indices, k);
        alive := FailExhausted(alive, candidates, replicas, failedByService, multiset(Hit(slots, indices, k)));
      case Unsupported =>
        return Err("unsupported sampling mode");
    }
    return Ok(alive);
  }

  // ----- agreement with the bucket sampler

  /** A context built without snapshot records: every service has one bucket holding all its replicas. */
  ghost predicate OneBucket(ctx: Context) {
    ctx.Valid() && forall id | id in ctx.services :: |ctx.services[id].replicas| == 1
  }

  function ReplicaCounts(ctx: Context): map<Id, nat> {
    map id | id in ctx.services && |ctx.services[id].replicas| == 1 :: ctx.services[id].replicas[0]
  }

  /** Service `i`: its one bucket, and how it differs from the earlier ones. */
  ghost predicate SingleAt(ctx: Context, i: nat)
    requires i < |ctx.serviceIDs|
  {
    var id := ctx.serviceIDs[i];
    var svc := ctx.ServiceOf(id);
    && svc.id == id && |svc.replicas| == 1 && svc.replicas[0] > 0
    && ReplicasOf(ReplicaCounts(ctx), id) == svc.replicas[0]
    && forall j | 0 <= j < i :: ctx.serviceIDs[j] != id
  }

  ghost predicate Singles(ctx: Context, n: nat)
    requires n <= |ctx.serviceIDs|
  {
    forall i | 0 <= i < n :: SingleAt(ctx, i)
  }

  lemma OneBucketSingles(ctx: Context)
    requires OneBucket(ctx)
    ensures Singles(ctx, |ctx.serviceIDs|)
  {
    forall i | 0 <= i < |ctx.serviceIDs|
      ensures SingleAt(ctx, i)
    {
      assert ctx.serviceIDs[i] in ctx.services;
    }
  }

  /** The bucket states and the service states say the same of the first `n` services. */
  ghost predicate Agree(ctx: Context, buckets: map<BucketId, bool>, alive: Liveness, n: nat)
    requires n <= |ctx.serviceIDs|
  {
    forall i | 0 <= i < n :: Up(buckets, BucketId(ctx.serviceIDs[i], 0)) == Up(alive, ctx.serviceIDs[i])
  }

  /** Deciding the last service's bucket and the service itself alike keeps agreement. */
  lemma AgreeStep(ctx: Context, buckets: map<BucketId, bool>, before: Liveness, after: Liveness, n: nat, up: bool)
    requires 0 < n <= |ctx.serviceIDs| && SingleAt(ctx, n - 1) && Agree(ctx, buckets, before, n - 1)
    requires Up(after, ctx.serviceIDs[n - 1]) == up
    requires forall i | 0 <= i < n - 1 :: Up(after, ctx.serviceIDs[i]) == Up(before, ctx.serviceIDs[i])
    ensures Agree(ctx, buckets + map[BucketId(ctx.serviceIDs[n - 1], 0) := up], after, n)
  {
  }

  lemma UpWithout(serviceIDs: seq<Id>, failed: set<Id>, i: nat)
    requires i < |serviceIDs|
    ensures Up(Without(AllAlive(serviceIDs), failed), serviceIDs[i]) == (serviceIDs[i] !in failed)
    ensures Up(AllAlive(serviceIDs), serviceIDs[i])
  {
  }

  lemma OneDraw(svc: Service, p: real, stream: Stream, pos: nat)
    requires |svc.replicas| == 1
    ensures ReplicaDraws(svc, p, stream, 1, pos)
         == (map[svc.Bucket(0) := AnyBelow(stream, pos, svc.replicas[0], p)], pos + svc.replicas[0])
  {
    assert ReplicaDraws(svc, p, stream, 0, pos) == (map[], pos);
  }

  lemma OneUniform(svc: Service, alive: bool)
    requires |svc.replicas| == 1
    ensures BucketsOf(svc, alive) == map[svc.Bucket(0) := alive]
  {
    assert UniformBuckets(svc, 0, alive) == map[];
  }

  lemma CandidatesStep(ctx: Context, n: nat)
    requires 0 < n <= |ctx.serviceIDs|
    ensures var id := ctx.serviceIDs[n - 1];
      var all := Candidates(ctx, n);
      if ctx.ServiceOf(id).samplingEligible then
        all != [] && all[|all| - 1] == id && all[..|all| - 1] == Candidates(ctx, n - 1)
      else all == Candidates(ctx, n - 1)
  {
  }

  /** Where a service is not a candidate of the first ones, the draws leave it as it was. */
  lemma {:induction false} DrawsLeaveOthers(profile: Profile, replicas: map<Id, nat>, start: Liveness,
      candidates: seq<Id>, stream: Stream, pos: nat, id: Id)
    requires id !in candidates
    ensures Up(DrawReplicas(profile, replicas, start, candidates, stream, pos).0, id) == Up(start, id)
    ensures Up(DrawServices(profile, start, candidates, stream, pos).0, id) == Up(start, id)
  {
    if candidates != [] {
      DrawsLeaveOthers(profile, replicas, start, candidates[..|candidates| - 1], stream, pos, id);
    }
  }

  lemma {:induction false} CandidatesAmong(ctx: Context, n: nat, id: Id)
    requires n <= |ctx.serviceIDs| && id in Candidates(ctx, n)
    ensures id in ctx.serviceIDs[..n]
  {
    if id in Candidates(ctx, n - 1) {
      CandidatesAmong(ctx, n - 1, id);
    }
  }

  lemma NotYetCandidate(ctx: Context, n: nat)
    requires 0 < n <= |ctx.serviceIDs| && SingleAt(ctx, n - 1)
    ensures ctx.serviceIDs[n - 1] !in Candidates(ctx, n - 1)
  {
    if ctx.serviceIDs[n - 1] in Candidates(ctx, n - 1) {
      CandidatesAmong(ctx, n - 1, ctx.serviceIDs[n - 1]);
    }
  }

  /** What the legacy sampler holds after the first `n` services. */
  function LegacyDraws(ctx: Context, profile: Profile, stream: Stream, n: nat, pos: nat): (Liveness, nat)
    requires n <= |ctx.serviceIDs|
  {
    DrawReplicas(profile, ReplicaCounts(ctx), AllAlive(ctx.serviceIDs), Candidates(ctx, n), stream, pos)
  }

  /** How one more service changes what the legacy sampler holds, and what the bucket sampler holds. */
  predicate LegacyStep(svc: Service, up: bool, before: (Liveness, nat), after: (Liveness, nat))
    requires |svc.replicas| == 1
  {
    if svc.samplingEligible then after.0 == before.0[svc.id := up] && after.1 == before.1 + svc.replicas[0]
    else after == before && Up(after.0, svc.id)
  }

  predicate BucketStep(svc: Service, up: bool, before: (map<BucketId, bool>, nat), after: (map<BucketId, bool>, nat))
    requires |svc.replicas| == 1
  {
    if svc.samplingEligible then after.0 == before.0 + map[BucketId(svc.id, 0) := up]
        && after.1 == before.1 + svc.replicas[0]
    else after.0 == before.0 + map[BucketId(svc.id, 0) := true] && after.1 == before.1
  }

  lemma LegacyDrawsStep(ctx: Context, profile: Profile, stream: Stream, n: nat, pos: nat)
    requires 0 < n <= |ctx.serviceIDs| && SingleAt(ctx, n - 1)
    ensures var svc := ctx.ServiceOf(ctx.serviceIDs[n - 1]);
      var before := LegacyDraws(ctx, profile, stream, n - 1, pos);
      LegacyStep(svc, AnyBelow(stream, before.1, svc.replicas[0], ServiceLiveProbability(profile, svc.id)),
        before, LegacyDraws(ctx, profile, stream, n, pos))
  {
    CandidatesStep(ctx, n);
    var id := ctx.serviceIDs[n - 1];
    if !ctx.ServiceOf(id).samplingEligible {
      NotYetCandidate(ctx, n);
      DrawsLeaveOthers(profile, ReplicaCounts(ctx), AllAlive(ctx.serviceIDs), Candidates(ctx, n - 1), stream, pos, id);
      UpWithout(ctx.serviceIDs, {}, n - 1);
    }
  }

  lemma BucketDrawsStep(ctx: Context, profile: Profile, stream: Stream, n: nat, pos: nat)
    requires 0 < n <= |ctx.serviceIDs| && SingleAt(ctx, n - 1)
    ensures var svc := ctx.ServiceOf(ctx.serviceIDs[n - 1]);
      var before := ReplicaBuckets(ctx, profile, stream, n - 1, pos);
      BucketStep(svc, AnyBelow(stream, before.1, svc.replicas[0], ServiceLiveProbability(profile, svc.id)),
        before, ReplicaBuckets(ctx, profile, stream, n, pos))
  {
    var svc := ctx.ServiceOf(ctx.serviceIDs[n - 1]);
    OneUniform(svc, true);
    OneDraw(svc, ServiceLiveProbability(profile, svc.id), stream, ReplicaBuckets(ctx, profile, stream, n - 1, pos).1);
  }

  lemma StepsKeepAgreement(ctx: Context, n: nat, up: bool, legacy: (Liveness, nat), legacyNext: (Liveness, nat),
      sampled: (map<BucketId, bool>, nat), sampledNext: (map<BucketId, bool>, nat))
    requires 0 < n <= |ctx.serviceIDs| && SingleAt(ctx, n - 1) && Agree(ctx, sampled.0, legacy.0, n - 1)
        && legacy.1 == sampled.1
    requires LegacyStep(ctx.ServiceOf(ctx.serviceIDs[n - 1]), up, legacy, legacyNext)
    requires BucketStep(ctx.ServiceOf(ctx.serviceIDs[n - 1]), up, sampled, sampledNext)
    ensures Agree(ctx, sampledNext.0, legacyNext.0, n) && legacyNext.1 == sampledNext.1
  {
    AgreeStep(ctx, sampled.0, legacy.0, legacyNext.0, n, Up(legacyNext.0, ctx.serviceIDs[n - 1]));
  }

  /** Both samplers, each drawing replicas for the first `n` services, agree on liveness and on the position reached. */
  ghost predicate ReplicasAgreeAt(ctx: Context, profile: Profile, stream: Stream, n: nat, pos: nat)
    requires n <= |ctx.serviceIDs|
  {
    && Agree(ctx, ReplicaBuckets(ctx, profile, stream, n, pos).0, LegacyDraws(ctx, profile, stream, n, pos).0, n)
    && LegacyDraws(ctx, profile, stream, n, pos).1 == ReplicaBuckets(ctx, profile, stream, n, pos).1
  }

  lemma ReplicasStepAgrees(ctx: Context, profile: Profile, stream: Stream, n: nat, pos: nat)
    requires 0 < n <= |ctx.serviceIDs| && SingleAt(ctx, n - 1) && ReplicasAgreeAt(ctx, profile, stream, n - 1, pos)
    ensures ReplicasAgreeAt(ctx, profile, stream, n, pos)
  {
    LegacyDrawsStep(ctx, profile, stream, n, pos);
    BucketDrawsStep(ctx, profile, stream, n, pos);
    var legacy, sampled := LegacyDraws(ctx, profile, stream, n - 1, pos),
        ReplicaBuckets(ctx, profile, stream, n - 1, pos);
    var svc := ctx.ServiceOf(ctx.serviceIDs[n - 1]);
    StepsKeepAgreement(ctx, n, AnyBelow(stream, legacy.1, svc.replicas[0], ServiceLiveProbability(profile, svc.id)),
      legacy, LegacyDraws(ctx, profile, stream, n, pos), sampled, ReplicaBuckets(ctx, profile, stream, n, pos));
  }

  lemma {:induction false} ReplicasAgree(ctx: Context, profile: Profile, stream: Stream, n: nat, pos: nat)
    requires n <= |ctx.serviceIDs| && Singles(ctx, n)
    ensures ReplicasAgreeAt(ctx, profile, stream, n, pos)
  {
    if n > 0 {
      ReplicasAgree(ctx, profile, stream, n - 1, pos);
      assert SingleAt(ctx, n - 1);
      ReplicasStepAgrees(ctx, profile, stream, n, pos);
    }
  }

  function LegacyServiceDraws(ctx: Context, profile: Profile, stream: Stream, n: nat, pos: nat): (Liveness, nat)
    requires n <= |ctx.serviceIDs|
  {
    DrawServices(profile, AllAlive(ctx.serviceIDs), Candidates(ctx, n), stream, pos)
  }

  ghost predicate ServicesAgreeAt(ctx: Context, profile: Profile, stream: Stream, n: nat, pos: nat)
    requires n <= |ctx.serviceIDs|
  {
    && Agree(ctx, ServiceBuckets(ctx, profile, stream, n, pos).0, LegacyServiceDraws(ctx, profile, stream, n, pos).0, n)
    && LegacyServiceDraws(ctx, profile, stream, n, pos).1 == ServiceBuckets(ctx, profile, stream, n, pos).1
  }

  lemma EligibleServiceStep(ctx: Context, profile: Profile, stream: Stream, n: nat, pos: nat)
    requires 0 < n <= |ctx.serviceIDs| && SingleAt(ctx, n - 1) && ServicesAgreeAt(ctx, profile, stream, n - 1, pos)
    requires ctx.ServiceOf(ctx.serviceIDs[n - 1]).samplingEligible
    ensures ServicesAgreeAt(ctx, profile, stream, n, pos)
  {
    var id := ctx.serviceIDs[n - 1];
    var sampled := ServiceBuckets(ctx, profile, stream, n - 1, pos);
    var legacy := LegacyServiceDraws(ctx, profile, stream, n - 1, pos);
    var up := stream.draw(sampled.1) < ServiceLiveProbability(profile, id);
    CandidatesStep(ctx, n);
    OneUniform(ctx.ServiceOf(id), up);
    AgreeStep(ctx, sampled.0, legacy.0, legacy.0[id := up], n, up);
  }

  lemma IneligibleServiceStep(ctx: Context, profile: Profile, stream: Stream, n: nat, pos: nat)
    requires 0 < n <= |ctx.serviceIDs| && SingleAt(ctx, n - 1) && ServicesAgreeAt(ctx, profile, stream, n - 1, pos)
    requires !ctx.ServiceOf(ctx.serviceIDs[n - 1]).samplingEligible
    ensures ServicesAgreeAt(ctx, profile, stream, n, pos)
  {
    var id := ctx.serviceIDs[n - 1];
    var sampled := ServiceBuckets(ctx, profile, stream, n - 1, pos);
    var legacy := LegacyServiceDraws(ctx, profile, stream, n - 1, pos);
    CandidatesStep(ctx, n);
    OneUniform(ctx.ServiceOf(id), true);
    NotYetCandidate(ctx, n);
    DrawsLeaveOthers(profile, map[], AllAlive(ctx.serviceIDs), Candidates(ctx, n - 1), stream, pos, id);
    UpWithout(ctx.serviceIDs, {}, n - 1);
    AgreeStep(ctx, sampled.0, legacy.0, legacy.0, n, true);
  }

  lemma {:induction false} ServicesAgree(ctx: Context, profile: Profile, stream: Stream, n: nat, pos: nat)
    requires n <= |ctx.serviceIDs| && Singles(ctx, n)
    ensures ServicesAgreeAt(ctx, profile, stream, n, pos)
  {
    if n > 0 {
      ServicesAgree(ctx, profile, stream, n - 1, pos);
      assert SingleAt(ctx, n - 1);
      if ctx.ServiceOf(ctx.serviceIDs[n - 1]).samplingEligible {
        EligibleServiceStep(ctx, profile, stream, n, pos);
      } else {
        IneligibleServiceStep(ctx, profile, stream, n, pos);
      }
    }
  }

  lemma {:induction false} FailedServicesAgree(ctx: Context, failed: seq<Id>, n: nat, alive: Liveness)
    requires n <= |ctx.serviceIDs| && Singles(ctx, n)
    requires forall i | 0 <= i < n :: Up(alive, ctx.serviceIDs[i]) == (ctx.serviceIDs[i] !in failed)
    ensures Agree(ctx, SurvivingServices(ctx, failed, n), alive, n)
  {
    if n > 0 {
      FailedServicesAgree(ctx, failed, n - 1, alive);
      assert SingleAt(ctx, n - 1);
      var up := ctx.serviceIDs[n - 1] !in failed;
      OneUniform(ctx.ServiceOf(ctx.serviceIDs[n - 1]), up);
      AgreeStep(ctx, SurvivingServices(ctx, failed, n - 1), alive, alive, n, up);
    }
  }

  // ----- slots: the two lists name the same slots in the same order

  function BucketIDs(ids: seq<Id>): seq<BucketId> {
    seq(|ids|, i requires 0 <= i < |ids| => BucketId(ids[i], 0))
  }

  lemma BucketIDsConcat(a: seq<Id>, b: seq<Id>)
    ensures BucketIDs(a + b) == BucketIDs(a) + BucketIDs(b)
  {
  }

  /** The slots service `i` adds to the legacy list. */
  function IDsAdded(ctx: Context, i: nat): seq<Id>
    requires i < |ctx.serviceIDs| && SingleAt(ctx, i)
  {
    var svc := ctx.ServiceOf(ctx.serviceIDs[i]);
    if svc.samplingEligible then seq(svc.replicas[0], _ => svc.id) else []
  }

  lemma AddedAgree(ctx: Context, i: nat)
    requires i < |ctx.serviceIDs| && SingleAt(ctx, i)
    ensures SlotsAdded(ctx, i) == BucketIDs(IDsAdded(ctx, i))
  {
    var svc := ctx.ServiceOf(ctx.serviceIDs[i]);
    assert SlotsOfService(svc, 0) == [];
    assert SlotsOfService(svc, 1) == seq(svc.replicas[0], _ => svc.Bucket(0));
  }

  function LegacySlots(ctx: Context, n: nat): seq<Id>
    requires n <= |ctx.serviceIDs|
  {
    SlotServices(ReplicaCounts(ctx), Candidates(ctx, n))
  }

  lemma LegacySlotsStep(ctx: Context, n: nat)
    requires 0 < n <= |ctx.serviceIDs| && SingleAt(ctx, n - 1)
    ensures LegacySlots(ctx, n) == LegacySlots(ctx, n - 1) + IDsAdded(ctx, n - 1)
  {
    CandidatesStep(ctx, n);
  }

  lemma SlotsStepAgrees(ctx: Context, n: nat)
    requires 0 < n <= |ctx.serviceIDs| && SingleAt(ctx, n - 1)
        && Slots(ctx, n - 1) == BucketIDs(LegacySlots(ctx, n - 1))
    ensures Slots(ctx, n) == BucketIDs(LegacySlots(ctx, n))
  {
    LegacySlotsStep(ctx, n);
    AddedAgree(ctx, n - 1);
    BucketIDsConcat(LegacySlots(ctx, n - 1), IDsAdded(ctx, n - 1));
  }

  lemma {:induction false} SlotsAgree(ctx: Context, n: nat)
    requires n <= |ctx.serviceIDs| && Singles(ctx, n)
    ensures Slots(ctx, n) == BucketIDs(LegacySlots(ctx, n))
  {
    if n > 0 {
      SlotsAgree(ctx, n - 1);
      assert SingleAt(ctx, n - 1);
      SlotsStepAgrees(ctx, n);
    } else {
      assert Slots(ctx, 0) == [] && LegacySlots(ctx, 0) == [];
    }
  }

  lemma {:induction false} SameCounts(ids: seq<Id>, id: Id)
    ensures multiset(BucketIDs(ids))[BucketId(id, 0)] == multiset(ids)[id]
  {
    if ids != [] {
      var n := |ids| - 1;
      SameCounts(ids[..n], id);
      assert ids == ids[..n] + [ids[n]];
      assert BucketIDs(ids) == BucketIDs(ids[..n]) + [BucketId(ids[n], 0)];
    }
  }

  lemma {:induction false} SurvivorsAgree(ctx: Context, failed: multiset<BucketId>, n: nat, alive: Liveness)
    requires n <= |ctx.serviceIDs| && Singles(ctx, n)
    requires forall i | 0 <= i < n ::
               var id := ctx.serviceIDs[i];
               Up(alive, id) == (failed[BucketId(id, 0)] < ReplicasOf(ReplicaCounts(ctx), id))
    ensures Agree(ctx, SurvivingSlots(ctx, failed, n), alive, n)
  {
    if n > 0 {
      SurvivorsAgree(ctx, failed, n - 1, alive);
      assert SingleAt(ctx, n - 1);
      var svc := ctx.ServiceOf(ctx.serviceIDs[n - 1]);
      var up := failed[svc.Bucket(0)] < svc.replicas[0];
      assert SurvivingBuckets(svc, 0, failed) == map[];
      assert SurvivingBuckets(svc, 1, failed) == map[svc.Bucket(0) := up];
      AgreeStep(ctx, SurvivingSlots(ctx, failed, n - 1), alive, alive, n, up);
    }
  }

  lemma {:induction false} SlotsAreCandidates(replicas: map<Id, nat>, candidates: seq<Id>, id: Id)
    requires id in SlotServices(replicas, candidates)
    ensures id in candidates
  {
    var n := |candidates| - 1;
    if id in SlotServices(replicas, candidates[..n]) {
      SlotsAreCandidates(replicas, candidates[..n], id);
    }
  }

  /** Failing the hit slots of services that are candidates leaves the same services up on both sides. */
  lemma HitSlotsAgree(ctx: Context, hit: seq<Id>)
    requires Singles(ctx, |ctx.serviceIDs|)
    requires forall i | 0 <= i < |hit| :: hit[i] in Candidates(ctx, |ctx.serviceIDs|)
    ensures var n := |ctx.serviceIDs|;
      Agree(ctx, SurvivingSlots(ctx, multiset(BucketIDs(hit)), n),
        Without(AllAlive(ctx.serviceIDs), Exhausted(ReplicaCounts(ctx), Candidates(ctx, n), multiset(hit))), n)
  {
    var n := |ctx.serviceIDs|;
    var exhausted := Exhausted(ReplicaCounts(ctx), Candidates(ctx, n), multiset(hit));
    var alive := Without(AllAlive(ctx.serviceIDs), exhausted);
    forall i | 0 <= i < n
      ensures var id := ctx.serviceIDs[i];
        Up(alive, id) == (multiset(BucketIDs(hit))[BucketId(id, 0)] < ReplicasOf(ReplicaCounts(ctx), id))
    {
      var id := ctx.serviceIDs[i];
      SameCounts(hit, id);
      UpWithout(ctx.serviceIDs, exhausted, i);
      assert SingleAt(ctx, i);
      if multiset(hit)[id] > 0 {
        assert id in multiset(hit) && id in hit;
      }
    }
    SurvivorsAgree(ctx, multiset(BucketIDs(hit)), n, alive);
  }

  lemma SlotStageAgrees(ctx: Context, indices: seq<nat>, k: nat)
    requires Singles(ctx, |ctx.serviceIDs|)
    requires var slots := SlotServices(ReplicaCounts(ctx), Candidates(ctx, |ctx.serviceIDs|));
      IsPermutation(indices, |slots|) && k <= |slots|
    ensures var n := |ctx.serviceIDs|;
      var candidates := Candidates(ctx, n);
      var slots := SlotServices(ReplicaCounts(ctx), candidates);
      && |Slots(ctx, n)| == |slots|
      && Agree(ctx, SurvivingSlots(ctx, multiset(Hit(Slots(ctx, n), indices, k)), n),
           Without(AllAlive(ctx.serviceIDs), Exhausted(ReplicaCounts(ctx), candidates,
           multiset(Hit(slots, indices, k)))), n)
  {
    var n := |ctx.serviceIDs|;
    var slots := SlotServices(ReplicaCounts(ctx), Candidates(ctx, n));
    var hit := Hit(slots, indices, k);
    SlotsAgree(ctx, n);
    assert Hit(Slots(ctx, n), indices, k) == BucketIDs(hit);
    forall i | 0 <= i < |hit|
      ensures hit[i] in Candidates(ctx, n)
    {
      SlotsAreCandidates(ReplicaCounts(ctx), Candidates(ctx, n), slots[indices[i]]);
    }
    HitSlotsAgree(ctx, hit);
  }

  lemma NothingFailed(ctx: Context)
    requires Singles(ctx, |ctx.serviceIDs|)
    ensures var n := |ctx.serviceIDs|;
      && Agree(ctx, SurvivingServices(ctx, [], n), AllAlive(ctx.serviceIDs), n)
      && Agree(ctx, SurvivingSlots(ctx, multiset{}, n), AllAlive(ctx.serviceIDs), n)
  {
    var n, alive := |ctx.serviceIDs|, AllAlive(ctx.serviceIDs);
    forall i | 0 <= i < n
      ensures Up(alive, ctx.serviceIDs[i]) && ReplicasOf(ReplicaCounts(ctx), ctx.serviceIDs[i]) > 0
    {
      UpWithout(ctx.serviceIDs, {}, i);
      assert SingleAt(ctx, i);
    }
    FailedServicesAgree(ctx, [], n, alive);
    SurvivorsAgree(ctx, multiset{}, n, alive);
  }

  lemma ServiceStageAgrees(ctx: Context, hit: seq<Id>)
    requires Singles(ctx, |ctx.serviceIDs|)
    ensures var n := |ctx.serviceIDs|;
      Agree(ctx, SurvivingServices(ctx, hit, n), Without(AllAlive(ctx.serviceIDs), set id | id in hit), n)
  {
    var failed := set id | id in hit;
    forall i | 0 <= i < |ctx.serviceIDs|
      ensures Up(Without(AllAlive(ctx.serviceIDs), failed), ctx.serviceIDs[i]) == (ctx.serviceIDs[i] !in hit)
    {
      UpWithout(ctx.serviceIDs, failed, i);
    }
    FailedServicesAgree(ctx, hit, |ctx.serviceIDs|, Without(AllAlive(ctx.serviceIDs), failed));
  }

  lemma StagesAgree(ctx: Context, profile: Profile, stream: Stream, pos: nat)
    requires Singles(ctx, |ctx.serviceIDs|) && profile.fixedKFailures >= 0
    ensures var n := |ctx.serviceIDs|;
      var stage := BucketStage(ctx, profile, stream, pos);
      var legacy := Alive(profile, stream, pos, ctx.serviceIDs, Candidates(ctx, n), ReplicaCounts(ctx));
      && (legacy.Ok? <==> stage.Ok?)
      && (legacy.Ok? ==> Agree(ctx, stage.value.0, legacy.value.0, n) && legacy.value.1 == stage.value.1)
  {
    var n, k := |ctx.serviceIDs|, profile.fixedKFailures;
    match profile.mode {
      case IndependentReplica => ReplicasAgree(ctx, profile, stream, n, pos);
      case IndependentService => ServicesAgree(ctx, profile, stream, n, pos);
      case FixedKServiceSet =>
        var population := Candidates(ctx, n);
        NothingFailed(ctx);
        if 0 < k <= |population| {
          ServiceStageAgrees(ctx, Hit(population, stream.perm(pos, |population|), k));
        }
      case FixedKReplicaSlots =>
        SlotsAgree(ctx, n);
        NothingFailed(ctx);
        var slots := SlotServices(ReplicaCounts(ctx), Candidates(ctx, n));
        if 0 < k <= |slots| {
          SlotStageAgrees(ctx, stream.perm(pos, |slots|), k);
        }
      case Unsupported =>
    }
  }

  /**
   On one tape and in every sampling mode, the legacy sampler and the bucket sampler fail together and otherwise find
   the same services up, provided every service has one bucket and none is killed by a fault.
   */
  lemma LegacyAgrees(ctx: Context, profile: Profile, faults: Faults, stream: Stream, pos: nat)
    requires OneBucket(ctx) && profile.fixedKFailures >= 0 && faults.hardBucketKill == {}
    ensures var sample := Sample(ctx, profile, faults, stream, pos);
      var legacy := Alive(profile, stream, pos, ctx.serviceIDs, Candidates(ctx, |ctx.serviceIDs|), ReplicaCounts(ctx));
      && (legacy.Ok? <==> sample.Ok?)
      && (legacy.Ok? ==> forall id | id in ctx.services ::
          Up(sample.value.0.serviceAlive, id) == Up(legacy.value.0, id))
  {
    OneBucketSingles(ctx);
    StagesAgree(ctx, profile, stream, pos);
    var stage := BucketStage(ctx, profile, stream, pos);
    if stage.Ok? {
      var buckets := AfterKills(stage.value.0, faults);
      assert buckets == stage.value.0;
      forall i | 0 <= i < |ctx.serviceIDs|
        ensures ServiceUp(ctx, buckets, ctx.serviceIDs[i]) == Up(buckets, BucketId(ctx.serviceIDs[i], 0))
      {
        OneBucketUp(ctx, buckets, i);
      }
    }
  }

  lemma OneBucketUp(ctx: Context, buckets: map<BucketId, bool>, i: nat)
    requires i < |ctx.serviceIDs| && SingleAt(ctx, i)
    ensures ServiceUp(ctx, buckets, ctx.serviceIDs[i]) == Up(buckets, BucketId(ctx.serviceIDs[i], 0))
  {
    var svc := ctx.ServiceOf(ctx.serviceIDs[i]);
    if Up(buckets, svc.Bucket(0)) {
      assert exists b: nat | b < |svc.replicas| :: Up(buckets, svc.Bucket(b));
    }
  }
}
