/** Sampling one trial's world: which buckets, services and edges are up, in the four sampling modes. */
module Sampling {
  import opened Wrappers
  import opened Ids
  import opened Draws
  import opened Topology

  datatype SamplingMode = IndependentReplica | IndependentService | FixedKServiceSet | FixedKReplicaSlots | Unsupported

  /** The parameters of a profile; nodeLive, edgeLive, serviceLive and edgeLives are its reliability block. */
  datatype Profile = Profile(
    name: string,
    trials: int,
    seed: int,
    mode: SamplingMode,
    failureProbability: real,
    fixedKFailures: int,
    nodeLive: Option<real>,
    edgeLive: Option<real>,
    serviceLive: map<Id, real>,
    edgeLives: map<Id, real>,
    coupledTrials: bool)

  function ServiceLiveProbability(profile: Profile, id: Id): real {
    if id in profile.serviceLive then profile.serviceLive[id]
    else if profile.nodeLive.Some? then profile.nodeLive.value
    else 1.0 - profile.failureProbability
  }

  function EdgeLiveProbability(profile: Profile, id: Id): real {
    if id in profile.edgeLives then profile.edgeLives[id]
    else if profile.edgeLive.Some? then profile.edgeLive.value
    else 1.0
  }

  // ----- failure populations

  /** Services that baseline sampling may fail, in ID order. */
  function Candidates(ctx: Context, n: nat): seq<Id>
    requires n <= |ctx.serviceIDs|
  {
    if n == 0 then []
    else
      var id := ctx.serviceIDs[n - 1];
      Candidates(ctx, n - 1) + if ctx.ServiceOf(id).samplingEligible then [id] else []
  }

  /** One entry per replica slot of the first `m` buckets. */
  function SlotsOfService(svc: Service, m: nat): seq<BucketId>
    requires m <= |svc.replicas|
  {
    if m == 0 then [] else SlotsOfService(svc, m - 1) + seq(svc.replicas[m - 1], _ => svc.Bucket(m - 1))
  }

  /** What service `i` adds to the slot population. */
  function SlotsAdded(ctx: Context, i: nat): seq<BucketId>
    requires i < |ctx.serviceIDs|
  {
    var svc := ctx.ServiceOf(ctx.serviceIDs[i]);
    if svc.samplingEligible then SlotsOfService(svc, |svc.replicas|) else []
  }

  /** One entry per replica slot of the eligible services, naming the slot's bucket. */
  function Slots(ctx: Context, n: nat): seq<BucketId>
    requires n <= |ctx.serviceIDs|
  {
    if n == 0 then [] else Slots(ctx, n - 1) + SlotsAdded(ctx, n - 1)
  }

  /** The populations hit by the first `k` entries of a permutation of them. */
  function Hit<T>(population: seq<T>, indices: seq<nat>, k: nat): seq<T>
    requires IsPermutation(indices, |population|) && k <= |population|
  {
    seq(k, i requires 0 <= i < k => population[indices[i]])
  }

  /** Reading a count map: missing keys count zero. */
  function Tally<K>(counts: map<K, nat>, key: K): nat {
    if key in counts then counts[key] else 0
  }

  ghost predicate Tallies<K(!new)>(counts: map<K, nat>, items: multiset<K>) {
    forall key :: items[key] == Tally(counts, key)
  }

  // ----- bucket liveness, mode by mode

  /** The first `m` buckets of a service, all with the same liveness. */
  function UniformBuckets(svc: Service, m: nat, alive: bool): map<BucketId, bool> {
    if m == 0 then map[] else UniformBuckets(svc, m - 1, alive)[svc.Bucket(m - 1) := alive]
  }

  function BucketsOf(svc: Service, alive: bool): map<BucketId, bool> {
    UniformBuckets(svc, |svc.replicas|, alive)
  }

  predicate AnyBelow(stream: Stream, pos: nat, count: nat, bound: real) {
    exists q: nat | pos <= q < pos + count :: stream.draw(q) < bound
  }

  /** The first `m` buckets of a service: a bucket is up when one of its replicas draws below the live probability. */
  function ReplicaDraws(svc: Service, p: real, stream: Stream, m: nat, pos: nat): (map<BucketId, bool>, nat)
    requires m <= |svc.replicas|
  {
    if m == 0 then (map[], pos)
    else
      var before := ReplicaDraws(svc, p, stream, m - 1, pos);
      (before.0[svc.Bucket(m - 1) := AnyBelow(stream, before.1, svc.replicas[m - 1], p)],
       before.1 + svc.replicas[m - 1])
  }

  function ReplicaBuckets(ctx: Context, profile: Profile, stream: Stream, n: nat, pos: nat): (map<BucketId, bool>, nat)
    requires n <= |ctx.serviceIDs|
  {
    if n == 0 then (map[], pos)
    else
      var before := ReplicaBuckets(ctx, profile, stream, n - 1, pos);
      var id := ctx.serviceIDs[n - 1];
      var svc := ctx.ServiceOf(id);
      if !svc.samplingEligible then (before.0 + BucketsOf(svc, true), before.1)
      else
        var drawn := ReplicaDraws(svc, ServiceLiveProbability(profile, id), stream, |svc.replicas|, before.1);
        (before.0 + drawn.0, drawn.1)
  }

  function ServiceBuckets(ctx: Context, profile: Profile, stream: Stream, n: nat, pos: nat): (map<BucketId, bool>, nat)
    requires n <= |ctx.serviceIDs|
  {
    if n == 0 then (map[], pos)
    else
      var before := ServiceBuckets(ctx, profile, stream, n - 1, pos);
      var id := ctx.serviceIDs[n - 1];
      var svc := ctx.ServiceOf(id);
      if !svc.samplingEligible then (before.0 + BucketsOf(svc, true), before.1)
      else (before.0 + BucketsOf(svc, stream.draw(before.1) < ServiceLiveProbability(profile, id)), before.1 + 1)
  }

  /** Buckets of the first `n` services, down exactly for the failed services. */
  function SurvivingServices(ctx: Context, failed: seq<Id>, n: nat): map<BucketId, bool>
    requires n <= |ctx.serviceIDs|
  {
    if n == 0 then map[]
    else
      var id := ctx.serviceIDs[n - 1];
      SurvivingServices(ctx, failed, n - 1) + BucketsOf(ctx.ServiceOf(id), id !in failed)
  }

  /** The first `m` buckets of a service, up when not all their slots failed. */
  function SurvivingBuckets(svc: Service, m: nat, failed: multiset<BucketId>): map<BucketId, bool>
    requires m <= |svc.replicas|
  {
    if m == 0 then map[]
    else SurvivingBuckets(svc, m - 1, failed)[svc.Bucket(m - 1) := failed[svc.Bucket(m - 1)] < svc.replicas[m - 1]]
  }

  /** Buckets of the first `n` services, down exactly when all their slots failed. */
  function SurvivingSlots(ctx: Context, failed: multiset<BucketId>, n: nat): map<BucketId, bool>
    requires n <= |ctx.serviceIDs|
  {
    if n == 0 then map[]
    else
      var svc := ctx.ServiceOf(ctx.serviceIDs[n - 1]);
      SurvivingSlots(ctx, failed, n - 1) + SurvivingBuckets(svc, |svc.replicas|, failed)
  }

  /** Bucket liveness before fault overlays, and where the generator then stands. No permutation is drawn for k = 0. */
  ghost function BucketStage(ctx: Context, profile: Profile, stream: Stream, pos: nat): Result<(map<BucketId, bool>,
      nat)> {
    var n := |ctx.serviceIDs|;
    var k := profile.fixedKFailures;
    match profile.mode
    case IndependentReplica => Ok(ReplicaBuckets(ctx, profile, stream, n, pos))
    case IndependentService => Ok(ServiceBuckets(ctx, profile, stream, n, pos))
    case FixedKServiceSet =>
      var population := Candidates(ctx, n);
      if k > |population| then Err("fixed_k_failures exceeds failure-eligible service count")
      else if k <= 0 then Ok((SurvivingServices(ctx, [], n), pos))
      else Ok((SurvivingServices(ctx, Hit(population, stream.perm(pos, |population|), k), n),
               stream.afterPerm(pos, |population|)))
    case FixedKReplicaSlots =>
      var population := Slots(ctx, n);
      if k > |population| then Err("fixed_k_failures exceeds replica slot count")
      else if k <= 0 then Ok((SurvivingSlots(ctx, multiset{}, n), pos))
      else Ok((SurvivingSlots(ctx, multiset(Hit(population, stream.perm(pos, |population|), k)), n),
               stream.afterPerm(pos, |population|)))
    case Unsupported => Err("unsupported sampling mode")
  }

  /** The profile asks for no more failures than its population holds; sampling fails in no other case. */
  predicate Fits(ctx: Context, profile: Profile) {
    match profile.mode
    case IndependentReplica => true
    case IndependentService => true
    case FixedKServiceSet => profile.fixedKFailures <= |Candidates(ctx, |ctx.serviceIDs|)|
    case FixedKReplicaSlots => profile.fixedKFailures <= |Slots(ctx, |ctx.serviceIDs|)|
    case Unsupported => false
  }

  // ----- the whole world

  function AfterKills(buckets: map<BucketId, bool>, faults: Faults): map<BucketId, bool> {
    buckets + map b | b in faults.hardBucketKill :: false
  }

  predicate ServiceUp(ctx: Context, buckets: map<BucketId, bool>, id: Id) {
    exists b: nat | b < |ctx.ServiceOf(id).replicas| :: Up(buckets, ctx.ServiceOf(id).Bucket(b))
  }

  function ServiceStates(ctx: Context, buckets: map<BucketId, bool>): map<Id, bool> {
    map id | id in ctx.serviceIDs :: ServiceUp(ctx, buckets, id)
  }

  /** States of the first `n` edges; a hard-killed edge consumes no draw. */
  function EdgeStates(ctx: Context, profile: Profile, faults: Faults, stream: Stream, n: nat, pos: nat): (map<Id, bool>,
      nat)
    requires n <= |ctx.edgeIDs|
  {
    if n == 0 then (map[], pos)
    else
      var before := EdgeStates(ctx, profile, faults, stream, n - 1, pos);
      var id := ctx.edgeIDs[n - 1];
      if id in faults.hardEdgeKill then (before.0[id := false], before.1)
      else (before.0[id := stream.draw(before.1) < EdgeLiveProbability(profile, id)], before.1 + 1)
  }

  ghost function Sample(ctx: Context, profile: Profile, faults: Faults, stream: Stream, pos: nat): Result<(World,
      nat)> {
    var stage := BucketStage(ctx, profile, stream, pos);
    if stage.Err? then Err(stage.error)
    else
      var buckets := AfterKills(stage.value.0, faults);
      var edges := EdgeStates(ctx, profile, faults, stream, |ctx.edgeIDs|, stage.value.1);
      Ok((World(buckets, ServiceStates(ctx, buckets), edges.0), edges.1))
  }

  lemma SampleFailsExactly(ctx: Context, profile: Profile, faults: Faults, stream: Stream, pos: nat)
    ensures Sample(ctx, profile, faults, stream, pos).Ok? <==> Fits(ctx, profile)
  {
  }

  // ----- the engine's sampler

  class SampledState {
    var bucketAlive: map<BucketId, bool>
    var serviceAlive: map<Id, bool>
    var edgeAlive: map<Id, bool>

    constructor ()
      ensures bucketAlive == map[] && serviceAlive == map[] && edgeAlive == map[]
    {
      bucketAlive, serviceAlive, edgeAlive := map[], map[], map[];
    }

    function Snapshot(): World
      reads this
    {
      World(bucketAlive, serviceAlive, edgeAlive)
    }

    method SetBuckets(svc: Service, alive: bool)
      modifies `bucketAlive
      ensures bucketAlive == old(bucketAlive) + BucketsOf(svc, alive)
    {
      for b := 0 to |svc.replicas|
        invariant bucketAlive == old(bucketAlive) + UniformBuckets(svc, b, alive)
      {
        bucketAlive := bucketAlive[svc.Bucket(b) := alive];
      }
    }

    method SampleReplicas(ctx: Context, profile: Profile, rng: Rng)
      requires bucketAlive == map[]
      modifies `bucketAlive, rng
      ensures (bucketAlive, rng.pos) == ReplicaBuckets(ctx, profile, rng.stream, |ctx.serviceIDs|, old(rng.pos))
    {
      for n := 0 to |ctx.serviceIDs|
        invariant (bucketAlive, rng.pos) == ReplicaBuckets(ctx, profile, rng.stream, n, old(rng.pos))
      {
        var svc := ctx.ServiceOf(ctx.serviceIDs[n]);
        if !svc.samplingEligible {
          SetBuckets(svc, true);
          continue;
        }
        SampleBuckets(svc, ServiceLiveProbability(profile, ctx.serviceIDs[n]), rng);
      }
    }

    method SampleBuckets(svc: Service, liveProbability: real, rng: Rng)
      modifies `bucketAlive, rng
      ensures var drawn := ReplicaDraws(svc, liveProbability, rng.stream, |svc.replicas|, old(rng.pos));
        bucketAlive == old(bucketAlive) + drawn.0 && rng.pos == drawn.1
    {
      for b := 0 to |svc.replicas|
        invariant rng.pos == ReplicaDraws(svc, liveProbability, rng.stream, b, old(rng.pos)).1
        invariant bucketAlive == old(bucketAlive) + ReplicaDraws(svc, liveProbability, rng.stream, b, old(rng.pos)).0
      {
        ghost var before := bucketAlive;
        ghost var drawn := ReplicaDraws(svc, liveProbability, rng.stream, b, old(rng.pos)).0;
        ghost var start := rng.pos;
        var live := false;
        for replica := 0 to svc.replicas[b]
          invariant rng.pos == start + replica
          invariant bucketAlive == before
          invariant live == AnyBelow(rng.stream, start, replica, liveProbability)
        {
          var x := rng.Float64();
          assert x == rng.stream.draw(start + replica);
          live := live || x < liveProbability;
        }
        bucketAlive := bucketAlive[svc.Bucket(b) := live];
        assert bucketAlive == old(bucketAlive) + drawn[svc.Bucket(b) := live];
      }
    }

    method SampleServices(ctx: Context, profile: Profile, rng: Rng)
      requires bucketAlive == map[]
      modifies `bucketAlive, rng
      ensures (bucketAlive, rng.pos) == ServiceBuckets(ctx, profile, rng.stream, |ctx.serviceIDs|, old(rng.pos))
    {
      for n := 0 to |ctx.serviceIDs|
        invariant (bucketAlive, rng.pos) == ServiceBuckets(ctx, profile, rng.stream, n, old(rng.pos))
      {
        var alive := true;
        if ctx.ServiceOf(ctx.serviceIDs[n]).samplingEligible {
          var x := rng.Float64();
          alive := x < ServiceLiveProbability(profile, ctx.serviceIDs[n]);
        }
        SetBuckets(ctx.ServiceOf(ctx.serviceIDs[n]), alive);
      }
    }

    method FailServices(ctx: Context, failed: seq<Id>)
      requires bucketAlive == map[]
      modifies `bucketAlive
      ensures bucketAlive == SurvivingServices(ctx, failed, |ctx.serviceIDs|)
    {
      for n := 0 to |ctx.serviceIDs|
        invariant bucketAlive == SurvivingServices(ctx, failed, n)
      {
        SetBuckets(ctx.ServiceOf(ctx.serviceIDs[n]), ctx.serviceIDs[n] !in failed);
      }
    }

    method FailSlotsOf(svc: Service, failedByBucket: map<BucketId, nat>, ghost failed: multiset<BucketId>)
      requires Tallies(failedByBucket, failed)
      modifies `bucketAlive
      ensures bucketAlive == old(bucketAlive) + SurvivingBuckets(svc, |svc.replicas|, failed)
    {
      for b := 0 to |svc.replicas|
        invariant bucketAlive == old(bucketAlive) + SurvivingBuckets(svc, b, failed)
      {
        var count := Tally(failedByBucket, svc.Bucket(b));
        ghost var before, kept := old(bucketAlive), SurvivingBuckets(svc, b, failed);
        assert count == failed[svc.Bucket(b)];
        bucketAlive := bucketAlive[svc.Bucket(b) := !(count >= svc.replicas[b])];
        assert bucketAlive == before + kept[svc.Bucket(b) := failed[svc.Bucket(b)] < svc.replicas[b]];
      }
    }

    method FailSlots(ctx: Context, failedByBucket: map<BucketId, nat>, ghost failed: multiset<BucketId>)
      requires bucketAlive == map[]
      requires Tallies(failedByBucket, failed)
      modifies `bucketAlive
      ensures bucketAlive == SurvivingSlots(ctx, failed, |ctx.serviceIDs|)
    {
      for n := 0 to |ctx.serviceIDs|
        invariant bucketAlive == SurvivingSlots(ctx, failed, n)
      {
        FailSlotsOf(ctx.ServiceOf(ctx.serviceIDs[n]), failedByBucket, failed);
      }
    }

    method KillBuckets(faults: Faults)
      modifies `bucketAlive
      ensures bucketAlive == AfterKills(old(bucketAlive), faults)
    {
      var rest := faults.hardBucketKill;
      while rest != {}
        invariant rest <= faults.hardBucketKill
        invariant bucketAlive == old(bucketAlive) + map b | b in faults.hardBucketKill - rest :: false
        decreases rest
      {
        var bucket :| bucket in rest;
        bucketAlive := bucketAlive[bucket := false];
        rest := rest - {bucket};
      }
    }

    method DeriveServices(ctx: Context)
      requires serviceAlive == map[]
      modifies `serviceAlive
      ensures serviceAlive == ServiceStates(ctx, bucketAlive)
    {
      for n := 0 to |ctx.serviceIDs|
        invariant serviceAlive.Keys == set i | 0 <= i < n :: ctx.serviceIDs[i]
        invariant forall i | 0 <= i < n ::
                    serviceAlive[ctx.serviceIDs[i]] == ServiceUp(ctx, bucketAlive, ctx.serviceIDs[i])
      {
        var svc := ctx.ServiceOf(ctx.serviceIDs[n]);
        var alive := false;
        for b := 0 to |svc.replicas|
          invariant alive == exists i: nat | i < b :: Up(bucketAlive, svc.Bucket(i))
        {
          if Up(bucketAlive, svc.Bucket(b)) {
            alive := true;
            break;
          }
        }
        serviceAlive := serviceAlive[ctx.serviceIDs[n] := alive];
      }
    }

    method SampleEdges(ctx: Context, profile: Profile, faults: Faults, rng: Rng)
      requires edgeAlive == map[]
      modifies `edgeAlive, rng
      ensures (edgeAlive, rng.pos) == EdgeStates(ctx, profile, faults, rng.stream, |ctx.edgeIDs|, old(rng.pos))
    {
      for n := 0 to |ctx.edgeIDs|
        invariant (edgeAlive, rng.pos) == EdgeStates(ctx, profile, faults, rng.stream, n, old(rng.pos))
      {
        var alive := false;
        if ctx.edgeIDs[n] !in faults.hardEdgeKill {
          var x := rng.Float64();
          alive := x < EdgeLiveProbability(profile, ctx.edgeIDs[n]);
        }
        edgeAlive := edgeAlive[ctx.edgeIDs[n] := alive];
      }
    }
  }

  method CandidateIDs(ctx: Context) returns (ids: seq<Id>)
    ensures ids == Candidates(ctx, |ctx.serviceIDs|)
  {
    ids := [];
    for n := 0 to |ctx.serviceIDs|
      invariant ids == Candidates(ctx, n)
    {
      if ctx.ServiceOf(ctx.serviceIDs[n]).samplingEligible {
        ids := ids + [ctx.serviceIDs[n]];
      }
    }
  }

  method SlotBucketIDs(ctx: Context) returns (slots: seq<BucketId>)
    ensures slots == Slots(ctx, |ctx.serviceIDs|)
  {
    slots := [];
    for n := 0 to |ctx.serviceIDs|
      invariant slots == Slots(ctx, n)
    {
      var svc := ctx.ServiceOf(ctx.serviceIDs[n]);
      if svc.samplingEligible {
        ghost var before := slots;
        for b := 0 to |svc.replicas|
          invariant slots == before + SlotsOfService(svc, b)
        {
          for replica := 0 to svc.replicas[b]
            invariant slots == before + SlotsOfService(svc, b) + seq(replica, _ => svc.Bucket(b))
          {
            slots := slots + [svc.Bucket(b)];
          }
        }
      }
    }
  }

  method CountFailedSlots(slots: seq<BucketId>, indices: seq<nat>, k: nat) returns (failedByBucket: map<BucketId, nat>)
    requires IsPermutation(indices, |slots|) && k <= |slots|
    ensures Tallies(failedByBucket, multiset(Hit(slots, indices, k)))
  {
    failedByBucket := map[];
    for i := 0 to k
      invariant Tallies(failedByBucket, multiset(Hit(slots, indices, i)))
    {
      var bucket := slots[indices[i]];
      assert Hit(slots, indices, i + 1) == Hit(slots, indices, i) + [bucket];
      failedByBucket := failedByBucket[bucket := Tally(failedByBucket, bucket) + 1];
    }
  }

  method SampleBuckets(ctx: Context, profile: Profile, rng: Rng, state: SampledState) returns (error: Option<string>)
    requires state.bucketAlive == map[]
    modifies state`bucketAlive, rng
    ensures var stage := BucketStage(ctx, profile, rng.stream, old(rng.pos));
      if error.Some? then stage == Err(error.value) else stage == Ok((state.bucketAlive, rng.pos))
  {
    var k := profile.fixedKFailures;
    match profile.mode {
      case IndependentReplica =>
        state.SampleReplicas(ctx, profile, rng);
      case IndependentService =>
        state.SampleServices(ctx, profile, rng);
      case FixedKServiceSet =>
        var candidates := CandidateIDs(ctx);
        if k > |candidates| {
          return Some("fixed_k_failures exceeds failure-eligible service count");
        }
        var failed := [];
        if k > 0 {
          var indices := rng.Perm(|candidates|);
          failed := Hit(candidates, indices, k);
        }
        state.FailServices(ctx, failed);
      case FixedKReplicaSlots =>
        var slots := SlotBucketIDs(ctx);
        if k > |slots| {
          return Some("fixed_k_failures exceeds replica slot count");
        }
        var failedByBucket: map<BucketId, nat> := map[];
        ghost var failed := multiset{};
        if k > 0 {
          var indices := rng.Perm(|slots|);
          failedByBucket := CountFailedSlots(slots, indices, k);
          failed := multiset(Hit(slots, indices, k));
        }
        state.FailSlots(ctx, failedByBucket, failed);
      case Unsupported =>
        return Some("unsupported sampling mode");
    }
    return None;
  }

  method SampleAdvancedState(ctx: Context, profile: Profile, rng: Rng, faults: Faults) returns (r: Result<SampledState>)
    modifies rng
    ensures var sample := Sample(ctx, profile, faults, rng.stream, old(rng.pos));
      if r.Err? then sample == Err(r.error)
      else fresh(r.value) && sample == Ok((r.value.Snapshot(), rng.pos))
  {
    var state := new SampledState();
    var error := SampleBuckets(ctx, profile, rng, state);
    if error.Some? {
      return Err(error.value);
    }
    state.KillBuckets(faults);
    state.DeriveServices(ctx);
    state.SampleEdges(ctx, profile, faults, rng);
    return Ok(state);
  }
}
