/** Coupled sampling: on one tape, a harsher profile never brings anything up that a milder one has down. */
module Nesting {
  import opened Wrappers
  import opened Ids
  import opened Draws
  import opened Topology
  import opened Sampling

  /** Two bucket maps over the same keys, with nothing up in `worse` that is down in `better`. */
  ghost predicate BucketsNoBetter(worse: map<BucketId, bool>, better: map<BucketId, bool>) {
    worse.Keys == better.Keys && forall id | id in worse :: worse[id] ==> better[id]
  }

  /** The same sampling mode with live probabilities that are nowhere higher and no fewer fixed failures. */
  ghost predicate Harsher(ctx: Context, harsh: Profile, mild: Profile) {
    && harsh.mode == mild.mode
    && (forall id :: ServiceLiveProbability(harsh, id) <= ServiceLiveProbability(mild, id))
    && (forall i | 0 <= i < |ctx.edgeIDs| ::
          EdgeLiveProbability(harsh, ctx.edgeIDs[i]) <= EdgeLiveProbability(mild, ctx.edgeIDs[i]))
    && mild.fixedKFailures <= harsh.fixedKFailures
  }

  ghost predicate DistinctEdges(ctx: Context) {
    forall i, j | 0 <= i < j < |ctx.edgeIDs| :: ctx.edgeIDs[i] != ctx.edgeIDs[j]
  }

  /**
   The milder profile draws no permutation while the harsher one does, so their edge draws sit at different positions.
   */
  ghost predicate Misaligned(harsh: Profile, mild: Profile) {
    (harsh.mode.FixedKServiceSet? || harsh.mode.FixedKReplicaSlots?) && mild.fixedKFailures <= 0 < harsh.fixedKFailures
  }

  /** Every surviving edge is certain to be up under the milder profile or certain to be down under the harsher one. */
  ghost predicate EdgesCertain(ctx: Context, faults: Faults, harsh: Profile, mild: Profile) {
    forall i | 0 <= i < |ctx.edgeIDs| && ctx.edgeIDs[i] !in faults.hardEdgeKill ::
      EdgeLiveProbability(mild, ctx.edgeIDs[i]) >= 1.0 || EdgeLiveProbability(harsh, ctx.edgeIDs[i]) <= 0.0
  }

  lemma {:induction false} ReplicaDrawsNest(svc: Service, p: real, q: real, stream: Stream, m: nat, pos: nat)
    requires m <= |svc.replicas| && p <= q
    ensures ReplicaDraws(svc, p, stream, m, pos).1 == ReplicaDraws(svc, q, stream, m, pos).1
    ensures BucketsNoBetter(ReplicaDraws(svc, p, stream, m, pos).0, ReplicaDraws(svc, q, stream, m, pos).0)
  {
    if m > 0 {
      ReplicaDrawsNest(svc, p, q, stream, m - 1, pos);
    }
  }

  lemma JoinNests(worse: map<BucketId, bool>, better: map<BucketId, bool>, worse': map<BucketId, bool>,
      better': map<BucketId, bool>)
    requires BucketsNoBetter(worse, better) && BucketsNoBetter(worse', better')
    ensures BucketsNoBetter(worse + worse', better + better')
  {
  }

  lemma {:induction false} ReplicaBucketsNest(ctx: Context, harsh: Profile, mild: Profile, stream: Stream, n: nat,
      pos: nat)
    requires n <= |ctx.serviceIDs| && Harsher(ctx, harsh, mild)
    ensures ReplicaBuckets(ctx, harsh, stream, n, pos).1 == ReplicaBuckets(ctx, mild, stream, n, pos).1
    ensures BucketsNoBetter(ReplicaBuckets(ctx, harsh, stream, n, pos).0, ReplicaBuckets(ctx, mild, stream, n, pos).0)
  {
    if n > 0 {
      ReplicaBucketsNest(ctx, harsh, mild, stream, n - 1, pos);
      var id := ctx.serviceIDs[n - 1];
      var svc := ctx.ServiceOf(id);
      var worse, better := ReplicaBuckets(ctx, harsh, stream, n - 1, pos),
          ReplicaBuckets(ctx, mild, stream, n - 1, pos);
      var p, q := ServiceLiveProbability(harsh, id), ServiceLiveProbability(mild, id);
      if svc.samplingEligible {
        ReplicaDrawsNest(svc, p, q, stream, |svc.replicas|, better.1);
        JoinNests(worse.0, better.0, ReplicaDraws(svc, p, stream, |svc.replicas|, better.1).0,
                  ReplicaDraws(svc, q, stream, |svc.replicas|, better.1).0);
      } else {
        JoinNests(worse.0, better.0, BucketsOf(svc, true), BucketsOf(svc, true));
      }
    }
  }

  lemma {:induction false} UniformBucketsKeys(svc: Service, m: nat, a: bool, b: bool)
    requires a ==> b
    ensures BucketsNoBetter(UniformBuckets(svc, m, a), UniformBuckets(svc, m, b))
  {
    if m > 0 {
      UniformBucketsKeys(svc, m - 1, a, b);
    }
  }

  lemma {:induction false} ServiceBucketsNest(ctx: Context, harsh: Profile, mild: Profile, stream: Stream, n: nat,
      pos: nat)
    requires n <= |ctx.serviceIDs| && Harsher(ctx, harsh, mild)
    ensures ServiceBuckets(ctx, harsh, stream, n, pos).1 == ServiceBuckets(ctx, mild, stream, n, pos).1
    ensures BucketsNoBetter(ServiceBuckets(ctx, harsh, stream, n, pos).0, ServiceBuckets(ctx, mild, stream, n, pos).0)
  {
    if n > 0 {
      ServiceBucketsNest(ctx, harsh, mild, stream, n - 1, pos);
      var id := ctx.serviceIDs[n - 1];
      var svc := ctx.ServiceOf(id);
      var worse, better := ServiceBuckets(ctx, harsh, stream, n - 1, pos),
          ServiceBuckets(ctx, mild, stream, n - 1, pos);
      var x := stream.draw(better.1);
      var a := if svc.samplingEligible then x < ServiceLiveProbability(harsh, id) else true;
      var b := if svc.samplingEligible then x < ServiceLiveProbability(mild, id) else true;
      UniformBucketsKeys(svc, |svc.replicas|, a, b);
      JoinNests(worse.0, better.0, BucketsOf(svc, a), BucketsOf(svc, b));
    }
  }

  lemma {:induction false} SurvivingServicesNest(ctx: Context, more: seq<Id>, fewer: seq<Id>, n: nat)
    requires n <= |ctx.serviceIDs| && forall id :: id in fewer ==> id in more
    ensures BucketsNoBetter(SurvivingServices(ctx, more, n), SurvivingServices(ctx, fewer, n))
  {
    if n > 0 {
      SurvivingServicesNest(ctx, more, fewer, n - 1);
      var id := ctx.serviceIDs[n - 1];
      UniformBucketsKeys(ctx.ServiceOf(id), |ctx.ServiceOf(id).replicas|, id !in more, id !in fewer);
    }
  }

  lemma {:induction false} SurvivingBucketsNest(svc: Service, more: multiset<BucketId>, fewer: multiset<BucketId>,
      m: nat)
    requires m <= |svc.replicas| && fewer <= more
    ensures BucketsNoBetter(SurvivingBuckets(svc, m, more), SurvivingBuckets(svc, m, fewer))
  {
    if m > 0 {
      SurvivingBucketsNest(svc, more, fewer, m - 1);
    }
  }

  lemma {:induction false} SurvivingSlotsNest(ctx: Context, more: multiset<BucketId>, fewer: multiset<BucketId>, n: nat)
    requires n <= |ctx.serviceIDs| && fewer <= more
    ensures BucketsNoBetter(SurvivingSlots(ctx, more, n), SurvivingSlots(ctx, fewer, n))
  {
    if n > 0 {
      SurvivingSlotsNest(ctx, more, fewer, n - 1);
      var svc := ctx.ServiceOf(ctx.serviceIDs[n - 1]);
      SurvivingBucketsNest(svc, more, fewer, |svc.replicas|);
    }
  }

  /** A smaller k takes a prefix of what a larger k takes from the same permutation. */
  lemma HitIsPrefix<T>(population: seq<T>, indices: seq<nat>, j: nat, k: nat)
    requires IsPermutation(indices, |population|) && j <= k <= |population|
    ensures Hit(population, indices, j) <= Hit(population, indices, k)
    ensures multiset(Hit(population, indices, j)) <= multiset(Hit(population, indices, k))
  {
    var few, many := Hit(population, indices, j), Hit(population, indices, k);
    assert many == few + many[j..];
  }

  lemma BucketStageNests(ctx: Context, harsh: Profile, mild: Profile, stream: Stream, pos: nat)
    requires Harsher(ctx, harsh, mild)
    requires BucketStage(ctx, harsh, stream, pos).Ok?
    ensures BucketStage(ctx, mild, stream, pos).Ok?
    ensures BucketsNoBetter(BucketStage(ctx, harsh, stream, pos).value.0, BucketStage(ctx, mild, stream, pos).value.0)
    ensures !Misaligned(harsh, mild) ==>
              BucketStage(ctx, harsh, stream, pos).value.1 == BucketStage(ctx, mild, stream, pos).value.1
  {
    var n := |ctx.serviceIDs|;
    var k: nat := if harsh.fixedKFailures <= 0 then 0 else harsh.fixedKFailures;
    var j: nat := if mild.fixedKFailures <= 0 then 0 else mild.fixedKFailures;
    match harsh.mode {
      case IndependentReplica => ReplicaBucketsNest(ctx, harsh, mild, stream, n, pos);
      case IndependentService => ServiceBucketsNest(ctx, harsh, mild, stream, n, pos);
      case FixedKServiceSet =>
        var population := Candidates(ctx, n);
        var indices := stream.perm(pos, |population|);
        HitIsPrefix(population, indices, j, k);
        SurvivingServicesNest(ctx, Hit(population, indices, k), Hit(population, indices, j), n);
        SurvivingServicesNest(ctx, Hit(population, indices, k), [], n);
        SurvivingServicesNest(ctx, [], [], n);
      case FixedKReplicaSlots =>
        var population := Slots(ctx, n);
        var indices := stream.perm(pos, |population|);
        HitIsPrefix(population, indices, j, k);
        SurvivingSlotsNest(ctx, multiset(Hit(population, indices, k)), multiset(Hit(population, indices, j)), n);
        SurvivingSlotsNest(ctx, multiset(Hit(population, indices, k)), multiset{}, n);
        SurvivingSlotsNest(ctx, multiset{}, multiset{}, n);
    }
  }

  lemma {:induction false} EdgeStatesNest(ctx: Context, harsh: Profile, mild: Profile, faults: Faults, stream: Stream,
      n: nat, pos: nat)
    requires n <= |ctx.edgeIDs| && Harsher(ctx, harsh, mild)
    ensures EdgeStates(ctx, harsh, faults, stream, n, pos).1 == EdgeStates(ctx, mild, faults, stream, n, pos).1
    ensures forall id :: Up(EdgeStates(ctx, harsh, faults, stream, n, pos).0, id)
                     ==> Up(EdgeStates(ctx, mild, faults, stream, n, pos).0, id)
  {
    if n > 0 {
      EdgeStatesNest(ctx, harsh, mild, faults, stream, n - 1, pos);
      var worse, better := EdgeStates(ctx, harsh, faults, stream, n - 1, pos),
          EdgeStates(ctx, mild, faults, stream, n - 1, pos);
      var id, x := ctx.edgeIDs[n - 1], stream.draw(better.1);
      var dead := id in faults.hardEdgeKill;
      UpdateNests(worse.0, better.0, id, !dead && x < EdgeLiveProbability(harsh, id), !dead
          && x < EdgeLiveProbability(mild, id),
                  EdgeStates(ctx, harsh, faults, stream, n, pos).0, EdgeStates(ctx, mild, faults, stream, n, pos).0);
    }
  }

  lemma UpdateNests<K(!new)>(worse: map<K, bool>, better: map<K, bool>, key: K, a: bool, b: bool,
      worse': map<K, bool>, better': map<K, bool>)
    requires (forall k :: Up(worse, k) ==> Up(better, k)) && (a ==> b)
    requires worse' == worse[key := a] && better' == better[key := b]
    ensures forall k :: Up(worse', k) ==> Up(better', k)
  {
    forall k | Up(worse', k)
      ensures Up(better', k)
    {
      assert k != key ==> Up(worse, k);
    }
  }

  /** Draws made for the first `n` edges: one for each that is not hard-killed. */
  function EdgeDraws(ctx: Context, faults: Faults, n: nat): nat
    requires n <= |ctx.edgeIDs|
  {
    if n == 0 then 0 else EdgeDraws(ctx, faults, n - 1) + if ctx.edgeIDs[n - 1] in faults.hardEdgeKill then 0 else 1
  }

  /** The edge's state is the outcome of the draw at `at`, made before the position reached. */
  ghost predicate DecidedAt(profile: Profile, faults: Faults, stream: Stream, id: Id, at: nat,
      states: (map<Id, bool>, nat)) {
    && id in states.0
    && (id !in faults.hardEdgeKill ==> at < states.1)
    && states.0[id] == (id !in faults.hardEdgeKill && stream.draw(at) < EdgeLiveProbability(profile, id))
  }

  lemma LastEdgeDecided(ctx: Context, profile: Profile, faults: Faults, stream: Stream, n: nat, pos: nat)
    requires 0 < n <= |ctx.edgeIDs|
    ensures DecidedAt(profile, faults, stream, ctx.edgeIDs[n - 1],
        EdgeStates(ctx, profile, faults, stream, n - 1, pos).1,
                      EdgeStates(ctx, profile, faults, stream, n, pos))
  {
  }

  lemma EarlierEdgeDecided(ctx: Context, profile: Profile, faults: Faults, stream: Stream, n: nat, pos: nat, id: Id,
      at: nat)
    requires 0 < n <= |ctx.edgeIDs| && id != ctx.edgeIDs[n - 1]
    requires DecidedAt(profile, faults, stream, id, at, EdgeStates(ctx, profile, faults, stream, n - 1, pos))
    ensures DecidedAt(profile, faults, stream, id, at, EdgeStates(ctx, profile, faults, stream, n, pos))
  {
  }

  /** The positions of the edges among the first `n` that are not hard-killed. */
  ghost function StandingEdges(ctx: Context, faults: Faults, n: nat): set<nat>
    requires n <= |ctx.edgeIDs|
  {
    set i: nat | i < n && ctx.edgeIDs[i] !in faults.hardEdgeKill
  }

  lemma StandingStep(ctx: Context, faults: Faults, n: nat)
    requires n < |ctx.edgeIDs|
    ensures |StandingEdges(ctx, faults, n + 1)|
         == |StandingEdges(ctx, faults, n)| + if ctx.edgeIDs[n] in faults.hardEdgeKill then 0 else 1
  {
    var before := StandingEdges(ctx, faults, n);
    assert n !in before;
    assert StandingEdges(ctx, faults, n + 1) == if ctx.edgeIDs[n] in faults.hardEdgeKill then before else before + {n};
  }

  /** Sampling edges draws once for every edge that is not hard-killed, and leaves the killed ones down. */
  lemma {:induction false} EdgeDrawsExactly(ctx: Context, profile: Profile, faults: Faults, stream: Stream, n: nat,
      pos: nat)
    requires n <= |ctx.edgeIDs|
    ensures EdgeStates(ctx, profile, faults, stream, n, pos).1 == pos + |StandingEdges(ctx, faults, n)|
    ensures forall id | id in faults.hardEdgeKill :: !Up(EdgeStates(ctx, profile, faults, stream, n, pos).0, id)
  {
    if n > 0 {
      EdgeDrawsExactly(ctx, profile, faults, stream, n - 1, pos);
      StandingStep(ctx, faults, n - 1);
    }
  }

  /** The state of edge `i` is decided by one draw of its own, behind those of the earlier edges. */
  lemma {:induction false} EdgeStateAt(ctx: Context, profile: Profile, faults: Faults, stream: Stream, n: nat, pos: nat,
      i: nat)
    returns (at: nat)
    requires i < n <= |ctx.edgeIDs| && DistinctEdges(ctx)
    ensures at == pos + EdgeDraws(ctx, faults, i) < pos + n
    ensures DecidedAt(profile, faults, stream, ctx.edgeIDs[i], at, EdgeStates(ctx, profile, faults, stream, n, pos))
  {
    EdgeCursor(ctx, profile, faults, stream, n - 1, pos);
    if i == n - 1 {
      at := EdgeStates(ctx, profile, faults, stream, n - 1, pos).1;
      LastEdgeDecided(ctx, profile, faults, stream, n, pos);
    } else {
      at := EdgeStateAt(ctx, profile, faults, stream, n - 1, pos, i);
      EarlierEdgeDecided(ctx, profile, faults, stream, n, pos, ctx.edgeIDs[i], at);
    }
  }

  lemma {:induction false} EdgeCursor(ctx: Context, profile: Profile, faults: Faults, stream: Stream, n: nat, pos: nat)
    requires n <= |ctx.edgeIDs|
    ensures EdgeStates(ctx, profile, faults, stream, n, pos).1 == pos + EdgeDraws(ctx, faults, n) <= pos + n
    ensures EdgeStates(ctx, profile, faults, stream, n, pos).0.Keys == set i | 0 <= i < n :: ctx.edgeIDs[i]
  {
    if n > 0 {
      EdgeCursor(ctx, profile, faults, stream, n - 1, pos);
    }
  }

  /** With certain edges, edge states nest even when the two profiles read them at different positions. */
  lemma CertainEdgesNest(ctx: Context, harsh: Profile, mild: Profile, faults: Faults, stream: Stream, p: nat, q: nat)
    requires EdgesCertain(ctx, faults, harsh, mild) && DistinctEdges(ctx)
    ensures forall id :: Up(EdgeStates(ctx, harsh, faults, stream, |ctx.edgeIDs|, p).0, id)
                     ==> Up(EdgeStates(ctx, mild, faults, stream, |ctx.edgeIDs|, q).0, id)
  {
    var n := |ctx.edgeIDs|;
    EdgeCursor(ctx, harsh, faults, stream, n, p);
    forall id | Up(EdgeStates(ctx, harsh, faults, stream, n, p).0, id)
      ensures Up(EdgeStates(ctx, mild, faults, stream, n, q).0, id)
    {
      var i :| 0 <= i < n && ctx.edgeIDs[i] == id;
      var atHarsh := EdgeStateAt(ctx, harsh, faults, stream, n, p, i);
      var atMild := EdgeStateAt(ctx, mild, faults, stream, n, q, i);
      assert stream.draw(atHarsh) >= 0.0 && stream.draw(atMild) < 1.0;
    }
  }

  lemma ServiceStatesNest(ctx: Context, worse: map<BucketId, bool>, better: map<BucketId, bool>, faults: Faults)
    requires BucketsNoBetter(worse, better)
    ensures BucketsNoBetter(AfterKills(worse, faults), AfterKills(better, faults))
    ensures forall id :: Up(ServiceStates(ctx, AfterKills(worse, faults)), id)
                     ==> Up(ServiceStates(ctx, AfterKills(better, faults)), id)
  {
  }

  /** Coupled sampling nests bucket and service failures always, and the whole world when the edge draws line up. */
  lemma SampleNests(ctx: Context, harsh: Profile, mild: Profile, faults: Faults, stream: Stream, pos: nat)
    requires Harsher(ctx, harsh, mild) && DistinctEdges(ctx)
    requires Sample(ctx, harsh, faults, stream, pos).Ok?
    ensures Sample(ctx, mild, faults, stream, pos).Ok?
    ensures var worse, better := Sample(ctx, harsh, faults, stream, pos).value.0,
        Sample(ctx, mild, faults, stream, pos).value.0;
      && BucketsNoBetter(worse.bucketAlive, better.bucketAlive)
      && (forall id :: Up(worse.serviceAlive, id) ==> Up(better.serviceAlive, id))
      && ((Misaligned(harsh, mild) ==> EdgesCertain(ctx, faults, harsh, mild)) ==> NoBetter(worse, better))
  {
    BucketStageNests(ctx, harsh, mild, stream, pos);
    var atHarsh, atMild := BucketStage(ctx, harsh, stream, pos).value, BucketStage(ctx, mild, stream, pos).value;
    ServiceStatesNest(ctx, atHarsh.0, atMild.0, faults);
    if !Misaligned(harsh, mild) {
      EdgeStatesNest(ctx, harsh, mild, faults, stream, |ctx.edgeIDs|, atMild.1);
    } else if EdgesCertain(ctx, faults, harsh, mild) {
      CertainEdgesNest(ctx, harsh, mild, faults, stream, atHarsh.1, atMild.1);
    }
  }

  // ----- the documented nesting fails from k = 0 to k > 0, exactly when some edge is uncertain

  /** The number of failure candidates a fixed-k profile permutes. */
  function Permuted(ctx: Context, profile: Profile): nat {
    if profile.mode.FixedKServiceSet? then |Candidates(ctx, |ctx.serviceIDs|)| else |Slots(ctx, |ctx.serviceIDs|)|
  }

  /** A tape whose draws are 0 but for a `high` one at position `at`; permutations cost what `after` says. */
  ghost predicate Spikes(stream: Stream, at: nat, high: real, after: (nat, nat) -> nat) {
    (forall p: nat :: stream.draw(p) == if p == at then high else 0.0) && stream.afterPerm == after
  }

  lemma SpikedTape(at: nat, high: real, after: (nat, nat) -> nat) returns (stream: Stream)
    requires 0.0 <= high < 1.0
    ensures Spikes(stream, at, high, after)
  {
    var tape := Tape((p: nat) => if p == at then high else 0.0, (p: nat, m: nat) => seq(m, i => i), after);
    forall p: nat, m: nat
      ensures IsPermutation(tape.perm(p, m), m)
    {
      assert tape.perm(p, m) == seq(m, i => i);
    }
    stream := tape;
  }

  /** Where a fixed-k profile reads its edges. */
  lemma EdgesRead(ctx: Context, profile: Profile, faults: Faults, stream: Stream)
    requires profile.mode.FixedKServiceSet? || profile.mode.FixedKReplicaSlots?
    requires Sample(ctx, profile, faults, stream, 0).Ok?
    ensures Sample(ctx, profile, faults, stream, 0).value.0.edgeAlive
         == EdgeStates(ctx, profile, faults, stream, |ctx.edgeIDs|,
                       if profile.fixedKFailures <= 0 then 0 else stream.afterPerm(0, Permuted(ctx, profile))).0
  {
  }

  /**
   One uncertain edge is enough, whatever permutations cost, as long as they draw at all: some tape brings it up in the
   harsher world and leaves it down in the milder one.
   */
  lemma UncertainEdgeBreaksNesting(ctx: Context, harsh: Profile, mild: Profile, faults: Faults, i: nat,
      after: (nat, nat) -> nat)
    returns (stream: Stream)
    requires Misaligned(harsh, mild) && harsh.mode == mild.mode && DistinctEdges(ctx)
    requires i < |ctx.edgeIDs| && ctx.edgeIDs[i] !in faults.hardEdgeKill
    requires EdgeLiveProbability(mild, ctx.edgeIDs[i]) < 1.0 && EdgeLiveProbability(harsh, ctx.edgeIDs[i]) > 0.0
    requires after(0, Permuted(ctx, harsh)) > 0
    ensures stream.afterPerm == after && !NestedOn(ctx, harsh, mild, faults, stream)
  {
    var n, id := |ctx.edgeIDs|, ctx.edgeIDs[i];
    var high := if EdgeLiveProbability(mild, id) < 0.0 then 0.0 else EdgeLiveProbability(mild, id);
    stream := SpikedTape(EdgeDraws(ctx, faults, i), high, after);
    if NestedOn(ctx, harsh, mild, faults, stream) {
      EdgesRead(ctx, harsh, faults, stream);
      EdgesRead(ctx, mild, faults, stream);
      var atHarsh := EdgeStateAt(ctx, harsh, faults, stream, n, after(0, Permuted(ctx, harsh)), i);
      var atMild := EdgeStateAt(ctx, mild, faults, stream, n, 0, i);
      assert Up(Sample(ctx, harsh, faults, stream, 0).value.0.edgeAlive, id);
      assert false;
    }
  }

  /**
   Whatever the sampler draws, the worlds nest from `mild` to `harsh`: exactly when the two profiles read their edges
   at the same positions, or every surviving edge is certain. This holds for every cost of permutations that draw at
   all. A sweep over failed slots that starts at 0 therefore keeps the documented nesting only for graphs without
   uncertain edges.
   */
  lemma NestingExactly(ctx: Context, harsh: Profile, mild: Profile, faults: Faults, after: (nat, nat) -> nat)
    requires Harsher(ctx, harsh, mild) && Fits(ctx, harsh) && DistinctEdges(ctx)
    requires after(0, Permuted(ctx, harsh)) > 0
    ensures (forall stream: Stream | stream.afterPerm == after :: NestedOn(ctx, harsh, mild, faults, stream))
        <==> (Misaligned(harsh, mild) ==> EdgesCertain(ctx, faults, harsh, mild))
  {
    if Misaligned(harsh, mild) ==> EdgesCertain(ctx, faults, harsh, mild) {
      forall stream: Stream | stream.afterPerm == after
        ensures NestedOn(ctx, harsh, mild, faults, stream)
      {
        SampleFailsExactly(ctx, harsh, faults, stream, 0);
        SampleNests(ctx, harsh, mild, faults, stream, 0);
      }
    } else {
      var i :| 0 <= i < |ctx.edgeIDs| && ctx.edgeIDs[i] !in faults.hardEdgeKill
            && EdgeLiveProbability(mild, ctx.edgeIDs[i]) < 1.0 && EdgeLiveProbability(harsh, ctx.edgeIDs[i]) > 0.0;
      var stream := UncertainEdgeBreaksNesting(ctx, harsh, mild, faults, i, after);
      assert !NestedOn(ctx, harsh, mild, faults, stream);
    }
  }

  ghost predicate NestedOn(ctx: Context, harsh: Profile, mild: Profile, faults: Faults, stream: Stream) {
    && Sample(ctx, harsh, faults, stream, 0).Ok? && Sample(ctx, mild, faults, stream, 0).Ok?
    && NoBetter(Sample(ctx, harsh, faults, stream, 0).value.0, Sample(ctx, mild, faults, stream, 0).value.0)
  }
}
