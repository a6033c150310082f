/** Which services a sampled trial can leave up, mode by mode: what liveness needs, and draws that grant it. */
module Populations {
  import opened Wrappers
  import opened Ids
  import opened Draws
  import opened Topology
  import opened Sampling
  import opened Spares
  import SlotList = Slots

  /** Some bucket of the service is up and not hard-killed. */
  predicate Stands(ctx: Context, faults: Faults, buckets: map<BucketId, bool>, id: Id) {
    exists b: nat | b < |ctx.ServiceOf(id).replicas| ::
      ctx.ServiceOf(id).Bucket(b) !in faults.hardBucketKill && Up(buckets, ctx.ServiceOf(id).Bucket(b))
  }

  lemma StandingIsUp(ctx: Context, faults: Faults, buckets: map<BucketId, bool>, id: Id)
    ensures ServiceUp(ctx, AfterKills(buckets, faults), id) <==> Stands(ctx, faults, buckets, id)
  {
    var svc := ctx.ServiceOf(id);
    forall b: nat | b < |svc.replicas|
      ensures Up(AfterKills(buckets, faults), svc.Bucket(b))
          <==> svc.Bucket(b) !in faults.hardBucketKill && Up(buckets, svc.Bucket(b))
    {
    }
  }

  /** Every draw from `from` up to `to` is 0. */
  ghost predicate ZeroFrom(stream: Stream, from: nat, to: nat) {
    forall p: nat | from <= p < to :: stream.draw(p) == 0.0
  }

  // ----- independent modes

  /** All buckets in the map belong to the service. */
  ghost predicate OfService(buckets: map<BucketId, bool>, id: Id) {
    forall x | x in buckets :: x.service == id
  }

  lemma {:induction false} UniformUp(svc: Service, m: nat, alive: bool, b: nat)
    ensures OfService(UniformBuckets(svc, m, alive), svc.id)
    ensures Up(UniformBuckets(svc, m, alive), svc.Bucket(b)) <==> b < m && alive
  {
    if m > 0 {
      UniformUp(svc, m - 1, alive, b);
    }
  }

  lemma {:induction false} DrawnUp(svc: Service, p: real, stream: Stream, m: nat, pos: nat, b: nat)
    requires m <= |svc.replicas|
    ensures OfService(ReplicaDraws(svc, p, stream, m, pos).0, svc.id)
    ensures ReplicaDraws(svc, p, stream, m, pos).1 >= pos
    ensures Up(ReplicaDraws(svc, p, stream, m, pos).0, svc.Bucket(b)) ==> b < m && p > 0.0
    ensures b < m && p > 0.0 && svc.replicas[b] > 0 && ZeroFrom(stream, pos, ReplicaDraws(svc, p, stream, m, pos).1)
        ==> Up(ReplicaDraws(svc, p, stream, m, pos).0, svc.Bucket(b))
  {
    if m > 0 {
      DrawnUp(svc, p, stream, m - 1, pos, b);
      var before := ReplicaDraws(svc, p, stream, m - 1, pos);
      BelowNeedsChance(stream, before.1, svc.replicas[m - 1], p);
    }
  }

  lemma BelowNeedsChance(stream: Stream, pos: nat, count: nat, p: real)
    ensures AnyBelow(stream, pos, count, p) ==> p > 0.0
    ensures count > 0 && p > 0.0 && ZeroFrom(stream, pos, pos + count) ==> AnyBelow(stream, pos, count, p)
  {
    if count > 0 && p > 0.0 && ZeroFrom(stream, pos, pos + count) {
      assert stream.draw(pos) < p;
    }
  }

  /** What service `i` adds to the bucket map when it draws from `pos` on, and where it stops drawing. */
  function ReplicaPart(ctx: Context, profile: Profile, stream: Stream, i: nat, pos: nat): (map<BucketId, bool>, nat)
    requires i < |ctx.serviceIDs|
  {
    var svc := ctx.ServiceOf(ctx.serviceIDs[i]);
    if !svc.samplingEligible then (BucketsOf(svc, true), pos)
    else ReplicaDraws(svc, ServiceLiveProbability(profile, ctx.serviceIDs[i]), stream, |svc.replicas|, pos)
  }

  function ServicePart(ctx: Context, profile: Profile, stream: Stream, i: nat, pos: nat): (map<BucketId, bool>, nat)
    requires i < |ctx.serviceIDs|
  {
    var svc := ctx.ServiceOf(ctx.serviceIDs[i]);
    if !svc.samplingEligible then (BucketsOf(svc, true), pos)
    else (BucketsOf(svc, stream.draw(pos) < ServiceLiveProbability(profile, ctx.serviceIDs[i])), pos + 1)
  }

  /** Service `i` is not exposed to failures, or lives with positive probability. */
  predicate MayLive(ctx: Context, profile: Profile, i: nat)
    requires i < |ctx.serviceIDs|
  {
    ctx.ServiceOf(ctx.serviceIDs[i]).samplingEligible ==> ServiceLiveProbability(profile, ctx.serviceIDs[i]) > 0.0
  }

  /** A part of the bucket map has bucket `b` of service `i` up only if it may live, and does so when it draws zeros. */
  ghost predicate GoodPart(ctx: Context, profile: Profile, stream: Stream, i: nat, pos: nat, b: nat,
      part: (map<BucketId, bool>, nat))
    requires i < |ctx.serviceIDs|
  {
    var svc := ctx.ServiceOf(ctx.serviceIDs[i]);
    && OfService(part.0, svc.id) && part.1 >= pos
    && (Up(part.0, svc.Bucket(b)) ==> b < |svc.replicas| && MayLive(ctx, profile, i))
    && (b < |svc.replicas| && svc.replicas[b] > 0 && MayLive(ctx, profile, i) && ZeroFrom(stream, pos, part.1)
        ==> Up(part.0, svc.Bucket(b)))
  }

  lemma PartsAreGood(ctx: Context, profile: Profile, stream: Stream, i: nat, pos: nat, b: nat)
    requires i < |ctx.serviceIDs|
    ensures GoodPart(ctx, profile, stream, i, pos, b, ReplicaPart(ctx, profile, stream, i, pos))
    ensures GoodPart(ctx, profile, stream, i, pos, b, ServicePart(ctx, profile, stream, i, pos))
  {
    var svc, p := ctx.ServiceOf(ctx.serviceIDs[i]), ServiceLiveProbability(profile, ctx.serviceIDs[i]);
    DrawnUp(svc, p, stream, |svc.replicas|, pos, b);
    UniformUp(svc, |svc.replicas|, true, b);
    UniformUp(svc, |svc.replicas|, stream.draw(pos) < p, b);
  }

  /** The bucket map over the first `n` services, drawn part by part. */
  function Stage(ctx: Context, profile: Profile, stream: Stream, n: nat, pos: nat): (map<BucketId, bool>, nat)
    requires n <= |ctx.serviceIDs|
  {
    if profile.mode.IndependentReplica? then ReplicaBuckets(ctx, profile, stream, n, pos)
    else ServiceBuckets(ctx, profile, stream, n, pos)
  }

  function Part(ctx: Context, profile: Profile, stream: Stream, i: nat, pos: nat): (map<BucketId, bool>, nat)
    requires i < |ctx.serviceIDs|
  {
    if profile.mode.IndependentReplica? then ReplicaPart(ctx, profile, stream, i, pos)
    else ServicePart(ctx, profile, stream, i, pos)
  }

  lemma StageStep(ctx: Context, profile: Profile, stream: Stream, n: nat, pos: nat)
    requires 0 < n <= |ctx.serviceIDs|
    ensures var before := Stage(ctx, profile, stream, n - 1, pos);
      var part := Part(ctx, profile, stream, n - 1, before.1);
      Stage(ctx, profile, stream, n, pos) == (before.0 + part.0, part.1)
  {
  }

  /** Bucket `b` of service `i` is up only if the service may live, and is up when only zeros are drawn. */
  ghost predicate GoodStage(ctx: Context, profile: Profile, stream: Stream, n: nat, pos: nat, i: nat, b: nat,
      stage: (map<BucketId, bool>, nat))
    requires i < |ctx.serviceIDs|
  {
    var svc := ctx.ServiceOf(ctx.serviceIDs[i]);
    && stage.1 >= pos
    && (Up(stage.0, svc.Bucket(b)) ==> i < n && b < |svc.replicas| && MayLive(ctx, profile, i))
    && (i < n && b < |svc.replicas| && svc.replicas[b] > 0 && MayLive(ctx, profile, i) && ZeroFrom(stream, pos, stage.1)
        ==> Up(stage.0, svc.Bucket(b)))
  }

  lemma OtherPart(ctx: Context, profile: Profile, stream: Stream, n: nat, pos: nat, i: nat, b: nat,
      stage: (map<BucketId, bool>, nat), part: (map<BucketId, bool>, nat))
    requires SlotList.Entries(ctx) && n < |ctx.serviceIDs| && i < |ctx.serviceIDs| && i != n
    requires GoodStage(ctx, profile, stream, n, pos, i, b, stage)
    requires part.1 >= stage.1 && OfService(part.0, ctx.ServiceOf(ctx.serviceIDs[n]).id)
    ensures GoodStage(ctx, profile, stream, n + 1, pos, i, b, (stage.0 + part.0, part.1))
  {
    assert SlotList.Entry(ctx, i) && SlotList.Entry(ctx, n);
    SlotList.EntriesDiffer(ctx, i, n);
  }

  lemma OwnPart(ctx: Context, profile: Profile, stream: Stream, n: nat, pos: nat, b: nat,
      stage: (map<BucketId, bool>, nat), part: (map<BucketId, bool>, nat))
    requires n < |ctx.serviceIDs|
    requires GoodStage(ctx, profile, stream, n, pos, n, b, stage)
    requires GoodPart(ctx, profile, stream, n, stage.1, b, part)
    ensures GoodStage(ctx, profile, stream, n + 1, pos, n, b, (stage.0 + part.0, part.1))
  {
  }

  lemma {:induction false} StageAt(ctx: Context, profile: Profile, stream: Stream, n: nat, pos: nat, i: nat, b: nat)
    requires SlotList.Entries(ctx) && n <= |ctx.serviceIDs| && i < |ctx.serviceIDs|
    ensures GoodStage(ctx, profile, stream, n, pos, i, b, Stage(ctx, profile, stream, n, pos))
  {
    if n > 0 {
      StageAt(ctx, profile, stream, n - 1, pos, i, b);
      StageStep(ctx, profile, stream, n, pos);
      var before := Stage(ctx, profile, stream, n - 1, pos);
      var part := Part(ctx, profile, stream, n - 1, before.1);
      PartsAreGood(ctx, profile, stream, n - 1, before.1, b);
      if i == n - 1 {
        OwnPart(ctx, profile, stream, n - 1, pos, b, before, part);
      } else {
        OtherPart(ctx, profile, stream, n - 1, pos, i, b, before, part);
      }
    }
  }

  /** Where independent sampling stops does not depend on what it draws. */
  lemma {:induction false} StageCursor(ctx: Context, profile: Profile, stream: Stream, other: Stream, n: nat, pos: nat)
    requires n <= |ctx.serviceIDs|
    ensures Stage(ctx, profile, stream, n, pos).1 == Stage(ctx, profile, other, n, pos).1 >= pos
  {
    if n > 0 {
      StageCursor(ctx, profile, stream, other, n - 1, pos);
      var at := Stage(ctx, profile, stream, n - 1, pos).1;
      StageStep(ctx, profile, stream, n, pos);
      StageStep(ctx, profile, other, n, pos);
      DrawsCursor(ctx.ServiceOf(ctx.serviceIDs[n - 1]), ServiceLiveProbability(profile, ctx.serviceIDs[n - 1]), stream,
          other,
                  |ctx.ServiceOf(ctx.serviceIDs[n - 1]).replicas|, at);
    }
  }

  lemma {:induction false} DrawsCursor(svc: Service, p: real, stream: Stream, other: Stream, m: nat, pos: nat)
    requires m <= |svc.replicas|
    ensures ReplicaDraws(svc, p, stream, m, pos).1 == ReplicaDraws(svc, p, other, m, pos).1 >= pos
  {
    if m > 0 {
      DrawsCursor(svc, p, stream, other, m - 1, pos);
    }
  }

  // ----- fixed numbers of failed services

  lemma {:induction false} SurvivingServicesAt(ctx: Context, failed: seq<Id>, n: nat, i: nat, b: nat)
    requires SlotList.Entries(ctx) && n <= |ctx.serviceIDs| && i < |ctx.serviceIDs|
    ensures var svc := ctx.ServiceOf(ctx.serviceIDs[i]);
      Up(SurvivingServices(ctx, failed, n), svc.Bucket(b))
      <==> i < n && b < |svc.replicas| && ctx.serviceIDs[i] !in failed
  {
    if n > 0 {
      SurvivingServicesAt(ctx, failed, n - 1, i, b);
      var svc := ctx.ServiceOf(ctx.serviceIDs[n - 1]);
      assert SlotList.Entry(ctx, n - 1) && SlotList.Entry(ctx, i);
      UniformUp(svc, |svc.replicas|, ctx.serviceIDs[n - 1] !in failed, b);
      if i != n - 1 {
        SlotList.EntriesDiffer(ctx, i, n - 1);
      }
    }
  }

  lemma {:induction false} CandidateAt(ctx: Context, n: nat, j: nat) returns (i: nat)
    requires n <= |ctx.serviceIDs| && j < |Candidates(ctx, n)|
    ensures i < n && ctx.serviceIDs[i] == Candidates(ctx, n)[j] && ctx.ServiceOf(ctx.serviceIDs[i]).samplingEligible
  {
    if j < |Candidates(ctx, n - 1)| {
      i := CandidateAt(ctx, n - 1, j);
    } else {
      i := n - 1;
    }
  }

  lemma {:induction false} CandidateIndex(ctx: Context, n: nat, i: nat) returns (j: nat)
    requires i < n <= |ctx.serviceIDs| && ctx.ServiceOf(ctx.serviceIDs[i]).samplingEligible
    ensures j < |Candidates(ctx, n)| && Candidates(ctx, n)[j] == ctx.serviceIDs[i]
  {
    if i < n - 1 {
      j := CandidateIndex(ctx, n - 1, i);
    } else {
      j := |Candidates(ctx, n)| - 1;
    }
  }

  lemma {:induction false} CandidatesDiffer(ctx: Context, n: nat, j: nat, k: nat)
    requires SlotList.Entries(ctx) && n <= |ctx.serviceIDs| && j < k < |Candidates(ctx, n)|
    ensures Candidates(ctx, n)[j] != Candidates(ctx, n)[k]
  {
    if k < |Candidates(ctx, n - 1)| {
      CandidatesDiffer(ctx, n - 1, j, k);
    } else {
      var i := CandidateAt(ctx, n - 1, j);
      SlotList.EntriesDiffer(ctx, i, n - 1);
    }
  }

  /** The services of a population of services. */
  function ServiceNames(ctx: Context): seq<Option<Id>> {
    var all := Candidates(ctx, |ctx.serviceIDs|);
    seq(|all|, i requires 0 <= i < |all| => Some(all[i]))
  }

  lemma ServicesSurvive(ctx: Context, order: seq<nat>, k: nat, i: nat)
    requires SlotList.Entries(ctx) && i < |ctx.serviceIDs| && ctx.ServiceOf(ctx.serviceIDs[i]).samplingEligible
    requires var all := Candidates(ctx, |ctx.serviceIDs|); IsPermutation(order, |all|) && k <= |all|
    ensures Kept(ServiceNames(ctx), ctx.serviceIDs[i])
    ensures ctx.serviceIDs[i] !in Hit(Candidates(ctx, |ctx.serviceIDs|), order, k)
        <==> Survives(ServiceNames(ctx), order, k, ctx.serviceIDs[i])
  {
    var n, id := |ctx.serviceIDs|, ctx.serviceIDs[i];
    var all := Candidates(ctx, n);
    var hit := Hit(all, order, k);
    var at := CandidateIndex(ctx, n, i);
    assert Keeper(ServiceNames(ctx), id, at);
    PermutationReaches(order, at);
    var j: nat :| j < |order| && order[j] == at;
    if j < k {
      assert hit[j] == id;
      if Survives(ServiceNames(ctx), order, k, id) {
        var other: nat :| k <= other < |order| && Keeper(ServiceNames(ctx), id, order[other]);
        OnlyIndex(ctx, at, order[other]);
        assert false;
      }
    } else {
      assert Survives(ServiceNames(ctx), order, k, id);
      if id in hit {
        var other: nat :| other < k && hit[other] == id;
        OnlyIndex(ctx, at, order[other]);
        assert false;
      }
    }
  }

  lemma OnlyIndex(ctx: Context, j: nat, k: nat)
    requires SlotList.Entries(ctx) && j < |Candidates(ctx, |ctx.serviceIDs|)| && k < |Candidates(ctx, |ctx.serviceIDs|)|
    requires Candidates(ctx, |ctx.serviceIDs|)[j] == Candidates(ctx, |ctx.serviceIDs|)[k]
    ensures j == k
  {
    if j < k {
      CandidatesDiffer(ctx, |ctx.serviceIDs|, j, k);
    } else if k < j {
      CandidatesDiffer(ctx, |ctx.serviceIDs|, k, j);
    }
  }

  // ----- fixed numbers of failed slots

  /** The services of a population of slots; a slot in a hard-killed bucket keeps nothing up. */
  function SlotNames(ctx: Context, faults: Faults): seq<Option<Id>> {
    var all := Slots(ctx, |ctx.serviceIDs|);
    seq(|all|, i requires 0 <= i < |all| => if all[i] in faults.hardBucketKill then None else Some(all[i].service))
  }

  /** The entries that come after the first `k` of a permutation. */
  function Missed<T>(population: seq<T>, order: seq<nat>, k: nat): seq<T>
    requires IsPermutation(order, |population|) && k <= |population|
  {
    seq(|population| - k, t requires 0 <= t < |population| - k => population[order[k + t]])
  }

  lemma HitOrMissed<T>(population: seq<T>, order: seq<nat>, k: nat, x: T)
    requires IsPermutation(order, |population|) && k <= |population|
    ensures multiset(population)[x] == multiset(Hit(population, order, k))[x]
        + multiset(Missed(population, order, k))[x]
  {
    HitAll(population, order);
    assert Hit(population, order, |population|) == Hit(population, order, k) + Missed(population, order, k);
    SlotList.ConcatCount(Hit(population, order, k), Missed(population, order, k), x);
  }

  lemma MissedAt<T>(population: seq<T>, order: seq<nat>, k: nat, x: T)
    requires IsPermutation(order, |population|) && k <= |population|
    ensures x in Missed(population, order, k) <==> exists j: nat :: k <= j < |population| && population[order[j]] == x
  {
    var missed := Missed(population, order, k);
    if x in missed {
      var t: nat :| t < |missed| && missed[t] == x;
      assert population[order[k + t]] == x;
    }
    if j: nat :| k <= j < |population| && population[order[j]] == x {
      assert missed[j - k] == x;
    }
  }

  lemma Occurs<T>(s: seq<T>, x: T)
    ensures x in s <==> multiset(s)[x] > 0
  {
    assert x in s <==> x in multiset(s);
  }

  /** An entry occurs more often than in the first `k` hits exactly when it is hit later. */
  lemma HitLater<T>(population: seq<T>, order: seq<nat>, k: nat, x: T)
    requires IsPermutation(order, |population|) && k <= |population|
    ensures multiset(Hit(population, order, k))[x] < multiset(population)[x]
        <==> exists j: nat :: k <= j < |population| && population[order[j]] == x
  {
    HitOrMissed(population, order, k, x);
    MissedAt(population, order, k, x);
    Occurs(Missed(population, order, k), x);
  }

  lemma HitAll<T>(population: seq<T>, order: seq<nat>)
    requires IsPermutation(order, |population|)
    ensures multiset(Hit(population, order, |population|)) == multiset(population)
  {
    var all := Hit(population, order, |population|);
    SlotList.HitBounded(population, order, |population|);
    SameSize(multiset(all), multiset(population));
  }

  lemma SameSize<T>(a: multiset<T>, b: multiset<T>)
    requires a <= b && |a| == |b|
    ensures a == b
  {
    assert b == a + (b - a);
    assert |b - a| == 0;
  }

  /** A bucket of an eligible service survives exactly when one of its slots is not hit. */
  lemma BucketSurvives(ctx: Context, order: seq<nat>, k: nat, i: nat, b: nat)
    requires SlotList.Entries(ctx) && i < |ctx.serviceIDs| && ctx.ServiceOf(ctx.serviceIDs[i]).samplingEligible
    requires b < |ctx.ServiceOf(ctx.serviceIDs[i]).replicas|
    requires var all := Slots(ctx, |ctx.serviceIDs|); IsPermutation(order, |all|) && k <= |all|
    ensures var svc, all := ctx.ServiceOf(ctx.serviceIDs[i]), Slots(ctx, |ctx.serviceIDs|);
      Up(SurvivingSlots(ctx, multiset(Hit(all, order, k)), |ctx.serviceIDs|), svc.Bucket(b))
      <==> exists j: nat :: k <= j < |all| && all[order[j]] == svc.Bucket(b)
  {
    var all := Slots(ctx, |ctx.serviceIDs|);
    var x := ctx.ServiceOf(ctx.serviceIDs[i]).Bucket(b);
    assert SlotList.Entry(ctx, i);
    SlotList.SurvivingSlotsAt(ctx, multiset(Hit(all, order, k)), |ctx.serviceIDs|, i, b);
    SlotList.SlotsCount(ctx, |ctx.serviceIDs|, i, b);
    HitLater(all, order, k, x);
  }

  /** An eligible service stands after `k` failed slots exactly when a slot that can keep it up is not hit. */
  lemma SlotsSurvive(ctx: Context, faults: Faults, order: seq<nat>, k: nat, i: nat)
    requires SlotList.Entries(ctx) && i < |ctx.serviceIDs| && ctx.ServiceOf(ctx.serviceIDs[i]).samplingEligible
    requires var all := Slots(ctx, |ctx.serviceIDs|); IsPermutation(order, |all|) && k <= |all|
    ensures Stands(ctx, faults, SurvivingSlots(ctx, multiset(Hit(Slots(ctx, |ctx.serviceIDs|), order, k)),
        |ctx.serviceIDs|),
                   ctx.serviceIDs[i])
        <==> Survives(SlotNames(ctx, faults), order, k, ctx.serviceIDs[i])
  {
    var id, all := ctx.serviceIDs[i], Slots(ctx, |ctx.serviceIDs|);
    var svc := ctx.ServiceOf(id);
    var buckets := SurvivingSlots(ctx, multiset(Hit(all, order, k)), |ctx.serviceIDs|);
    assert SlotList.Entry(ctx, i);
    if Stands(ctx, faults, buckets, id) {
      var b: nat :| b < |svc.replicas| && svc.Bucket(b) !in faults.hardBucketKill && Up(buckets, svc.Bucket(b));
      BucketSurvives(ctx, order, k, i, b);
      var j: nat :| k <= j < |all| && all[order[j]] == svc.Bucket(b);
      assert Keeper(SlotNames(ctx, faults), id, order[j]);
    }
    if Survives(SlotNames(ctx, faults), order, k, id) {
      var j: nat :| k <= j < |order| && Keeper(SlotNames(ctx, faults), id, order[j]);
      var x := all[order[j]];
      var at := SlotList.SlotsAreEligible(ctx, |ctx.serviceIDs|, x);
      BucketSurvives(ctx, order, k, i, x.index);
      assert x == svc.Bucket(x.index);
    }
  }

  /** An eligible service with a bucket that is not hard-killed has a slot that can keep it up. */
  lemma SlotsKeep(ctx: Context, faults: Faults, i: nat, b: nat)
    requires SlotList.Entries(ctx) && i < |ctx.serviceIDs| && ctx.ServiceOf(ctx.serviceIDs[i]).samplingEligible
    requires var svc := ctx.ServiceOf(ctx.serviceIDs[i]);
      b < |svc.replicas| && svc.replicas[b] > 0 && svc.Bucket(b) !in faults.hardBucketKill
    ensures Kept(SlotNames(ctx, faults), ctx.serviceIDs[i])
  {
    var all := Slots(ctx, |ctx.serviceIDs|);
    var x := ctx.ServiceOf(ctx.serviceIDs[i]).Bucket(b);
    assert SlotList.Entry(ctx, i);
    SlotList.SlotsCount(ctx, |ctx.serviceIDs|, i, b);
    Occurs(all, x);
    var j: nat :| j < |all| && all[j] == x;
    assert Keeper(SlotNames(ctx, faults), ctx.serviceIDs[i], j);
  }
}
