/** Conservation of failed replica slots in fixed-slot sampling, and the derived number of failed slots. */
module Slots {
  import opened Wrappers
  import opened Ids
  import opened Draws
  import opened Topology
  import opened Sampling

  /** Failed slots over the first `m` buckets of a service. */
  function FailedIn(svc: Service, failed: multiset<BucketId>, m: nat): nat
    requires m <= |svc.replicas|
  {
    if m == 0 then 0 else FailedIn(svc, failed, m - 1) + failed[svc.Bucket(m - 1)]
  }

  /** Failed slots over all buckets of the first `n` services. */
  function FailedTotal(ctx: Context, failed: multiset<BucketId>, n: nat): nat
    requires n <= |ctx.serviceIDs|
  {
    if n == 0 then 0
    else
      var svc := ctx.ServiceOf(ctx.serviceIDs[n - 1]);
      FailedTotal(ctx, failed, n - 1) + FailedIn(svc, failed, |svc.replicas|)
  }

  function ReplicasIn(svc: Service, m: nat): nat
    requires m <= |svc.replicas|
  {
    if m == 0 then 0 else ReplicasIn(svc, m - 1) + svc.replicas[m - 1]
  }

  /** Entry `i` of the service list: its service carries that ID, and no earlier entry does. */
  ghost predicate Entry(ctx: Context, i: nat)
    requires i < |ctx.serviceIDs|
  {
    ctx.ServiceOf(ctx.serviceIDs[i]).id == ctx.serviceIDs[i]
    && forall j | 0 <= j < i :: ctx.serviceIDs[j] != ctx.serviceIDs[i]
  }

  ghost predicate Entries(ctx: Context) {
    forall i | 0 <= i < |ctx.serviceIDs| :: Entry(ctx, i)
  }

  lemma ValidEntries(ctx: Context)
    requires ctx.Valid()
    ensures Entries(ctx)
  {
    forall i | 0 <= i < |ctx.serviceIDs|
      ensures Entry(ctx, i)
    {
      assert ctx.serviceIDs[i] in ctx.services;
    }
  }

  lemma EntriesDiffer(ctx: Context, i: nat, j: nat)
    requires Entries(ctx) && i < |ctx.serviceIDs| && j < |ctx.serviceIDs| && i != j
    ensures ctx.serviceIDs[i] != ctx.serviceIDs[j]
  {
    assert Entry(ctx, i) && Entry(ctx, j);
  }

  lemma IndexOf(ctx: Context, id: Id) returns (i: nat)
    requires ctx.Valid() && id in ctx.services
    ensures i < |ctx.serviceIDs| && ctx.serviceIDs[i] == id
  {
    assert id in ctx.serviceIDs;
    i :| i < |ctx.serviceIDs| && ctx.serviceIDs[i] == id;
  }

  // ----- the slot list holds each eligible bucket once per replica

  lemma {:induction false} SlotsOfServiceCount(svc: Service, m: nat, id: BucketId)
    requires m <= |svc.replicas|
    ensures multiset(SlotsOfService(svc, m))[id] == if id.service == svc.id && id.index < m then svc.replicas[id.index]
        else 0
  {
    if m > 0 {
      SlotsOfServiceCount(svc, m - 1, id);
      RepeatCount(svc.Bucket(m - 1), svc.replicas[m - 1], id);
    }
  }

  lemma {:induction false} RepeatCount<T>(x: T, count: nat, y: T)
    ensures multiset(seq(count, _ => x))[y] == if x == y then count else 0
  {
    if count > 0 {
      RepeatCount(x, count - 1, y);
      assert seq(count, _ => x) == seq(count - 1, _ => x) + [x];
    }
  }

  /** The slots of bucket `b` of entry `i`, if its service is eligible. */
  function SlotsHeld(ctx: Context, i: nat, b: nat): nat
    requires i < |ctx.serviceIDs|
  {
    var svc := ctx.ServiceOf(ctx.serviceIDs[i]);
    if svc.samplingEligible && b < |svc.replicas| then svc.replicas[b] else 0
  }

  lemma ConcatCount<T>(a: seq<T>, b: seq<T>, x: T)
    ensures multiset(a + b)[x] == multiset(a)[x] + multiset(b)[x]
  {
  }

  lemma SlotsStep(ctx: Context, n: nat, x: BucketId)
    requires 0 < n <= |ctx.serviceIDs|
    ensures multiset(Slots(ctx, n))[x] == multiset(Slots(ctx, n - 1))[x] + multiset(SlotsAdded(ctx, n - 1))[x]
  {
    ConcatCount(Slots(ctx, n - 1), SlotsAdded(ctx, n - 1), x);
  }

  lemma AddedCount(ctx: Context, k: nat, i: nat, b: nat)
    requires Entries(ctx) && k < |ctx.serviceIDs| && i < |ctx.serviceIDs|
    ensures multiset(SlotsAdded(ctx, k))[BucketId(ctx.serviceIDs[i], b)] == if i == k then SlotsHeld(ctx, i, b) else 0
  {
    var svc := ctx.ServiceOf(ctx.serviceIDs[k]);
    assert Entry(ctx, k);
    SlotsOfServiceCount(svc, |svc.replicas|, BucketId(ctx.serviceIDs[i], b));
    if i != k {
      EntriesDiffer(ctx, i, k);
    }
  }

  /** A count that jumps by `jump` at step `at` and stays put otherwise. */
  lemma {:induction false} OneJump(count: nat -> nat, n: nat, at: nat, jump: nat)
    requires count(0) == 0 && forall k: nat | k < n :: count(k + 1) == count(k) + if at == k then jump else 0
    ensures count(n) == if at < n then jump else 0
  {
    if n > 0 {
      OneJump(count, n - 1, at, jump);
      assert count(n) == count((n - 1) + 1);
    }
  }

  function SlotsSoFar(ctx: Context, x: BucketId): nat -> nat {
    (k: nat) => if k <= |ctx.serviceIDs| then multiset(Slots(ctx, k))[x] else 0
  }

  lemma SlotsJump(ctx: Context, i: nat, b: nat, k: nat)
    requires Entries(ctx) && i < |ctx.serviceIDs| && k < |ctx.serviceIDs|
    ensures var soFar := SlotsSoFar(ctx, BucketId(ctx.serviceIDs[i], b));
      soFar(k + 1) == soFar(k) + if i == k then SlotsHeld(ctx, i, b) else 0
  {
    SlotsStep(ctx, k + 1, BucketId(ctx.serviceIDs[i], b));
    AddedCount(ctx, k, i, b);
  }

  lemma NoSlotsYet(ctx: Context, x: BucketId)
    ensures SlotsSoFar(ctx, x)(0) == 0
  {
    assert Slots(ctx, 0) == [];
  }

  lemma SlotsCount(ctx: Context, n: nat, i: nat, b: nat)
    requires Entries(ctx) && n <= |ctx.serviceIDs| && i < |ctx.serviceIDs|
    ensures multiset(Slots(ctx, n))[BucketId(ctx.serviceIDs[i], b)] == if i < n then SlotsHeld(ctx, i, b) else 0
  {
    var soFar, held := SlotsSoFar(ctx, BucketId(ctx.serviceIDs[i], b)), SlotsHeld(ctx, i, b);
    NoSlotsYet(ctx, BucketId(ctx.serviceIDs[i], b));
    forall k: nat | k < n
      ensures soFar(k + 1) == soFar(k) + if i == k then held else 0
    {
      SlotsJump(ctx, i, b, k);
    }
    OneJump(soFar, n, i, held);
  }

  /** Every slot belongs to a bucket of an eligible service. */
  lemma {:induction false} SlotsAreEligible(ctx: Context, n: nat, id: BucketId) returns (i: nat)
    requires Entries(ctx) && n <= |ctx.serviceIDs| && id in Slots(ctx, n)
    ensures i < n && ctx.serviceIDs[i] == id.service && id.index < |ctx.ServiceOf(id.service).replicas|
    ensures ctx.ServiceOf(id.service).samplingEligible
  {
    if id in Slots(ctx, n - 1) {
      i := SlotsAreEligible(ctx, n - 1, id);
    } else {
      i := n - 1;
      assert Entry(ctx, i);
      var svc := ctx.ServiceOf(ctx.serviceIDs[i]);
      SlotsOfServiceCount(svc, |svc.replicas|, id);
      assert id in SlotsOfService(svc, |svc.replicas|);
      assert multiset(SlotsOfService(svc, |svc.replicas|))[id] > 0;
    }
  }

  // ----- an injective selection takes no element more often than the population holds it

  ghost predicate Selection(indices: seq<nat>, n: nat) {
    && (forall i | 0 <= i < |indices| :: indices[i] < n)
    && (forall i, j | 0 <= i < j < |indices| :: indices[i] != indices[j])
  }

  function Picked<T>(population: seq<T>, indices: seq<nat>): seq<T>
    requires forall i | 0 <= i < |indices| :: indices[i] < |population|
  {
    seq(|indices|, i requires 0 <= i < |indices| => population[indices[i]])
  }

  lemma {:induction false} SelectionBounded<T>(population: seq<T>, indices: seq<nat>)
    requires Selection(indices, |population|)
    ensures multiset(Picked(population, indices)) <= multiset(population)
    decreases |population|
  {
    if indices == [] {
      assert Picked(population, indices) == [];
    } else {
      var n := |population|;
      assert indices[0] < n;
      var rest := population[..n - 1];
      assert population == rest + [population[n - 1]];
      if j :| 0 <= j < |indices| && indices[j] == n - 1 {
        SelectionWithout(indices, n, j);
        SelectionBounded(rest, indices[..j] + indices[j + 1..]);
        PickedWithout(population, indices, j);
      } else {
        SelectionBounded(rest, indices);
        assert Picked(rest, indices) == Picked(population, indices);
      }
    }
  }

  lemma WithoutOne<T>(s: seq<T>, j: nat)
    requires j < |s|
    ensures multiset(s) == multiset(s[..j] + s[j + 1..]) + multiset{s[j]}
  {
    assert s == s[..j] + [s[j]] + s[j + 1..];
  }

  lemma PickedWithout<T>(population: seq<T>, indices: seq<nat>, j: nat)
    requires Selection(indices, |population|) && j < |indices| && indices[j] == |population| - 1
    requires Selection(indices[..j] + indices[j + 1..], |population| - 1)
    ensures multiset(Picked(population, indices))
         == multiset(Picked(population[..|population| - 1], indices[..j] + indices[j + 1..]))
             + multiset{population[|population| - 1]}
  {
    var last := population[|population| - 1];
    var picked := Picked(population, indices);
    assert Picked(population[..|population| - 1], indices[..j] + indices[j + 1..]) == picked[..j] + picked[j + 1..];
    WithoutOne(picked, j);
  }

  lemma SelectionWithout(indices: seq<nat>, n: nat, j: nat)
    requires Selection(indices, n) && j < |indices| && indices[j] == n - 1
    ensures Selection(indices[..j] + indices[j + 1..], n - 1)
  {
    var others := indices[..j] + indices[j + 1..];
    forall i | 0 <= i < |others|
      ensures others[i] < n - 1
    {
      var at := if i < j then i else i + 1;
      assert others[i] == indices[at] && (if at < j then indices[at] != indices[j] else indices[j] != indices[at]);
    }
  }

  lemma HitBounded<T>(population: seq<T>, indices: seq<nat>, k: nat)
    requires IsPermutation(indices, |population|) && k <= |population|
    ensures multiset(Hit(population, indices, k)) <= multiset(population)
  {
    SelectionBounded(population, indices[..k]);
    assert Picked(population, indices[..k]) == Hit(population, indices, k);
  }

  // ----- each failed slot is counted in exactly one bucket

  lemma {:induction false} FailedInStep(svc: Service, failed: multiset<BucketId>, m: nat, id: BucketId)
    requires m <= |svc.replicas|
    ensures FailedIn(svc, failed + multiset{id}, m)
         == FailedIn(svc, failed, m) + if id.service == svc.id && id.index < m then 1 else 0
  {
    if m > 0 {
      FailedInStep(svc, failed, m - 1, id);
    }
  }

  lemma {:induction false} FailedTotalStep(ctx: Context, failed: multiset<BucketId>, n: nat, i: nat, b: nat)
    requires Entries(ctx) && n <= |ctx.serviceIDs| && i < |ctx.serviceIDs|
    requires b < |ctx.ServiceOf(ctx.serviceIDs[i]).replicas|
    ensures FailedTotal(ctx, failed + multiset{BucketId(ctx.serviceIDs[i], b)}, n)
         == FailedTotal(ctx, failed, n) + if i < n then 1 else 0
  {
    if n > 0 {
      FailedTotalStep(ctx, failed, n - 1, i, b);
      var svc := ctx.ServiceOf(ctx.serviceIDs[n - 1]);
      assert Entry(ctx, n - 1);
      if i != n - 1 {
        EntriesDiffer(ctx, i, n - 1);
      }
      FailedInStep(svc, failed, |svc.replicas|, BucketId(ctx.serviceIDs[i], b));
    }
  }

  lemma {:induction false} FailedTotalCounts(ctx: Context, hit: seq<BucketId>)
    requires Entries(ctx) && forall id | id in hit :: id in Slots(ctx, |ctx.serviceIDs|)
    ensures FailedTotal(ctx, multiset(hit), |ctx.serviceIDs|) == |hit|
  {
    var n := |ctx.serviceIDs|;
    if hit == [] {
      FailedTotalEmpty(ctx, n);
    } else {
      var front, last := hit[..|hit| - 1], hit[|hit| - 1];
      assert hit == front + [last];
      FailedTotalCounts(ctx, front);
      assert last in hit;
      var i := SlotsAreEligible(ctx, n, last);
      FailedTotalStep(ctx, multiset(front), n, i, last.index);
      assert last == BucketId(ctx.serviceIDs[i], last.index);
    }
  }

  lemma {:induction false} FailedTotalEmpty(ctx: Context, n: nat)
    requires n <= |ctx.serviceIDs|
    ensures FailedTotal(ctx, multiset{}, n) == 0
  {
    if n > 0 {
      FailedTotalEmpty(ctx, n - 1);
      var svc := ctx.ServiceOf(ctx.serviceIDs[n - 1]);
      NoneFailed(svc, multiset{}, |svc.replicas|);
    }
  }

  // ----- what the sampled bucket map says

  lemma {:induction false} SurvivingBucketsAt(svc: Service, failed: multiset<BucketId>, m: nat, id: BucketId)
    requires m <= |svc.replicas|
    ensures id in SurvivingBuckets(svc, m, failed) <==> id.service == svc.id && id.index < m
    ensures id in SurvivingBuckets(svc, m, failed) ==>
              SurvivingBuckets(svc, m, failed)[id] == (failed[id] < svc.replicas[id.index])
  {
    if m > 0 {
      SurvivingBucketsAt(svc, failed, m - 1, id);
    }
  }

  lemma {:induction false} SurvivingSlotsAt(ctx: Context, failed: multiset<BucketId>, n: nat, i: nat, b: nat)
    requires Entries(ctx) && n <= |ctx.serviceIDs| && i < |ctx.serviceIDs|
    ensures var svc := ctx.ServiceOf(ctx.serviceIDs[i]);
      Up(SurvivingSlots(ctx, failed, n), svc.Bucket(b))
      <==> i < n && b < |svc.replicas| && failed[svc.Bucket(b)] < svc.replicas[b]
  {
    assert Entry(ctx, i);
    if n > 0 {
      SurvivingSlotsAt(ctx, failed, n - 1, i, b);
      var svc := ctx.ServiceOf(ctx.serviceIDs[n - 1]);
      assert Entry(ctx, n - 1);
      if i != n - 1 {
        EntriesDiffer(ctx, i, n - 1);
      }
      SurvivingBucketsAt(svc, failed, |svc.replicas|, ctx.ServiceOf(ctx.serviceIDs[i]).Bucket(b));
    }
  }

  /**
   With no bucket over-counted, all slots of the service failed exactly when each of its buckets failed completely.
   */
  lemma {:induction false} AllSlotsFailed(svc: Service, failed: multiset<BucketId>, m: nat)
    requires m <= |svc.replicas|
    requires forall b | 0 <= b < m :: failed[svc.Bucket(b)] <= svc.replicas[b]
    ensures FailedIn(svc, failed, m) <= ReplicasIn(svc, m)
    ensures FailedIn(svc, failed, m) == ReplicasIn(svc, m)
        <==> forall b | 0 <= b < m :: failed[svc.Bucket(b)] == svc.replicas[b]
  {
    if m > 0 {
      AllSlotsFailed(svc, failed, m - 1);
    }
  }

  /** The slots failed by a trial with k failures on a tape. */
  ghost function FailedSlots(ctx: Context, stream: Stream, pos: nat, k: nat): multiset<BucketId>
    requires k <= |Slots(ctx, |ctx.serviceIDs|)|
  {
    var population := Slots(ctx, |ctx.serviceIDs|);
    multiset(Hit(population, stream.perm(pos, |population|), k))
  }

  /** What slot conservation says of one service. */
  ghost predicate SlotsAccounted(ctx: Context, failed: multiset<BucketId>, id: Id) {
    var svc := ctx.ServiceOf(id);
    && svc.id == id
    && (forall b: nat | b < |svc.replicas| :: failed[svc.Bucket(b)] <= svc.replicas[b])
    && (!svc.samplingEligible ==> FailedIn(svc, failed, |svc.replicas|) == 0)
    && (ServiceUp(ctx, SurvivingSlots(ctx, failed, |ctx.serviceIDs|), id)
        <==> FailedIn(svc, failed, |svc.replicas|) != ReplicasIn(svc, |svc.replicas|))
  }

  /**
   Exactly k slots fail, spread over the buckets without over-counting any; an ineligible service loses none; and
   before fault overlays a service is down exactly when all its slots failed.
   */
  lemma SlotConservation(ctx: Context, profile: Profile, stream: Stream, pos: nat)
    requires ctx.Valid() && profile.mode.FixedKReplicaSlots?
    requires 0 <= profile.fixedKFailures <= |Slots(ctx, |ctx.serviceIDs|)|
    ensures BucketStage(ctx, profile, stream, pos).Ok?
    ensures var failed := FailedSlots(ctx, stream, pos, profile.fixedKFailures);
      && FailedTotal(ctx, failed, |ctx.serviceIDs|) == profile.fixedKFailures
      && BucketStage(ctx, profile, stream, pos).value.0 == SurvivingSlots(ctx, failed, |ctx.serviceIDs|)
      && forall id | id in ctx.services :: SlotsAccounted(ctx, failed, id)
  {
    var n, k := |ctx.serviceIDs|, profile.fixedKFailures;
    var population := Slots(ctx, n);
    var hit := Hit(population, stream.perm(pos, |population|), k);
    var failed := FailedSlots(ctx, stream, pos, k);
    ValidEntries(ctx);
    HitBounded(population, stream.perm(pos, |population|), k);
    assert k == 0 ==> hit == [];
    assert BucketStage(ctx, profile, stream, pos).value.0 == SurvivingSlots(ctx, failed, n);
    FailedAreSlots(ctx, hit);
    FailedTotalCounts(ctx, hit);
    forall id | id in ctx.services
      ensures SlotsAccounted(ctx, failed, id)
    {
      var i := IndexOf(ctx, id);
      ServiceDownExactly(ctx, failed, i);
    }
  }

  lemma FailedAreSlots(ctx: Context, hit: seq<BucketId>)
    requires multiset(hit) <= multiset(Slots(ctx, |ctx.serviceIDs|))
    ensures forall id | id in hit :: id in Slots(ctx, |ctx.serviceIDs|)
  {
    forall id | id in hit
      ensures id in Slots(ctx, |ctx.serviceIDs|)
    {
      assert multiset(hit)[id] > 0;
      assert id in multiset(Slots(ctx, |ctx.serviceIDs|));
    }
  }

  lemma BucketsBounded(ctx: Context, failed: multiset<BucketId>, i: nat, b: nat)
    requires Entries(ctx) && i < |ctx.serviceIDs| && failed <= multiset(Slots(ctx, |ctx.serviceIDs|))
    requires b < |ctx.ServiceOf(ctx.serviceIDs[i]).replicas|
    ensures var svc := ctx.ServiceOf(ctx.serviceIDs[i]);
      failed[svc.Bucket(b)] <= if svc.samplingEligible then svc.replicas[b] else 0
  {
    assert Entry(ctx, i);
    SlotsCount(ctx, |ctx.serviceIDs|, i, b);
  }

  lemma ServiceDownExactly(ctx: Context, failed: multiset<BucketId>, i: nat)
    requires Entries(ctx) && i < |ctx.serviceIDs| && failed <= multiset(Slots(ctx, |ctx.serviceIDs|))
    ensures SlotsAccounted(ctx, failed, ctx.serviceIDs[i])
  {
    var svc, n := ctx.ServiceOf(ctx.serviceIDs[i]), |ctx.serviceIDs|;
    assert Entry(ctx, i);
    forall b: nat | b < |svc.replicas|
      ensures failed[svc.Bucket(b)] <= if svc.samplingEligible then svc.replicas[b] else 0
    {
      BucketsBounded(ctx, failed, i, b);
    }
    if !svc.samplingEligible {
      NoneFailed(svc, failed, |svc.replicas|);
    }
    UpUnlessAllFailed(ctx, failed, i);
  }

  lemma UpUnlessAllFailed(ctx: Context, failed: multiset<BucketId>, i: nat)
    requires Entries(ctx) && i < |ctx.serviceIDs|
    requires var svc := ctx.ServiceOf(ctx.serviceIDs[i]);
      forall b: nat | b < |svc.replicas| :: failed[svc.Bucket(b)] <= svc.replicas[b]
    ensures var svc := ctx.ServiceOf(ctx.serviceIDs[i]);
      ServiceUp(ctx, SurvivingSlots(ctx, failed, |ctx.serviceIDs|), ctx.serviceIDs[i])
      <==> FailedIn(svc, failed, |svc.replicas|) != ReplicasIn(svc, |svc.replicas|)
  {
    var svc, n := ctx.ServiceOf(ctx.serviceIDs[i]), |ctx.serviceIDs|;
    forall b: nat | b < |svc.replicas|
      ensures Up(SurvivingSlots(ctx, failed, n), svc.Bucket(b)) <==> failed[svc.Bucket(b)] < svc.replicas[b]
    {
      SurvivingSlotsAt(ctx, failed, n, i, b);
    }
    AllSlotsFailed(svc, failed, |svc.replicas|);
  }

  lemma {:induction false} NoneFailed(svc: Service, failed: multiset<BucketId>, m: nat)
    requires m <= |svc.replicas| && forall b: nat | b < m :: failed[svc.Bucket(b)] == 0
    ensures FailedIn(svc, failed, m) == 0
  {
    if m > 0 {
      NoneFailed(svc, failed, m - 1);
    }
  }

  // ----- the derived number of failed slots

  function Ceil(x: real): int {
    -((-x).Floor)
  }

  /** The slot mode's k, derived from the failure probability when not given; more failures than slots is an error. */
  function ResolveDerivedFixedK(profile: Profile, totalSlots: nat): Result<Profile> {
    if !profile.mode.FixedKReplicaSlots? then Ok(profile)
    else
      var k := if profile.fixedKFailures == 0 && profile.failureProbability > 0.0
               then Ceil(profile.failureProbability * totalSlots as real) else profile.fixedKFailures;
      if k > totalSlots then Err("fixed_k_failures exceeds replica slot count") else Ok(profile.(fixedKFailures := k))
  }

  /**
   A derived k is the least integer covering the requested share of slots, and never asks for more slots than exist.
   */
  lemma DerivedKFits(profile: Profile, totalSlots: nat)
    requires profile.mode.FixedKReplicaSlots? && profile.fixedKFailures == 0
    requires 0.0 <= profile.failureProbability <= 1.0
    ensures var r := ResolveDerivedFixedK(profile, totalSlots);
      && r.Ok?
      && var k, share := r.value.fixedKFailures, profile.failureProbability * totalSlots as real;
      && 0 <= k <= totalSlots
      && share <= k as real < share + 1.0
      && (k == 0 <==> profile.failureProbability == 0.0 || totalSlots == 0)
  {
    var p, t := profile.failureProbability, totalSlots as real;
    assert 0.0 <= p * t && p * t <= t by {
      assert (1.0 - p) * t >= 0.0;
    }
    if p > 0.0 && totalSlots > 0 {
      assert p * t > 0.0;
    }
  }

  /** The size of the slot population equals the total the engine computes by adding bucket sizes. */
  function TotalSlots(ctx: Context, n: nat): (total: nat)
    requires n <= |ctx.serviceIDs|
    ensures total == |Slots(ctx, n)|
  {
    if n == 0 then 0
    else
      var svc := ctx.ServiceOf(ctx.serviceIDs[n - 1]);
      SlotsOfServiceLength(svc, |svc.replicas|);
      TotalSlots(ctx, n - 1) + if svc.samplingEligible then ReplicasIn(svc, |svc.replicas|) else 0
  }

  lemma {:induction false} SlotsOfServiceLength(svc: Service, m: nat)
    requires m <= |svc.replicas|
    ensures |SlotsOfService(svc, m)| == ReplicasIn(svc, m)
  {
    if m > 0 {
      SlotsOfServiceLength(svc, m - 1);
    }
  }
}
