/** Service-set sampling fails exactly the number of services it is asked to fail, all of them eligible. */
module ServiceSets {
  import opened Wrappers
  import opened Ids
  import opened Draws
  import opened Topology
  import opened Sampling
  import opened Populations
  import opened Feasibility
  import SlotList = Slots

  /** The services that are down before fault overlays. */
  ghost function DownServices(ctx: Context, buckets: map<BucketId, bool>): set<Id> {
    set id | id in ctx.services && !ServiceUp(ctx, buckets, id)
  }

  ghost function Members(ids: seq<Id>): set<Id> {
    set i | 0 <= i < |ids| :: ids[i]
  }

  lemma {:induction false} DistinctMembers(ids: seq<Id>)
    requires forall i, j | 0 <= i < j < |ids| :: ids[i] != ids[j]
    ensures |Members(ids)| == |ids|
  {
    if |ids| > 0 {
      var front, last := ids[..|ids| - 1], ids[|ids| - 1];
      DistinctMembers(front);
      assert last !in Members(front);
      assert Members(ids) == Members(front) + {last} by {
        forall x
          ensures x in Members(ids) <==> x in Members(front) || x == last
        {
          if x in Members(front) {
            var i :| 0 <= i < |front| && front[i] == x;
            assert ids[i] == x;
          }
          if x in Members(ids) && x != last {
            var i :| 0 <= i < |ids| && ids[i] == x;
            assert front[i] == x;
          }
        }
      }
    }
  }

  /** The services hit are different ones, and eligible. */
  lemma HitServices(ctx: Context, order: seq<nat>, k: nat)
    requires ctx.Valid() && IsPermutation(order, |Candidates(ctx, |ctx.serviceIDs|)|) && k <= |order|
    ensures var hit := Hit(Candidates(ctx, |ctx.serviceIDs|), order, k);
      |Members(hit)| == k && Members(hit) <= EligibleServices(ctx)
  {
    var n := |ctx.serviceIDs|;
    var all := Candidates(ctx, n);
    var hit := Hit(all, order, k);
    SlotList.ValidEntries(ctx);
    forall i, j | 0 <= i < j < |hit|
      ensures hit[i] != hit[j]
    {
      if order[i] < order[j] {
        CandidatesDiffer(ctx, n, order[i], order[j]);
      } else {
        CandidatesDiffer(ctx, n, order[j], order[i]);
      }
    }
    DistinctMembers(hit);
    forall i | 0 <= i < |hit|
      ensures hit[i] in EligibleServices(ctx)
    {
      var at := CandidateAt(ctx, n, order[i]);
    }
  }

  /** The services that are down are those named. */
  lemma DownExactly(ctx: Context, failed: seq<Id>)
    requires ctx.Valid() && Members(failed) <= ctx.services.Keys
    ensures DownServices(ctx, SurvivingServices(ctx, failed, |ctx.serviceIDs|)) == Members(failed)
  {
    var n := |ctx.serviceIDs|;
    var buckets := SurvivingServices(ctx, failed, n);
    SlotList.ValidEntries(ctx);
    forall id | id in ctx.services
      ensures ServiceUp(ctx, buckets, id) <==> id !in failed
    {
      assert id in ctx.serviceIDs;
      var i: nat :| i < n && ctx.serviceIDs[i] == id;
      SurvivingServicesAt(ctx, failed, n, i, 0);
      if b: nat :| b < |ctx.ServiceOf(id).replicas| && Up(buckets, ctx.ServiceOf(id).Bucket(b)) {
        SurvivingServicesAt(ctx, failed, n, i, b);
      }
    }
    assert forall id :: id in failed <==> id in Members(failed);
  }

  /**
   In every trial exactly k services are down before fault overlays, whatever permutation is drawn, and none of them is
   exempt from sampling; without failures to place none is down.
   */
  lemma ServiceSetConservation(ctx: Context, profile: Profile, stream: Stream, pos: nat)
    requires ctx.Valid() && profile.mode.FixedKServiceSet?
    requires profile.fixedKFailures <= |EligibleServices(ctx)|
    ensures BucketStage(ctx, profile, stream, pos).Ok?
    ensures var down := DownServices(ctx, BucketStage(ctx, profile, stream, pos).value.0);
      && |down| == (if profile.fixedKFailures > 0 then profile.fixedKFailures else 0)
      && down <= EligibleServices(ctx)
  {
    PopulationIsEligible(ctx);
    var all := Candidates(ctx, |ctx.serviceIDs|);
    var order := stream.perm(pos, |all|);
    if profile.fixedKFailures > 0 {
      HitServices(ctx, order, profile.fixedKFailures);
      DownExactly(ctx, Hit(all, order, profile.fixedKFailures));
    } else {
      assert Members([]) == {};
      DownExactly(ctx, []);
    }
  }
}
