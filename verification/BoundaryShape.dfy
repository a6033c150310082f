/** Every field of a boundary, in terms of where the points stop being certified and stop meeting the SLO. */
module BoundaryShape {
  import opened Wrappers
  import opened Ids
  import opened Sorting
  import opened Boundaries
  import opened Sweeps
  import opened BoundaryRules
  import opened BoundaryCauses

  /** Exactly the first `n` points come before the first one that is not certified. */
  ghost predicate CertainTo(points: seq<Point>, id: Id, slo: real, n: nat) {
    && n <= |points| && CertainUpTo(points, id, slo, n)
    && (n < |points| ==> LowerAt(points[n], id) < slo)
  }

  /** Exactly the first `m` points come before the first one that is observed below the SLO. */
  ghost predicate MeetsTo(points: seq<Point>, id: Id, slo: real, m: nat) {
    && m <= |points| && (forall i | 0 <= i < m :: LevelAt(points[i], id) >= slo)
    && (m < |points| ==> LevelAt(points[m], id) < slo)
  }

  /** The boundary point is the point's axis value with what it says of the endpoint. */
  predicate Shows(at: Option<BoundaryPoint>, point: Point, id: Id) {
    && at.Some? && at.value.axis == point.axis && at.value.availability == LevelAt(point, id)
    && at.value.lower == LowerAt(point, id) && at.value.upper == UpperAt(point, id)
  }

  /** The four outcomes of certification, each with its condition. */
  ghost predicate CertificationIs(points: seq<Point>, id: Id, slo: real, n: nat, certification: Certification)
    requires n <= |points|
  {
    && (certification == Certified <==> 0 < n < |points| && UpperAt(points[n], id) < slo)
    && (certification == CertifiedThroughEnd <==> 0 < n == |points|)
    && (certification == StartsBelowSLO <==> n == 0 < |points| && UpperAt(points[0], id) < slo)
    && (certification == Indeterminate <==> points == [] || (n < |points| && UpperAt(points[n], id) >= slo))
  }

  /** The four outcomes of observation. */
  ghost predicate StatusIs(points: seq<Point>, id: Id, m: nat, status: Status) {
    && (status == NonMonotonic <==> !Falls(points, id))
    && (status == NotCrossed <==> Falls(points, id) && m == |points|)
    && (status == BelowSLOAtStart <==> Falls(points, id) && m == 0 < |points|)
    && (status == Crossed <==> Falls(points, id) && 0 < m < |points|)
  }

  lemma CertificationExactly(points: seq<Point>, target: Target) returns (n: nat)
    ensures CertainTo(points, target.endpointID, target.slo, n)
    ensures CertificationIs(points, target.endpointID, target.slo, n, CertificationOf(points, target))
    ensures var certified := BoundaryOf(points, target).certified;
      if n == 0 then certified.None? else Shows(certified, points[n - 1], target.endpointID)
  {
    n := CertifiedPrefix(points, target);
    PointsAgree(points, target);
  }

  lemma StatusFromPrefix(points: seq<Point>, target: Target)
    ensures StatusIs(points, target.endpointID, MeetingPrefix(points, target), BoundaryOf(points, target).status)
    ensures BoundaryOf(points, target).observedMonotonic <==> Falls(points, target.endpointID)
  {
    PointsAgree(points, target);
  }

  lemma MeetingShown(points: seq<Point>, target: Target) returns (m: nat)
    ensures m == MeetingPrefix(points, target) && MeetsTo(points, target.endpointID, target.slo, m)
    ensures var boundary := BoundaryOf(points, target);
      && (if m == 0 then boundary.lastMeeting.None?
          else Shows(boundary.lastMeeting, points[m - 1], target.endpointID))
      && (if m == |points| then boundary.firstViolating.None?
          else Shows(boundary.firstViolating, points[m], target.endpointID))
  {
    m := MeetingPrefix(points, target);
    assert forall i | 0 <= i < m :: Meets(points[i], target);
  }

  lemma BracketShown(points: seq<Point>, target: Target)
    ensures var boundary, m := BoundaryOf(points, target), MeetingPrefix(points, target);
      if boundary.status.Crossed?
      then 0 < m < |points| && boundary.bracket == Some((points[m - 1].axis, points[m].axis))
      else boundary.bracket.None?
  {
  }

  /**
   The boundary the engine builds, field by field and both ways round, where the points stop being certified at `n` and
   stop meeting the SLO at `m`.
   */
  lemma BoundaryExactly(points: seq<Point>, target: Target, n: nat, m: nat)
    requires CertainTo(points, target.endpointID, target.slo, n) && MeetsTo(points, target.endpointID, target.slo, m)
    ensures var boundary, id := BoundaryOf(points, target), target.endpointID;
      && boundary.endpointID == id && boundary.slo == target.slo
      && CertificationIs(points, id, target.slo, n, boundary.certification)
      && StatusIs(points, id, m, boundary.status)
      && (boundary.observedMonotonic <==> Falls(points, id))
      && (if n == 0 then boundary.certified.None? else Shows(boundary.certified, points[n - 1], id))
      && (if m == 0 then boundary.lastMeeting.None? else Shows(boundary.lastMeeting, points[m - 1], id))
      && (if m == |points| then boundary.firstViolating.None? else Shows(boundary.firstViolating, points[m], id))
      && boundary.bracket == if boundary.status.Crossed? then Some((points[m - 1].axis, points[m].axis)) else None
  {
    var c := CertificationExactly(points, target);
    var v := MeetingShown(points, target);
    StatusFromPrefix(points, target);
    BracketShown(points, target);
    OneEnd(points, target.endpointID, target.slo, c, n);
    OneCrossing(points, target.endpointID, target.slo, v, m);
  }

  lemma OneEnd(points: seq<Point>, id: Id, slo: real, a: nat, b: nat)
    requires CertainTo(points, id, slo, a) && CertainTo(points, id, slo, b)
    ensures a == b
  {
  }

  lemma OneCrossing(points: seq<Point>, id: Id, slo: real, a: nat, b: nat)
    requires MeetsTo(points, id, slo, a) && MeetsTo(points, id, slo, b)
    ensures a == b
  {
  }

  /** The boundaries of a built sweep stand in the order of their endpoints' IDs, one for every target. */
  lemma BoundariesInOrder(sweep: SweepOutput, targets: seq<Target>)
    requires Built(sweep, targets)
    ensures |sweep.boundaries| == |targets|
    ensures forall i, j | 0 <= i < j < |sweep.boundaries| ::
              ByFirstDifference(sweep.boundaries[i].endpointID, sweep.boundaries[j].endpointID)
    ensures multiset(sweep.boundaries) == multiset(BoundariesOf(sweep.points, targets))
  {
    BoundaryOrder();
    SortSorts(BoundaryLeq, BoundariesOf(sweep.points, targets));
    forall i, j | 0 <= i < j < |sweep.boundaries|
      ensures ByFirstDifference(sweep.boundaries[i].endpointID, sweep.boundaries[j].endpointID)
    {
      assert BoundaryLeq(sweep.boundaries[i], sweep.boundaries[j]);
      LeqExactly(sweep.boundaries[i].endpointID, sweep.boundaries[j].endpointID);
    }
  }
}
