/** Failure-tolerance boundaries of one sweep: the observed crossing and the certified tolerance. */
module Boundaries {
  import opened Wrappers
  import opened Ids
  import opened Sorting
  import opened Wilson

  /** One evaluated axis value with the target endpoints' availabilities and confidence intervals. */
  datatype Point = Point(axis: real, availability: map<Id, real>, confidence: map<Id, Interval>)

  datatype Target = Target(endpointID: Id, slo: real)

  datatype BoundaryPoint = BoundaryPoint(axis: real, availability: real, lower: real, upper: real)

  datatype Status = Crossed | NotCrossed | BelowSLOAtStart | NonMonotonic

  datatype Certification = Certified | CertifiedThroughEnd | Indeterminate | StartsBelowSLO

  datatype Boundary = Boundary(
    endpointID: Id,
    slo: real,
    observedMonotonic: bool,
    lastMeeting: Option<BoundaryPoint>,
    firstViolating: Option<BoundaryPoint>,
    certified: Option<BoundaryPoint>,
    certification: Certification,
    status: Status,
    bracket: Option<(real, real)>)

  /** Reading missing map entries gives zero values, as in the source. */
  function AvailabilityOf(point: Point, id: Id): real {
    if id in point.availability then point.availability[id] else 0.0
  }

  function ConfidenceOf(point: Point, id: Id): Interval {
    if id in point.confidence then point.confidence[id] else Interval(0, 0, 0.0, 0.0, 0.0)
  }

  function PointOf(point: Point, id: Id): BoundaryPoint {
    BoundaryPoint(point.axis, AvailabilityOf(point, id), ConfidenceOf(point, id).lower, ConfidenceOf(point, id).upper)
  }

  // ----- what a boundary means

  /** The number of leading points that satisfy `ok`. */
  function Prefix(ok: Point -> bool, points: seq<Point>): (m: nat)
    ensures m <= |points|
    ensures forall i | 0 <= i < m :: ok(points[i])
    ensures m < |points| ==> !ok(points[m])
  {
    if points == [] || !ok(points[0]) then 0 else 1 + Prefix(ok, points[1..])
  }

  predicate Meets(point: Point, target: Target) {
    AvailabilityOf(point, target.endpointID) >= target.slo
  }

  predicate Certifies(point: Point, target: Target) {
    ConfidenceOf(point, target.endpointID).lower >= target.slo
  }

  predicate Violates(point: Point, target: Target) {
    ConfidenceOf(point, target.endpointID).upper < target.slo
  }

  function MeetingPrefix(points: seq<Point>, target: Target): nat {
    Prefix((p: Point) => Meets(p, target), points)
  }

  function CertifiedPrefix(points: seq<Point>, target: Target): nat {
    Prefix((p: Point) => Certifies(p, target), points)
  }

  predicate NonIncreasing(points: seq<Point>, id: Id) {
    forall i | 0 < i < |points| :: AvailabilityOf(points[i], id) <= AvailabilityOf(points[i - 1], id)
  }

  function LastOf(points: seq<Point>, m: nat, id: Id): Option<BoundaryPoint>
    requires m <= |points|
  {
    if m == 0 then None else Some(PointOf(points[m - 1], id))
  }

  function CertificationOf(points: seq<Point>, target: Target): Certification {
    var c := CertifiedPrefix(points, target);
    if c == |points| then (if c > 0 then CertifiedThroughEnd else Indeterminate)
    else if !Violates(points[c], target) then Indeterminate
    else if c > 0 then Certified else StartsBelowSLO
  }

  function BoundaryOf(points: seq<Point>, target: Target): Boundary {
    var v, c, id := MeetingPrefix(points, target), CertifiedPrefix(points, target), target.endpointID;
    var monotonic := NonIncreasing(points, id);
    var status := if !monotonic then NonMonotonic
                  else if v == |points| then NotCrossed
                  else if v == 0 then BelowSLOAtStart
                  else Crossed;
    Boundary(id, target.slo, monotonic,
             LastOf(points, v, id),
             if v < |points| then Some(PointOf(points[v], id)) else None,
             LastOf(points, c, id),
             CertificationOf(points, target),
             status,
             if status.Crossed? then Some((points[v - 1].axis, points[v].axis)) else None)
  }

  // ----- the engine's two loops

  class SweepBoundary {
    const endpointID: Id
    const slo: real
    var observedMonotonic: bool
    var lastMeeting: Option<BoundaryPoint>
    var firstViolating: Option<BoundaryPoint>
    var certified: Option<BoundaryPoint>
    var certification: Certification
    var status: Status
    var bracket: Option<(real, real)>

    constructor (target: Target)
      ensures endpointID == target.endpointID && slo == target.slo && observedMonotonic
      ensures lastMeeting == firstViolating == certified == None && bracket == None
    {
      endpointID, slo, observedMonotonic := target.endpointID, target.slo, true;
      lastMeeting, firstViolating, certified, bracket := None, None, None, None;
      certification, status := Indeterminate, NotCrossed;
    }

    function Value(): Boundary
      reads this
    {
      Boundary(endpointID, slo, observedMonotonic, lastMeeting, firstViolating, certified, certification, status,
          bracket)
    }

    /** The certification pass, writing its two fields. */
    method Certify(points: seq<Point>, target: Target)
      requires certified == None
      modifies `certified, `certification
      ensures certified == LastOf(points, CertifiedPrefix(points, target), target.endpointID)
      ensures certification == CertificationOf(points, target)
    {
      ghost var c := CertifiedPrefix(points, target);
      var foundCertified := false;
      for i := 0 to |points|
        invariant i <= c
        invariant foundCertified == (i > 0)
        invariant certified == LastOf(points, i, target.endpointID)
      {
        PrefixStep((p: Point) => Certifies(p, target), points, i);
        if Certifies(points[i], target) {
          certified := Some(PointOf(points[i], target.endpointID));
          foundCertified := true;
          continue;
        }
        if Violates(points[i], target) {
          certification := if foundCertified then Certified else StartsBelowSLO;
          return;
        }
        certification := Indeterminate;
        return;
      }
      certification := if foundCertified then CertifiedThroughEnd else Indeterminate;
    }

    /** The observation pass: monotonicity, the last point meeting the SLO and the first one violating it. */
    method Observe(points: seq<Point>, target: Target) returns (firstViolation: int)
      requires observedMonotonic && lastMeeting == None && firstViolating == None
      modifies `observedMonotonic, `lastMeeting, `firstViolating
      ensures var v := MeetingPrefix(points, target);
        && firstViolation == (if v < |points| then v else -1)
        && lastMeeting == LastOf(points, v, target.endpointID)
        && firstViolating == (if v < |points| then Some(PointOf(points[v], target.endpointID)) else None)
        && observedMonotonic == NonIncreasing(points, target.endpointID)
    {
      ghost var v := MeetingPrefix(points, target);
      var previous := 1.0;
      firstViolation := -1;
      for i := 0 to |points|
        invariant i > 0 ==> previous == AvailabilityOf(points[i - 1], target.endpointID)
        invariant observedMonotonic == NonIncreasing(points[..i], target.endpointID)
        invariant firstViolation == (if v < i then v else -1)
        invariant lastMeeting == LastOf(points, if i < v then i else v, target.endpointID)
        invariant firstViolating == (if v < i then Some(PointOf(points[v], target.endpointID)) else None)
      {
        PrefixStep((p: Point) => Meets(p, target), points, i);
        var availability := AvailabilityOf(points[i], target.endpointID);
        MonotoneStep(points, i, target.endpointID);
        if i > 0 && availability > previous {
          observedMonotonic := false;
        }
        previous := availability;
        if firstViolation < 0 && availability < target.slo {
          firstViolation := i;
          firstViolating := Some(PointOf(points[i], target.endpointID));
          continue;
        }
        if firstViolation < 0 {
          lastMeeting := Some(PointOf(points[i], target.endpointID));
        }
      }
      assert points[..|points|] == points;
    }
  }

  lemma PrefixStep(ok: Point -> bool, points: seq<Point>, i: nat)
    requires i < |points|
    ensures i < Prefix(ok, points) ==> ok(points[i])
    ensures i == Prefix(ok, points) ==> !ok(points[i])
    ensures i <= Prefix(ok, points) && ok(points[i]) ==> i + 1 <= Prefix(ok, points)
  {
  }

  lemma MonotoneStep(points: seq<Point>, i: nat, id: Id)
    requires i < |points|
    ensures NonIncreasing(points[..i + 1], id)
        <==> NonIncreasing(points[..i], id)
             && (i > 0 ==> AvailabilityOf(points[i], id) <= AvailabilityOf(points[i - 1], id))
  {
    assert forall j | 0 <= j < i :: points[..i + 1][j] == points[..i][j];
    assert points[..i + 1][i] == points[i];
    if NonIncreasing(points[..i + 1], id) {
      forall j | 0 < j < i
        ensures AvailabilityOf(points[..i][j], id) <= AvailabilityOf(points[..i][j - 1], id)
      {
        assert AvailabilityOf(points[..i + 1][j], id) <= AvailabilityOf(points[..i + 1][j - 1], id);
      }
      assert i > 0 ==> AvailabilityOf(points[..i + 1][i], id) <= AvailabilityOf(points[..i + 1][i - 1], id);
    }
  }

  method BuildBoundary(points: seq<Point>, target: Target) returns (boundary: Boundary)
    ensures boundary == BoundaryOf(points, target)
  {
    var result := new SweepBoundary(target);
    var firstViolation := result.Observe(points, target);
    result.Certify(points, target);
    if !result.observedMonotonic {
      result.status := NonMonotonic;
    } else if firstViolation < 0 {
      result.status := NotCrossed;
    } else if firstViolation == 0 {
      result.status := BelowSLOAtStart;
    } else {
      result.status := Crossed;
      result.bracket := Some((points[firstViolation - 1].axis, points[firstViolation].axis));
    }
    boundary := result.Value();
  }

  predicate BoundaryLeq(a: Boundary, b: Boundary) {
    Leq(a.endpointID, b.endpointID)
  }

  function BoundariesOf(points: seq<Point>, targets: seq<Target>): seq<Boundary> {
    seq(|targets|, i requires 0 <= i < |targets| => BoundaryOf(points, targets[i]))
  }

  method BuildSweepBoundaries(points: seq<Point>, targets: seq<Target>) returns (boundaries: seq<Boundary>)
    ensures boundaries == Sort(BoundaryLeq, BoundariesOf(points, targets))
  {
    boundaries := [];
    for i := 0 to |targets|
      invariant boundaries == BoundariesOf(points, targets)[..i]
    {
      var boundary := BuildBoundary(points, targets[i]);
      boundaries := boundaries + [boundary];
    }
    assert BoundariesOf(points, targets)[..|targets|] == BoundariesOf(points, targets);
    boundaries := Sort(BoundaryLeq, boundaries);
  }

  // ----- how the two loops agree

  /** Every point's interval contains its availability. */
  ghost predicate IntervalsContain(points: seq<Point>, id: Id) {
    forall i | 0 <= i < |points| ::
      ConfidenceOf(points[i], id).lower <= AvailabilityOf(points[i], id) <= ConfidenceOf(points[i], id).upper
  }

  /** Certification never reaches beyond the observed crossing. */
  lemma CertifiedWithinMeeting(points: seq<Point>, target: Target)
    requires IntervalsContain(points, target.endpointID)
    ensures CertifiedPrefix(points, target) <= MeetingPrefix(points, target)
  {
    var v, c := MeetingPrefix(points, target), CertifiedPrefix(points, target);
    if v < |points| {
      assert !Meets(points[v], target);
      PrefixStep((p: Point) => Certifies(p, target), points, v);
    }
  }

  /**
   The certification status fixes the observed one: `certified` means the curve crosses exactly where certification
   ends, `certified_through_end` that it never crosses, and a start below the SLO is seen as such by both loops.
   */
  lemma CertificationDecidesStatus(points: seq<Point>, target: Target)
    requires IntervalsContain(points, target.endpointID)
    ensures var boundary := BoundaryOf(points, target);
      && (boundary.certification.Certified? ==>
            && boundary.certified.Some? && boundary.certified == boundary.lastMeeting
            && boundary.firstViolating.Some? && boundary.firstViolating.value.upper < target.slo
            && (boundary.observedMonotonic ==>
                  && boundary.status.Crossed?
                  && boundary.bracket == Some((boundary.certified.value.axis, boundary.firstViolating.value.axis))))
      && (boundary.certification.CertifiedThroughEnd? ==>
            && boundary.certified.Some? && boundary.certified == boundary.lastMeeting && boundary.firstViolating.None?
            && (boundary.observedMonotonic ==> boundary.status.NotCrossed?))
      && (boundary.certification.StartsBelowSLO? ==>
            && boundary.certified.None? && boundary.lastMeeting.None?
            && (boundary.observedMonotonic ==> boundary.status.BelowSLOAtStart?))
  {
    CertifiedWithinMeeting(points, target);
    var v, c := MeetingPrefix(points, target), CertifiedPrefix(points, target);
    if c < |points| && Violates(points[c], target) {
      assert !Meets(points[c], target);
      PrefixStep((p: Point) => Meets(p, target), points, c);
    }
  }
}
