/** Gate rules over certified boundaries: what a passing minimum promises, and when a rule fails. */
module BoundaryRules {
  import opened Wrappers
  import opened Ids
  import opened Sorting
  import opened Boundaries
  import opened Sweeps
  import opened Gate
  import opened Wilson
  import EdgeAware

  /** What earlier runs certified, looked up by baseline, sweep and endpoint. */
  datatype Reference = Reference(
    baseline: string,
    sweep: string,
    endpointID: Id,
    compatible: bool,
    explained: bool,
    tolerance: Option<real>)

  /** Why a rule did not pass, or none; a baseline's own reason text replaces the general one. */
  datatype Cause =
    | NoCause | Unavailable | NotMonotonic | MinimumNotEvaluated | MinimumNotCertified
    | NoCompatibleBaseline | BaselineExplains | BelowMinimum | Regressed

  datatype BoundaryResult = BoundaryResult(
    sweep: string,
    endpointID: Id,
    status: Verdict,
    cause: Cause,
    tolerance: Option<real>,
    reference: Option<real>,
    regression: Option<real>)

  // ----- first matches

  function FirstMatch<T>(s: seq<T>, p: T -> bool): (r: Option<T>)
    ensures r.Some? <==> exists i | 0 <= i < |s| :: p(s[i])
    ensures r.Some? ==> r.value in s && p(r.value)
  {
    if s == [] then None else if p(s[0]) then Some(s[0]) else FirstMatch(s[1..], p)
  }

  function Named(name: string): SweepOutput -> bool {
    (s: SweepOutput) => s.name == name
  }

  function ForEndpoint(id: Id): Boundary -> bool {
    (b: Boundary) => b.endpointID == id
  }

  function ForRule(baseline: string, sweep: string, id: Id): Reference -> bool {
    (r: Reference) => r.baseline == baseline && r.sweep == sweep && r.endpointID == id
  }

  function SweepNamed(sweeps: seq<SweepOutput>, name: string): Option<SweepOutput> {
    FirstMatch(sweeps, Named(name))
  }

  function BoundaryFor(boundaries: seq<Boundary>, id: Id): Option<Boundary> {
    FirstMatch(boundaries, ForEndpoint(id))
  }

  function PointAt(points: seq<Point>, axis: real): Option<Point> {
    FirstMatch(points, (p: Point) => p.axis == axis)
  }

  function ReferenceFor(references: seq<Reference>, baseline: string, sweep: string, id: Id): Option<Reference> {
    FirstMatch(references, ForRule(baseline, sweep, id))
  }

  /** The sweep of the rule and its boundary; a sweep without the boundary is final, later sweeps are not asked. */
  function Found(sweeps: seq<SweepOutput>, name: string, id: Id): Option<(SweepOutput, Boundary)> {
    var sweep := SweepNamed(sweeps, name);
    if sweep.None? then None
    else
      var boundary := BoundaryFor(sweep.value.boundaries, id);
      if boundary.None? then None else Some((sweep.value, boundary.value))
  }

  method FindSweepBoundary(sweeps: seq<SweepOutput>, name: string, id: Id)
    returns (sweep: Option<SweepOutput>, boundary: Option<Boundary>)
    ensures sweep == SweepNamed(sweeps, name)
    ensures boundary == if sweep.None? then None else BoundaryFor(sweep.value.boundaries, id)
  {
    for i := 0 to |sweeps|
      invariant SweepNamed(sweeps, name) == SweepNamed(sweeps[i..], name)
    {
      if sweeps[i].name != name {
        continue;
      }
      var boundaries := sweeps[i].boundaries;
      for b := 0 to |boundaries|
        invariant BoundaryFor(boundaries, id) == BoundaryFor(boundaries[b..], id)
      {
        if boundaries[b].endpointID == id {
          return Some(sweeps[i]), Some(boundaries[b]);
        }
      }
      return Some(sweeps[i]), None;
    }
    return None, None;
  }

  method FindSweepPoint(sweep: SweepOutput, axis: real) returns (point: Option<Point>)
    ensures point == PointAt(sweep.points, axis)
  {
    for i := 0 to |sweep.points|
      invariant PointAt(sweep.points, axis) == PointAt(sweep.points[i..], axis)
    {
      if sweep.points[i].axis == axis {
        return Some(sweep.points[i]);
      }
    }
    return None;
  }

  method FindBoundaryReference(references: seq<Reference>, baseline: string, sweep: string, id: Id)
      returns (r: Option<Reference>)
    ensures r == ReferenceFor(references, baseline, sweep, id)
  {
    for i := 0 to |references|
      invariant ReferenceFor(references, baseline, sweep, id) == ReferenceFor(references[i..], baseline, sweep, id)
    {
      if references[i].baseline == baseline && references[i].sweep == sweep && references[i].endpointID == id {
        return Some(references[i]);
      }
    }
    return None;
  }

  // ----- one rule

  function ToleranceOf(boundary: Boundary): Option<real> {
    if boundary.certified.Some? then Some(boundary.certified.value.axis) else None
  }

  /** The status of a rule that cannot be decided: its own action, else the gate's default, else the gate's mode. */
  function IndeterminateStatus(rule: BoundaryRule, cfg: GateConfig): Verdict {
    var action := if rule.indeterminateAction.Some? then rule.indeterminateAction.value
                  else if cfg.defaultAction.Some? then cfg.defaultAction.value
                  else cfg.mode;
    Classify(action, true)
  }

  function StatusOf(cause: Cause, rule: BoundaryRule, cfg: GateConfig): Verdict {
    match cause
    case NoCause => Pass
    case BelowMinimum => Classify(cfg.mode, true)
    case Regressed => Classify(cfg.mode, true)
    case _ => IndeterminateStatus(rule, cfg)
  }

  function ReasonFor(rule: BoundaryRule, cause: Cause, status: Verdict): Reason {
    var id := match cause
      case BelowMinimum => BoundaryBelowMinimum
      case Regressed => BoundaryRegressed
      case _ => BoundaryIndeterminate;
    Reason(id, rule.sweep, rule.endpointID, status)
  }

  /** What the minimum says of a boundary: nothing against it, or why not. */
  function MinimumCause(minimum: real, points: seq<Point>, boundary: Boundary): Cause {
    var tolerance := ToleranceOf(boundary);
    if tolerance.Some? && tolerance.value >= minimum then NoCause
    else
      var point := PointAt(points, minimum);
      if point.None? then MinimumNotEvaluated
      else if ConfidenceOf(point.value, boundary.endpointID).upper < boundary.slo then BelowMinimum
      else MinimumNotCertified
  }

  function RegressionOf(reference: Option<Reference>, tolerance: Option<real>): Option<(real, real)> {
    if reference.Some? && reference.value.compatible && reference.value.tolerance.Some? && tolerance.Some?
    then Some((reference.value.tolerance.value, tolerance.value - reference.value.tolerance.value))
    else None
  }

  function RegressionCause(budget: real, reference: Option<Reference>, tolerance: Option<real>): Cause {
    var regression := RegressionOf(reference, tolerance);
    if regression.None? then (if reference.Some? && reference.value.explained then BaselineExplains
        else NoCompatibleBaseline)
    else if regression.value.1 < -budget then Regressed
    else NoCause
  }

  /** Why a found boundary fails the part of the rule that needs no baseline, if it does. */
  function OwnCause(rule: BoundaryRule, points: seq<Point>, boundary: Boundary): Cause {
    if !boundary.observedMonotonic then NotMonotonic
    else if rule.minimum.Some? then MinimumCause(rule.minimum.value, points, boundary)
    else NoCause
  }

  /** The whole rule as a function of what it looks up. */
  function RuleResult(rule: BoundaryRule, sweeps: seq<SweepOutput>, references: seq<Reference>,
      cfg: GateConfig): BoundaryResult {
    var found := Found(sweeps, rule.sweep, rule.endpointID);
    if found.None? then BoundaryResult(rule.sweep, rule.endpointID, IndeterminateStatus(rule, cfg), Unavailable, None,
        None, None)
    else
      var tolerance := ToleranceOf(found.value.1);
      var own := OwnCause(rule, found.value.0.points, found.value.1);
      if own != NoCause || rule.maxRegression.None? then
        BoundaryResult(rule.sweep, rule.endpointID, StatusOf(own, rule, cfg), own, tolerance, None, None)
      else
        var reference := ReferenceFor(references, rule.baseline, rule.sweep, rule.endpointID);
        var cause := RegressionCause(rule.maxRegression.value, reference, tolerance);
        var regression := RegressionOf(reference, tolerance);
        BoundaryResult(rule.sweep, rule.endpointID, StatusOf(cause, rule, cfg), cause, tolerance,
                       if regression.Some? then Some(regression.value.0) else None,
                       if regression.Some? then Some(regression.value.1) else None)
  }

  method CheckMinimum(minimum: real, sweep: SweepOutput, boundary: Boundary, tolerance: Option<real>)
      returns (cause: Cause)
    requires tolerance == ToleranceOf(boundary)
    ensures cause == MinimumCause(minimum, sweep.points, boundary)
  {
    if tolerance.Some? && tolerance.value >= minimum {
      return NoCause;
    }
    var point := FindSweepPoint(sweep, minimum);
    if point.None? {
      return MinimumNotEvaluated;
    }
    var interval := ConfidenceOf(point.value, boundary.endpointID);
    if interval.upper < boundary.slo {
      return BelowMinimum;
    }
    return MinimumNotCertified;
  }

  /** The reason accompanies every result that is not a pass. */
  method EvaluateBoundaryRule(rule: BoundaryRule, sweeps: seq<SweepOutput>, references: seq<Reference>, cfg: GateConfig)
    returns (result: BoundaryResult, reason: Reason)
    ensures result == RuleResult(rule, sweeps, references, cfg)
    ensures result.status != Pass ==> reason == ReasonFor(rule, result.cause, result.status)
  {
    result := BoundaryResult(rule.sweep, rule.endpointID, Pass, NoCause, None, None, None);
    var sweep, boundary := FindSweepBoundary(sweeps, rule.sweep, rule.endpointID);
    if sweep.None? || boundary.None? {
      result := result.(status := IndeterminateStatus(rule, cfg), cause := Unavailable);
      return result, ReasonFor(rule, result.cause, result.status);
    }
    var tolerance := ToleranceOf(boundary.value);
    result := result.(tolerance := tolerance);
    var cause := NoCause;
    if !boundary.value.observedMonotonic {
      cause := NotMonotonic;
    } else if rule.minimum.Some? {
      cause := CheckMinimum(rule.minimum.value, sweep.value, boundary.value, tolerance);
    }
    if cause == NoCause && rule.maxRegression.Some? {
      var reference := FindBoundaryReference(references, rule.baseline, rule.sweep, rule.endpointID);
      cause := RegressionCause(rule.maxRegression.value, reference, tolerance);
      var regression := RegressionOf(reference, tolerance);
      if regression.Some? {
        result := result.(reference := Some(regression.value.0), regression := Some(regression.value.1));
      }
    }
    result := result.(status := StatusOf(cause, rule, cfg), cause := cause);
    return result, ReasonFor(rule, cause, result.status);
  }

  // ----- what the rules promise about the sweep itself

  ghost predicate Increasing(points: seq<Point>) {
    forall i, j | 0 <= i < j < |points| :: points[i].axis < points[j].axis
  }

  /** The axis values strictly increase and the boundaries are those the engine builds for the targets. */
  ghost predicate Built(sweep: SweepOutput, targets: seq<Target>) {
    && Increasing(sweep.points)
    && sweep.boundaries == Sort(BoundaryLeq, BoundariesOf(sweep.points, targets))
  }

  lemma BoundaryOrder()
    ensures TotalPreorder(BoundaryLeq)
  {
    EdgeAware.IdOrder();
  }

  /** A boundary found in a built sweep is the boundary of one of its targets. */
  lemma FoundIsBuilt(sweep: SweepOutput, targets: seq<Target>, id: Id) returns (t: nat)
    requires Built(sweep, targets) && BoundaryFor(sweep.boundaries, id).Some?
    ensures t < |targets| && targets[t].endpointID == id
    ensures BoundaryFor(sweep.boundaries, id).value == BoundaryOf(sweep.points, targets[t])
  {
    var boundary := BoundaryFor(sweep.boundaries, id).value;
    BoundaryOrder();
    SortSorts(BoundaryLeq, BoundariesOf(sweep.points, targets));
    assert boundary in BoundariesOf(sweep.points, targets);
    t :| 0 <= t < |targets| && BoundariesOf(sweep.points, targets)[t] == boundary;
  }

  /** Every point up to the axis value is certified. */
  ghost predicate CertifiedUpTo(points: seq<Point>, target: Target, axis: real) {
    forall i | 0 <= i < |points| && points[i].axis <= axis :: Certifies(points[i], target)
  }

  /** The first `i + 1` points are certified and the last of them is at or past the axis value. */
  ghost predicate ReachesAt(points: seq<Point>, target: Target, axis: real, i: nat) {
    i < |points| && points[i].axis >= axis && forall j | 0 <= j <= i :: Certifies(points[j], target)
  }

  ghost predicate ReachesBeyond(points: seq<Point>, target: Target, axis: real) {
    exists i :: ReachesAt(points, target, axis, i)
  }

  lemma {:induction false} PrefixCovers(ok: Point -> bool, points: seq<Point>, i: nat)
    requires i < |points| && forall j | 0 <= j <= i :: ok(points[j])
    ensures i < Prefix(ok, points)
  {
    if i > 0 {
      PrefixCovers(ok, points[1..], i - 1);
    }
  }

  lemma ReachesWithinPrefix(points: seq<Point>, target: Target, axis: real, i: nat)
    requires Increasing(points) && ReachesAt(points, target, axis, i)
    ensures i < CertifiedPrefix(points, target)
    ensures points[CertifiedPrefix(points, target) - 1].axis >= axis
    ensures CertifiedUpTo(points, target, axis)
  {
    var c := CertifiedPrefix(points, target);
    PrefixCovers((p: Point) => Certifies(p, target), points, i);
    forall j | 0 <= j < |points| && points[j].axis <= axis
      ensures Certifies(points[j], target)
    {
      assert j <= i;
    }
  }

  /**
   The certified tolerance reaches the minimum exactly when the whole prefix up to a point at or past it is certified.
   */
  lemma ToleranceMeansPrefix(points: seq<Point>, target: Target, minimum: real)
    requires Increasing(points)
    ensures var tolerance := ToleranceOf(BoundaryOf(points, target));
      tolerance.Some? && tolerance.value >= minimum <==> ReachesBeyond(points, target, minimum)
    ensures ReachesBeyond(points, target, minimum) ==> CertifiedUpTo(points, target, minimum)
  {
    var c := CertifiedPrefix(points, target);
    assert ToleranceOf(BoundaryOf(points, target)) == if c == 0 then None else Some(points[c - 1].axis);
    if c > 0 && points[c - 1].axis >= minimum {
      assert ReachesAt(points, target, minimum, c - 1);
    }
    if i :| ReachesAt(points, target, minimum, i) {
      ReachesWithinPrefix(points, target, minimum, i);
    }
  }

  /** The baseline's tolerance is available and the current one is at most the budget below it. */
  predicate WithinBudget(reference: Option<Reference>, tolerance: Option<real>, budget: real) {
    && reference.Some? && reference.value.compatible && reference.value.tolerance.Some? && tolerance.Some?
    && tolerance.value >= reference.value.tolerance.value - budget
  }

  lemma OwnCauseExactly(rule: BoundaryRule, points: seq<Point>, target: Target)
    requires Increasing(points)
    ensures var cause := OwnCause(rule, points, BoundaryOf(points, target));
      && (cause == NoCause
          <==> && NonIncreasing(points, target.endpointID)
               && (rule.minimum.Some? ==> ReachesBeyond(points, target, rule.minimum.value)))
      && (cause == BelowMinimum ==>
            && rule.minimum.Some?
            && exists i | 0 <= i < |points| :: points[i].axis == rule.minimum.value && Violates(points[i], target))
      && cause != Regressed
  {
    if rule.minimum.Some? {
      ToleranceMeansPrefix(points, target, rule.minimum.value);
      var point := PointAt(points, rule.minimum.value);
      if OwnCause(rule, points, BoundaryOf(points, target)) == BelowMinimum {
        var i :| 0 <= i < |points| && points[i] == point.value;
        assert points[i].axis == rule.minimum.value && Violates(points[i], target);
      }
    }
  }

  lemma ResultCause(rule: BoundaryRule, sweeps: seq<SweepOutput>, references: seq<Reference>, cfg: GateConfig)
    requires Found(sweeps, rule.sweep, rule.endpointID).Some?
    ensures var found := Found(sweeps, rule.sweep, rule.endpointID).value;
      var own := OwnCause(rule, found.0.points, found.1);
      var reference := ReferenceFor(references, rule.baseline, rule.sweep, rule.endpointID);
      var cause := RuleResult(rule, sweeps, references, cfg).cause;
      && (cause == NoCause
          <==> own == NoCause
               && (rule.maxRegression.Some? ==> WithinBudget(reference, ToleranceOf(found.1),
                   rule.maxRegression.value)))
      && (cause == BelowMinimum ==> own == BelowMinimum)
  {
  }

  /**
   When a boundary rule passes, for every built sweep with strictly increasing axis values: exactly when the observed
   curve does not rise, some point at or past the minimum ends a fully certified prefix, and the tolerance is within
   budget of the baseline's. A pass therefore certifies every evaluated point up to the minimum, and a violated
   minimum is only reported when the required point itself is confidently below the SLO.
   */
  lemma BoundaryRuleExactly(rule: BoundaryRule, sweeps: seq<SweepOutput>, references: seq<Reference>, cfg: GateConfig,
      targets: seq<Target>) returns (t: nat)
    requires Found(sweeps, rule.sweep, rule.endpointID).Some?
    requires Built(Found(sweeps, rule.sweep, rule.endpointID).value.0, targets)
    ensures t < |targets| && targets[t].endpointID == rule.endpointID
    ensures var points := Found(sweeps, rule.sweep, rule.endpointID).value.0.points;
      var reference := ReferenceFor(references, rule.baseline, rule.sweep, rule.endpointID);
      var cause := RuleResult(rule, sweeps, references, cfg).cause;
      && (cause == NoCause
          <==> && NonIncreasing(points, rule.endpointID)
               && (rule.minimum.Some? ==> ReachesBeyond(points, targets[t], rule.minimum.value))
               && (rule.maxRegression.Some? ==>
                     WithinBudget(reference, ToleranceOf(BoundaryOf(points, targets[t])), rule.maxRegression.value)))
      && (cause == NoCause && rule.minimum.Some? ==> CertifiedUpTo(points, targets[t], rule.minimum.value))
      && (cause == BelowMinimum ==>
            && rule.minimum.Some?
            && exists i | 0 <= i < |points| :: points[i].axis == rule.minimum.value && Violates(points[i], targets[t]))
  {
    var found := Found(sweeps, rule.sweep, rule.endpointID).value;
    t := FoundIsBuilt(found.0, targets, rule.endpointID);
    ResultCause(rule, sweeps, references, cfg);
    OwnCauseExactly(rule, found.0.points, targets[t]);
    if rule.minimum.Some? {
      ToleranceMeansPrefix(found.0.points, targets[t], rule.minimum.value);
    }
  }
}
