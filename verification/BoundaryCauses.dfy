/** Every cause a boundary rule can give, in terms of the points of the sweep, and the status it leads to. */
module BoundaryCauses {
  import opened Wrappers
  import opened Ids
  import opened Sorting
  import opened Boundaries
  import opened Sweeps
  import opened Gate
  import opened BoundaryRules
  import opened GateAnalysis

  // ----- what the points say

  function LowerAt(point: Point, id: Id): real {
    if id in point.confidence then point.confidence[id].lower else 0.0
  }

  function UpperAt(point: Point, id: Id): real {
    if id in point.confidence then point.confidence[id].upper else 0.0
  }

  function LevelAt(point: Point, id: Id): real {
    if id in point.availability then point.availability[id] else 0.0
  }

  /** No later point is more available than an earlier one. */
  ghost predicate Falls(points: seq<Point>, id: Id) {
    forall i, j | 0 <= i <= j < |points| :: LevelAt(points[j], id) <= LevelAt(points[i], id)
  }

  /** The first `n` points are all certified. */
  ghost predicate CertainUpTo(points: seq<Point>, id: Id, slo: real, n: nat)
    requires n <= |points|
  {
    forall j | 0 <= j < n :: LowerAt(points[j], id) >= slo
  }

  /** The certified points end at index `i`. */
  ghost predicate EndsAt(points: seq<Point>, id: Id, slo: real, i: nat) {
    && i < |points| && CertainUpTo(points, id, slo, i + 1)
    && (i + 1 < |points| ==> LowerAt(points[i + 1], id) < slo)
  }

  /** The certified tolerance is the axis value c. */
  ghost predicate Tolerates(points: seq<Point>, id: Id, slo: real, c: real) {
    exists i: nat :: EndsAt(points, id, slo, i) && points[i].axis == c
  }

  /** The certified points reach the axis value. */
  ghost predicate Covers(points: seq<Point>, id: Id, slo: real, minimum: real) {
    exists i: nat :: i < |points| && CertainUpTo(points, id, slo, i + 1) && points[i].axis >= minimum
  }

  ghost predicate HasPoint(points: seq<Point>, axis: real) {
    exists i: nat :: i < |points| && points[i].axis == axis
  }

  /** A point at the axis value is below the SLO beyond doubt. */
  ghost predicate MissesAt(points: seq<Point>, id: Id, slo: real, axis: real) {
    exists i: nat :: i < |points| && points[i].axis == axis && UpperAt(points[i], id) < slo
  }

  // ----- what the rule looks up

  /** The first sweep of the name. */
  ghost predicate FirstSweep(sweeps: seq<SweepOutput>, name: string, s: nat) {
    s < |sweeps| && sweeps[s].name == name && forall r | 0 <= r < s :: sweeps[r].name != name
  }

  ghost predicate IsTarget(targets: seq<Target>, t: nat, id: Id) {
    && t < |targets| && targets[t].endpointID == id
    && forall u | 0 <= u < |targets| && targets[u].endpointID == id :: u == t
  }

  ghost predicate Names(reference: Reference, rule: BoundaryRule) {
    && reference.baseline == rule.baseline && reference.sweep == rule.sweep
    && reference.endpointID == rule.endpointID
  }

  /** The first reference for the rule. */
  ghost predicate FirstReference(references: seq<Reference>, rule: BoundaryRule, k: nat) {
    k < |references| && Names(references[k], rule) && forall m | 0 <= m < k :: !Names(references[m], rule)
  }

  /** The baseline of the rule is compatible and tolerates r. */
  ghost predicate BaselineTolerates(references: seq<Reference>, rule: BoundaryRule, r: real) {
    exists k: nat ::
      FirstReference(references, rule, k) && references[k].compatible && references[k].tolerance == Some(r)
  }

  lemma {:induction false} FirstMatchAt<T>(s: seq<T>, p: T -> bool, k: nat)
    requires k < |s| && p(s[k]) && forall i | 0 <= i < k :: !p(s[i])
    ensures FirstMatch(s, p) == Some(s[k])
  {
    if k > 0 {
      FirstMatchAt(s[1..], p, k - 1);
    }
  }

  lemma {:induction false} FirstMatchIndex<T>(s: seq<T>, p: T -> bool) returns (k: nat)
    requires FirstMatch(s, p).Some?
    ensures k < |s| && p(s[k]) && FirstMatch(s, p) == Some(s[k]) && forall i | 0 <= i < k :: !p(s[i])
  {
    if p(s[0]) {
      k := 0;
    } else {
      var rest := FirstMatchIndex(s[1..], p);
      k := rest + 1;
    }
  }

  lemma ReferenceIs(references: seq<Reference>, rule: BoundaryRule, r: real)
    ensures BaselineTolerates(references, rule, r)
        <==> var found := ReferenceFor(references, rule.baseline, rule.sweep, rule.endpointID);
             found.Some? && found.value.compatible && found.value.tolerance == Some(r)
  {
    var p := ForRule(rule.baseline, rule.sweep, rule.endpointID);
    if k: nat :| FirstReference(references, rule, k) && references[k].compatible && references[k].tolerance == Some(r) {
      forall i | 0 <= i < k
        ensures !p(references[i])
      {
        assert !Names(references[i], rule);
      }
      FirstMatchAt(references, p, k);
    }
    if FirstMatch(references, p).Some? {
      var k := FirstMatchIndex(references, p);
      forall m | 0 <= m < k
        ensures !Names(references[m], rule)
      {
        assert !p(references[m]);
      }
      assert FirstReference(references, rule, k);
    }
  }

  // ----- the engine's prefixes in these terms

  lemma PointsAgree(points: seq<Point>, target: Target)
    ensures NonIncreasing(points, target.endpointID) <==> Falls(points, target.endpointID)
    ensures forall i | 0 <= i < |points| ::
              && (Certifies(points[i], target) <==> LowerAt(points[i], target.endpointID) >= target.slo)
              && (Violates(points[i], target) <==> UpperAt(points[i], target.endpointID) < target.slo)
              && (Meets(points[i], target) <==> LevelAt(points[i], target.endpointID) >= target.slo)
  {
    if NonIncreasing(points, target.endpointID) {
      forall i, j | 0 <= i <= j < |points|
        ensures LevelAt(points[j], target.endpointID) <= LevelAt(points[i], target.endpointID)
      {
        FallsOver(points, target.endpointID, i, j);
      }
    }
    if Falls(points, target.endpointID) {
      forall i | 0 < i < |points|
        ensures AvailabilityOf(points[i], target.endpointID) <= AvailabilityOf(points[i - 1], target.endpointID)
      {
        assert LevelAt(points[i], target.endpointID) <= LevelAt(points[i - 1], target.endpointID);
      }
    }
  }

  lemma {:induction false} FallsOver(points: seq<Point>, id: Id, i: nat, j: nat)
    requires NonIncreasing(points, id) && i <= j < |points|
    ensures LevelAt(points[j], id) <= LevelAt(points[i], id)
    decreases j
  {
    if i < j {
      FallsOver(points, id, i, j - 1);
    }
  }

  lemma CoversIs(points: seq<Point>, target: Target, minimum: real)
    ensures ReachesBeyond(points, target, minimum) <==> Covers(points, target.endpointID, target.slo, minimum)
  {
    PointsAgree(points, target);
    if i: nat :| ReachesAt(points, target, minimum, i) {
      assert CertainUpTo(points, target.endpointID, target.slo, i + 1);
    }
    if Covers(points, target.endpointID, target.slo, minimum) {
      var i: nat :|
        i < |points| && CertainUpTo(points, target.endpointID, target.slo, i + 1) && points[i].axis >= minimum;
      assert ReachesAt(points, target, minimum, i);
    }
  }

  lemma PrefixIs(points: seq<Point>, target: Target, i: nat)
    ensures EndsAt(points, target.endpointID, target.slo, i) <==> i + 1 == CertifiedPrefix(points, target)
  {
    PointsAgree(points, target);
    if EndsAt(points, target.endpointID, target.slo, i) {
      PrefixCovers((p: Point) => Certifies(p, target), points, i);
    }
  }

  /** The certified tolerance the engine reports, for any points. */
  lemma ToleranceIs(points: seq<Point>, target: Target, c: real)
    ensures ToleranceOf(BoundaryOf(points, target)) == Some(c)
        <==> Tolerates(points, target.endpointID, target.slo, c)
  {
    var n := CertifiedPrefix(points, target);
    if n > 0 {
      PrefixIs(points, target, n - 1);
    }
    if i: nat :| EndsAt(points, target.endpointID, target.slo, i) && points[i].axis == c {
      PrefixIs(points, target, i);
    }
  }

  /** What a rule finds in a built sweep. */
  lemma FoundIs(sweeps: seq<SweepOutput>, name: string, s: nat, targets: seq<Target>, t: nat)
    requires t < |targets| && FirstSweep(sweeps, name, s) && IsTarget(targets, t, targets[t].endpointID)
    requires Built(sweeps[s], targets)
    ensures Found(sweeps, name, targets[t].endpointID) == Some((sweeps[s], BoundaryOf(sweeps[s].points, targets[t])))
  {
    var id, sweep := targets[t].endpointID, sweeps[s];
    FirstMatchAt(sweeps, Named(name), s);
    BoundaryOrder();
    SortSorts(BoundaryLeq, BoundariesOf(sweep.points, targets));
    assert BoundariesOf(sweep.points, targets)[t].endpointID == id;
    assert BoundariesOf(sweep.points, targets)[t] in sweep.boundaries;
    var b :| 0 <= b < |sweep.boundaries| && sweep.boundaries[b] == BoundariesOf(sweep.points, targets)[t];
    assert ForEndpoint(id)(sweep.boundaries[b]);
    var u := FoundIsBuilt(sweep, targets, id);
  }

  // ----- every cause

  /** The rule's own part, the curve and the minimum, is met. */
  ghost predicate OwnPartMet(rule: BoundaryRule, points: seq<Point>, slo: real) {
    Falls(points, rule.endpointID) && (rule.minimum.Some? ==> Covers(points, rule.endpointID, slo, rule.minimum.value))
  }

  /** The minimum is asked for on a falling curve and not reached by certified points. */
  ghost predicate MinimumMissed(rule: BoundaryRule, points: seq<Point>, slo: real) {
    && Falls(points, rule.endpointID) && rule.minimum.Some?
    && !Covers(points, rule.endpointID, slo, rule.minimum.value)
  }

  /** Both tolerances are certified and this is their difference. */
  ghost predicate Differs(rule: BoundaryRule, points: seq<Point>, slo: real, references: seq<Reference>, d: real) {
    exists c, r :: Tolerates(points, rule.endpointID, slo, c) && BaselineTolerates(references, rule, r) && d == c - r
  }

  lemma PointIs(points: seq<Point>, target: Target, axis: real)
    requires Increasing(points)
    ensures PointAt(points, axis).Some? <==> HasPoint(points, axis)
    ensures PointAt(points, axis).Some? ==>
              (ConfidenceOf(PointAt(points, axis).value, target.endpointID).upper < target.slo
               <==> MissesAt(points, target.endpointID, target.slo, axis))
  {
    if PointAt(points, axis).Some? {
      var k := FirstMatchIndex(points, (p: Point) => p.axis == axis);
      assert forall i | 0 <= i < |points| && points[i].axis == axis :: i == k;
    }
  }

  lemma MissingPoint(points: seq<Point>, id: Id, slo: real, axis: real)
    requires MissesAt(points, id, slo, axis)
    ensures HasPoint(points, axis)
  {
  }

  /** The minimum's verdict, case by case. */
  lemma MinimumCases(minimum: real, points: seq<Point>, boundary: Boundary)
    ensures var tolerance, point := ToleranceOf(boundary), PointAt(points, minimum);
      var covered := tolerance.Some? && tolerance.value >= minimum;
      var misses := point.Some? && ConfidenceOf(point.value, boundary.endpointID).upper < boundary.slo;
      MinimumCause(minimum, points, boundary)
      == if covered then NoCause else if misses then BelowMinimum
         else if point.Some? then MinimumNotCertified else MinimumNotEvaluated
  {
  }

  /** The minimum's verdict on a falling curve. */
  lemma MinimumExactly(minimum: real, points: seq<Point>, target: Target)
    requires Increasing(points)
    ensures var cause := MinimumCause(minimum, points, BoundaryOf(points, target));
      var covered := Covers(points, target.endpointID, target.slo, minimum);
      && (cause == NoCause <==> covered)
      && (cause == MinimumNotEvaluated <==> !covered && !HasPoint(points, minimum))
      && (cause == BelowMinimum <==> !covered && MissesAt(points, target.endpointID, target.slo, minimum))
      && (cause == MinimumNotCertified
          <==> !covered && HasPoint(points, minimum) && !MissesAt(points, target.endpointID, target.slo, minimum))
  {
    MinimumCases(minimum, points, BoundaryOf(points, target));
    ToleranceMeansPrefix(points, target, minimum);
    CoversIs(points, target, minimum);
    PointIs(points, target, minimum);
    if MissesAt(points, target.endpointID, target.slo, minimum) {
      MissingPoint(points, target.endpointID, target.slo, minimum);
    }
  }

  lemma OwnExactly(rule: BoundaryRule, points: seq<Point>, target: Target)
    requires Increasing(points) && target.endpointID == rule.endpointID
    ensures var cause, slo, id := OwnCause(rule, points, BoundaryOf(points, target)), target.slo, rule.endpointID;
      && (cause == NoCause <==> OwnPartMet(rule, points, slo))
      && (cause == NotMonotonic <==> !Falls(points, id))
      && (cause == MinimumNotEvaluated
          <==> MinimumMissed(rule, points, slo) && !HasPoint(points, rule.minimum.value))
      && (cause == BelowMinimum
          <==> MinimumMissed(rule, points, slo) && MissesAt(points, id, slo, rule.minimum.value))
      && (cause == MinimumNotCertified
          <==> && MinimumMissed(rule, points, slo) && HasPoint(points, rule.minimum.value)
               && !MissesAt(points, id, slo, rule.minimum.value))
      && cause !in {Unavailable, NoCompatibleBaseline, BaselineExplains, Regressed}
  {
    PointsAgree(points, target);
    if rule.minimum.Some? {
      MinimumExactly(rule.minimum.value, points, target);
    }
  }

  lemma RegressionIs(rule: BoundaryRule, points: seq<Point>, target: Target, references: seq<Reference>, d: real)
    requires target.endpointID == rule.endpointID
    ensures var regression := RegressionOf(ReferenceFor(references, rule.baseline, rule.sweep, rule.endpointID),
                                           ToleranceOf(BoundaryOf(points, target)));
      (regression.Some? && regression.value.1 == d <==> Differs(rule, points, target.slo, references, d))
  {
    var tolerance := ToleranceOf(BoundaryOf(points, target));
    var reference := ReferenceFor(references, rule.baseline, rule.sweep, rule.endpointID);
    var regression := RegressionOf(reference, tolerance);
    if regression.Some? && regression.value.1 == d {
      ToleranceIs(points, target, tolerance.value);
      ReferenceIs(references, rule, reference.value.tolerance.value);
    }
    if Differs(rule, points, target.slo, references, d) {
      var c, r :|
        Tolerates(points, rule.endpointID, target.slo, c) && BaselineTolerates(references, rule, r) && d == c - r;
      ToleranceIs(points, target, c);
      ReferenceIs(references, rule, r);
    }
  }

  /** The cause of a rule whose boundary is found, from its own part and the regression. */
  lemma CauseCases(rule: BoundaryRule, sweeps: seq<SweepOutput>, references: seq<Reference>, cfg: GateConfig)
    requires Found(sweeps, rule.sweep, rule.endpointID).Some?
    ensures var found := Found(sweeps, rule.sweep, rule.endpointID).value;
      var own := OwnCause(rule, found.0.points, found.1);
      var regression := RegressionOf(ReferenceFor(references, rule.baseline, rule.sweep, rule.endpointID),
                                     ToleranceOf(found.1));
      var cause := RuleResult(rule, sweeps, references, cfg).cause;
      if own != NoCause || rule.maxRegression.None? then cause == own
      else if regression.None? then cause in {NoCompatibleBaseline, BaselineExplains}
      else cause == if regression.value.1 < -rule.maxRegression.value then Regressed else NoCause
  {
  }

  /**
   When a rule gives which cause, for every built sweep with strictly increasing axis values: each cause with its exact
   condition on the points, the references and the rule.
   */
  lemma CauseExactly(rule: BoundaryRule, sweeps: seq<SweepOutput>, references: seq<Reference>, cfg: GateConfig, s: nat,
      targets: seq<Target>, t: nat)
    requires FirstSweep(sweeps, rule.sweep, s) && IsTarget(targets, t, rule.endpointID) && Built(sweeps[s], targets)
    ensures var cause := RuleResult(rule, sweeps, references, cfg).cause;
      var points, slo, id := sweeps[s].points, targets[t].slo, rule.endpointID;
      && cause != Unavailable
      && (cause == NotMonotonic <==> !Falls(points, id))
      && (cause == MinimumNotEvaluated
          <==> MinimumMissed(rule, points, slo) && !HasPoint(points, rule.minimum.value))
      && (cause == BelowMinimum
          <==> MinimumMissed(rule, points, slo) && MissesAt(points, id, slo, rule.minimum.value))
      && (cause == MinimumNotCertified
          <==> && MinimumMissed(rule, points, slo) && HasPoint(points, rule.minimum.value)
               && !MissesAt(points, id, slo, rule.minimum.value))
      && (cause == Regressed
          <==> && OwnPartMet(rule, points, slo) && rule.maxRegression.Some?
               && exists d :: Differs(rule, points, slo, references, d) && d < -rule.maxRegression.value)
      && (cause in {NoCompatibleBaseline, BaselineExplains}
          <==> && OwnPartMet(rule, points, slo) && rule.maxRegression.Some?
               && !exists d :: Differs(rule, points, slo, references, d))
      && (cause == NoCause
          <==> && OwnPartMet(rule, points, slo)
               && (rule.maxRegression.Some? ==>
                     exists d :: Differs(rule, points, slo, references, d) && d >= -rule.maxRegression.value))
  {
    FoundIs(sweeps, rule.sweep, s, targets, t);
    CauseCases(rule, sweeps, references, cfg);
    OwnExactly(rule, sweeps[s].points, targets[t]);
    var points := sweeps[s].points;
    var regression := RegressionOf(ReferenceFor(references, rule.baseline, rule.sweep, rule.endpointID),
                                   ToleranceOf(BoundaryOf(points, targets[t])));
    forall d
      ensures regression.Some? && regression.value.1 == d <==> Differs(rule, points, targets[t].slo, references, d)
    {
      RegressionIs(rule, points, targets[t], references, d);
    }
    if regression.Some? {
      assert Differs(rule, points, targets[t].slo, references, regression.value.1);
    }
  }

  lemma FirstSweepOnce(sweeps: seq<SweepOutput>, name: string, r: nat, s: nat)
    requires FirstSweep(sweeps, name, r) && FirstSweep(sweeps, name, s)
    ensures r == s
  {
  }

  /** The numbers of a result whose boundary is found. */
  lemma NumberCases(rule: BoundaryRule, sweeps: seq<SweepOutput>, references: seq<Reference>, cfg: GateConfig)
    requires Found(sweeps, rule.sweep, rule.endpointID).Some?
    ensures var found := Found(sweeps, rule.sweep, rule.endpointID).value;
      var regression := RegressionOf(ReferenceFor(references, rule.baseline, rule.sweep, rule.endpointID),
                                     ToleranceOf(found.1));
      var result := RuleResult(rule, sweeps, references, cfg);
      var compared := OwnCause(rule, found.0.points, found.1) == NoCause && rule.maxRegression.Some?;
      && result.tolerance == ToleranceOf(found.1)
      && (result.regression.Some? <==> compared && regression.Some?)
      && (result.regression.Some? ==> result.regression.value == regression.value.1)
  {
  }

  /** The numbers a rule reports: the certified tolerance, and its distance to the baseline's where asked for. */
  lemma NumbersExactly(rule: BoundaryRule, sweeps: seq<SweepOutput>, references: seq<Reference>, cfg: GateConfig,
      s: nat, targets: seq<Target>, t: nat, x: real)
    requires FirstSweep(sweeps, rule.sweep, s) && IsTarget(targets, t, rule.endpointID) && Built(sweeps[s], targets)
    ensures var result, points, slo := RuleResult(rule, sweeps, references, cfg), sweeps[s].points, targets[t].slo;
      && (result.tolerance == Some(x) <==> Tolerates(points, rule.endpointID, slo, x))
      && (result.regression == Some(x)
          <==> && OwnPartMet(rule, points, slo) && rule.maxRegression.Some?
               && Differs(rule, points, slo, references, x))
  {
    FoundIs(sweeps, rule.sweep, s, targets, t);
    NumberCases(rule, sweeps, references, cfg);
    OwnExactly(rule, sweeps[s].points, targets[t]);
    ToleranceIs(sweeps[s].points, targets[t], x);
    RegressionIs(rule, sweeps[s].points, targets[t], references, x);
  }

  /** A rule is unavailable exactly when no sweep has its name or the first one has no boundary for its endpoint. */
  lemma UnavailableExactly(rule: BoundaryRule, sweeps: seq<SweepOutput>, references: seq<Reference>, cfg: GateConfig)
    ensures RuleResult(rule, sweeps, references, cfg).cause == Unavailable
        <==> forall s: nat | FirstSweep(sweeps, rule.sweep, s) ::
               forall b | 0 <= b < |sweeps[s].boundaries| :: sweeps[s].boundaries[b].endpointID != rule.endpointID
  {
    if SweepNamed(sweeps, rule.sweep).Some? {
      var s := FirstMatchIndex(sweeps, Named(rule.sweep));
      forall r | 0 <= r < s
        ensures sweeps[r].name != rule.sweep
      {
        assert !Named(rule.sweep)(sweeps[r]);
      }
      assert FirstSweep(sweeps, rule.sweep, s);
      forall r: nat | FirstSweep(sweeps, rule.sweep, r)
        ensures r == s
      {
        FirstSweepOnce(sweeps, rule.sweep, r, s);
      }
      if BoundaryFor(sweeps[s].boundaries, rule.endpointID).None? {
        forall b | 0 <= b < |sweeps[s].boundaries|
          ensures sweeps[s].boundaries[b].endpointID != rule.endpointID
        {
          assert !ForEndpoint(rule.endpointID)(sweeps[s].boundaries[b]);
        }
      }
    } else {
      assert forall s | 0 <= s < |sweeps| :: !Named(rule.sweep)(sweeps[s]);
    }
  }

  // ----- the status of every cause

  /** The mode an undecided rule is classified by: its own action, else the gate's default, else the gate's mode. */
  ghost predicate ActsAs(rule: BoundaryRule, cfg: GateConfig, action: Mode) {
    || rule.indeterminateAction == Some(action)
    || (rule.indeterminateAction.None? && cfg.defaultAction == Some(action))
    || (rule.indeterminateAction.None? && cfg.defaultAction.None? && cfg.mode == action)
  }

  /** A failure is a warning in warn and report mode and fails otherwise. */
  function FailureIn(mode: Mode): Verdict {
    if mode in {WarnMode, ReportMode} then Warn else Fail
  }

  lemma StatusFollowsCause(rule: BoundaryRule, sweeps: seq<SweepOutput>, references: seq<Reference>, cfg: GateConfig)
    ensures var result := RuleResult(rule, sweeps, references, cfg);
      result.status == StatusOf(result.cause, rule, cfg)
  {
  }

  lemma UndecidedStatus(rule: BoundaryRule, cfg: GateConfig, action: Mode)
    requires ActsAs(rule, cfg, action)
    ensures IndeterminateStatus(rule, cfg) == FailureIn(action)
  {
  }

  /** The status of a rule in every mode: pass without a cause, decided ones by the mode, others by the action. */
  lemma StatusExactly(rule: BoundaryRule, sweeps: seq<SweepOutput>, references: seq<Reference>, cfg: GateConfig,
      action: Mode)
    requires ActsAs(rule, cfg, action)
    ensures var result := RuleResult(rule, sweeps, references, cfg);
      result.status == if result.cause == NoCause then Pass
                       else if result.cause in {BelowMinimum, Regressed} then FailureIn(cfg.mode)
                       else FailureIn(action)
  {
    StatusFollowsCause(rule, sweeps, references, cfg);
    UndecidedStatus(rule, cfg, action);
  }

  lemma FailureDecides(current: Verdict, results: seq<BoundaryResult>, mode: Mode, i: nat)
    requires i < |results| && results[i].status == Fail && !mode.ReportMode?
    ensures Merged(current, results, mode) == Fail
  {
  }

  /** A minimum that is violated beyond doubt always fails a gate in fail mode, whatever else the rules ask for. */
  lemma ViolatedMinimumFails(outputs: seq<Measured>, sweeps: seq<SweepOutput>, references: seq<Reference>,
      cfg: GateConfig, a: Analysis, i: nat, s: nat, targets: seq<Target>, t: nat)
    requires cfg.mode.FailMode? && Analyzes(outputs, sweeps, references, cfg, a) && i < |cfg.boundaryRules|
    requires var rule := cfg.boundaryRules[i];
      && FirstSweep(sweeps, rule.sweep, s) && IsTarget(targets, t, rule.endpointID) && Built(sweeps[s], targets)
      && MinimumMissed(rule, sweeps[s].points, targets[t].slo)
      && MissesAt(sweeps[s].points, rule.endpointID, targets[t].slo, rule.minimum.value)
    ensures a.decision == Fail && a.boundaryResults[i].cause == BelowMinimum && a.boundaryResults[i].status == Fail
  {
    CauseExactly(cfg.boundaryRules[i], sweeps, references, cfg, s, targets, t);
    StatusFollowsCause(cfg.boundaryRules[i], sweeps, references, cfg);
    ResultsAt(cfg, sweeps, references, |cfg.boundaryRules|, i);
    FailureDecides(VerdictOf(outputs, cfg), a.boundaryResults, cfg.mode, i);
  }
}
