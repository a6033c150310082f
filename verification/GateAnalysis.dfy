/** The gate over a whole analysis: profiles and boundary rules merged into one explained decision. */
module GateAnalysis {
  import opened Wrappers
  import opened Ids
  import opened Draws
  import opened Topology
  import opened Sorting
  import opened Endpoints
  import opened Wilson
  import opened Boundaries
  import opened Sweeps
  import opened SweepCoupling
  import opened Gate
  import opened BoundaryRules

  datatype Analysis = Analysis(
    profiles: Evaluation,
    decision: Verdict,
    boundaryResults: seq<BoundaryResult>,
    failedBoundaries: seq<string>,
    reasons: seq<Reason>)

  // ----- merging

  /** The worst boundary decides, except that a warning does not soften a failure. */
  function Merged(current: Verdict, results: seq<BoundaryResult>, mode: Mode): Verdict {
    if mode.ReportMode? then Report
    else if exists i | 0 <= i < |results| :: results[i].status == Fail then Fail
    else if current == Pass && exists i | 0 <= i < |results| :: results[i].status == Warn then Warn
    else current
  }

  method MergeBoundaryDecision(current: Verdict, results: seq<BoundaryResult>, mode: Mode) returns (decision: Verdict)
    ensures decision == Merged(current, results, mode)
  {
    if mode.ReportMode? {
      return Report;
    }
    decision := current;
    for i := 0 to |results|
      invariant forall j | 0 <= j < i :: results[j].status != Fail
      invariant decision == if current == Pass && exists j | 0 <= j < i :: results[j].status == Warn then Warn
          else current
    {
      if results[i].status == Fail {
        return Fail;
      }
      if results[i].status == Warn && decision == Pass {
        decision := Warn;
      }
    }
  }

  function WithoutPass(reasons: seq<Reason>): seq<Reason> {
    if reasons == [] then [] else (if reasons[0].id != GatePass then [reasons[0]] else []) + WithoutPass(reasons[1..])
  }

  lemma {:induction false} WithoutPassMembers(reasons: seq<Reason>, r: Reason)
    ensures r in WithoutPass(reasons) <==> r in reasons && r.id != GatePass
  {
    if reasons != [] {
      WithoutPassMembers(reasons[1..], r);
    }
  }

  /** Reasons are filtered in place in the source; the list that remains is the same. */
  method RemovePassReasons(reasons: seq<Reason>) returns (out: seq<Reason>)
    ensures out == WithoutPass(reasons)
  {
    out := [];
    for i := 0 to |reasons|
      invariant out + WithoutPass(reasons[i..]) == WithoutPass(reasons)
    {
      if reasons[i].id != GatePass {
        out := out + [reasons[i]];
      }
    }
  }

  // ----- the whole gate

  function ResultsOf(cfg: GateConfig, sweeps: seq<SweepOutput>, references: seq<Reference>, n: nat)
    : (results: seq<BoundaryResult>)
    requires n <= |cfg.boundaryRules|
    ensures |results| == n
  {
    if n == 0 then []
    else
      ResultsOf(cfg, sweeps, references, n - 1) + [RuleResult(cfg.boundaryRules[n - 1], sweeps, references, cfg)]
  }

  lemma {:induction false} ResultsAt(cfg: GateConfig, sweeps: seq<SweepOutput>, references: seq<Reference>, n: nat,
      i: nat)
    requires i < n <= |cfg.boundaryRules|
    ensures ResultsOf(cfg, sweeps, references, n)[i] == RuleResult(cfg.boundaryRules[i], sweeps, references, cfg)
  {
    if i < n - 1 {
      ResultsAt(cfg, sweeps, references, n - 1, i);
    }
  }

  function NameIfFailed(rule: BoundaryRule, result: BoundaryResult): seq<string> {
    if result.status == Pass then [] else [rule.sweep + ":" + rule.endpointID]
  }

  function ReasonIfFailed(rule: BoundaryRule, result: BoundaryResult): seq<Reason> {
    if result.status == Pass then [] else [ReasonFor(rule, result.cause, result.status)]
  }

  /** The reasons of the first `n` rules that did not pass. */
  function BoundaryReasons(rules: seq<BoundaryRule>, results: seq<BoundaryResult>, n: nat): seq<Reason>
    requires n <= |rules| && n <= |results|
  {
    if n == 0 then [] else BoundaryReasons(rules, results, n - 1) + ReasonIfFailed(rules[n - 1], results[n - 1])
  }

  function FailedRules(rules: seq<BoundaryRule>, results: seq<BoundaryResult>, n: nat): seq<string>
    requires n <= |rules| && n <= |results|
  {
    if n == 0 then [] else FailedRules(rules, results, n - 1) + NameIfFailed(rules[n - 1], results[n - 1])
  }

  /** The final list of reasons: a pass reason does not stand beside a failed boundary. */
  function FinalReasons(profiles: seq<Reason>, rules: seq<BoundaryRule>, results: seq<BoundaryResult>): seq<Reason>
    requires |rules| == |results|
  {
    if |FailedRules(rules, results, |rules|)| == 0 then profiles
        else WithoutPass(profiles + BoundaryReasons(rules, results, |rules|))
  }

  /** What evaluating an analysis must produce. */
  ghost predicate Analyzes(outputs: seq<Measured>, sweeps: seq<SweepOutput>, references: seq<Reference>,
      cfg: GateConfig, a: Analysis) {
    var rules := cfg.boundaryRules;
    && EvaluatesAll(outputs, cfg, a.profiles)
    && a.profiles.decision == VerdictOf(outputs, cfg)
    && a.boundaryResults == ResultsOf(cfg, sweeps, references, |rules|)
    && a.failedBoundaries == Sort(Leq, FailedRules(rules, a.boundaryResults, |rules|))
    && a.decision == (if rules == [] then VerdictOf(outputs, cfg)
        else Merged(VerdictOf(outputs, cfg), a.boundaryResults, cfg.mode))
    && a.reasons == FinalReasons(a.profiles.reasons, rules, a.boundaryResults)
  }

  function FailedCount(results: seq<BoundaryResult>, n: nat): nat
    requires n <= |results|
  {
    if n == 0 then 0 else FailedCount(results, n - 1) + if results[n - 1].status == Pass then 0 else 1
  }

  lemma {:induction false} NoneFailed(results: seq<BoundaryResult>, n: nat)
    requires n <= |results|
    ensures FailedCount(results, n) == 0 <==> forall i | 0 <= i < n :: results[i].status == Pass
  {
    if n > 0 {
      NoneFailed(results, n - 1);
    }
  }

  lemma OneEach(rule: BoundaryRule, result: BoundaryResult)
    ensures |NameIfFailed(rule, result)| == |ReasonIfFailed(rule, result)| == if result.status == Pass then 0 else 1
  {
  }

  lemma {:induction false} FailedCounted(rules: seq<BoundaryRule>, results: seq<BoundaryResult>, n: nat)
    requires n <= |rules| && n <= |results|
    ensures |FailedRules(rules, results, n)| == |BoundaryReasons(rules, results, n)| == FailedCount(results, n)
  {
    if n > 0 {
      FailedCounted(rules, results, n - 1);
      OneEach(rules[n - 1], results[n - 1]);
    }
  }

  lemma {:induction false} ResultsAppended(rules: seq<BoundaryRule>, results: seq<BoundaryResult>,
      result: BoundaryResult, n: nat)
    requires n <= |rules| && n <= |results|
    ensures BoundaryReasons(rules, results + [result], n) == BoundaryReasons(rules, results, n)
    ensures FailedRules(rules, results + [result], n) == FailedRules(rules, results, n)
  {
    if n > 0 {
      ResultsAppended(rules, results, result, n - 1);
    }
  }

  lemma OneMoreResult(rules: seq<BoundaryRule>, results: seq<BoundaryResult>, result: BoundaryResult, n: nat)
    requires n < |rules| && n == |results|
    ensures BoundaryReasons(rules, results + [result], n + 1) == BoundaryReasons(rules, results, n)
        + ReasonIfFailed(rules[n], result)
    ensures FailedRules(rules, results + [result], n + 1) == FailedRules(rules, results, n)
        + NameIfFailed(rules[n], result)
  {
    ResultsAppended(rules, results, result, n);
  }

  method EvaluateOne(rule: BoundaryRule, sweeps: seq<SweepOutput>, references: seq<Reference>, cfg: GateConfig)
    returns (result: BoundaryResult, failed: seq<string>, reasons: seq<Reason>)
    ensures result == RuleResult(rule, sweeps, references, cfg)
    ensures failed == NameIfFailed(rule, result) && reasons == ReasonIfFailed(rule, result)
  {
    var reason;
    result, reason := EvaluateBoundaryRule(rule, sweeps, references, cfg);
    failed, reasons := [], [];
    if result.status != Pass {
      failed := [rule.sweep + ":" + rule.endpointID];
      reasons := [reason];
    }
  }

  method EvaluateBoundaries(sweeps: seq<SweepOutput>, references: seq<Reference>, cfg: GateConfig)
    returns (results: seq<BoundaryResult>, failed: seq<string>, reasons: seq<Reason>)
    ensures results == ResultsOf(cfg, sweeps, references, |cfg.boundaryRules|)
    ensures failed == FailedRules(cfg.boundaryRules, results, |cfg.boundaryRules|)
    ensures reasons == BoundaryReasons(cfg.boundaryRules, results, |cfg.boundaryRules|)
  {
    results, failed, reasons := [], [], [];
    for n := 0 to |cfg.boundaryRules|
      invariant results == ResultsOf(cfg, sweeps, references, n)
      invariant failed == FailedRules(cfg.boundaryRules, results, n)
      invariant reasons == BoundaryReasons(cfg.boundaryRules, results, n)
    {
      var result, name, reason := EvaluateOne(cfg.boundaryRules[n], sweeps, references, cfg);
      OneMoreResult(cfg.boundaryRules, results, result, n);
      results, failed, reasons := results + [result], failed + name, reasons + reason;
    }
  }

  method EvaluateAnalysis(outputs: seq<Measured>, sweeps: seq<SweepOutput>, references: seq<Reference>, cfg: GateConfig)
    returns (r: Result<Analysis>)
    ensures r.Ok? <==> !cfg.mode.OtherMode?
    ensures r.Ok? ==> Analyzes(outputs, sweeps, references, cfg, r.value)
  {
    var eval := EvaluateProfiles(outputs, cfg);
    if eval.Err? {
      return Err(eval.error);
    }
    if |cfg.boundaryRules| == 0 {
      return Ok(Analysis(eval.value, eval.value.decision, [], [], eval.value.reasons));
    }
    var results, failed, more := EvaluateBoundaries(sweeps, references, cfg);
    var reasons := eval.value.reasons + more;
    FailedCounted(cfg.boundaryRules, results, |cfg.boundaryRules|);
    if |failed| > 0 {
      reasons := RemovePassReasons(reasons);
    }
    var decision := MergeBoundaryDecision(eval.value.decision, results, cfg.mode);
    return Ok(Analysis(eval.value, decision, results, Sort(Leq, failed), reasons));
  }

  // ----- what the decision means

  predicate BoundariesPass(cfg: GateConfig, sweeps: seq<SweepOutput>, references: seq<Reference>) {
    forall i | 0 <= i < |cfg.boundaryRules| :: RuleResult(cfg.boundaryRules[i], sweeps, references, cfg).status == Pass
  }

  lemma ResultStatus(rule: BoundaryRule, sweeps: seq<SweepOutput>, references: seq<Reference>, cfg: GateConfig)
    ensures var result := RuleResult(rule, sweeps, references, cfg);
      && (result.status == Pass <==> result.cause == NoCause)
      && result.status != Report
  {
  }

  ghost predicate AllPass(results: seq<BoundaryResult>) {
    forall i | 0 <= i < |results| :: results[i].status == Pass
  }

  ghost predicate NoneReports(results: seq<BoundaryResult>) {
    forall i | 0 <= i < |results| :: results[i].status != Report
  }

  lemma {:induction false} BoundariesPassMeans(sweeps: seq<SweepOutput>, references: seq<Reference>, cfg: GateConfig)
    ensures var results := ResultsOf(cfg, sweeps, references, |cfg.boundaryRules|);
      NoneReports(results) && (BoundariesPass(cfg, sweeps, references) <==> AllPass(results))
  {
    var results := ResultsOf(cfg, sweeps, references, |cfg.boundaryRules|);
    forall i | 0 <= i < |results|
      ensures results[i].status != Report
      ensures results[i].status == Pass <==> RuleResult(cfg.boundaryRules[i], sweeps, references, cfg).status == Pass
    {
      ResultsAt(cfg, sweeps, references, |cfg.boundaryRules|, i);
      ResultStatus(cfg.boundaryRules[i], sweeps, references, cfg);
    }
    if AllPass(results) {
      forall i | 0 <= i < |cfg.boundaryRules|
        ensures RuleResult(cfg.boundaryRules[i], sweeps, references, cfg).status == Pass
      {
        assert results[i].status == Pass;
      }
    }
  }

  lemma MergedPass(current: Verdict, results: seq<BoundaryResult>, mode: Mode)
    requires !mode.ReportMode? && NoneReports(results)
    ensures Merged(current, results, mode) == Pass <==> current == Pass && AllPass(results)
  {
  }

  lemma VerdictPasses(outputs: seq<Measured>, cfg: GateConfig)
    requires cfg.mode.WarnMode? || cfg.mode.FailMode?
    ensures VerdictOf(outputs, cfg) == Pass <==> RunPasses(outputs, cfg)
  {
  }

  /** The gate passes exactly when the profiles pass under the rule and every boundary rule passes. */
  lemma PassExactly(outputs: seq<Measured>, sweeps: seq<SweepOutput>, references: seq<Reference>, cfg: GateConfig,
      a: Analysis)
    requires (cfg.mode.WarnMode? || cfg.mode.FailMode?) && Analyzes(outputs, sweeps, references, cfg, a)
    ensures a.decision == Pass <==> RunPasses(outputs, cfg) && BoundariesPass(cfg, sweeps, references)
  {
    BoundariesPassMeans(sweeps, references, cfg);
    VerdictPasses(outputs, cfg);
    MergedPass(VerdictOf(outputs, cfg), a.boundaryResults, cfg.mode);
  }

  lemma MergedMonotone(worse: Verdict, better: Verdict, results: seq<BoundaryResult>, mode: Mode)
    requires Severity(worse) >= Severity(better) && (worse == Report ==> better == Report)
    ensures Severity(Merged(worse, results, mode)) >= Severity(Merged(better, results, mode))
  {
  }

  /** Lowering the measured results, with the same sweeps, never moves the merged decision towards a pass. */
  lemma DecisionMonotone(worse: seq<Measured>, better: seq<Measured>, sweeps: seq<SweepOutput>,
      references: seq<Reference>, cfg: GateConfig, a: Analysis, b: Analysis)
    requires LoweredRun(worse, better)
    requires Analyzes(worse, sweeps, references, cfg, a) && Analyzes(better, sweeps, references, cfg, b)
    ensures Severity(a.decision) >= Severity(b.decision)
  {
    VerdictMonotone(worse, better, cfg);
    assert VerdictOf(worse, cfg) == Report ==> VerdictOf(better, cfg) == Report;
    MergedMonotone(VerdictOf(worse, cfg), VerdictOf(better, cfg),
        ResultsOf(cfg, sweeps, references, |cfg.boundaryRules|), cfg.mode);
  }

  lemma {:induction false} BoundaryReasonAt(rules: seq<BoundaryRule>, results: seq<BoundaryResult>, n: nat, i: nat)
    requires i < n <= |rules| && n <= |results| && results[i].status != Pass
    ensures ReasonFor(rules[i], results[i].cause, results[i].status) in BoundaryReasons(rules, results, n)
  {
    if i < n - 1 {
      BoundaryReasonAt(rules, results, n - 1, i);
    }
  }

  /** A failed rule's reason survives into the final list. */
  lemma BoundaryExplained(profiles: seq<Reason>, rules: seq<BoundaryRule>, results: seq<BoundaryResult>, i: nat)
    requires |rules| == |results| && i < |rules| && results[i].status != Pass
    ensures Explained(FinalReasons(profiles, rules, results), results[i].status)
  {
    BoundaryReasonAt(rules, results, |rules|, i);
    FailedCounted(rules, results, |rules|);
    NoneFailed(results, |rules|);
    var reason := ReasonFor(rules[i], results[i].cause, results[i].status);
    WithoutPassMembers(profiles + BoundaryReasons(rules, results, |rules|), reason);
    assert reason in FinalReasons(profiles, rules, results);
  }

  /** So does a failed profile's. */
  lemma ProfileExplained(profiles: seq<Reason>, rules: seq<BoundaryRule>, results: seq<BoundaryResult>, status: Verdict)
    requires |rules| == |results| && Explained(profiles, status)
    ensures Explained(FinalReasons(profiles, rules, results), status)
  {
    var r :| r in profiles && r.status == status && r.id != GatePass;
    WithoutPassMembers(profiles + BoundaryReasons(rules, results, |rules|), r);
    assert r in FinalReasons(profiles, rules, results);
  }

  /** Some boundary rule does not pass, with a status that decides the merged outcome in this mode. */
  ghost predicate BoundaryDecides(results: seq<BoundaryResult>, mode: Mode) {
    exists i | 0 <= i < |results| :: results[i].status == Fail || results[i].status == Classify(mode, true)
  }

  lemma ReasonsOnlyFromFailures(profiles: seq<Reason>, rules: seq<BoundaryRule>, results: seq<BoundaryResult>,
      status: Verdict)
    requires |rules| == |results| && !Explained(profiles, status)
    requires forall i | 0 <= i < |results| :: results[i].status != Pass ==> results[i].status != status
    ensures !Explained(FinalReasons(profiles, rules, results), status)
  {
    forall r | r in FinalReasons(profiles, rules, results)
      ensures r.status != status || r.id == GatePass
    {
      WithoutPassMembers(profiles + BoundaryReasons(rules, results, |rules|), r);
      if r !in profiles {
        var i := BoundaryReasonFrom(rules, results, |rules|, r);
      }
    }
  }

  lemma {:induction false} BoundaryReasonFrom(rules: seq<BoundaryRule>, results: seq<BoundaryResult>, n: nat, r: Reason)
    returns (i: nat)
    requires n <= |rules| && n <= |results| && r in BoundaryReasons(rules, results, n)
    ensures i < n && results[i].status != Pass && r == ReasonFor(rules[i], results[i].cause, results[i].status)
  {
    if r in BoundaryReasons(rules, results, n - 1) {
      i := BoundaryReasonFrom(rules, results, n - 1, r);
    } else {
      i := n - 1;
    }
  }

  /**
   With profiles, under the all-profiles rule, or where a boundary rule decides, a decision that is not a pass carries a
   reason of the same status.
   */
  lemma DecisionExplained(outputs: seq<Measured>, sweeps: seq<SweepOutput>, references: seq<Reference>, cfg: GateConfig,
      a: Analysis)
    requires (cfg.mode.WarnMode? || cfg.mode.FailMode?) && Analyzes(outputs, sweeps, references, cfg, a)
    requires !(outputs == [] && cfg.rule.AnyProfile?) || BoundaryDecides(a.boundaryResults, cfg.mode)
    ensures a.decision != Pass ==> Explained(a.reasons, a.decision)
  {
    if a.decision != Pass {
      if i :| 0 <= i < |a.boundaryResults| && a.boundaryResults[i].status == a.decision {
        BoundaryExplained(a.profiles.reasons, cfg.boundaryRules, a.boundaryResults, i);
      } else {
        VerdictExplainedExactly(outputs, cfg, a.profiles);
        ProfileExplained(a.profiles.reasons, cfg.boundaryRules, a.boundaryResults, a.decision);
      }
    }
  }

  /**
   A merged decision that is not a pass is explained exactly when there are profiles, or the rule asks for all of them,
   or some boundary rule itself fails or gets the status of a failure in this mode.
   */
  lemma DecisionExplainedExactly(outputs: seq<Measured>, sweeps: seq<SweepOutput>, references: seq<Reference>,
      cfg: GateConfig, a: Analysis)
    requires (cfg.mode.WarnMode? || cfg.mode.FailMode?) && Analyzes(outputs, sweeps, references, cfg, a)
    ensures (a.decision != Pass ==> Explained(a.reasons, a.decision))
        <==> || !(outputs == [] && cfg.rule.AnyProfile?)
             || BoundaryDecides(ResultsOf(cfg, sweeps, references, |cfg.boundaryRules|), cfg.mode)
  {
    if !(outputs == [] && cfg.rule.AnyProfile?) || BoundaryDecides(a.boundaryResults, cfg.mode) {
      DecisionExplained(outputs, sweeps, references, cfg, a);
    } else {
      NoProfilesUnexplained(cfg, a.profiles);
      ReasonsOnlyFromFailures(a.profiles.reasons, cfg.boundaryRules, a.boundaryResults, a.decision);
    }
  }

  // ----- the gate on coupled sweeps

  /**
   A rule on a sweep the engine ran with a non-zero seed is never indeterminate because the curve rises; and when its
   minimum passes, every evaluated point up to the minimum has both its lower bound and its observed availability at
   or above the SLO.
   */
  lemma GateOnCoupledSweep(rule: BoundaryRule, sweeps: seq<SweepOutput>, references: seq<Reference>, cfg: GateConfig,
      sweep: Sweep, seed: int, ctx: Context, endpoints: seq<Endpoint>, faults: Faults, entropy: Entropy,
      quantile: Quantile)
    returns (t: nat)
    requires sweep.Valid() && GoodEndpoints(ctx, endpoints) && seed != 0 && StartsCertain(sweep, ctx, faults)
    requires quantile.Valid() && KnownTargets(sweep, endpoints)
    requires Found(sweeps, rule.sweep, rule.endpointID).Some?
    requires var output := Found(sweeps, rule.sweep, rule.endpointID).value.0;
      && Curve(sweep, seed, ctx, endpoints, faults, entropy, quantile, output.points)
      && output.boundaries == Sort(BoundaryLeq, BoundariesOf(output.points, sweep.targets))
    ensures t < |sweep.targets| && sweep.targets[t].endpointID == rule.endpointID
    ensures RuleResult(rule, sweeps, references, cfg).cause != NotMonotonic
    ensures var points := Found(sweeps, rule.sweep, rule.endpointID).value.0.points;
      RuleResult(rule, sweeps, references, cfg).cause == NoCause && rule.minimum.Some? ==>
        forall i | 0 <= i < |points| && points[i].axis <= rule.minimum.value ::
          Certifies(points[i], sweep.targets[t]) && Meets(points[i], sweep.targets[t])
  {
    var found := Found(sweeps, rule.sweep, rule.endpointID).value;
    CurveIncreases(sweep, seed, ctx, endpoints, faults, entropy, quantile, found.0.points);
    t := BoundaryRuleExactly(rule, sweeps, references, cfg, sweep.targets);
    CurvesNeverRise(sweep, seed, ctx, endpoints, faults, entropy, quantile, found.0.points, t);
    var u := FoundIsBuilt(found.0, sweep.targets, rule.endpointID);
    NeverNonMonotonic(rule, sweeps, references, cfg);
  }

  lemma CurveIncreases(sweep: Sweep, seed: int, ctx: Context, endpoints: seq<Endpoint>, faults: Faults,
      entropy: Entropy, quantile: Quantile, points: seq<Point>)
    requires sweep.Valid() && quantile.z > 0.0 && Curve(sweep, seed, ctx, endpoints, faults, entropy, quantile, points)
    ensures Increasing(points)
  {
    forall i | 0 <= i < |points|
      ensures points[i].axis == sweep.values[i]
    {
      assert IsPoint(sweep, i, seed, ctx, endpoints, faults, entropy, quantile, points[i]);
    }
  }

  lemma NeverNonMonotonic(rule: BoundaryRule, sweeps: seq<SweepOutput>, references: seq<Reference>, cfg: GateConfig)
    requires Found(sweeps, rule.sweep, rule.endpointID).Some?
    requires Found(sweeps, rule.sweep, rule.endpointID).value.1.observedMonotonic
    ensures RuleResult(rule, sweeps, references, cfg).cause != NotMonotonic
  {
  }
}
