/** What the gate decides and why, in terms of the configuration's fields and the measured results. */
module GateMeaning {
  import opened Wrappers
  import opened Ids
  import opened Sorting
  import opened Sweeps
  import opened Gate
  import opened BoundaryRules
  import opened GateAnalysis
  import opened BoundaryCauses
  import EdgeAware

  // ----- thresholds

  /** The profile has a threshold of its own for the endpoint. */
  predicate HasOwn(cfg: GateConfig, profile: string, id: Id) {
    profile in cfg.profileEndpointThresholds && id in cfg.profileEndpointThresholds[profile]
  }

  /** The endpoint must reach t in the profile: its own value there, else the endpoint's, else the global one. */
  ghost predicate MustReach(cfg: GateConfig, profile: string, id: Id, t: real) {
    || (HasOwn(cfg, profile, id) && cfg.profileEndpointThresholds[profile][id] == t)
    || (!HasOwn(cfg, profile, id) && id in cfg.endpointThresholds && cfg.endpointThresholds[id] == t)
    || (!HasOwn(cfg, profile, id) && id !in cfg.endpointThresholds && cfg.globalThreshold == t)
  }

  /** The weighted aggregate must reach t in the profile; where nothing is set it need not reach anything. */
  ghost predicate AggregateMustReach(cfg: GateConfig, profile: string, t: real) {
    || (profile in cfg.profileAggregateThresholds && cfg.profileAggregateThresholds[profile] == t)
    || (profile !in cfg.profileAggregateThresholds && cfg.aggregateThreshold == Some(t))
  }

  lemma ThresholdIs(cfg: GateConfig, profile: string, id: Id, t: real)
    ensures MustReach(cfg, profile, id, t) <==> ThresholdOf(cfg, profile, id) == t
    ensures AggregateMustReach(cfg, profile, t) <==> AggregateThresholdOf(cfg, profile) == Some(t)
  {
  }

  /** The endpoint misses what it must reach. */
  ghost predicate Misses(output: Measured, cfg: GateConfig, id: Id) {
    id in output.availability && exists t :: MustReach(cfg, output.name, id, t) && output.availability[id] < t
  }

  ghost predicate AggregateMisses(output: Measured, cfg: GateConfig) {
    exists t :: AggregateMustReach(cfg, output.name, t) && output.weightedAggregate < t
  }

  /** Every endpoint and the aggregate reach their thresholds and every assertion holds. */
  ghost predicate Satisfied(output: Measured, cfg: GateConfig) {
    && (forall id :: !Misses(output, cfg, id)) && !AggregateMisses(output, cfg)
    && forall a | a in output.assertions :: a.passed
  }

  lemma MissesIs(output: Measured, cfg: GateConfig, id: Id)
    ensures Misses(output, cfg, id) <==> BelowThreshold(output, cfg, id)
  {
    ThresholdIs(cfg, output.name, id, ThresholdOf(cfg, output.name, id));
    if id in output.availability {
      forall t | MustReach(cfg, output.name, id, t)
        ensures t == ThresholdOf(cfg, output.name, id)
      {
        ThresholdIs(cfg, output.name, id, t);
      }
    }
  }

  lemma AggregateMissesIs(output: Measured, cfg: GateConfig)
    ensures AggregateMisses(output, cfg) <==> !AggregatePasses(output, cfg)
  {
    var threshold := AggregateThresholdOf(cfg, output.name);
    forall t
      ensures AggregateMustReach(cfg, output.name, t) <==> threshold == Some(t)
    {
      ThresholdIs(cfg, output.name, "", t);
    }
    if threshold.Some? && output.weightedAggregate < threshold.value {
      assert AggregateMustReach(cfg, output.name, threshold.value);
    }
  }

  lemma SatisfiedIs(output: Measured, cfg: GateConfig)
    ensures Satisfied(output, cfg) <==> ProfilePasses(output, cfg)
  {
    forall id
      ensures Misses(output, cfg, id) <==> BelowThreshold(output, cfg, id)
    {
      MissesIs(output, cfg, id);
    }
    AggregateMissesIs(output, cfg);
    assert EndpointsPass(output, cfg) <==> forall id :: !BelowThreshold(output, cfg, id) by {
      if EndpointsPass(output, cfg) {
        assert forall id | id in output.availability :: !BelowThreshold(output, cfg, id);
      } else {
        var id :| id in output.availability && output.availability[id] < ThresholdOf(cfg, output.name, id);
        assert BelowThreshold(output, cfg, id);
      }
    }
  }

  // ----- all profiles

  function Total(outputs: seq<Measured>): real {
    if outputs == [] then 0.0 else outputs[0].weightedAggregate + Total(outputs[1..])
  }

  lemma {:induction false} TotalSplits(outputs: seq<Measured>, n: nat)
    requires n <= |outputs|
    ensures Total(outputs) == WeightedSum(outputs, n) + Total(outputs[n..])
  {
    if n == 0 {
      assert outputs[0..] == outputs;
    } else {
      TotalSplits(outputs, n - 1);
      assert outputs[n - 1..][1..] == outputs[n..];
    }
  }

  /** The mean aggregate over the profiles is below the value it must reach. */
  ghost predicate MeanMisses(outputs: seq<Measured>, cfg: GateConfig) {
    && outputs != [] && cfg.crossProfileThreshold.Some?
    && Total(outputs) / |outputs| as real < cfg.crossProfileThreshold.value
  }

  /** The profiles as a whole are satisfied: the mean, and all of them or any of them as the rule has it. */
  ghost predicate ProfilesSatisfied(outputs: seq<Measured>, cfg: GateConfig) {
    && !MeanMisses(outputs, cfg)
    && (cfg.rule.AllProfiles? ==> forall i | 0 <= i < |outputs| :: Satisfied(outputs[i], cfg))
    && (cfg.rule.AnyProfile? ==> exists i | 0 <= i < |outputs| :: Satisfied(outputs[i], cfg))
  }

  lemma ProfilesSatisfiedIs(outputs: seq<Measured>, cfg: GateConfig)
    ensures ProfilesSatisfied(outputs, cfg) <==> RunPasses(outputs, cfg)
  {
    TotalSplits(outputs, |outputs|);
    forall i | 0 <= i < |outputs|
      ensures Satisfied(outputs[i], cfg) <==> ProfilePasses(outputs[i], cfg)
    {
      SatisfiedIs(outputs[i], cfg);
    }
    assert MeanMisses(outputs, cfg) <==> !CrossPasses(outputs, cfg);
    if ProfilesSatisfied(outputs, cfg) && cfg.rule.AnyProfile? {
      var i :| 0 <= i < |outputs| && Satisfied(outputs[i], cfg);
      assert ProfilePasses(outputs[i], cfg);
    }
    if RunPasses(outputs, cfg) && cfg.rule.AnyProfile? {
      var i :| 0 <= i < |outputs| && ProfilePasses(outputs[i], cfg);
      assert Satisfied(outputs[i], cfg);
    }
  }

  /** Some boundary rule ends with the status. */
  ghost predicate SomeRule(cfg: GateConfig, sweeps: seq<SweepOutput>, references: seq<Reference>, status: Verdict) {
    exists i | 0 <= i < |cfg.boundaryRules| ::
      RuleResult(cfg.boundaryRules[i], sweeps, references, cfg).status == status
  }

  ghost predicate HasStatus(results: seq<BoundaryResult>, status: Verdict) {
    exists i | 0 <= i < |results| :: results[i].status == status
  }

  lemma SomeRuleIs(cfg: GateConfig, sweeps: seq<SweepOutput>, references: seq<Reference>, status: Verdict)
    ensures SomeRule(cfg, sweeps, references, status)
        <==> HasStatus(ResultsOf(cfg, sweeps, references, |cfg.boundaryRules|), status)
  {
    var results := ResultsOf(cfg, sweeps, references, |cfg.boundaryRules|);
    if HasStatus(results, status) {
      var i :| 0 <= i < |results| && results[i].status == status;
      ResultsAt(cfg, sweeps, references, |cfg.boundaryRules|, i);
    }
    if SomeRule(cfg, sweeps, references, status) {
      var i :| 0 <= i < |cfg.boundaryRules|
               && RuleResult(cfg.boundaryRules[i], sweeps, references, cfg).status == status;
      ResultsAt(cfg, sweeps, references, |cfg.boundaryRules|, i);
      assert results[i].status == status;
    }
  }

  lemma VerdictIs(outputs: seq<Measured>, cfg: GateConfig)
    ensures cfg.mode.ReportMode? ==> VerdictOf(outputs, cfg) == Report
    ensures cfg.mode.FailMode? ==> VerdictOf(outputs, cfg) == if ProfilesSatisfied(outputs, cfg) then Pass else Fail
    ensures cfg.mode.WarnMode? ==> VerdictOf(outputs, cfg) == if ProfilesSatisfied(outputs, cfg) then Pass else Warn
  {
    ProfilesSatisfiedIs(outputs, cfg);
  }

  /**
   The decision, exactly: a report-mode gate reports; otherwise it fails when a boundary rule fails, or the profiles are
   not satisfied in fail mode; it warns when neither is so but a rule warns or the profiles are not satisfied in warn
   mode; and it passes in all other cases.
   */
  lemma DecisionExactly(outputs: seq<Measured>, sweeps: seq<SweepOutput>, references: seq<Reference>, cfg: GateConfig,
      a: Analysis)
    requires Analyzes(outputs, sweeps, references, cfg, a) && !cfg.mode.OtherMode?
    ensures var missed := !ProfilesSatisfied(outputs, cfg);
      a.decision
      == if cfg.mode.ReportMode? then Report
         else if SomeRule(cfg, sweeps, references, Fail) || (missed && cfg.mode.FailMode?) then Fail
         else if SomeRule(cfg, sweeps, references, Warn) || (missed && cfg.mode.WarnMode?) then Warn
         else Pass
  {
    VerdictIs(outputs, cfg);
    SomeRuleIs(cfg, sweeps, references, Fail);
    SomeRuleIs(cfg, sweeps, references, Warn);
    if !cfg.mode.ReportMode? {
      MergedCases(VerdictOf(outputs, cfg), a.boundaryResults, cfg.mode);
    }
  }

  /** The worst of the profiles' verdict and the rules' statuses. */
  lemma MergedCases(current: Verdict, results: seq<BoundaryResult>, mode: Mode)
    requires !mode.ReportMode? && current in {Pass, Warn, Fail}
    ensures Merged(current, results, mode)
         == if current == Fail || HasStatus(results, Fail) then Fail
            else if current == Warn || HasStatus(results, Warn) then Warn
            else Pass
  {
  }

  // ----- the reasons

  lemma {:induction false} FailedAssertionsMembers(output: Measured, n: nat, a: Assertion)
    requires n <= |output.assertions|
    ensures a in FailedAssertions(output, n) <==> a in output.assertions[..n] && !a.passed
  {
    if n > 0 {
      FailedAssertionsMembers(output, n - 1, a);
      assert output.assertions[..n] == output.assertions[..n - 1] + [output.assertions[n - 1]];
    }
  }

  /** Some assertion does not hold, and is available or not as asked. */
  ghost predicate AssertionMissing(output: Measured, available: bool) {
    exists a | a in output.assertions :: !a.passed && a.available == available
  }

  lemma EndpointReasonIs(output: Measured, cfg: GateConfig, eval: ProfileEvaluation, r: Reason)
    requires Listing(eval.failedEndpoints, FailingIDs(output, cfg))
    ensures r in EndpointReasons(output, cfg, eval.failedEndpoints)
        <==> && r.id == EndpointBelowThreshold && r.profile == output.name && r.status == FailureIn(cfg.mode)
             && Misses(output, cfg, r.endpointID)
  {
    var failed := eval.failedEndpoints;
    MissesIs(output, cfg, r.endpointID);
    assert r.endpointID in failed <==> r.endpointID in FailingIDs(output, cfg);
    if r.endpointID in failed {
      var i :| 0 <= i < |failed| && failed[i] == r.endpointID;
      assert EndpointReasons(output, cfg, failed)[i]
          == Reason(EndpointBelowThreshold, output.name, r.endpointID, Classify(cfg.mode, true));
    }
    if i :| 0 <= i < |failed| && EndpointReasons(output, cfg, failed)[i] == r {
      assert failed[i] in failed;
    }
  }

  lemma AssertionReasonIs(output: Measured, cfg: GateConfig, r: Reason)
    ensures var failed := FailedAssertions(output, |output.assertions|);
      r in AssertionReasons(output, cfg, failed)
      <==> && r.id in {AssertionFailed, AssertionUnavailable} && r.profile == output.name && r.endpointID == ""
           && r.status == FailureIn(cfg.mode) && AssertionMissing(output, r.id == AssertionFailed)
  {
    var failed := FailedAssertions(output, |output.assertions|);
    assert output.assertions[..|output.assertions|] == output.assertions;
    forall a
      ensures a in failed <==> a in output.assertions && !a.passed
    {
      FailedAssertionsMembers(output, |output.assertions|, a);
    }
    if r.id in {AssertionFailed, AssertionUnavailable} && AssertionMissing(output, r.id == AssertionFailed) {
      var a :| a in output.assertions && !a.passed && a.available == (r.id == AssertionFailed);
      var i :| 0 <= i < |failed| && failed[i] == a;
      assert AssertionReasons(output, cfg, failed)[i]
          == Reason(r.id, output.name, "", Classify(cfg.mode, true));
    }
    if r in AssertionReasons(output, cfg, failed) {
      var i :| 0 <= i < |failed| && AssertionReasons(output, cfg, failed)[i] == r;
      assert failed[i] in output.assertions && !failed[i].passed;
    }
  }

  /** A profile's reasons name exactly what it misses: its endpoints, its aggregate and its assertions. */
  lemma ProfileReasonsExactly(output: Measured, cfg: GateConfig, eval: ProfileEvaluation, r: Reason)
    requires Judges(output, cfg, eval) && Details(output, cfg, eval)
    ensures r in eval.reasons
        <==> && r.profile == output.name && r.status == FailureIn(cfg.mode)
             && (|| (r.id == EndpointBelowThreshold && Misses(output, cfg, r.endpointID))
                 || (r.id == AggregateBelowThreshold && r.endpointID == "" && AggregateMisses(output, cfg))
                 || (r.id == AssertionFailed && r.endpointID == "" && AssertionMissing(output, true))
                 || (r.id == AssertionUnavailable && r.endpointID == "" && AssertionMissing(output, false)))
  {
    EndpointReasonIs(output, cfg, eval, r);
    AggregateMissesIs(output, cfg);
    AssertionReasonIs(output, cfg, r);
  }

  lemma {:induction false} ReasonFrom(evals: seq<ProfileEvaluation>, n: nat, r: Reason)
    requires n <= |evals|
    ensures r in ReasonsOf(evals, n) <==> exists i | 0 <= i < n :: r in evals[i].reasons
  {
    if n > 0 {
      ReasonFrom(evals, n - 1, r);
    }
  }

  /** The reasons over all profiles are those of each profile and, if the mean misses its threshold, one for that. */
  lemma ReasonsExactly(outputs: seq<Measured>, cfg: GateConfig, eval: Evaluation, r: Reason)
    requires EvaluatesAll(outputs, cfg, eval) && r.id != GatePass
    ensures r in eval.reasons
        <==> || (exists i | 0 <= i < |outputs| :: r in eval.profiles[i].reasons)
             || (MeanMisses(outputs, cfg) && r == Reason(AggregateBelowThreshold, "", "", FailureIn(cfg.mode)))
  {
    ReasonFrom(eval.profiles, |outputs|, r);
    TotalSplits(outputs, |outputs|);
    assert MeanMisses(outputs, cfg) <==> !CrossPasses(outputs, cfg);
    assert outputs[|outputs|..] == [] && Total([]) == 0.0;
  }

  predicate AboutBoundaries(r: Reason) {
    r.id in {BoundaryBelowMinimum, BoundaryRegressed, BoundaryIndeterminate}
  }

  /** The reason for a cause. */
  ghost predicate Explaining(cause: Cause, id: ReasonID) {
    && cause != NoCause
    && (id == BoundaryBelowMinimum <==> cause == BelowMinimum)
    && (id == BoundaryRegressed <==> cause == Regressed)
    && (id == BoundaryIndeterminate <==> cause !in {BelowMinimum, Regressed})
  }

  lemma {:induction false} NoBoundaryReasons(outputs: seq<Measured>, cfg: GateConfig, evals: seq<ProfileEvaluation>,
      n: nat, r: Reason)
    requires n <= |evals| == |outputs| && EachJudged(outputs, cfg, evals) && EachDetailed(outputs, cfg, evals)
    requires AboutBoundaries(r)
    ensures r !in ReasonsOf(evals, n)
  {
    if n > 0 {
      NoBoundaryReasons(outputs, cfg, evals, n - 1, r);
      assert Details(outputs[n - 1], cfg, evals[n - 1]);
      ProfileReasonsExactly(outputs[n - 1], cfg, evals[n - 1], r);
    }
  }

  /** The rule ends with this cause and status, and names this sweep and endpoint. */
  ghost predicate Gives(rule: BoundaryRule, sweeps: seq<SweepOutput>, references: seq<Reference>, cfg: GateConfig,
      r: Reason) {
    var result := RuleResult(rule, sweeps, references, cfg);
    && rule.sweep == r.profile && rule.endpointID == r.endpointID
    && result.status == r.status && Explaining(result.cause, r.id)
  }

  lemma GivenReason(rule: BoundaryRule, sweeps: seq<SweepOutput>, references: seq<Reference>, cfg: GateConfig,
      r: Reason)
    requires AboutBoundaries(r)
    ensures var result := RuleResult(rule, sweeps, references, cfg);
      result.status != Pass && r == ReasonFor(rule, result.cause, result.status)
      <==> Gives(rule, sweeps, references, cfg, r)
  {
    ResultStatus(rule, sweeps, references, cfg);
  }

  /** A rule that does not pass is explained, and only such a rule is. */
  lemma RuleReasonIs(cfg: GateConfig, sweeps: seq<SweepOutput>, references: seq<Reference>, r: Reason)
    requires AboutBoundaries(r)
    ensures var results := ResultsOf(cfg, sweeps, references, |cfg.boundaryRules|);
      r in BoundaryReasons(cfg.boundaryRules, results, |cfg.boundaryRules|)
      <==> exists i | 0 <= i < |cfg.boundaryRules| :: Gives(cfg.boundaryRules[i], sweeps, references, cfg, r)
  {
    var rules := cfg.boundaryRules;
    var results := ResultsOf(cfg, sweeps, references, |rules|);
    if r in BoundaryReasons(rules, results, |rules|) {
      var i := BoundaryReasonFrom(rules, results, |rules|, r);
      ResultsAt(cfg, sweeps, references, |rules|, i);
      GivenReason(rules[i], sweeps, references, cfg, r);
    }
    if i :| 0 <= i < |rules| && Gives(rules[i], sweeps, references, cfg, r) {
      ResultsAt(cfg, sweeps, references, |rules|, i);
      GivenReason(rules[i], sweeps, references, cfg, r);
      BoundaryReasonAt(rules, results, |rules|, i);
    }
  }

  /**
   The reasons of an analysis say of its boundaries exactly what the rules found: each rule that does not pass, by its
   sweep and endpoint, with its status and with the kind of reason its cause has.
   */
  lemma BoundaryReasonsExactly(outputs: seq<Measured>, sweeps: seq<SweepOutput>, references: seq<Reference>,
      cfg: GateConfig, a: Analysis, r: Reason)
    requires Analyzes(outputs, sweeps, references, cfg, a) && AboutBoundaries(r)
    ensures r in a.reasons
        <==> exists i | 0 <= i < |cfg.boundaryRules| :: Gives(cfg.boundaryRules[i], sweeps, references, cfg, r)
  {
    var rules := cfg.boundaryRules;
    RuleReasonIs(cfg, sweeps, references, r);
    NoProfileReason(outputs, cfg, a.profiles, r);
    FailedCounted(rules, a.boundaryResults, |rules|);
    WithoutPassMembers(a.profiles.reasons + BoundaryReasons(rules, a.boundaryResults, |rules|), r);
  }

  lemma NoProfileReason(outputs: seq<Measured>, cfg: GateConfig, eval: Evaluation, r: Reason)
    requires EvaluatesAll(outputs, cfg, eval) && AboutBoundaries(r)
    ensures r !in eval.reasons
  {
    NoBoundaryReasons(outputs, cfg, eval.profiles, |outputs|, r);
  }

  /** Nothing is missed by any profile or by their mean. */
  ghost predicate NothingMissed(outputs: seq<Measured>, cfg: GateConfig) {
    !MeanMisses(outputs, cfg) && forall i | 0 <= i < |outputs| :: Satisfied(outputs[i], cfg)
  }

  lemma {:induction false} ReasonsMean(outputs: seq<Measured>, cfg: GateConfig, evals: seq<ProfileEvaluation>, n: nat)
    requires n <= |evals| == |outputs| && EachJudged(outputs, cfg, evals)
    ensures ReasonsOf(evals, n) == [] <==> forall i | 0 <= i < n :: Satisfied(outputs[i], cfg)
    ensures forall r | r in ReasonsOf(evals, n) :: r.id != GatePass
  {
    if n > 0 {
      ReasonsMean(outputs, cfg, evals, n - 1);
      assert Judges(outputs[n - 1], cfg, evals[n - 1]);
      SatisfiedIs(outputs[n - 1], cfg);
    }
  }

  lemma PassReasonOfProfiles(outputs: seq<Measured>, cfg: GateConfig, eval: Evaluation, r: Reason)
    requires EvaluatesAll(outputs, cfg, eval) && r.id == GatePass
    ensures r in eval.reasons <==> NothingMissed(outputs, cfg) && r == Reason(GatePass, "", "", eval.decision)
  {
    ReasonsMean(outputs, cfg, eval.profiles, |outputs|);
    TotalSplits(outputs, |outputs|);
    assert MeanMisses(outputs, cfg) <==> !CrossPasses(outputs, cfg);
  }

  /** The pass reason is given exactly when nothing is missed and every boundary rule passes, and then only once. */
  lemma PassReasonExactly(outputs: seq<Measured>, sweeps: seq<SweepOutput>, references: seq<Reference>, cfg: GateConfig,
      a: Analysis, r: Reason)
    requires Analyzes(outputs, sweeps, references, cfg, a) && r.id == GatePass
    ensures r in a.reasons
        <==> && NothingMissed(outputs, cfg) && BoundariesPass(cfg, sweeps, references)
             && r == Reason(GatePass, "", "", VerdictOf(outputs, cfg))
  {
    var rules, results := cfg.boundaryRules, a.boundaryResults;
    PassReasonOfProfiles(outputs, cfg, a.profiles, r);
    BoundariesPassMeans(sweeps, references, cfg);
    FailedCounted(rules, results, |rules|);
    NoneFailed(results, |rules|);
    WithoutPassMembers(a.profiles.reasons + BoundaryReasons(rules, results, |rules|), r);
  }

  lemma {:induction false} FailedRulesMembers(rules: seq<BoundaryRule>, results: seq<BoundaryResult>, n: nat,
      name: string)
    requires n <= |rules| && n <= |results|
    ensures name in FailedRules(rules, results, n)
        <==> exists i | 0 <= i < n :: results[i].status != Pass && name == rules[i].sweep + ":" + rules[i].endpointID
  {
    if n > 0 {
      FailedRulesMembers(rules, results, n - 1, name);
    }
  }

  /** The failed boundaries are the rules that do not pass, by sweep and endpoint, in the order of these names. */
  lemma FailedBoundariesExactly(outputs: seq<Measured>, sweeps: seq<SweepOutput>, references: seq<Reference>,
      cfg: GateConfig, a: Analysis, name: string)
    requires Analyzes(outputs, sweeps, references, cfg, a)
    ensures name in a.failedBoundaries
        <==> exists i | 0 <= i < |cfg.boundaryRules| ::
               && RuleResult(cfg.boundaryRules[i], sweeps, references, cfg).status != Pass
               && name == cfg.boundaryRules[i].sweep + ":" + cfg.boundaryRules[i].endpointID
    ensures forall i, j | 0 <= i < j < |a.failedBoundaries| ::
              ByFirstDifference(a.failedBoundaries[i], a.failedBoundaries[j])
  {
    var rules, results := cfg.boundaryRules, a.boundaryResults;
    var failed := FailedRules(rules, results, |rules|);
    EdgeAware.IdOrder();
    SortSorts(Leq, failed);
    FailedRulesMembers(rules, results, |rules|, name);
    forall i | 0 <= i < |rules|
      ensures results[i] == RuleResult(rules[i], sweeps, references, cfg)
    {
      ResultsAt(cfg, sweeps, references, |rules|, i);
    }
    forall i, j | 0 <= i < j < |a.failedBoundaries|
      ensures ByFirstDifference(a.failedBoundaries[i], a.failedBoundaries[j])
    {
      LeqExactly(a.failedBoundaries[i], a.failedBoundaries[j]);
    }
  }
}
