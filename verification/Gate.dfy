/** The gate over profiles: thresholds, aggregates and assertions, and the decision they add up to. */
module Gate {
  import opened Wrappers
  import opened Ids
  import opened Sorting
  import EdgeAware

  /** Policy modes; every unsupported text is OtherMode. */
  datatype Mode = WarnMode | FailMode | ReportMode | OtherMode

  /** The texts used both as statuses and as decisions. */
  datatype Verdict = Pass | Warn | Fail | Report

  /** An unset rule, like an unknown one, is read as AllProfiles. */
  datatype EvaluationRule = AllProfiles | AnyProfile

  datatype BoundaryRule = BoundaryRule(
    sweep: string,
    endpointID: Id,
    minimum: Option<real>,
    baseline: string,
    maxRegression: Option<real>,
    indeterminateAction: Option<Mode>)

  datatype GateConfig = GateConfig(
    mode: Mode,
    defaultAction: Option<Mode>,
    rule: EvaluationRule,
    globalThreshold: real,
    endpointThresholds: map<Id, real>,
    profileEndpointThresholds: map<string, map<Id, real>>,
    aggregateThreshold: Option<real>,
    profileAggregateThresholds: map<string, real>,
    crossProfileThreshold: Option<real>,
    boundaryRules: seq<BoundaryRule>)

  datatype Assertion = Assertion(metric: string, available: bool, passed: bool)

  datatype Measured = Measured(name: string, availability: map<Id, real>, weightedAggregate: real,
      assertions: seq<Assertion>)

  datatype ReasonID =
    | EndpointBelowThreshold | AggregateBelowThreshold | AssertionFailed | AssertionUnavailable
    | BoundaryBelowMinimum | BoundaryRegressed | BoundaryIndeterminate | GatePass

  datatype Reason = Reason(id: ReasonID, profile: string, endpointID: Id, status: Verdict)

  datatype EndpointResult = EndpointResult(endpointID: Id, availability: real, threshold: real, status: Verdict)

  datatype AggregateResult = AggregateResult(availability: real, threshold: real, status: Verdict)

  datatype ProfileEvaluation = ProfileEvaluation(
    profile: string,
    decision: Verdict,
    failedEndpoints: seq<Id>,
    failedAssertions: seq<Assertion>,
    results: seq<EndpointResult>,
    aggregate: Option<AggregateResult>,
    reasons: seq<Reason>)

  function Classify(mode: Mode, failed: bool): Verdict {
    if !failed then Pass
    else
      match mode
      case FailMode => Fail
      case WarnMode => Warn
      case ReportMode => Warn
      case OtherMode => Fail
  }

  function AggregateDecision(mode: Mode, failed: bool): Verdict {
    match mode
    case ReportMode => Report
    case WarnMode => if failed then Warn else Pass
    case FailMode => if failed then Fail else Pass
    case OtherMode => Fail
  }

  /** The most specific threshold wins: the profile's own, then the endpoint's, then the global one. */
  function ThresholdOf(cfg: GateConfig, profile: string, id: Id): real {
    if profile in cfg.profileEndpointThresholds && id in cfg.profileEndpointThresholds[profile]
    then cfg.profileEndpointThresholds[profile][id]
    else if id in cfg.endpointThresholds then cfg.endpointThresholds[id]
    else cfg.globalThreshold
  }

  function AggregateThresholdOf(cfg: GateConfig, profile: string): Option<real> {
    if profile in cfg.profileAggregateThresholds then Some(cfg.profileAggregateThresholds[profile])
        else cfg.aggregateThreshold
  }

  // ----- what passing means

  predicate EndpointsPass(output: Measured, cfg: GateConfig) {
    forall id | id in output.availability :: output.availability[id] >= ThresholdOf(cfg, output.name, id)
  }

  predicate AggregatePasses(output: Measured, cfg: GateConfig) {
    var threshold := AggregateThresholdOf(cfg, output.name);
    threshold.Some? ==> output.weightedAggregate >= threshold.value
  }

  predicate AssertionsPass(output: Measured) {
    forall i | 0 <= i < |output.assertions| :: output.assertions[i].passed
  }

  predicate ProfilePasses(output: Measured, cfg: GateConfig) {
    EndpointsPass(output, cfg) && AggregatePasses(output, cfg) && AssertionsPass(output)
  }

  function WeightedSum(outputs: seq<Measured>, n: nat): real
    requires n <= |outputs|
  {
    if n == 0 then 0.0 else WeightedSum(outputs, n - 1) + outputs[n - 1].weightedAggregate
  }

  predicate CrossPasses(outputs: seq<Measured>, cfg: GateConfig) {
    |outputs| > 0 && cfg.crossProfileThreshold.Some? ==>
      WeightedSum(outputs, |outputs|) / |outputs| as real >= cfg.crossProfileThreshold.value
  }

  /** The decision over profiles, in terms of what passes. */
  predicate RunPasses(outputs: seq<Measured>, cfg: GateConfig) {
    && CrossPasses(outputs, cfg)
    && match cfg.rule
       case AllProfiles => forall i | 0 <= i < |outputs| :: ProfilePasses(outputs[i], cfg)
       case AnyProfile => exists i | 0 <= i < |outputs| :: ProfilePasses(outputs[i], cfg)
  }

  function VerdictOf(outputs: seq<Measured>, cfg: GateConfig): Verdict {
    AggregateDecision(cfg.mode, !RunPasses(outputs, cfg))
  }

  // ----- one profile

  ghost predicate Listing(ids: seq<Id>, keys: set<Id>) {
    && (forall i, j | 0 <= i < j < |ids| :: Less(ids[i], ids[j]))
    && forall id :: id in ids <==> id in keys
  }

  method SortedKeys(keys: set<Id>) returns (ids: seq<Id>)
    ensures Listing(ids, keys)
  {
    var rest := keys;
    var unsorted: seq<Id> := [];
    while rest != {}
      invariant rest <= keys
      invariant forall id :: id in unsorted <==> id in keys && id !in rest
      decreases rest
    {
      var id :| id in rest;
      unsorted := unsorted + [id];
      rest := rest - {id};
    }
    ids := EdgeAware.SortedUnique(unsorted);
    EdgeAware.SortedUniqueMembers(unsorted);
  }

  function ResultFor(output: Measured, cfg: GateConfig, id: Id): EndpointResult
    requires id in output.availability
  {
    var threshold := ThresholdOf(cfg, output.name, id);
    EndpointResult(id, output.availability[id], threshold, Classify(cfg.mode, output.availability[id] < threshold))
  }

  predicate BelowThreshold(output: Measured, cfg: GateConfig, id: Id) {
    id in output.availability && output.availability[id] < ThresholdOf(cfg, output.name, id)
  }

  function IDsOf(results: seq<EndpointResult>): seq<Id> {
    seq(|results|, i requires 0 <= i < |results| => results[i].endpointID)
  }

  ghost function FailingIDs(output: Measured, cfg: GateConfig): set<Id> {
    set id | id in output.availability && BelowThreshold(output, cfg, id)
  }

  /** One result per endpoint, in ID order, each against its own threshold. */
  ghost predicate AllEvaluated(output: Measured, cfg: GateConfig, results: seq<EndpointResult>) {
    && Listing(IDsOf(results), output.availability.Keys)
    && forall i | 0 <= i < |results| ::
         results[i].endpointID in output.availability && results[i] == ResultFor(output, cfg, results[i].endpointID)
  }

  /** What one profile's evaluation decides, and that its reasons account for it. */
  ghost predicate Judges(output: Measured, cfg: GateConfig, eval: ProfileEvaluation) {
    && eval.profile == output.name
    && eval.decision == AggregateDecision(cfg.mode, !ProfilePasses(output, cfg))
    && Explains(eval.reasons, output.name, cfg.mode, !ProfilePasses(output, cfg))
  }

  /** Everything it lists: endpoints, assertions, the aggregate and the reasons. */
  ghost predicate Details(output: Measured, cfg: GateConfig, eval: ProfileEvaluation) {
    && AllEvaluated(output, cfg, eval.results)
    && Listing(eval.failedEndpoints, FailingIDs(output, cfg))
    && eval.failedAssertions == FailedAssertions(output, |output.assertions|)
    && (eval.aggregate.Some? <==> AggregateThresholdOf(cfg, output.name).Some?)
    && (eval.aggregate.Some? ==>
          eval.aggregate.value == AggregateResult(output.weightedAggregate,
              AggregateThresholdOf(cfg, output.name).value,
                                                  Classify(cfg.mode, !AggregatePasses(output, cfg))))
    && eval.reasons == ProfileReasons(output, cfg, eval.failedEndpoints)
  }

  function EndpointReason(output: Measured, cfg: GateConfig, id: Id): Reason {
    Reason(EndpointBelowThreshold, output.name, id, Classify(cfg.mode, true))
  }

  function EndpointReasons(output: Measured, cfg: GateConfig, failed: seq<Id>): seq<Reason> {
    seq(|failed|, i requires 0 <= i < |failed| => EndpointReason(output, cfg, failed[i]))
  }

  function AggregateReasons(output: Measured, cfg: GateConfig): seq<Reason> {
    if AggregatePasses(output, cfg) then []
    else [Reason(AggregateBelowThreshold, output.name, "", Classify(cfg.mode, true))]
  }

  /** Those of the first `n` assertions that do not pass. */
  function FailedAssertions(output: Measured, n: nat): seq<Assertion>
    requires n <= |output.assertions|
  {
    if n == 0 then []
    else
      FailedAssertions(output, n - 1) + if output.assertions[n - 1].passed then [] else [output.assertions[n - 1]]
  }

  function AssertionReason(output: Measured, cfg: GateConfig, assertion: Assertion): Reason {
    Reason(if assertion.available then AssertionFailed else AssertionUnavailable, output.name, "",
           Classify(cfg.mode, true))
  }

  function AssertionReasons(output: Measured, cfg: GateConfig, failed: seq<Assertion>): seq<Reason> {
    seq(|failed|, i requires 0 <= i < |failed| => AssertionReason(output, cfg, failed[i]))
  }

  lemma OneMoreReason(output: Measured, cfg: GateConfig, failed: seq<Id>, id: Id)
    ensures EndpointReasons(output, cfg, failed + [id])
         == EndpointReasons(output, cfg, failed) + [EndpointReason(output, cfg, id)]
  {
  }

  lemma OneMoreAssertion(output: Measured, cfg: GateConfig, failed: seq<Assertion>, assertion: Assertion)
    ensures AssertionReasons(output, cfg, failed + [assertion])
         == AssertionReasons(output, cfg, failed) + [AssertionReason(output, cfg, assertion)]
  {
  }

  lemma ReasonsExplain(output: Measured, cfg: GateConfig, ids: seq<Id>, assertions: seq<Assertion>)
    ensures Explains(EndpointReasons(output, cfg, ids), output.name, cfg.mode, ids != [])
    ensures Explains(AssertionReasons(output, cfg, assertions), output.name, cfg.mode, assertions != [])
  {
  }

  lemma {:induction false} NoneFailedAssertions(output: Measured, n: nat)
    requires n <= |output.assertions|
    ensures FailedAssertions(output, n) == [] <==> forall j | 0 <= j < n :: output.assertions[j].passed
  {
    if n > 0 {
      NoneFailedAssertions(output, n - 1);
    }
  }

  /** One reason per failed endpoint, then the aggregate's, then one per failed assertion. */
  function ProfileReasons(output: Measured, cfg: GateConfig, failed: seq<Id>): seq<Reason> {
    EndpointReasons(output, cfg, failed) + AggregateReasons(output, cfg)
    + AssertionReasons(output, cfg, FailedAssertions(output, |output.assertions|))
  }

  /** Reasons are given exactly when something failed, each with the status of a failure in this mode. */
  predicate Explains(reasons: seq<Reason>, profile: string, mode: Mode, failed: bool) {
    && (reasons != [] <==> failed)
    && forall i | 0 <= i < |reasons| :: reasons[i].status == Classify(mode, true) && reasons[i].id != GatePass
        && reasons[i].profile == profile
  }

  /** The first `n` listed endpoints that are below their thresholds. */
  function FailedAmong(output: Measured, cfg: GateConfig, ids: seq<Id>, n: nat): seq<Id>
    requires n <= |ids|
  {
    if n == 0 then []
    else FailedAmong(output, cfg, ids, n - 1) + if BelowThreshold(output, cfg, ids[n - 1]) then [ids[n - 1]] else []
  }

  lemma {:induction false} FailedAmongMembers(output: Measured, cfg: GateConfig, ids: seq<Id>, n: nat)
    requires n <= |ids| && forall i, j | 0 <= i < j < |ids| :: Less(ids[i], ids[j])
    ensures var failed := FailedAmong(output, cfg, ids, n);
      && (forall id :: id in failed <==> id in ids[..n] && BelowThreshold(output, cfg, id))
      && (forall i, j | 0 <= i < j < |failed| :: Less(failed[i], failed[j]))
  {
    if n > 0 {
      FailedAmongMembers(output, cfg, ids, n - 1);
      var before := FailedAmong(output, cfg, ids, n - 1);
      assert ids[..n] == ids[..n - 1] + [ids[n - 1]];
      forall i | 0 <= i < |before|
        ensures Less(before[i], ids[n - 1])
      {
        assert before[i] in ids[..n - 1];
      }
    }
  }

  function ResultsFor(output: Measured, cfg: GateConfig, ids: seq<Id>, n: nat): seq<EndpointResult>
    requires n <= |ids| && forall i | 0 <= i < |ids| :: ids[i] in output.availability
  {
    seq(n, i requires 0 <= i < n => ResultFor(output, cfg, ids[i]))
  }

  lemma KeysListed(output: Measured, ids: seq<Id>)
    requires Listing(ids, output.availability.Keys)
    ensures forall i | 0 <= i < |ids| :: ids[i] in output.availability
  {
    forall i | 0 <= i < |ids|
      ensures ids[i] in output.availability
    {
      assert ids[i] in ids;
    }
  }

  lemma ResultsListed(output: Measured, cfg: GateConfig, ids: seq<Id>)
    requires Listing(ids, output.availability.Keys) && forall i | 0 <= i < |ids| :: ids[i] in output.availability
    ensures AllEvaluated(output, cfg, ResultsFor(output, cfg, ids, |ids|))
  {
    assert IDsOf(ResultsFor(output, cfg, ids, |ids|)) == ids;
  }

  lemma FailuresListed(output: Measured, cfg: GateConfig, ids: seq<Id>)
    requires Listing(ids, output.availability.Keys)
    ensures Listing(FailedAmong(output, cfg, ids, |ids|), FailingIDs(output, cfg))
    ensures FailedAmong(output, cfg, ids, |ids|) == [] <==> EndpointsPass(output, cfg)
  {
    var failed := FailedAmong(output, cfg, ids, |ids|);
    FailedAmongMembers(output, cfg, ids, |ids|);
    assert ids[..|ids|] == ids;
    assert forall id :: id in failed <==> id in FailingIDs(output, cfg);
    NoFailures(output, cfg, failed);
  }

  lemma NoFailures(output: Measured, cfg: GateConfig, failed: seq<Id>)
    requires forall id :: id in failed <==> id in FailingIDs(output, cfg)
    ensures failed == [] <==> EndpointsPass(output, cfg)
  {
    assert failed != [] ==> failed[0] in failed;
    if id :| id in output.availability && !(output.availability[id] >= ThresholdOf(cfg, output.name, id)) {
      assert BelowThreshold(output, cfg, id);
      assert id in FailingIDs(output, cfg);
    }
  }

  lemma ExplainsTogether(a: seq<Reason>, b: seq<Reason>, profile: string, mode: Mode, failedA: bool, failedB: bool)
    requires Explains(a, profile, mode, failedA) && Explains(b, profile, mode, failedB)
    ensures Explains(a + b, profile, mode, failedA || failedB)
  {
  }

  method EvaluateListed(output: Measured, cfg: GateConfig, ids: seq<Id>)
    returns (results: seq<EndpointResult>, failed: seq<Id>, reasons: seq<Reason>)
    requires forall i | 0 <= i < |ids| :: ids[i] in output.availability
    ensures results == ResultsFor(output, cfg, ids, |ids|)
    ensures failed == FailedAmong(output, cfg, ids, |ids|)
    ensures reasons == EndpointReasons(output, cfg, failed)
  {
    results, failed, reasons := [], [], [];
    for i := 0 to |ids|
      invariant results == ResultsFor(output, cfg, ids, i)
      invariant failed == FailedAmong(output, cfg, ids, i)
      invariant reasons == EndpointReasons(output, cfg, failed)
    {
      var result := ResultFor(output, cfg, ids[i]);
      if result.status != Pass {
        OneMoreReason(output, cfg, failed, ids[i]);
        failed := failed + [ids[i]];
        reasons := reasons + [Reason(EndpointBelowThreshold, output.name, ids[i], result.status)];
      }
      assert ResultsFor(output, cfg, ids, i + 1) == ResultsFor(output, cfg, ids, i) + [result];
      results := results + [result];
    }
  }

  method EvaluateEndpoints(output: Measured, cfg: GateConfig)
      returns (results: seq<EndpointResult>, failed: seq<Id>, reasons: seq<Reason>)
    ensures AllEvaluated(output, cfg, results)
    ensures Listing(failed, FailingIDs(output, cfg))
    ensures reasons == EndpointReasons(output, cfg, failed)
    ensures Explains(reasons, output.name, cfg.mode, !EndpointsPass(output, cfg))
    ensures failed == [] <==> EndpointsPass(output, cfg)
  {
    var ids := SortedKeys(output.availability.Keys);
    KeysListed(output, ids);
    results, failed, reasons := EvaluateListed(output, cfg, ids);
    ResultsListed(output, cfg, ids);
    FailuresListed(output, cfg, ids);
    ReasonsExplain(output, cfg, failed, []);
  }

  method EvaluateAggregate(output: Measured, cfg: GateConfig)
      returns (aggregate: Option<AggregateResult>, reasons: seq<Reason>)
    ensures aggregate.Some? <==> AggregateThresholdOf(cfg, output.name).Some?
    ensures aggregate.Some? ==>
              aggregate.value == AggregateResult(output.weightedAggregate, AggregateThresholdOf(cfg, output.name).value,
                                                 Classify(cfg.mode, !AggregatePasses(output, cfg)))
    ensures reasons == AggregateReasons(output, cfg)
    ensures Explains(reasons, output.name, cfg.mode, !AggregatePasses(output, cfg))
  {
    aggregate, reasons := None, [];
    var threshold: real;
    if output.name in cfg.profileAggregateThresholds {
      threshold := cfg.profileAggregateThresholds[output.name];
    } else if cfg.aggregateThreshold.Some? {
      threshold := cfg.aggregateThreshold.value;
    } else {
      return;
    }
    var failed := output.weightedAggregate < threshold;
    aggregate := Some(AggregateResult(output.weightedAggregate, threshold, Classify(cfg.mode, failed)));
    if failed {
      reasons := [Reason(AggregateBelowThreshold, output.name, "", aggregate.value.status)];
    }
  }

  method EvaluateAssertions(output: Measured, cfg: GateConfig) returns (failed: seq<Assertion>, reasons: seq<Reason>)
    ensures failed == FailedAssertions(output, |output.assertions|)
    ensures reasons == AssertionReasons(output, cfg, failed)
    ensures Explains(reasons, output.name, cfg.mode, !AssertionsPass(output))
    ensures failed == [] <==> AssertionsPass(output)
  {
    failed, reasons := [], [];
    for i := 0 to |output.assertions|
      invariant failed == FailedAssertions(output, i)
      invariant reasons == AssertionReasons(output, cfg, failed)
    {
      var assertion := output.assertions[i];
      if assertion.passed {
        continue;
      }
      OneMoreAssertion(output, cfg, failed, assertion);
      failed := failed + [assertion];
      reasons := reasons + [Reason(if assertion.available then AssertionFailed
          else AssertionUnavailable, output.name, "", Classify(cfg.mode, true))];
    }
    ReasonsExplain(output, cfg, [], failed);
    NoneFailedAssertions(output, |output.assertions|);
  }

  method EvaluateProfile(output: Measured, cfg: GateConfig) returns (eval: ProfileEvaluation)
    ensures eval.profile == output.name && Judges(output, cfg, eval) && Details(output, cfg, eval)
  {
    var results, failed, reasons := EvaluateEndpoints(output, cfg);
    var aggregate, more := EvaluateAggregate(output, cfg);
    var failedAssertions, last := EvaluateAssertions(output, cfg);
    ExplainsTogether(reasons, more, output.name, cfg.mode, !EndpointsPass(output, cfg), !AggregatePasses(output, cfg));
    ExplainsTogether(reasons + more, last, output.name, cfg.mode,
      !EndpointsPass(output, cfg) || !AggregatePasses(output, cfg), !AssertionsPass(output));
    var aggregateFailed := more != [];
    return ProfileEvaluation(output.name,
      AggregateDecision(cfg.mode, |failed| > 0 || aggregateFailed || |failedAssertions| > 0),
      failed, failedAssertions, results, aggregate, reasons + more + last);
  }

  // ----- all profiles

  datatype Evaluation = Evaluation(
    mode: Mode,
    decision: Verdict,
    failedProfiles: seq<string>,
    profiles: seq<ProfileEvaluation>,
    crossProfile: Option<AggregateResult>,
    reasons: seq<Reason>)

  /** The names of the profiles among the first `n` whose own decision is not a pass. */
  function NotPassing(evals: seq<ProfileEvaluation>, n: nat): seq<string>
    requires n <= |evals|
  {
    if n == 0 then [] else NotPassing(evals, n - 1) + if evals[n - 1].decision != Pass then [evals[n - 1].profile]
        else []
  }

  function ReasonsOf(evals: seq<ProfileEvaluation>, n: nat): seq<Reason>
    requires n <= |evals|
  {
    if n == 0 then [] else ReasonsOf(evals, n - 1) + evals[n - 1].reasons
  }

  lemma {:induction false} NotPassingCount(evals: seq<ProfileEvaluation>, n: nat)
    requires n <= |evals|
    ensures |NotPassing(evals, n)| <= n
    ensures |NotPassing(evals, n)| == 0 <==> forall i | 0 <= i < n :: evals[i].decision == Pass
    ensures |NotPassing(evals, n)| == n <==> forall i | 0 <= i < n :: evals[i].decision != Pass
  {
    if n > 0 {
      NotPassingCount(evals, n - 1);
    }
  }

  lemma {:induction false} ReasonsOfProfiles(evals: seq<ProfileEvaluation>, n: nat, i: nat, r: nat)
    requires i < n <= |evals| && r < |evals[i].reasons|
    ensures evals[i].reasons[r] in ReasonsOf(evals, n)
  {
    if i < n - 1 {
      ReasonsOfProfiles(evals, n - 1, i, r);
    }
  }

  function CrossReason(outputs: seq<Measured>, cfg: GateConfig): seq<Reason> {
    if CrossPasses(outputs, cfg) then [] else [Reason(AggregateBelowThreshold, "", "", Classify(cfg.mode, true))]
  }

  ghost predicate EachJudged(outputs: seq<Measured>, cfg: GateConfig, evals: seq<ProfileEvaluation>)
    requires |evals| <= |outputs|
  {
    forall i | 0 <= i < |evals| :: Judges(outputs[i], cfg, evals[i])
  }

  ghost predicate EachDetailed(outputs: seq<Measured>, cfg: GateConfig, evals: seq<ProfileEvaluation>)
    requires |evals| <= |outputs|
  {
    forall i {:trigger Details(outputs[i], cfg, evals[i])} | 0 <= i < |evals| :: Details(outputs[i], cfg, evals[i])
  }

  lemma OneMoreEvaluated(outputs: seq<Measured>, cfg: GateConfig, evals: seq<ProfileEvaluation>,
      eval: ProfileEvaluation)
    requires |evals| < |outputs| && EachJudged(outputs, cfg, evals) && EachDetailed(outputs, cfg, evals)
    requires Judges(outputs[|evals|], cfg, eval) && Details(outputs[|evals|], cfg, eval)
    ensures EachJudged(outputs, cfg, evals + [eval]) && EachDetailed(outputs, cfg, evals + [eval])
  {
    forall i | 0 <= i <= |evals|
      ensures Details(outputs[i], cfg, (evals + [eval])[i])
    {
      if i < |evals| {
        assert Details(outputs[i], cfg, evals[i]);
      }
    }
  }

  /** What evaluating all profiles must produce. */
  ghost predicate EvaluatesAll(outputs: seq<Measured>, cfg: GateConfig, eval: Evaluation) {
    && eval.mode == cfg.mode
    && |eval.profiles| == |outputs|
    && EachJudged(outputs, cfg, eval.profiles) && EachDetailed(outputs, cfg, eval.profiles)
    && eval.failedProfiles == NotPassing(eval.profiles, |outputs|)
    && (eval.crossProfile.Some? <==> |outputs| > 0 && cfg.crossProfileThreshold.Some?)
    && (eval.crossProfile.Some? ==>
          eval.crossProfile.value == AggregateResult(WeightedSum(outputs, |outputs|) / |outputs| as real,
              cfg.crossProfileThreshold.value,
                                                     Classify(cfg.mode, !CrossPasses(outputs, cfg))))
    && var found := ReasonsOf(eval.profiles, |outputs|) + CrossReason(outputs, cfg);
       eval.reasons == if found == [] then [Reason(GatePass, "", "", eval.decision)] else found
  }

  method CrossProfile(outputs: seq<Measured>, cfg: GateConfig) returns (cross: Option<AggregateResult>)
    ensures cross.Some? <==> |outputs| > 0 && cfg.crossProfileThreshold.Some?
    ensures cross.Some? ==>
              cross.value == AggregateResult(WeightedSum(outputs, |outputs|) / |outputs| as real,
                  cfg.crossProfileThreshold.value,
                                             Classify(cfg.mode, !CrossPasses(outputs, cfg)))
  {
    if |outputs| == 0 || cfg.crossProfileThreshold.None? {
      return None;
    }
    var sum := 0.0;
    for n := 0 to |outputs|
      invariant sum == WeightedSum(outputs, n)
    {
      sum := sum + outputs[n].weightedAggregate;
    }
    var mean := sum / |outputs| as real;
    return Some(AggregateResult(mean, cfg.crossProfileThreshold.value,
        Classify(cfg.mode, mean < cfg.crossProfileThreshold.value)));
  }

  method EvaluateNext(outputs: seq<Measured>, cfg: GateConfig, evals: seq<ProfileEvaluation>)
    returns (eval: ProfileEvaluation)
    requires |evals| < |outputs| && EachJudged(outputs, cfg, evals) && EachDetailed(outputs, cfg, evals)
    ensures eval.profile == outputs[|evals|].name
    ensures EachJudged(outputs, cfg, evals + [eval]) && EachDetailed(outputs, cfg, evals + [eval])
  {
    eval := EvaluateProfile(outputs[|evals|], cfg);
    OneMoreEvaluated(outputs, cfg, evals, eval);
  }

  method EvaluateEach(outputs: seq<Measured>, cfg: GateConfig)
    returns (evals: seq<ProfileEvaluation>, failedProfiles: seq<string>, reasons: seq<Reason>, passing: nat)
    ensures |evals| == |outputs| && EachJudged(outputs, cfg, evals) && EachDetailed(outputs, cfg, evals)
    ensures failedProfiles == NotPassing(evals, |outputs|) && reasons == ReasonsOf(evals, |outputs|)
    ensures passing == |outputs| - |failedProfiles|
  {
    evals, failedProfiles, reasons, passing := [], [], [], 0;
    for n := 0 to |outputs|
      invariant |evals| == n && EachJudged(outputs, cfg, evals) && EachDetailed(outputs, cfg, evals)
      invariant failedProfiles == NotPassing(evals, n) && reasons == ReasonsOf(evals, n)
      invariant passing == n - |failedProfiles|
    {
      var eval := EvaluateNext(outputs, cfg, evals);
      OneMoreListed(evals, eval);
      if eval.decision != Pass {
        failedProfiles := failedProfiles + [outputs[n].name];
      } else {
        passing := passing + 1;
      }
      evals := evals + [eval];
      reasons := reasons + eval.reasons;
    }
  }

  method EvaluateProfiles(outputs: seq<Measured>, cfg: GateConfig) returns (r: Result<Evaluation>)
    ensures r.Ok? <==> !cfg.mode.OtherMode?
    ensures r.Ok? ==> EvaluatesAll(outputs, cfg, r.value)
    ensures r.Ok? ==> r.value.decision == VerdictOf(outputs, cfg)
  {
    if cfg.mode.OtherMode? {
      return Err("unsupported gate mode");
    }
    var evals, failedProfiles, reasons, passing := EvaluateEach(outputs, cfg);
    var failing := |failedProfiles|;
    var cross := CrossProfile(outputs, cfg);
    if cross.Some? && cross.value.availability < cross.value.threshold {
      failing, passing := |outputs|, 0;
      reasons := reasons + [Reason(AggregateBelowThreshold, "", "", cross.value.status)];
    }
    CountsDecide(outputs, cfg, evals);
    var failed := if cfg.rule.AnyProfile? then passing == 0 else failing > 0;
    var decision := AggregateDecision(cfg.mode, failed);
    if reasons == [] {
      reasons := [Reason(GatePass, "", "", decision)];
    }
    return Ok(Evaluation(cfg.mode, decision, failedProfiles, evals, cross, reasons));
  }

  lemma {:induction false} Unchanged(evals: seq<ProfileEvaluation>, eval: ProfileEvaluation, n: nat)
    requires n <= |evals|
    ensures NotPassing(evals + [eval], n) == NotPassing(evals, n) && ReasonsOf(evals + [eval], n) == ReasonsOf(evals, n)
  {
    if n > 0 {
      Unchanged(evals, eval, n - 1);
    }
  }

  lemma OneMoreListed(evals: seq<ProfileEvaluation>, eval: ProfileEvaluation)
    ensures var n, more := |evals|, evals + [eval];
      && NotPassing(more, n + 1) == NotPassing(evals, n) + (if eval.decision != Pass then [eval.profile] else [])
      && ReasonsOf(more, n + 1) == ReasonsOf(evals, n) + eval.reasons
  {
    Unchanged(evals, eval, |evals|);
  }

  /** Outside report mode, counting decisions is counting profiles that pass. */
  lemma CountsDecide(outputs: seq<Measured>, cfg: GateConfig, evals: seq<ProfileEvaluation>)
    requires |evals| == |outputs| && forall i | 0 <= i < |outputs| :: Judges(outputs[i], cfg, evals[i])
    ensures cfg.mode.WarnMode? || cfg.mode.FailMode? ==>
              && (|NotPassing(evals, |outputs|)| == 0 <==> forall i | 0 <= i < |outputs| ::
                  ProfilePasses(outputs[i], cfg))
              && (|NotPassing(evals, |outputs|)| < |outputs|
                  <==> exists i | 0 <= i < |outputs| :: ProfilePasses(outputs[i], cfg))
    ensures |NotPassing(evals, |outputs|)| <= |outputs|
  {
    NotPassingCount(evals, |outputs|);
    forall i | 0 <= i < |outputs|
      ensures cfg.mode.WarnMode? || cfg.mode.FailMode?
          ==> (evals[i].decision == Pass <==> ProfilePasses(outputs[i], cfg))
    {
      assert Judges(outputs[i], cfg, evals[i]);
    }
  }

  // ----- the verdict is monotone

  /**
   Profile by profile nothing got better: the same endpoints no more available, aggregates no higher, assertions no
   greener.
   */
  ghost predicate Lowered(worse: Measured, better: Measured) {
    && worse.name == better.name
    && worse.availability.Keys == better.availability.Keys
    && (forall id | id in worse.availability :: worse.availability[id] <= better.availability[id])
    && worse.weightedAggregate <= better.weightedAggregate
    && |worse.assertions| == |better.assertions|
    && forall i | 0 <= i < |worse.assertions| :: worse.assertions[i].passed ==> better.assertions[i].passed
  }

  ghost predicate LoweredRun(worse: seq<Measured>, better: seq<Measured>) {
    |worse| == |better| && forall i | 0 <= i < |worse| :: Lowered(worse[i], better[i])
  }

  function Severity(status: Verdict): nat {
    match status
    case Pass => 0
    case Report => 1
    case Warn => 2
    case Fail => 3
  }

  lemma ProfilePassesMonotone(worse: Measured, better: Measured, cfg: GateConfig)
    requires Lowered(worse, better)
    ensures ProfilePasses(worse, cfg) ==> ProfilePasses(better, cfg)
  {
    if ProfilePasses(worse, cfg) {
      forall id | id in better.availability
        ensures better.availability[id] >= ThresholdOf(cfg, better.name, id)
      {
        assert worse.availability[id] >= ThresholdOf(cfg, worse.name, id);
      }
    }
  }

  lemma {:induction false} WeightedSumMonotone(worse: seq<Measured>, better: seq<Measured>, n: nat)
    requires LoweredRun(worse, better) && n <= |worse|
    ensures WeightedSum(worse, n) <= WeightedSum(better, n)
  {
    if n > 0 {
      WeightedSumMonotone(worse, better, n - 1);
      assert Lowered(worse[n - 1], better[n - 1]);
    }
  }

  lemma MeanMonotone(a: real, b: real, n: nat)
    requires a <= b && n > 0
    ensures a / n as real <= b / n as real
  {
  }

  /** Under either rule and in every mode, lowering results never moves the verdict towards a pass. */
  lemma VerdictMonotone(worse: seq<Measured>, better: seq<Measured>, cfg: GateConfig)
    requires LoweredRun(worse, better)
    ensures RunPasses(worse, cfg) ==> RunPasses(better, cfg)
    ensures Severity(VerdictOf(worse, cfg)) >= Severity(VerdictOf(better, cfg))
  {
    WeightedSumMonotone(worse, better, |worse|);
    if |worse| > 0 {
      MeanMonotone(WeightedSum(worse, |worse|), WeightedSum(better, |worse|), |worse|);
    }
    forall i | 0 <= i < |worse|
      ensures ProfilePasses(worse[i], cfg) ==> ProfilePasses(better[i], cfg)
    {
      ProfilePassesMonotone(worse[i], better[i], cfg);
    }
  }

  // ----- the verdict is explained

  ghost predicate Explained(reasons: seq<Reason>, status: Verdict) {
    exists r | r in reasons :: r.status == status && r.id != GatePass
  }

  /** With at least one profile, a verdict that is not a pass carries a reason of the same status. */
  lemma VerdictExplained(outputs: seq<Measured>, cfg: GateConfig, eval: Evaluation)
    requires |outputs| > 0 && EvaluatesAll(outputs, cfg, eval) && (cfg.mode.WarnMode? || cfg.mode.FailMode?)
    requires eval.decision == VerdictOf(outputs, cfg)
    ensures eval.decision != Pass ==> Explained(eval.reasons, eval.decision)
  {
    if eval.decision != Pass {
      var n := |outputs|;
      var found := ReasonsOf(eval.profiles, n) + CrossReason(outputs, cfg);
      if !CrossPasses(outputs, cfg) {
        assert found[|ReasonsOf(eval.profiles, n)|] == CrossReason(outputs, cfg)[0];
        assert CrossReason(outputs, cfg)[0] in eval.reasons;
      } else {
        var i :| 0 <= i < n && !ProfilePasses(outputs[i], cfg);
        assert Judges(outputs[i], cfg, eval.profiles[i]);
        ReasonsOfProfiles(eval.profiles, n, i, 0);
        assert eval.profiles[i].reasons[0] in found;
      }
    }
  }

  /** Without profiles an any-profile gate does not pass although its only reason is the pass reason. */
  lemma NoProfilesUnexplained(cfg: GateConfig, eval: Evaluation)
    requires (cfg.mode.WarnMode? || cfg.mode.FailMode?) && cfg.rule.AnyProfile?
    requires EvaluatesAll([], cfg, eval) && eval.decision == VerdictOf([], cfg)
    ensures eval.decision == Classify(cfg.mode, true) != Pass
    ensures eval.reasons == [Reason(GatePass, "", "", eval.decision)]
  {
  }

  /** A verdict that is not a pass is explained exactly unless an any-profile rule meets a run without profiles. */
  lemma VerdictExplainedExactly(outputs: seq<Measured>, cfg: GateConfig, eval: Evaluation)
    requires (cfg.mode.WarnMode? || cfg.mode.FailMode?) && EvaluatesAll(outputs, cfg, eval)
    requires eval.decision == VerdictOf(outputs, cfg)
    ensures (eval.decision != Pass ==> Explained(eval.reasons, eval.decision))
        <==> !(outputs == [] && cfg.rule.AnyProfile?)
  {
    if outputs != [] {
      VerdictExplained(outputs, cfg, eval);
    } else if cfg.rule.AnyProfile? {
      NoProfilesUnexplained(cfg, eval);
    }
  }

  predicate ListedAsFailed(output: Measured, cfg: GateConfig) {
    cfg.mode.ReportMode? || !ProfilePasses(output, cfg)
  }

  /** The names of the outputs among the first `n` that are listed as failed. */
  function FailedNames(outputs: seq<Measured>, cfg: GateConfig, n: nat): seq<string>
    requires n <= |outputs|
  {
    if n == 0 then []
    else FailedNames(outputs, cfg, n - 1) + if ListedAsFailed(outputs[n - 1], cfg) then [outputs[n - 1].name] else []
  }

  lemma DecisionListed(output: Measured, cfg: GateConfig, eval: ProfileEvaluation)
    requires Judges(output, cfg, eval) && !cfg.mode.OtherMode?
    ensures eval.profile == output.name && (eval.decision != Pass <==> ListedAsFailed(output, cfg))
  {
  }

  lemma {:induction false} NotPassingNames(outputs: seq<Measured>, cfg: GateConfig, eval: Evaluation, n: nat)
    requires EvaluatesAll(outputs, cfg, eval) && !cfg.mode.OtherMode? && n <= |outputs|
    ensures NotPassing(eval.profiles, n) == FailedNames(outputs, cfg, n)
  {
    if n > 0 {
      NotPassingNames(outputs, cfg, eval, n - 1);
      DecisionListed(outputs[n - 1], cfg, eval.profiles[n - 1]);
    }
  }

  /**
   Which profiles the evaluation lists as failed: in warn and fail mode those that do not pass, in report mode all of
   them, passing or not, because there a profile's own decision is never a pass.
   */
  lemma FailedProfilesExactly(outputs: seq<Measured>, cfg: GateConfig, eval: Evaluation)
    requires EvaluatesAll(outputs, cfg, eval) && !cfg.mode.OtherMode?
    ensures eval.failedProfiles == FailedNames(outputs, cfg, |outputs|)
  {
    NotPassingNames(outputs, cfg, eval, |outputs|);
  }
}
