/** One trial's verdicts on the generators themselves: one per event in coupled runs, one for everything otherwise. */
module TrialVerdicts {
  import opened Wrappers
  import opened Ids
  import opened Draws
  import opened Topology
  import opened Execution
  import opened Sampling
  import opened Endpoints
  import opened Runs = ProfileRun
  import opened PathRates
  import opened Importance = Birnbaum
  import Predicates
  import TargetPaths

  /** What an endpoint asks for, given which of its listed paths succeed. */
  ghost predicate Meets(endpoint: Endpoint, world: World, runs: nat -> bool) {
    match endpoint.mode
    case PredicateMode =>
      Predicates.Holds(endpoint.definition, id => id in world.serviceAlive && world.serviceAlive[id])
    case JourneyMode => exists j: nat :: j < |endpoint.diagnostic| && runs(j)
    case EdgeAwareMode =>
      && |endpoint.groups| > 0
      && forall key | key in endpoint.groups :: GroupMet(endpoint, endpoint.groups[key], runs)
  }

  /** A listed path of the group succeeds. */
  ghost predicate GroupMet(endpoint: Endpoint, group: seq<Path>, runs: nat -> bool) {
    exists j: nat :: j < |endpoint.diagnostic| && endpoint.diagnostic[j] in group && runs(j)
  }

  lemma GroupIs(endpoint: Endpoint, group: seq<Path>, results: map<string, bool>, runs: nat -> bool)
    requires forall p | p in group :: p in endpoint.diagnostic
    requires forall j: nat | j < |endpoint.diagnostic| :: Up(results, endpoint.diagnostic[j].id) <==> runs(j)
    ensures GroupMet(endpoint, group, runs) <==> exists i | 0 <= i < |group| :: Up(results, group[i].id)
  {
    if i :| 0 <= i < |group| && Up(results, group[i].id) {
      assert group[i] in group;
      var j: nat :| j < |endpoint.diagnostic| && endpoint.diagnostic[j] == group[i];
      assert runs(j);
    }
    if j: nat :| j < |endpoint.diagnostic| && endpoint.diagnostic[j] in group && runs(j) {
      var i :| 0 <= i < |group| && group[i] == endpoint.diagnostic[j];
      assert Up(results, group[i].id);
    }
  }

  lemma OutcomeIs(ctx: Context, endpoint: Endpoint, world: World, results: map<string, bool>, runs: nat -> bool)
    requires endpoint.Valid(ctx)
    requires forall id | id in results :: exists j: nat :: j < |endpoint.diagnostic| && endpoint.diagnostic[j].id == id
    requires forall j: nat | j < |endpoint.diagnostic| :: Up(results, endpoint.diagnostic[j].id) <==> runs(j)
    ensures Outcome(endpoint, world, results) <==> Meets(endpoint, world, runs)
  {
    match endpoint.mode {
      case PredicateMode =>
        SameLiveness(endpoint.definition, world);
      case JourneyMode =>
        if j: nat :| j < |endpoint.diagnostic| && runs(j) {
          assert Up(results, endpoint.diagnostic[j].id);
        }
      case EdgeAwareMode =>
        GroupsAre(endpoint, results, runs);
    }
  }

  lemma GroupsAre(endpoint: Endpoint, results: map<string, bool>, runs: nat -> bool)
    requires forall key, i | key in endpoint.groups && 0 <= i < |endpoint.groups[key]| ::
               endpoint.groups[key][i] in endpoint.diagnostic
    requires forall j: nat | j < |endpoint.diagnostic| :: Up(results, endpoint.diagnostic[j].id) <==> runs(j)
    ensures (forall key | key in endpoint.groups :: GroupMet(endpoint, endpoint.groups[key], runs))
        <==> forall key | key in endpoint.groups ::
               exists i | 0 <= i < |endpoint.groups[key]| :: Up(results, endpoint.groups[key][i].id)
  {
    forall key | key in endpoint.groups
      ensures GroupMet(endpoint, endpoint.groups[key], runs)
          <==> exists i | 0 <= i < |endpoint.groups[key]| :: Up(results, endpoint.groups[key][i].id)
    {
      GroupIs(endpoint, endpoint.groups[key], results, runs);
    }
  }

  lemma SameLiveness(def: Predicates.Definition, world: World)
    ensures Predicates.Holds(def, Liveness(world))
        <==> Predicates.Holds(def, id => id in world.serviceAlive && world.serviceAlive[id])
  {
    Predicates.HoldsMonotone(def, Liveness(world), id => id in world.serviceAlive && world.serviceAlive[id]);
    Predicates.HoldsMonotone(def, id => id in world.serviceAlive && world.serviceAlive[id], Liveness(world));
  }

  lemma {:induction false} ResultsAreListed(setup: Setup, world: World, trial: nat, paths: seq<Path>, n: nat, pos: nat,
      id: string)
    requires n <= |paths| && (forall i | 0 <= i < |paths| :: paths[i].Shaped())
    requires id in PathResults(setup, world, trial, paths, n, pos).0
    ensures exists j: nat :: j < n && paths[j].id == id
  {
    if id != paths[n - 1].id {
      ResultsAreListed(setup, world, trial, paths, n - 1, pos, id);
    }
  }

  ghost function ResultsFor(setup: Setup, world: World, trial: nat, e: nat, pos: nat): map<string, bool>
    requires setup.Shaped() && e < |setup.endpoints|
  {
    var paths := setup.endpoints[e].diagnostic;
    PathResults(setup, world, trial, paths, |paths|, Verdicts(setup, world, trial, e, pos).1).0
  }

  ghost function Outcomes(setup: Setup, world: World, trial: nat, pos: nat): nat -> bool
    requires setup.Shaped()
  {
    (e: nat) => e < |setup.endpoints| && Outcome(setup.endpoints[e], world, ResultsFor(setup, world, trial, e, pos))
  }

  ghost function VerdictLists(setup: Setup, world: World, trial: nat, pos: nat): nat -> seq<bool>
    requires setup.Shaped()
  {
    (n: nat) => if n <= |setup.endpoints| then Verdicts(setup, world, trial, n, pos).0 else []
  }

  lemma VerdictsStep(setup: Setup, world: World, trial: nat, n: nat, pos: nat)
    requires setup.Shaped() && n < |setup.endpoints|
    ensures VerdictLists(setup, world, trial, pos)(n + 1)
         == VerdictLists(setup, world, trial, pos)(n) + [Outcomes(setup, world, trial, pos)(n)]
  {
  }

  lemma {:induction false} ListedInTurn(lists: nat -> seq<bool>, items: nat -> bool, n: nat, e: nat)
    requires lists(0) == [] && forall k: nat | k < n :: lists(k + 1) == lists(k) + [items(k)]
    ensures |lists(n)| == n && (e < n ==> lists(n)[e] == items(e))
  {
    if n > 0 {
      ListedInTurn(lists, items, n - 1, e);
    }
  }

  /** The verdicts list the outcome of one endpoint after the other. */
  lemma VerdictAt(setup: Setup, world: World, trial: nat, pos: nat, e: nat)
    requires setup.Shaped() && e < |setup.endpoints|
    ensures var verdicts := VerdictLists(setup, world, trial, pos)(|setup.endpoints|);
      |verdicts| == |setup.endpoints| && verdicts[e] == Outcomes(setup, world, trial, pos)(e)
  {
    var lists, items := VerdictLists(setup, world, trial, pos), Outcomes(setup, world, trial, pos);
    forall k: nat | k < |setup.endpoints|
      ensures lists(k + 1) == lists(k) + [items(k)]
    {
      VerdictsStep(setup, world, trial, k, pos);
    }
    ListedInTurn(lists, items, |setup.endpoints|, e);
  }

  /** An endpoint's verdict, from the runs of its listed paths. */
  lemma VerdictFromRuns(setup: Setup, trial: nat, e: nat, runs: nat -> bool)
    requires setup.Valid() && setup.Runnable() && e < |setup.endpoints|
    requires var sampled, paths := TrialWorld(setup, trial, Cursor(setup, trial)), setup.endpoints[e].diagnostic;
      var start := Verdicts(setup, sampled.0, trial, e, sampled.1).1;
      forall j: nat | j < |paths| ::
        runs(j) <==> ServiceRun(setup.ctx, setup.faults, paths[j], sampled.0, PathStream(setup, trial, paths[j]), 0,
                                From(setup, PathResults(setup, sampled.0, trial, paths, j, start).1)).0
    ensures Runs.Wins(setup, e, trial)
        <==> Meets(setup.endpoints[e], TrialWorld(setup, trial, Cursor(setup, trial)).0, runs)
  {
    var sampled, paths := TrialWorld(setup, trial, Cursor(setup, trial)), setup.endpoints[e].diagnostic;
    var start := Verdicts(setup, sampled.0, trial, e, sampled.1).1;
    var results := PathResults(setup, sampled.0, trial, paths, |paths|, start).0;
    assert setup.endpoints[e].Valid(setup.ctx);
    VerdictAt(setup, sampled.0, trial, sampled.1, e);
    forall j: nat | j < |paths|
      ensures Up(results, paths[j].id) <==> runs(j)
    {
      ResultOfPath(setup, sampled.0, trial, paths, |paths|, start, j);
    }
    forall id | id in results
      ensures exists j: nat :: j < |paths| && paths[j].id == id
    {
      ResultsAreListed(setup, sampled.0, trial, paths, |paths|, start, id);
    }
    OutcomeIs(setup.ctx, setup.endpoints[e], sampled.0, results, runs);
  }

  // ----- coupled runs

  /** The generator of one event of a trial. */
  function EventSource(setup: Setup, trial: nat, subject: Subject): Stream {
    setup.entropy.source(setup.entropy.eventSeed(setup.profile.seed, trial, subject))
  }

  /** The world sampled from the trial's state event. */
  ghost function CoupledWorld(setup: Setup, trial: nat): World
    requires Fits(setup.ctx, setup.profile)
  {
    SampleFailsExactly(setup.ctx, setup.profile, setup.faults, EventSource(setup, trial, StateLabel), 0);
    Sample(setup.ctx, setup.profile, setup.faults, EventSource(setup, trial, StateLabel), 0).value.0
  }

  /** Whether a listed path succeeds in that world from the first draw of its own event. */
  ghost predicate CoupledRun(setup: Setup, trial: nat, path: Path)
    requires Fits(setup.ctx, setup.profile) && path.Shaped()
  {
    ServiceRun(setup.ctx, setup.faults, path, CoupledWorld(setup, trial), EventSource(setup, trial, PathLabel(path.id)),
               0, 0).0
  }

  /**
   A coupled trial reads nothing but its own events: the state event samples the world, and each listed path runs from
   the start of the event of its ID, whichever endpoint lists it and whatever ran before.
   */
  lemma CoupledTrialExactly(setup: Setup, trial: nat, e: nat)
    requires setup.Valid() && setup.Runnable() && setup.profile.coupledTrials && e < |setup.endpoints|
    ensures var paths := setup.endpoints[e].diagnostic;
      Runs.Wins(setup, e, trial)
      <==> Meets(setup.endpoints[e], CoupledWorld(setup, trial),
                 (j: nat) => j < |paths| && CoupledRun(setup, trial, paths[j]))
  {
    var paths := setup.endpoints[e].diagnostic;
    VerdictFromRuns(setup, trial, e, (j: nat) => j < |paths| && CoupledRun(setup, trial, paths[j]));
  }

  // ----- other runs

  /** Where the one generator stands after running the first `n` paths from `pos` on. */
  ghost function RunsEnd(setup: Setup, world: World, paths: seq<Path>, n: nat, pos: nat): nat
    requires n <= |paths| && forall i | 0 <= i < |paths| :: paths[i].Shaped()
  {
    if n == 0 then pos
    else
      ServiceRun(setup.ctx, setup.faults, paths[n - 1], world, setup.entropy.source(setup.profile.seed), 0,
                 RunsEnd(setup, world, paths, n - 1, pos)).1
  }

  /** Where it stands when the paths of endpoint `e` are due. */
  ghost function EndpointStart(setup: Setup, world: World, e: nat, pos: nat): nat
    requires setup.Shaped() && e <= |setup.endpoints|
  {
    if e == 0 then pos
    else
      var paths := setup.endpoints[e - 1].diagnostic;
      RunsEnd(setup, world, paths, |paths|, EndpointStart(setup, world, e - 1, pos))
  }

  /** The world of a trial and where sampling it leaves the generator. */
  ghost function SharedSample(setup: Setup, trial: nat): (World, nat)
    requires setup.Runnable()
    decreases trial, 1
  {
    var stream := setup.entropy.source(setup.profile.seed);
    SampleFailsExactly(setup.ctx, setup.profile, setup.faults, stream, TrialStart(setup, trial));
    Sample(setup.ctx, setup.profile, setup.faults, stream, TrialStart(setup, trial)).value
  }

  /** A trial starts where the one before it ended. */
  ghost function TrialStart(setup: Setup, trial: nat): nat
    requires setup.Runnable()
    decreases trial, 0
  {
    if trial == 0 then 0
    else
      var before := SharedSample(setup, trial - 1);
      EndpointStart(setup, before.0, |setup.endpoints|, before.1)
  }

  lemma {:induction false} ResultsEnd(setup: Setup, world: World, trial: nat, paths: seq<Path>, n: nat, pos: nat)
    requires !setup.profile.coupledTrials && n <= |paths| && forall i | 0 <= i < |paths| :: paths[i].Shaped()
    ensures PathResults(setup, world, trial, paths, n, pos).1 == RunsEnd(setup, world, paths, n, pos)
  {
    if n > 0 {
      ResultsEnd(setup, world, trial, paths, n - 1, pos);
    }
  }

  lemma {:induction false} VerdictsEnd(setup: Setup, world: World, trial: nat, n: nat, pos: nat)
    requires !setup.profile.coupledTrials && setup.Shaped() && n <= |setup.endpoints|
    ensures Verdicts(setup, world, trial, n, pos).1 == EndpointStart(setup, world, n, pos)
  {
    if n > 0 {
      VerdictsEnd(setup, world, trial, n - 1, pos);
      var paths := setup.endpoints[n - 1].diagnostic;
      ResultsEnd(setup, world, trial, paths, |paths|, EndpointStart(setup, world, n - 1, pos));
    }
  }

  lemma SharedWorld(setup: Setup, trial: nat, pos: nat)
    requires setup.Runnable() && !setup.profile.coupledTrials && pos == TrialStart(setup, trial)
    ensures TrialWorld(setup, trial, pos) == SharedSample(setup, trial)
  {
  }

  lemma CursorStep(setup: Setup, trial: nat)
    requires setup.Runnable()
    ensures var sampled := TrialWorld(setup, trial, Cursor(setup, trial));
      Cursor(setup, trial + 1) == Verdicts(setup, sampled.0, trial, |setup.endpoints|, sampled.1).1
  {
  }

  lemma StartStep(setup: Setup, trial: nat)
    requires setup.Runnable()
    ensures var sampled := SharedSample(setup, trial);
      TrialStart(setup, trial + 1) == EndpointStart(setup, sampled.0, |setup.endpoints|, sampled.1)
  {
  }

  lemma NextStart(setup: Setup, trial: nat, sampled: (World, nat))
    requires setup.Runnable() && !setup.profile.coupledTrials && sampled == SharedSample(setup, trial)
    requires TrialWorld(setup, trial, Cursor(setup, trial)) == sampled
    ensures Cursor(setup, trial + 1) == TrialStart(setup, trial + 1)
  {
    CursorStep(setup, trial);
    StartStep(setup, trial);
    VerdictsEnd(setup, sampled.0, trial, |setup.endpoints|, sampled.1);
  }

  lemma {:induction false} InStep(f: nat -> nat, g: nat -> nat, n: nat)
    requires f(0) == g(0) && forall k: nat :: f(k) == g(k) ==> f(k + 1) == g(k + 1)
    ensures f(n) == g(n)
  {
    if n > 0 {
      InStep(f, g, n - 1);
    }
  }

  lemma CursorIsStart(setup: Setup, trial: nat)
    requires setup.Runnable() && !setup.profile.coupledTrials
    ensures Cursor(setup, trial) == TrialStart(setup, trial)
  {
    ghost var cursors, starts := (n: nat) => Cursor(setup, n), (n: nat) => TrialStart(setup, n);
    forall n: nat | cursors(n) == starts(n)
      ensures cursors(n + 1) == starts(n + 1)
    {
      SharedWorld(setup, n, Cursor(setup, n));
      NextStart(setup, n, SharedSample(setup, n));
    }
    InStep(cursors, starts, trial);
  }

  /** Whether path `j` of endpoint `e` succeeds where the one generator stands by then. */
  ghost predicate SharedRun(setup: Setup, trial: nat, e: nat, j: nat)
    requires setup.Runnable() && e < |setup.endpoints| && j < |setup.endpoints[e].diagnostic|
  {
    var sampled, paths := SharedSample(setup, trial), setup.endpoints[e].diagnostic;
    ServiceRun(setup.ctx, setup.faults, paths[j], sampled.0, setup.entropy.source(setup.profile.seed), 0,
               RunsEnd(setup, sampled.0, paths, j, EndpointStart(setup, sampled.0, e, sampled.1))).0
  }

  /**
   Without coupling one generator serves the whole profile: sampling and the listed paths of every endpoint read it in
   turn, each from where the one before it stopped, trial after trial.
   */
  lemma SharedTrialExactly(setup: Setup, trial: nat, e: nat)
    requires setup.Valid() && setup.Runnable() && !setup.profile.coupledTrials && e < |setup.endpoints|
    ensures var paths := setup.endpoints[e].diagnostic;
      Runs.Wins(setup, e, trial)
      <==> Meets(setup.endpoints[e], SharedSample(setup, trial).0,
                 (j: nat) => j < |paths| && SharedRun(setup, trial, e, j))
  {
    var sampled, paths := SharedSample(setup, trial), setup.endpoints[e].diagnostic;
    CursorIsStart(setup, trial);
    SharedWorld(setup, trial, Cursor(setup, trial));
    VerdictsEnd(setup, sampled.0, trial, e, sampled.1);
    forall j: nat | j < |paths|
      ensures PathResults(setup, sampled.0, trial, paths, j, EndpointStart(setup, sampled.0, e, sampled.1)).1
           == RunsEnd(setup, sampled.0, paths, j, EndpointStart(setup, sampled.0, e, sampled.1))
    {
      ResultsEnd(setup, sampled.0, trial, paths, j, EndpointStart(setup, sampled.0, e, sampled.1));
    }
    VerdictFromRuns(setup, trial, e, (j: nat) => j < |paths| && SharedRun(setup, trial, e, j));
  }

  // ----- importance studies

  /** The world sampled for a trial of a study. */
  ghost function StudyWorld(study: Study, trial: nat): World
    requires study.Valid()
  {
    var stream := study.entropy.source(study.entropy.eventSeed(study.seed, trial, StateLabel));
    SampleFailsExactly(study.ctx, study.profile, NO_FAULTS, stream, 0);
    Sample(study.ctx, study.profile, NO_FAULTS, stream, 0).value.0
  }

  /** Whether a path succeeds in some world on the trial's generator for what it consists of, whatever it is called. */
  ghost predicate StudyRun(study: Study, trial: nat, world: World, path: Path)
    requires path.Shaped()
  {
    var stream := study.entropy.source(
      study.entropy.eventSeed(study.seed, trial, ContentLabel(path.services, path.edgeIDs)));
    ServiceRun(study.ctx, NO_FAULTS, path, world, stream, 0, 0).0
  }

  /** The two worlds differ in nothing but the component, which is up or down as asked in the second. */
  ghost predicate OnlyForced(world: World, forced: World, component: Component, up: bool) {
    && (forall id :: Up(forced.serviceAlive, id)
                     <==> if component == Component(ServiceKind, id) then up else Up(world.serviceAlive, id))
    && (forall id :: Up(forced.edgeAlive, id)
                     <==> if component == Component(EdgeKind, id) then up else Up(world.edgeAlive, id))
  }

  ghost predicate StudyMeets(study: Study, trial: nat, world: World, e: nat)
    requires study.Valid() && e < |study.endpoints|
  {
    assert study.endpoints[e].Valid(study.ctx);
    var paths := study.endpoints[e].diagnostic;
    Meets(study.endpoints[e], world, (j: nat) => j < |paths| && StudyRun(study, trial, world, paths[j]))
  }

  lemma StudyVerdict(study: Study, index: PathIndex, e: nat, trial: nat, world: World)
    requires Ready(study, index) && e < |study.endpoints|
    ensures Importance.Wins(study, FrameAt(study, index, trial), world, e) <==> StudyMeets(study, trial, world, e)
  {
    var endpoint, tape := study.endpoints[e], ContentTape(study, trial);
    assert endpoint.Valid(study.ctx);
    var paths := endpoint.diagnostic;
    var results := Executed(study.ctx, NO_FAULTS, paths, world, tape, |paths|);
    VerdictsAreExecution(study, index, e, trial, world);
    ExecutedAt(study.ctx, NO_FAULTS, paths, world, tape, |paths|);
    OutcomeIs(study.ctx, endpoint, world, results, (j: nat) => j < |paths| && StudyRun(study, trial, world, paths[j]));
  }

  lemma ForcedOnly(world: World, component: Component, up: bool)
    ensures OnlyForced(world, Forced(world, component, up), component, up)
  {
  }

  lemma StudyWorldIs(study: Study, trial: nat)
    requires study.Valid()
    ensures WorldAt(study, trial) == StudyWorld(study, trial)
  {
  }

  /** The baseline verdict of a trial is that of the sampled world. */
  lemma BaselineExactly(study: Study, index: PathIndex, e: nat, trial: nat)
    requires Ready(study, index) && e < |study.endpoints|
    ensures BaseWins(study, index, e, trial) <==> StudyMeets(study, trial, StudyWorld(study, trial), e)
  {
    StudyWorldIs(study, trial);
    StudyVerdict(study, index, e, trial, StudyWorld(study, trial));
  }

  /**
   A counterfactual verdict is that of the world in which only the component is forced; in it, as in the sampled world,
   every path runs from the start of the trial's one generator for its services and edges.
   */
  lemma CounterfactualExactly(study: Study, index: PathIndex, e: nat, c: nat, up: bool, trial: nat)
    returns (forced: World)
    requires Ready(study, index) && e < |study.endpoints| && c < |study.components|
    ensures OnlyForced(StudyWorld(study, trial), forced, study.components[c], up)
    ensures ForcedWins(study, index, e, c, up, trial) <==> StudyMeets(study, trial, forced, e)
  {
    forced := Forced(StudyWorld(study, trial), study.components[c], up);
    StudyWorldIs(study, trial);
    ForcedOnly(StudyWorld(study, trial), study.components[c], up);
    StudyVerdict(study, index, e, trial, forced);
  }
}
