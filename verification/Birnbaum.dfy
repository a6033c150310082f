/** Birnbaum importance: paired counterfactual worlds, toggled in place, with all other randomness fixed. */
module Birnbaum {
  import opened Wrappers
  import opened Ids
  import opened Draws
  import opened Topology
  import opened Execution
  import opened Sampling
  import opened Nesting
  import opened Endpoints
  import opened Counting
  import TargetPaths

  datatype Kind = ServiceKind | EdgeKind

  datatype Component = Component(kind: Kind, id: Id)

  /**
   Counts of one endpoint and component: successes when forced up, when forced down, and trials where that differs.
   */
  datatype Count = Count(up: nat, down: nat, pivotal: nat)

  /** A request: the graph, the profile of independent component states, the targets and the selected components. */
  datatype Study = Study(
    ctx: Context,
    profile: Profile,
    endpoints: seq<Endpoint>,
    components: seq<Component>,
    entropy: Entropy,
    seed: int)
  {
    ghost predicate Valid() {
      && ctx.Valid() && Fits(ctx, profile)
      && (forall e | 0 <= e < |endpoints| :: endpoints[e].Valid(ctx))
      && (forall c | 0 <= c < |components| :: Known(components[c]))
    }

    /** Selection has checked that the component is part of the graph. */
    predicate Known(component: Component) {
      match component.kind
      case ServiceKind => component.id in ctx.serviceIDs
      case EdgeKind => component.id in ctx.edgeIDs
    }
  }

  // ----- a trial's fixed randomness

  function ContentTape(study: Study, trial: nat): Content -> Stream {
    (content: Content) => study.entropy.EventStream(study.seed, trial, ContentLabel(content.services, content.edgeIDs))
  }

  ghost function WorldAt(study: Study, trial: nat): World
    requires Fits(study.ctx, study.profile)
  {
    var stream := study.entropy.EventStream(study.seed, trial, StateLabel);
    SampleFailsExactly(study.ctx, study.profile, NO_FAULTS, stream, 0);
    Sample(study.ctx, study.profile, NO_FAULTS, stream, 0).value.0
  }

  /** Execution identities of the first `n` paths of an endpoint, by path ID. */
  function KeysOf(endpoint: Endpoint, n: nat): map<string, Content>
    requires n <= |endpoint.diagnostic|
  {
    if n == 0 || endpoint.mode.PredicateMode? then map[]
    else KeysOf(endpoint, n - 1)[endpoint.diagnostic[n - 1].id := ContentOf(endpoint.diagnostic[n - 1])]
  }

  function AllKeys(endpoint: Endpoint): map<string, Content> {
    KeysOf(endpoint, |endpoint.diagnostic|)
  }

  /** Each execution identity with a path that has it. */
  type PathIndex = map<Content, Path>

  ghost predicate Indexes(study: Study, paths: PathIndex, n: nat, m: nat)
    requires n <= |study.endpoints|
  {
    && (forall content | content in paths :: ContentOf(paths[content]) == content && paths[content].Within(study.ctx))
    && (forall e, i | 0 <= e < |study.endpoints| && 0 <= i < |study.endpoints[e].diagnostic|
        && !study.endpoints[e].mode.PredicateMode?
          && (e < n || (e == n && i < m)) :: ContentOf(study.endpoints[e].diagnostic[i]) in paths)
  }

  /** Viability of every indexed path in a trial: it succeeds when everything is up. */
  function ViableAt(study: Study, paths: PathIndex, trial: nat): map<Content, bool>
    requires forall content | content in paths :: paths[content].Shaped()
  {
    map content | content in paths ::
      Succeeds(study.ctx, NO_FAULTS, paths[content], AllUp(study.ctx), ContentTape(study, trial)(content))
  }

  // ----- execution does not read a path's name

  lemma {:induction false} LatencyIgnoresName(ctx: Context, faults: Faults, p: Path, q: Path, i: nat)
    requires p.Shaped() && q == p.(id := q.id) && i <= |p.edgeIDs|
    ensures LatencyFrom(ctx, faults, p, i) == LatencyFrom(ctx, faults, q, i)
    decreases |p.edgeIDs| - i
  {
    if i < |p.edgeIDs| {
      LatencyIgnoresName(ctx, faults, p, q, i + 1);
    }
  }

  lemma {:induction false} RunIgnoresName(ctx: Context, faults: Faults, p: Path, q: Path, world: World, stream: Stream,
      i: nat, pos: nat)
    requires p.Shaped() && q == p.(id := q.id) && i < |p.services|
    ensures ServiceRun(ctx, faults, p, world, stream, i, pos) == ServiceRun(ctx, faults, q, world, stream, i, pos)
    decreases |p.services| - i, 1, 0
  {
    if i < |p.edgeIDs| {
      var rate := RateOf(faults.serviceErrorRates, p.services[i]);
      AttemptsIgnoreName(ctx, faults, p, q, world, stream, i, EffectiveAttempts(ctx.EdgeOf(p.edgeIDs[i]).resilience),
                         if rate > 0.0 then pos + 1 else pos);
    }
  }

  lemma {:induction false} AttemptsIgnoreName(ctx: Context, faults: Faults, p: Path, q: Path, world: World,
      stream: Stream, i: nat, left: nat, pos: nat)
    requires p.Shaped() && q == p.(id := q.id) && i < |p.edgeIDs|
    ensures Attempts(ctx, faults, p, world, stream, i, left, pos)
        == Attempts(ctx, faults, q, world, stream, i, left, pos)
    decreases |p.services| - i, 0, left
  {
    if left > 0 {
      var rate := EdgeErrorRate(ctx, faults, p.edgeIDs[i]);
      var next := if rate > 0.0 then pos + 1 else pos;
      LatencyIgnoresName(ctx, faults, p, q, i);
      AttemptsIgnoreName(ctx, faults, p, q, world, stream, i, left - 1, pos + 1);
      AttemptsIgnoreName(ctx, faults, p, q, world, stream, i, left - 1, next);
      RunIgnoresName(ctx, faults, p, q, world, stream, i + 1, next);
      AttemptsIgnoreName(ctx, faults, p, q, world, stream, i, left - 1,
          ServiceRun(ctx, faults, p, world, stream, i + 1, next).1);
    }
  }

  // ----- counterfactual worlds

  function Forced(world: World, component: Component, up: bool): World {
    match component.kind
    case ServiceKind => world.(serviceAlive := world.serviceAlive[component.id := up])
    case EdgeKind => world.(edgeAlive := world.edgeAlive[component.id := up])
  }

  predicate IsUp(world: World, component: Component) {
    match component.kind
    case ServiceKind => Up(world.serviceAlive, component.id)
    case EdgeKind => Up(world.edgeAlive, component.id)
  }

  lemma ForcedNests(world: World, component: Component)
    ensures NoBetter(Forced(world, component, false), world)
    ensures NoBetter(world, Forced(world, component, true))
    ensures NoBetter(Forced(world, component, false), Forced(world, component, true))
  {
  }

  lemma ForcedSame(world: World, component: Component)
    ensures var same := Forced(world, component, IsUp(world, component));
      NoBetter(same, world) && NoBetter(world, same)
  {
  }

  /** Everything a trial's evaluations share. */
  datatype Frame = Frame(viable: map<Content, bool>, keys: seq<map<string, Content>>)

  predicate Wins(study: Study, frame: Frame, world: World, e: nat)
    requires e < |study.endpoints| && |frame.keys| == |study.endpoints|
  {
    ImportanceEndpointSuccess(study.endpoints[e], world, frame.viable, frame.keys[e])
  }

  lemma WinsMonotone(study: Study, frame: Frame, worse: World, better: World, e: nat)
    requires e < |study.endpoints| && |frame.keys| == |study.endpoints| && NoBetter(worse, better)
    ensures Wins(study, frame, worse, e) ==> Wins(study, frame, better, e)
  {
    ImportanceMonotone(study.endpoints[e], worse, better, frame.viable, frame.keys[e]);
  }

  // ----- what a whole study counts

  function StudyKeys(study: Study): seq<map<string, Content>> {
    seq(|study.endpoints|, e requires 0 <= e < |study.endpoints| => AllKeys(study.endpoints[e]))
  }

  ghost predicate Ready(study: Study, paths: PathIndex) {
    study.Valid() && Indexes(study, paths, |study.endpoints|, 0)
  }

  ghost function FrameAt(study: Study, paths: PathIndex, trial: nat): Frame
    requires Ready(study, paths)
  {
    Frame(ViableAt(study, paths, trial), StudyKeys(study))
  }

  ghost predicate BaseWins(study: Study, paths: PathIndex, e: nat, trial: nat)
    requires Ready(study, paths) && e < |study.endpoints|
  {
    Wins(study, FrameAt(study, paths, trial), WorldAt(study, trial), e)
  }

  /** Endpoint `e` succeeds in the trial's world with component `c` forced. */
  ghost predicate ForcedWins(study: Study, paths: PathIndex, e: nat, c: nat, up: bool, trial: nat)
    requires Ready(study, paths) && e < |study.endpoints| && c < |study.components|
  {
    Wins(study, FrameAt(study, paths, trial), Forced(WorldAt(study, trial), study.components[c], up), e)
  }

  ghost function Base(study: Study, paths: PathIndex, e: nat): nat -> bool
    requires Ready(study, paths) && e < |study.endpoints|
  {
    (trial: nat) => BaseWins(study, paths, e, trial)
  }

  ghost function WhenForced(study: Study, paths: PathIndex, e: nat, c: nat, up: bool): nat -> bool
    requires Ready(study, paths) && e < |study.endpoints| && c < |study.components|
  {
    (trial: nat) => ForcedWins(study, paths, e, c, up, trial)
  }

  /** A trial is pivotal when the endpoint succeeds with the component up and fails with it down. */
  function Only(up: nat -> bool, down: nat -> bool): nat -> bool {
    (trial: nat) => up(trial) && !down(trial)
  }

  /** The three counts of a component, as counts of three events. */
  ghost function CountOf(up: nat -> bool, down: nat -> bool, n: nat): Count {
    Count(CountTrue(up, n), CountTrue(down, n), CountTrue(Only(up, down), n))
  }

  /** The counts of one endpoint and component over the first `n` trials. */
  ghost function CountAt(study: Study, paths: PathIndex, e: nat, c: nat, n: nat): Count
    requires Ready(study, paths) && e < |study.endpoints| && c < |study.components|
  {
    CountOf(WhenForced(study, paths, e, c, true), WhenForced(study, paths, e, c, false), n)
  }

  /** Forcing a component down cannot make an endpoint succeed that fails with it up: the error branch is dead. */
  lemma ForcedMonotone(study: Study, paths: PathIndex, e: nat, c: nat, trial: nat)
    requires Ready(study, paths) && e < |study.endpoints| && c < |study.components|
    ensures ForcedWins(study, paths, e, c, false, trial) ==> BaseWins(study, paths, e, trial)
    ensures BaseWins(study, paths, e, trial) ==> ForcedWins(study, paths, e, c, true, trial)
  {
    var world, frame := WorldAt(study, trial), FrameAt(study, paths, trial);
    ForcedNests(world, study.components[c]);
    WinsMonotone(study, frame, Forced(world, study.components[c], false), world, e);
    WinsMonotone(study, frame, world, Forced(world, study.components[c], true), e);
  }

  /** A component that is up in the sampled world leaves it unchanged when forced up, and likewise down. */
  lemma ForcedToItself(study: Study, paths: PathIndex, e: nat, c: nat, trial: nat)
    requires Ready(study, paths) && e < |study.endpoints| && c < |study.components|
    ensures BaseWins(study, paths, e, trial)
        <==> ForcedWins(study, paths, e, c, IsUp(WorldAt(study, trial), study.components[c]), trial)
  {
    var world, component := WorldAt(study, trial), study.components[c];
    var same := Forced(world, component, IsUp(world, component));
    ForcedSame(world, component);
    WinsMonotone(study, FrameAt(study, paths, trial), world, same, e);
    WinsMonotone(study, FrameAt(study, paths, trial), same, world, e);
  }

  ghost function LiveAndWins(study: Study, paths: PathIndex, e: nat, c: nat, live: bool): nat -> bool
    requires Ready(study, paths) && e < |study.endpoints| && c < |study.components|
  {
    (trial: nat) => IsUp(WorldAt(study, trial), study.components[c]) == live
        && ForcedWins(study, paths, e, c, live, trial)
  }

  /**
   The laws of a study, for every endpoint and component and after any number of trials: the pivotal count is the
   difference of the two counterfactual counts, the baseline lies between them, and it is made of the trials that
   succeed with the component up and found it up, plus those that succeed with it down and found it down.
   */
  lemma StudyLaws(study: Study, paths: PathIndex, e: nat, c: nat, n: nat)
    requires Ready(study, paths) && e < |study.endpoints| && c < |study.components|
    ensures var count, base := CountAt(study, paths, e, c, n), CountTrue(Base(study, paths, e), n);
      && count.pivotal == count.up - count.down
      && count.down <= base <= count.up
      && base == CountTrue(LiveAndWins(study, paths, e, c, true), n)
          + CountTrue(LiveAndWins(study, paths, e, c, false), n)
  {
    var up, down := WhenForced(study, paths, e, c, true), WhenForced(study, paths, e, c, false);
    forall t: nat | t < n
      ensures down(t) ==> Base(study, paths, e)(t)
      ensures Base(study, paths, e)(t) ==> up(t)
      ensures Base(study, paths, e)(t)
          <==> LiveAndWins(study, paths, e, c, true)(t) || LiveAndWins(study, paths, e, c, false)(t)
    {
      ForcedMonotone(study, paths, e, c, t);
      ForcedToItself(study, paths, e, c, t);
    }
    CountSum(up, down, Only(up, down), n);
    CountMonotone(down, Base(study, paths, e), n);
    CountMonotone(Base(study, paths, e), up, n);
    CountSum(Base(study, paths, e), LiveAndWins(study, paths, e, c, true), LiveAndWins(study, paths, e, c, false), n);
  }

  // ----- the engine's trial loop

  /** What a counter should hold after n trials, by endpoint and component. */
  type Goal = (nat, nat, nat) -> Count

  ghost function StudyGoal(study: Study, paths: PathIndex): Goal
    requires Ready(study, paths)
  {
    (e: nat, c: nat, n: nat) =>
      if e < |study.endpoints| && c < |study.components| then CountAt(study, paths, e, c, n) else Count(0, 0, 0)
  }

  ghost predicate Sized(study: Study, baseline: array<nat>, counts: array2<Count>) {
    && baseline.Length == |study.endpoints|
    && counts.Length0 == |study.endpoints| && counts.Length1 == |study.components|
  }

  /** The counts so far: trial `t` is done for the cells before (c, e) in component-major order. */
  ghost predicate CountsAre(goal: Goal, counts: array2<Count>, t: nat, c: nat, e: nat)
    reads counts
  {
    forall f, d | 0 <= f < counts.Length0 && 0 <= d < counts.Length1 ::
      counts[f, d] == goal(f, d, if d < c || (d == c && f < e) then t + 1 else t)
  }

  function Bumped(count: Count, up: bool, down: bool): Count {
    Count(count.up + (if up then 1 else 0), count.down + (if down then 1 else 0),
        count.pivotal + (if up && !down then 1 else 0))
  }

  lemma WhenForcedAt(study: Study, paths: PathIndex, e: nat, c: nat, up: bool, t: nat)
    requires Ready(study, paths) && e < |study.endpoints| && c < |study.components|
    ensures WhenForced(study, paths, e, c, up)(t) == ForcedWins(study, paths, e, c, up, t)
  {
  }

  lemma CountNext(up: nat -> bool, down: nat -> bool, n: nat)
    ensures CountOf(up, down, n + 1) == Bumped(CountOf(up, down, n), up(n), down(n))
  {
  }

  lemma GoalAt(study: Study, paths: PathIndex, e: nat, c: nat, n: nat)
    requires Ready(study, paths) && e < |study.endpoints| && c < |study.components|
    ensures StudyGoal(study, paths)(e, c, n) == CountAt(study, paths, e, c, n)
  {
  }

  method Force(state: SampledState, component: Component, up: bool)
    modifies state
    ensures state.Snapshot() == Forced(old(state.Snapshot()), component, up)
  {
    match component.kind {
      case ServiceKind => state.serviceAlive := state.serviceAlive[component.id := up];
      case EdgeKind => state.edgeAlive := state.edgeAlive[component.id := up];
    }
  }

  lemma ForcedTwice(world: World, component: Component, a: bool, b: bool)
    ensures Forced(Forced(world, component, a), component, b) == Forced(world, component, b)
  {
    match component.kind {
      case ServiceKind =>
        assert world.serviceAlive[component.id := a][component.id := b] == world.serviceAlive[component.id := b];
      case EdgeKind =>
        assert world.edgeAlive[component.id := a][component.id := b] == world.edgeAlive[component.id := b];
    }
  }

  /** Forcing a listed component to the state it was sampled in gives back the very same world. */
  lemma ForcedBack(study: Study, world: World, component: Component)
    requires study.Known(component)
    requires world.serviceAlive.Keys == (set id | id in study.ctx.serviceIDs)
        && world.edgeAlive.Keys == (set id | id in study.ctx.edgeIDs)
    ensures Forced(world, component, IsUp(world, component)) == world
  {
    match component.kind {
      case ServiceKind => assert world.serviceAlive[component.id := IsUp(world, component)] == world.serviceAlive;
      case EdgeKind => assert world.edgeAlive[component.id := IsUp(world, component)] == world.edgeAlive;
    }
  }

  lemma WorldKeys(study: Study, trial: nat)
    requires study.Valid()
    ensures var world := WorldAt(study, trial);
      && world.serviceAlive.Keys == (set id | id in study.ctx.serviceIDs)
      && world.edgeAlive.Keys == (set id | id in study.ctx.edgeIDs)
  {
    var stream := study.entropy.EventStream(study.seed, trial, StateLabel);
    var n := |study.ctx.edgeIDs|;
    EdgeCursor(study.ctx, study.profile, NO_FAULTS, stream, n,
        BucketStage(study.ctx, study.profile, stream, 0).value.1);
    assert (set i | 0 <= i < n :: study.ctx.edgeIDs[i]) == (set id | id in study.ctx.edgeIDs);
  }

  /** Adding one comparison to one cell. */
  method Record(counts: array2<Count>, ghost goal: Goal, ghost t: nat, c: nat, e: nat, up: bool, down: bool)
    requires e < counts.Length0 && c < counts.Length1 && CountsAre(goal, counts, t, c, e)
    requires goal(e, c, t + 1) == Bumped(goal(e, c, t), up, down)
    modifies counts
    ensures CountsAre(goal, counts, t, c, e + 1)
  {
    var count := counts[e, c];
    counts[e, c] := Count(count.up + (if up then 1 else 0), count.down + (if down then 1 else 0),
                          count.pivotal + (if up && !down then 1 else 0));
  }

  /** Evaluate one endpoint with the component forced up, then down, leaving it down. */
  method Compare(study: Study, ghost paths: PathIndex, frame: Frame, ghost trial: nat, c: nat, e: nat,
      state: SampledState)
    returns (up: bool, down: bool)
    requires Ready(study, paths) && frame == FrameAt(study, paths, trial)
    requires c < |study.components| && e < |study.endpoints|
    requires SameUnderForcing(state.Snapshot(), WorldAt(study, trial), study.components[c])
    modifies state
    ensures SameUnderForcing(state.Snapshot(), WorldAt(study, trial), study.components[c])
    ensures !(down && !up)
    ensures StudyGoal(study, paths)(e, c, trial + 1) == Bumped(StudyGoal(study, paths)(e, c, trial), up, down)
  {
    ghost var world, component := WorldAt(study, trial), study.components[c];
    Force(state, study.components[c], true);
    up := Wins(study, frame, state.Snapshot(), e);
    ghost var raised := state.Snapshot();
    Force(state, study.components[c], false);
    ForcedTwice(world, component, true, false);
    down := Wins(study, frame, state.Snapshot(), e);
    ForcedMonotone(study, paths, e, c, trial);
    WhenForcedAt(study, paths, e, c, true, trial);
    WhenForcedAt(study, paths, e, c, false, trial);
    CountNext(WhenForced(study, paths, e, c, true), WhenForced(study, paths, e, c, false), trial);
    GoalAt(study, paths, e, c, trial);
    GoalAt(study, paths, e, c, trial + 1);
    forall b
      ensures Forced(state.Snapshot(), component, b) == Forced(world, component, b)
    {
      ForcedTwice(world, component, false, b);
    }
  }

  ghost predicate SameUnderForcing(a: World, b: World, component: Component) {
    forall up :: Forced(a, component, up) == Forced(b, component, up)
  }

  /** Toggle one component in place for every endpoint, then put its sampled state back. */
  method CompareComponent(study: Study, ghost paths: PathIndex, frame: Frame, ghost trial: nat, c: nat,
      state: SampledState, counts: array2<Count>)
    returns (nonMonotonic: bool)
    requires Ready(study, paths) && frame == FrameAt(study, paths, trial) && c < |study.components|
    requires counts.Length0 == |study.endpoints| && counts.Length1 == |study.components|
    requires state.Snapshot() == WorldAt(study, trial) && CountsAre(StudyGoal(study, paths), counts, trial, c, 0)
    modifies state, counts
    ensures !nonMonotonic && state.Snapshot() == old(state.Snapshot())
    ensures CountsAre(StudyGoal(study, paths), counts, trial, c + 1, 0)
  {
    var component := study.components[c];
    var original := IsUp(state.Snapshot(), component);
    for e := 0 to |study.endpoints|
      invariant SameUnderForcing(state.Snapshot(), WorldAt(study, trial), component)
      invariant CountsAre(StudyGoal(study, paths), counts, trial, c, e)
    {
      var up, down := Compare(study, paths, frame, trial, c, e, state);
      if down && !up {
        return true;
      }
      Record(counts, StudyGoal(study, paths), trial, c, e, up, down);
    }
    SampledBack(study, trial, component);
    Force(state, component, original);
    return false;
  }

  lemma SampledBack(study: Study, trial: nat, component: Component)
    requires study.Valid() && study.Known(component)
    ensures Forced(WorldAt(study, trial), component, IsUp(WorldAt(study, trial), component)) == WorldAt(study, trial)
  {
    WorldKeys(study, trial);
    ForcedBack(study, WorldAt(study, trial), component);
  }

  method BuildIndex(study: Study) returns (paths: PathIndex, keys: seq<map<string, Content>>)
    requires study.Valid()
    ensures Ready(study, paths) && keys == StudyKeys(study)
  {
    paths, keys := map[], [];
    for e := 0 to |study.endpoints|
      invariant Indexes(study, paths, e, 0) && keys == StudyKeys(study)[..e]
    {
      var endpoint := study.endpoints[e];
      assert endpoint.Valid(study.ctx);
      var own: map<string, Content> := map[];
      if !endpoint.mode.PredicateMode? {
        for i := 0 to |endpoint.diagnostic|
          invariant Indexes(study, paths, e, i) && own == KeysOf(endpoint, i)
        {
          var path := endpoint.diagnostic[i];
          own := own[path.id := ContentOf(path)];
          paths := paths[ContentOf(path) := path];
        }
      }
      keys := keys + [own];
    }
  }

  method Viability(study: Study, paths: PathIndex, trial: nat) returns (viable: map<Content, bool>)
    requires forall content | content in paths :: paths[content].Shaped()
    ensures viable == ViableAt(study, paths, trial)
  {
    viable := map[];
    var rest := paths.Keys;
    while rest != {}
      invariant rest <= paths.Keys && viable.Keys == paths.Keys - rest
      invariant forall content | content in viable ::
                  viable[content] == Succeeds(study.ctx, NO_FAULTS, paths[content], AllUp(study.ctx),
                      ContentTape(study, trial)(content))
      decreases rest
    {
      var content :| content in rest;
      var rng := new Rng(ContentTape(study, trial)(content));
      var ok := ExecutePath(study.ctx, AllUp(study.ctx), NO_FAULTS, paths[content], rng);
      viable := viable[content := ok];
      rest := rest - {content};
    }
  }

  type BaseGoal = (nat, nat) -> nat

  ghost function StudyBase(study: Study, paths: PathIndex): BaseGoal
    requires Ready(study, paths)
  {
    (e: nat, n: nat) => if e < |study.endpoints| then CountTrue(Base(study, paths, e), n) else 0
  }

  /** The baseline counters: trial `t` is done for the first `e` endpoints. */
  ghost predicate BaselineIs(goal: BaseGoal, baseline: array<nat>, t: nat, e: nat)
    reads baseline
  {
    forall f | 0 <= f < baseline.Length :: baseline[f] == goal(f, if f < e then t + 1 else t)
  }

  lemma BaseStep(study: Study, paths: PathIndex, e: nat, t: nat)
    requires Ready(study, paths) && e < |study.endpoints|
    ensures var goal := StudyBase(study, paths);
      goal(e, t + 1) == goal(e, t) + if BaseWins(study, paths, e, t) then 1 else 0
  {
    assert Base(study, paths, e)(t) == BaseWins(study, paths, e, t);
  }

  method Mark(baseline: array<nat>, ghost goal: BaseGoal, ghost t: nat, e: nat, wins: bool)
    requires e < baseline.Length && BaselineIs(goal, baseline, t, e)
    requires goal(e, t + 1) == goal(e, t) + if wins then 1 else 0
    modifies baseline
    ensures BaselineIs(goal, baseline, t, e + 1)
  {
    if wins {
      baseline[e] := baseline[e] + 1;
    }
  }

  method CountBaseline(study: Study, ghost paths: PathIndex, frame: Frame, ghost trial: nat, world: World,
      baseline: array<nat>)
    requires Ready(study, paths) && frame == FrameAt(study, paths, trial) && baseline.Length == |study.endpoints|
    requires world == WorldAt(study, trial) && BaselineIs(StudyBase(study, paths), baseline, trial, 0)
    modifies baseline
    ensures BaselineIs(StudyBase(study, paths), baseline, trial + 1, 0)
  {
    ghost var goal := StudyBase(study, paths);
    for e := 0 to |study.endpoints|
      invariant BaselineIs(goal, baseline, trial, e)
    {
      var wins := Wins(study, frame, world, e);
      BaseStep(study, paths, e, trial);
      Mark(baseline, goal, trial, e, wins);
    }
  }

  /** One trial. Importance accepts only the independent modes, whose sampling cannot fail. */
  method RunTrial(study: Study, paths: PathIndex, keys: seq<map<string, Content>>, trial: nat, baseline: array<nat>,
      counts: array2<Count>)
    returns (nonMonotonic: bool)
    requires Ready(study, paths) && keys == StudyKeys(study) && Sized(study, baseline, counts)
    requires BaselineIs(StudyBase(study, paths), baseline, trial, 0)
        && CountsAre(StudyGoal(study, paths), counts, trial, 0, 0)
    modifies baseline, counts
    ensures !nonMonotonic
    ensures BaselineIs(StudyBase(study, paths), baseline, trial + 1, 0)
    ensures CountsAre(StudyGoal(study, paths), counts, trial + 1, 0, 0)
  {
    var state := SampleTrial(study, trial);
    var viable := Viability(study, paths, trial);
    var frame := Frame(viable, keys);
    CountBaseline(study, paths, frame, trial, state.Snapshot(), baseline);
    for c := 0 to |study.components|
      invariant state.Snapshot() == WorldAt(study, trial)
      invariant BaselineIs(StudyBase(study, paths), baseline, trial + 1, 0)
      invariant CountsAre(StudyGoal(study, paths), counts, trial, c, 0)
    {
      nonMonotonic := CompareComponent(study, paths, frame, trial, c, state, counts);
      if nonMonotonic {
        return;
      }
    }
    return false;
  }

  method SampleTrial(study: Study, trial: nat) returns (state: SampledState)
    requires study.Valid()
    ensures fresh(state) && state.Snapshot() == WorldAt(study, trial)
  {
    var stateRNG := new Rng(study.entropy.EventStream(study.seed, trial, StateLabel));
    SampleFailsExactly(study.ctx, study.profile, NO_FAULTS, stateRNG.stream, 0);
    var sampled := SampleAdvancedState(study.ctx, study.profile, stateRNG, NO_FAULTS);
    state := sampled.value;
  }

  /** The whole study: no component is ever reported non-monotonic, and the counters are those the laws speak of. */
  method RunBirnbaum(study: Study, trials: nat)
    returns (nonMonotonic: bool, paths: PathIndex, baseline: array<nat>, counts: array2<Count>)
    requires study.Valid()
    ensures !nonMonotonic && Ready(study, paths) && Sized(study, baseline, counts)
    ensures forall e | 0 <= e < |study.endpoints| :: baseline[e] == CountTrue(Base(study, paths, e), trials)
    ensures forall e, c | 0 <= e < |study.endpoints| && 0 <= c < |study.components| ::
              counts[e, c] == CountAt(study, paths, e, c, trials)
  {
    var keys;
    paths, keys := BuildIndex(study);
    baseline := new nat[|study.endpoints|](_ => 0);
    counts := new Count[|study.endpoints|, |study.components|]((_, _) => Count(0, 0, 0));
    nonMonotonic := false;
    for trial := 0 to trials
      invariant !nonMonotonic
      invariant BaselineIs(StudyBase(study, paths), baseline, trial, 0)
      invariant CountsAre(StudyGoal(study, paths), counts, trial, 0, 0)
    {
      nonMonotonic := RunTrial(study, paths, keys, trial, baseline, counts);
      if nonMonotonic {
        return;
      }
    }
    forall e, c | 0 <= e < |study.endpoints| && 0 <= c < |study.components|
      ensures counts[e, c] == CountAt(study, paths, e, c, trials)
    {
      GoalAt(study, paths, e, c, trials);
    }
    forall e | 0 <= e < |study.endpoints|
      ensures baseline[e] == CountTrue(Base(study, paths, e), trials)
    {
      assert baseline[e] == StudyBase(study, paths)(e, trials);
    }
  }

  // ----- the baseline is real execution

  lemma {:induction false} KeysAt(endpoint: Endpoint, n: nat, i: nat)
    requires i < n <= |endpoint.diagnostic| && TargetPaths.DistinctIDs(endpoint.diagnostic)
        && !endpoint.mode.PredicateMode?
    ensures var path := endpoint.diagnostic[i];
      path.id in KeysOf(endpoint, n) && KeysOf(endpoint, n)[path.id] == ContentOf(path)
  {
    if i < n - 1 {
      KeysAt(endpoint, n - 1, i);
      assert endpoint.diagnostic[i].id != endpoint.diagnostic[n - 1].id;
    }
  }

  lemma StudyKeysAndViability(study: Study, paths: PathIndex, e: nat, trial: nat)
    requires Ready(study, paths) && e < |study.endpoints| && study.endpoints[e].Valid(study.ctx)
    requires !study.endpoints[e].mode.PredicateMode?
    ensures KeysAndViability(study.ctx, NO_FAULTS, study.endpoints[e], ContentTape(study, trial),
        ViableAt(study, paths, trial),
                             StudyKeys(study)[e])
  {
    var endpoint := study.endpoints[e];
    forall i | 0 <= i < |endpoint.diagnostic|
      ensures var path := endpoint.diagnostic[i];
        && path.id in StudyKeys(study)[e] && StudyKeys(study)[e][path.id] == ContentOf(path)
        && Up(ViableAt(study, paths, trial), ContentOf(path))
           == Succeeds(study.ctx, NO_FAULTS, path, AllUp(study.ctx), ContentTape(study, trial)(ContentOf(path)))
    {
      var path := endpoint.diagnostic[i];
      KeysAt(endpoint, |endpoint.diagnostic|, i);
      assert ContentOf(path) in paths;
      var indexed := paths[ContentOf(path)];
      RunIgnoresName(study.ctx, NO_FAULTS, path, indexed, AllUp(study.ctx), ContentTape(study, trial)(ContentOf(path)),
          0, 0);
    }
  }

  /**
   In every trial, both the baseline verdict and every counterfactual verdict are what executing the endpoint's paths
   in that very world would give, each path on its own fixed tape.
   */
  lemma VerdictsAreExecution(study: Study, paths: PathIndex, e: nat, trial: nat, world: World)
    requires Ready(study, paths) && e < |study.endpoints|
    ensures var endpoint := study.endpoints[e];
      endpoint.Valid(study.ctx) &&
      (Wins(study, FrameAt(study, paths, trial), world, e)
       <==> Outcome(endpoint, world,
                    Executed(study.ctx, NO_FAULTS, endpoint.diagnostic, world, ContentTape(study, trial),
                    |endpoint.diagnostic|)))
  {
    var endpoint := study.endpoints[e];
    assert endpoint.Valid(study.ctx);
    if !endpoint.mode.PredicateMode? {
      StudyKeysAndViability(study, paths, e, trial);
    }
    ShortcutIsExecution(study.ctx, NO_FAULTS, endpoint, world, ContentTape(study, trial), ViableAt(study, paths, trial),
        StudyKeys(study)[e]);
  }
}
