/** Endpoints and the ways their success is decided in one world. */
module Endpoints {
  import opened Wrappers
  import opened Ids
  import opened Draws
  import opened Topology
  import opened Execution
  import Predicates
  import EdgeAware
  import TargetPaths

  datatype EndpointMode = PredicateMode | JourneyMode | EdgeAwareMode

  /** `groups` are the target path groups of an edge-aware endpoint, `diagnostic` the paths executed in every trial. */
  datatype Endpoint = Endpoint(
    id: Id,
    mode: EndpointMode,
    definition: Predicates.Definition,
    groups: map<string, seq<Path>>,
    diagnostic: seq<Path>)
  {
    /** What building the context establishes: paths within the graph, one per ID, covering every group. */
    ghost predicate Valid(ctx: Context) {
      && (forall i | 0 <= i < |diagnostic| :: diagnostic[i].Within(ctx))
      && TargetPaths.DistinctIDs(diagnostic)
      && (mode.EdgeAwareMode? ==>
            forall key, i | key in groups && 0 <= i < |groups[key]| :: groups[key][i] in diagnostic)
    }
  }

  function Liveness(world: World): Id -> bool {
    id => Up(world.serviceAlive, id)
  }

  /** The verdict of a trial, from the sampled world and the results of executing the diagnostic paths. */
  predicate Outcome(endpoint: Endpoint, world: World, results: map<string, bool>) {
    match endpoint.mode
    case PredicateMode => Predicates.Holds(endpoint.definition, Liveness(world))
    case JourneyMode => exists id | id in results :: results[id]
    case EdgeAwareMode => EdgeAware.EdgeAwareSuccess(endpoint.groups, results)
  }

  method EndpointSucceeds(endpoint: Endpoint, world: World, results: map<string, bool>) returns (ok: bool)
    ensures ok == Outcome(endpoint, world, results)
  {
    match endpoint.mode {
      case PredicateMode =>
        ok := Predicates.Evaluate(endpoint.definition, Liveness(world));
      case JourneyMode =>
        ok := false;
        var rest := results.Keys;
        while rest != {}
          invariant rest <= results.Keys
          invariant ok == exists id | id in results && id !in rest :: results[id]
          decreases rest
        {
          var id :| id in rest;
          if results[id] {
            return true;
          }
          rest := rest - {id};
        }
      case EdgeAwareMode =>
        ok := EdgeAware.EdgeAwareEndpointSuccess(endpoint.groups, results);
    }
  }

  /** Better worlds and better path results never turn success into failure. */
  lemma OutcomeMonotone(endpoint: Endpoint, worse: World, better: World, fewer: map<string, bool>, more: map<string,
      bool>)
    requires NoBetter(worse, better) && forall id :: Up(fewer, id) ==> Up(more, id)
    ensures Outcome(endpoint, worse, fewer) ==> Outcome(endpoint, better, more)
  {
    match endpoint.mode {
      case PredicateMode =>
        Predicates.HoldsMonotone(endpoint.definition, Liveness(worse), Liveness(better));
      case JourneyMode =>
        if id :| id in fewer && fewer[id] {
          assert Up(fewer, id) && Up(more, id);
        }
      case EdgeAwareMode =>
        if EdgeAware.EdgeAwareSuccess(endpoint.groups, fewer) {
          forall key | key in endpoint.groups
            ensures exists i | 0 <= i < |endpoint.groups[key]| :: Up(more, endpoint.groups[key][i].id)
          {
            var i :| 0 <= i < |endpoint.groups[key]| && Up(fewer, endpoint.groups[key][i].id);
          }
        }
    }
  }

  // ----- the importance estimator's shortcut

  /** A path's execution identity: its services and its edges. */
  datatype Content = Content(services: seq<Id>, edgeIDs: seq<Id>)

  function ContentOf(path: Path): Content {
    Content(path.services, path.edgeIDs)
  }

  /** A path counts as successful when it is viable and everything on it is up. */
  predicate PathCounts(path: Path, world: World, viable: map<Content, bool>, keys: map<string, Content>) {
    path.id in keys && Up(viable, keys[path.id]) && PathUp(world, path)
  }

  predicate ImportanceEndpointSuccess(endpoint: Endpoint, world: World, viable: map<Content, bool>, keys: map<string,
      Content>) {
    match endpoint.mode
    case PredicateMode => Predicates.Holds(endpoint.definition, Liveness(world))
    case EdgeAwareMode =>
      && endpoint.groups != map[]
      && forall key | key in endpoint.groups ::
           exists i | 0 <= i < |endpoint.groups[key]| :: PathCounts(endpoint.groups[key][i], world, viable, keys)
    case JourneyMode =>
      exists i | 0 <= i < |endpoint.diagnostic| :: PathCounts(endpoint.diagnostic[i], world, viable, keys)
  }

  lemma ImportanceMonotone(endpoint: Endpoint, worse: World, better: World, viable: map<Content, bool>,
      keys: map<string, Content>)
    requires NoBetter(worse, better)
    ensures ImportanceEndpointSuccess(endpoint, worse, viable, keys)
        ==> ImportanceEndpointSuccess(endpoint, better, viable, keys)
  {
    match endpoint.mode {
      case PredicateMode =>
        Predicates.HoldsMonotone(endpoint.definition, Liveness(worse), Liveness(better));
      case JourneyMode =>
        if i :| 0 <= i < |endpoint.diagnostic| && PathCounts(endpoint.diagnostic[i], worse, viable, keys) {
          assert PathCounts(endpoint.diagnostic[i], better, viable, keys);
        }
      case EdgeAwareMode =>
        if ImportanceEndpointSuccess(endpoint, worse, viable, keys) {
          forall key | key in endpoint.groups
            ensures exists i | 0 <= i < |endpoint.groups[key]| ::
                PathCounts(endpoint.groups[key][i], better, viable, keys)
          {
            var i :| 0 <= i < |endpoint.groups[key]| && PathCounts(endpoint.groups[key][i], worse, viable, keys);
            assert PathCounts(endpoint.groups[key][i], better, viable, keys);
          }
        }
    }
  }

  /** Real execution: every diagnostic path run in the world, each on a fresh generator fixed by the path's content. */
  function Executed(ctx: Context, faults: Faults, paths: seq<Path>, world: World, tape: Content -> Stream,
      n: nat): map<string, bool>
    requires n <= |paths| && forall i | 0 <= i < |paths| :: paths[i].Shaped()
  {
    if n == 0 then map[]
    else
      var path := paths[n - 1];
      Executed(ctx, faults, paths, world, tape,
          n - 1)[path.id := Succeeds(ctx, faults, path, world, tape(ContentOf(path)))]
  }

  predicate Listed(paths: seq<Path>, n: nat, id: string)
    requires n <= |paths|
  {
    exists i | 0 <= i < n :: paths[i].id == id
  }

  lemma {:induction false} ExecutedKeys(ctx: Context, faults: Faults, paths: seq<Path>, world: World,
      tape: Content -> Stream, n: nat)
    requires n <= |paths| && forall i | 0 <= i < |paths| :: paths[i].Shaped()
    ensures forall id | id in Executed(ctx, faults, paths, world, tape, n) :: Listed(paths, n, id)
  {
    if n > 0 {
      ExecutedKeys(ctx, faults, paths, world, tape, n - 1);
      assert Listed(paths, n, paths[n - 1].id);
    }
  }

  lemma {:induction false} ExecutedPath(ctx: Context, faults: Faults, paths: seq<Path>, world: World,
      tape: Content -> Stream, n: nat, i: nat)
    requires i < n <= |paths| && TargetPaths.DistinctIDs(paths) && forall i | 0 <= i < |paths| :: paths[i].Shaped()
    ensures paths[i].id in Executed(ctx, faults, paths, world, tape, n)
    ensures Executed(ctx, faults, paths, world, tape, n)[paths[i].id]
        == Succeeds(ctx, faults, paths[i], world, tape(ContentOf(paths[i])))
  {
    if i < n - 1 {
      ExecutedPath(ctx, faults, paths, world, tape, n - 1, i);
      assert paths[i].id != paths[n - 1].id;
    }
  }

  lemma ExecutedAt(ctx: Context, faults: Faults, paths: seq<Path>, world: World, tape: Content -> Stream, n: nat)
    requires n <= |paths| && TargetPaths.DistinctIDs(paths) && forall i | 0 <= i < |paths| :: paths[i].Shaped()
    ensures var results := Executed(ctx, faults, paths, world, tape, n);
      && (forall id | id in results :: Listed(paths, n, id))
      && (forall i | 0 <= i < n ::
            paths[i].id in results
            && results[paths[i].id] == Succeeds(ctx, faults, paths[i], world, tape(ContentOf(paths[i]))))
  {
    ExecutedKeys(ctx, faults, paths, world, tape, n);
    forall i | 0 <= i < n
      ensures var results := Executed(ctx, faults, paths, world, tape, n);
        paths[i].id in results && results[paths[i].id]
            == Succeeds(ctx, faults, paths[i], world, tape(ContentOf(paths[i])))
    {
      ExecutedPath(ctx, faults, paths, world, tape, n, i);
    }
  }

  /** The keys of an endpoint's paths, and viability decided once per content with everything up. */
  ghost predicate KeysAndViability(ctx: Context, faults: Faults, endpoint: Endpoint, tape: Content -> Stream,
      viable: map<Content, bool>, keys: map<string, Content>)
    requires endpoint.Valid(ctx)
  {
    forall i | 0 <= i < |endpoint.diagnostic| ::
      var path := endpoint.diagnostic[i];
      && path.id in keys && keys[path.id] == ContentOf(path)
      && Up(viable, ContentOf(path)) == Succeeds(ctx, faults, path, AllUp(ctx), tape(ContentOf(path)))
  }

  /**
   In every world and for every endpoint mode, the importance estimator's shortcut gives exactly the verdict real path
   execution would give with one fixed tape per path.
   */
  lemma ShortcutIsExecution(ctx: Context, faults: Faults, endpoint: Endpoint, world: World, tape: Content -> Stream,
      viable: map<Content, bool>, keys: map<string, Content>)
    requires endpoint.Valid(ctx)
    requires !endpoint.mode.PredicateMode? ==> KeysAndViability(ctx, faults, endpoint, tape, viable, keys)
    ensures ImportanceEndpointSuccess(endpoint, world, viable, keys)
        <==> Outcome(endpoint, world, Executed(ctx, faults, endpoint.diagnostic, world, tape, |endpoint.diagnostic|))
  {
    var paths := endpoint.diagnostic;
    var results := Executed(ctx, faults, paths, world, tape, |paths|);
    ExecutedAt(ctx, faults, paths, world, tape, |paths|);
    if !endpoint.mode.PredicateMode? {
      forall i | 0 <= i < |paths|
        ensures PathCounts(paths[i], world, viable, keys) <==> Up(results, paths[i].id)
      {
        ExecutionFactors(ctx, faults, paths[i], world, tape(ContentOf(paths[i])), 0);
      }
      ShortcutByMode(endpoint, world, viable, keys, results);
    }
  }

  lemma ShortcutByMode(endpoint: Endpoint, world: World, viable: map<Content, bool>, keys: map<string, Content>,
      results: map<string, bool>)
    requires !endpoint.mode.PredicateMode?
    requires endpoint.mode.EdgeAwareMode? ==>
               forall key, i | key in endpoint.groups && 0 <= i < |endpoint.groups[key]| ::
                   endpoint.groups[key][i] in endpoint.diagnostic
    requires forall i | 0 <= i < |endpoint.diagnostic| ::
               PathCounts(endpoint.diagnostic[i], world, viable, keys) <==> Up(results, endpoint.diagnostic[i].id)
    requires forall id | id in results :: Listed(endpoint.diagnostic, |endpoint.diagnostic|, id)
    ensures ImportanceEndpointSuccess(endpoint, world, viable, keys) <==> Outcome(endpoint, world, results)
  {
    var paths := endpoint.diagnostic;
    if endpoint.mode.JourneyMode? {
      if id :| id in results && results[id] {
        var i :| 0 <= i < |paths| && paths[i].id == id;
        assert PathCounts(paths[i], world, viable, keys);
      }
      if i :| 0 <= i < |paths| && PathCounts(paths[i], world, viable, keys) {
        assert results[paths[i].id];
      }
    } else {
      forall key, i | key in endpoint.groups && 0 <= i < |endpoint.groups[key]|
        ensures PathCounts(endpoint.groups[key][i], world, viable, keys) <==> Up(results, endpoint.groups[key][i].id)
      {
        assert endpoint.groups[key][i] in paths;
        var j :| 0 <= j < |paths| && paths[j] == endpoint.groups[key][i];
      }
    }
  }
}
