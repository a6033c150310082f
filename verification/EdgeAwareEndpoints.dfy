/** Edge-aware endpoints end to end: from the predicate through planning and execution to the documented meaning. */
module EdgeAwareEndpoints {
  import opened Wrappers
  import opened Ids
  import opened Draws
  import opened Topology
  import opened Execution
  import opened Adjacency
  import opened EdgeAware
  import opened EdgeAwareMeaning
  import opened Endpoints
  import Predicates
  import TargetPaths

  function PlannedEndpoint(id: Id, def: Predicates.Definition, plan: Plan): Endpoint {
    Endpoint(id, EdgeAwareMode, def, plan.groups, plan.diagnostic)
  }

  /** Every listed path succeeds on its tape once everything is up. */
  ghost predicate AllViable(ctx: Context, faults: Faults, paths: seq<Path>, tape: Content -> Stream) {
    forall i | 0 <= i < |paths| :: paths[i].Shaped()
        && Succeeds(ctx, faults, paths[i], AllUp(ctx), tape(ContentOf(paths[i])))
  }

  /** A planned endpoint meets what running and importance analysis expect of an endpoint. */
  lemma PlannedIsValid(ctx: Context, id: Id, def: Predicates.Definition, adj: Graph)
    requires Prepared(ctx, def.edgeModes, adj) && Planned(ctx, def, adj).Ok?
    ensures PlannedEndpoint(id, def, Planned(ctx, def, adj).value).Valid(ctx)
  {
    PlanCoversGroups(ctx, def, adj);
    var paths := Planned(ctx, def, adj).value.diagnostic;
    forall i | 0 <= i < |paths|
      ensures paths[i].Within(ctx)
    {
      assert paths[i] in paths;
    }
  }

  /** With every path viable, executing the list answers, path by path, whether all its parts are up. */
  lemma ExecutedIsLiveness(ctx: Context, faults: Faults, paths: seq<Path>, world: World, tape: Content -> Stream)
    requires TargetPaths.DistinctIDs(paths) && (forall i | 0 <= i < |paths| :: paths[i].Within(ctx))
    requires AllViable(ctx, faults, paths, tape)
    ensures ResultsAreLiveness(world, Executed(ctx, faults, paths, world, tape, |paths|), paths)
  {
    ExecutedAt(ctx, faults, paths, world, tape, |paths|);
    forall p | p in paths
      ensures Up(Executed(ctx, faults, paths, world, tape, |paths|), p.id) <==> PathUp(world, p)
    {
      var i :| 0 <= i < |paths| && paths[i] == p;
      ExecutionFactors(ctx, faults, p, world, tape(ContentOf(p)), 0);
    }
  }

  /**
   Real execution, for any graph, world and tapes: with every planned path viable, the endpoint succeeds exactly when
   every mandatory target can be reached through live services and live edges and every required call is live.
   */
  lemma ExecutionIsReachability(ctx: Context, faults: Faults, id: Id, def: Predicates.Definition, adj: Graph,
      world: World, tape: Content -> Stream)
    requires Prepared(ctx, def.edgeModes, adj) && Planned(ctx, def, adj).Ok?
    requires AllViable(ctx, faults, Planned(ctx, def, adj).value.diagnostic, tape)
    ensures var endpoint := PlannedEndpoint(id, def, Planned(ctx, def, adj).value);
      Outcome(endpoint, world, Executed(ctx, faults, endpoint.diagnostic, world, tape, |endpoint.diagnostic|))
      <==> GraphHolds(ctx, def, adj, world)
  {
    PlannedIsValid(ctx, id, def, adj);
    var paths := Planned(ctx, def, adj).value.diagnostic;
    ExecutedIsLiveness(ctx, faults, paths, world, tape);
    EdgeAwareIsReachability(ctx, def, adj, world, Executed(ctx, faults, paths, world, tape, |paths|));
  }

  /** The importance estimator's shortcut therefore decides the same graph question. */
  lemma ShortcutIsReachability(ctx: Context, faults: Faults, id: Id, def: Predicates.Definition, adj: Graph,
      world: World, tape: Content -> Stream, viable: map<Content, bool>, keys: map<string, Content>)
    requires Prepared(ctx, def.edgeModes, adj) && Planned(ctx, def, adj).Ok?
    requires AllViable(ctx, faults, Planned(ctx, def, adj).value.diagnostic, tape)
    requires var endpoint := PlannedEndpoint(id, def, Planned(ctx, def, adj).value);
      endpoint.Valid(ctx) && KeysAndViability(ctx, faults, endpoint, tape, viable, keys)
    ensures ImportanceEndpointSuccess(PlannedEndpoint(id, def, Planned(ctx, def, adj).value), world, viable, keys)
        <==> GraphHolds(ctx, def, adj, world)
  {
    ExecutionIsReachability(ctx, faults, id, def, adj, world, tape);
    ShortcutIsExecution(ctx, faults, PlannedEndpoint(id, def, Planned(ctx, def, adj).value), world, tape, viable, keys);
  }
}
