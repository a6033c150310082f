/** Which edges each edge mode selects, and what of an edge no plan depends on. */
module EdgeModes {
  import opened Wrappers
  import opened Ids
  import opened Topology
  import opened Predicates
  import opened Adjacency
  import opened TargetPaths
  import opened EdgeAware
  import opened EdgeAwareMeaning
  import Sorting

  /** The step is an edge of the graph between these two services. */
  ghost predicate Joins(ctx: Context, from: Id, step: Step) {
    step.edgeID in ctx.edges && ctx.edges[step.edgeID].from == from && ctx.edges[step.edgeID].to == step.to
  }

  lemma StepMeans(ctx: Context, modes: seq<EdgeMode>, adj: Graph, from: Id, step: Step)
    requires ctx.Valid() && IsAdjacency(ctx, modes, adj)
    ensures step in Steps(adj, from) <==> IsStep(ctx, modes, from, step)
  {
    AdjacencyMeaning(ctx, modes, adj);
  }

  /** Asynchronous mode selects exactly the asynchronous edges, blocking or not. */
  lemma AsyncSteps(ctx: Context, adj: Graph, from: Id, step: Step)
    requires ctx.Valid() && IsAdjacency(ctx, [AsyncMode], adj)
    ensures step in Steps(adj, from) <==> Joins(ctx, from, step) && ctx.edges[step.edgeID].kind.Async?
  {
    StepMeans(ctx, [AsyncMode], adj, from, step);
  }

  /** Synchronous mode selects exactly the synchronous edges that block. */
  lemma SyncSteps(ctx: Context, adj: Graph, from: Id, step: Step)
    requires ctx.Valid() && IsAdjacency(ctx, [SyncMode], adj)
    ensures step in Steps(adj, from)
        <==> Joins(ctx, from, step) && ctx.edges[step.edgeID].kind.Sync? && ctx.edges[step.edgeID].blocking
  {
    StepMeans(ctx, [SyncMode], adj, from, step);
  }

  /** Any selection of modes gives the union of what its modes give; the order and repetition of modes do not matter. */
  lemma ModesUnite(ctx: Context, modes: seq<EdgeMode>, adj: Graph, sync: Graph, async: Graph, from: Id, step: Step)
    requires ctx.Valid() && IsAdjacency(ctx, modes, adj)
    requires IsAdjacency(ctx, [SyncMode], sync) && IsAdjacency(ctx, [AsyncMode], async)
    ensures step in Steps(adj, from)
        <==> || (SyncMode in modes && step in Steps(sync, from))
             || (AsyncMode in modes && step in Steps(async, from))
  {
    StepMeans(ctx, modes, adj, from, step);
    SyncSteps(ctx, sync, from, step);
    AsyncSteps(ctx, async, from, step);
  }

  // ----- the blocking flag of asynchronous edges

  /** The two graphs differ at most in whether asynchronous edges block. */
  ghost predicate SameButAsyncBlocking(a: Context, b: Context) {
    && a.services == b.services && a.serviceIDs == b.serviceIDs && a.edgeIDs == b.edgeIDs
    && a.edges.Keys == b.edges.Keys
    && forall id | id in a.edges ::
         || a.edges[id] == b.edges[id]
         || (a.edges[id].kind.Async? && a.edges[id] == b.edges[id].(blocking := a.edges[id].blocking))
  }

  lemma {:induction false} SameStepsFrom(a: Context, b: Context, modes: seq<EdgeMode>, from: Id, n: nat)
    requires SameButAsyncBlocking(a, b) && n <= |a.edgeIDs|
    ensures StepsFrom(a, modes, from, n) == StepsFrom(b, modes, from, n)
  {
    if n > 0 {
      SameStepsFrom(a, b, modes, from, n - 1);
    }
  }

  lemma SameAdjacency(a: Context, b: Context, modes: seq<EdgeMode>, adj: Graph)
    requires SameButAsyncBlocking(a, b)
    ensures IsAdjacency(a, modes, adj) <==> IsAdjacency(b, modes, adj)
  {
    forall from
      ensures StepsFrom(a, modes, from, |a.edgeIDs|) == StepsFrom(b, modes, from, |b.edgeIDs|)
    {
      SameStepsFrom(a, b, modes, from, |a.edgeIDs|);
    }
  }

  lemma SameWithCall(a: Context, b: Context, adj: Graph, entry: Id, found: Found, plan: Plan, e: Id)
    requires SameButAsyncBlocking(a, b)
    ensures WithCall(a, adj, entry, found, plan, e) == WithCall(b, adj, entry, found, plan, e)
  {
  }

  lemma {:induction false} SameCallsPlan(a: Context, b: Context, adj: Graph, entry: Id, found: Found, plan: Plan,
      calls: seq<Id>, n: nat)
    requires n <= |calls|
    requires forall plan, e :: WithCall(a, adj, entry, found, plan, e) == WithCall(b, adj, entry, found, plan, e)
    ensures CallsPlan(a, adj, entry, found, plan, calls, n) == CallsPlan(b, adj, entry, found, plan, calls, n)
  {
    if n > 0 {
      SameCallsPlan(a, b, adj, entry, found, plan, calls, n - 1);
    }
  }

  lemma SameCalls(a: Context, b: Context, adj: Graph, entry: Id, found: Found, plan: Plan, calls: seq<Id>)
    requires SameButAsyncBlocking(a, b)
    ensures CallsPlan(a, adj, entry, found, plan, calls, |calls|)
         == CallsPlan(b, adj, entry, found, plan, calls, |calls|)
  {
    forall plan, e
      ensures WithCall(a, adj, entry, found, plan, e) == WithCall(b, adj, entry, found, plan, e)
    {
      SameWithCall(a, b, adj, entry, found, plan, e);
    }
    SameCallsPlan(a, b, adj, entry, found, plan, calls, |calls|);
  }

  lemma SamePlanned(a: Context, b: Context, def: Definition, adj: Graph)
    requires a.Valid() && b.Valid() && a.services == b.services && Closed(adj, a.services.Keys)
    requires forall entry, found, plan, calls: seq<Id> ::
               CallsPlan(a, adj, entry, found, plan, calls, |calls|)
               == CallsPlan(b, adj, entry, found, plan, calls, |calls|)
    ensures Planned(a, def, adj) == Planned(b, def, adj)
  {
  }

  /** Whether asynchronous edges block changes no adjacency and no plan. */
  lemma AsyncBlockingIrrelevant(a: Context, b: Context, def: Definition, adj: Graph)
    requires a.Valid() && b.Valid() && SameButAsyncBlocking(a, b)
    requires IsAdjacency(a, def.edgeModes, adj) && Closed(adj, a.services.Keys)
    ensures IsAdjacency(b, def.edgeModes, adj)
    ensures Planned(a, def, adj) == Planned(b, def, adj)
  {
    SameAdjacency(a, b, def.edgeModes, adj);
    forall entry, found, plan, calls: seq<Id>
      ensures CallsPlan(a, adj, entry, found, plan, calls, |calls|)
           == CallsPlan(b, adj, entry, found, plan, calls, |calls|)
    {
      SameCalls(a, b, adj, entry, found, plan, calls);
    }
    SamePlanned(a, b, def, adj);
  }

  /** A required call is planned, or refused as excluded, by its kind and flag alone. */
  lemma CallExcludedExactly(ctx: Context, modes: seq<EdgeMode>, adj: Graph, entry: Id, found: Found, plan: Plan, e: Id)
    requires ctx.Valid() && IsAdjacency(ctx, modes, adj)
    ensures WithCall(ctx, adj, entry, found, plan, e).Ok?
        <==> && e in ctx.edges
             && (|| (ctx.edges[e].kind.Async? && AsyncMode in modes)
                 || (ctx.edges[e].kind.Sync? && ctx.edges[e].blocking && SyncMode in modes))
             && (ctx.edges[e].from == entry || found(ctx.edges[e].from) != [])
  {
    if e in ctx.edges {
      var edge := ctx.edges[e];
      var steps := Steps(adj, edge.from);
      StepMeans(ctx, modes, adj, edge.from, Step(edge.to, e));
      if i :| 0 <= i < |steps| && steps[i].edgeID == e {
        StepMeans(ctx, modes, adj, edge.from, steps[i]);
      }
      if Step(edge.to, e) in steps {
        var i :| 0 <= i < |steps| && steps[i] == Step(edge.to, e);
      }
    }
  }
}
