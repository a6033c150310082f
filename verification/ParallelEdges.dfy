/**
 Parallel edges between services: exactly when the documented meaning of an edge-aware endpoint is what it decides.
 */
module ParallelEdges {
  import opened Wrappers
  import opened Ids
  import opened Topology
  import opened Execution
  import opened Adjacency
  import opened TargetPaths
  import opened Reachability
  import opened EdgeAware
  import opened EdgeAwareMeaning
  import opened EdgeAwareEndpoints
  import opened Endpoints
  import opened Predicates
  import opened Draws

  type Tapes = Content -> Stream

  // ----- the documented meaning: any live allowed edge will do

  ghost predicate DocumentedCall(ctx: Context, adj: Graph, world: World, entry: Id, call: Id) {
    && call in ctx.edges
    && Up(world.edgeAlive, call)
    && Up(world.serviceAlive, ctx.edges[call].from) && Up(world.serviceAlive, ctx.edges[call].to)
    && Reachable(SomeLink(adj, world), world, entry, ctx.edges[call].from)
  }

  ghost predicate DocumentedHolds(ctx: Context, def: Definition, adj: Graph, world: World) {
    && (forall t | t in def.mandatoryTargets :: Reachable(SomeLink(adj, world), world, def.entryService, t))
    && (forall e | e in def.requiredEdges :: DocumentedCall(ctx, adj, world, def.entryService, e))
  }

  /** A service the endpoint must reach: a mandatory target or the caller of a required call. */
  ghost predicate Wanted(ctx: Context, def: Definition, id: Id) {
    id in def.mandatoryTargets || exists e | e in def.requiredEdges :: e in ctx.edges && ctx.edges[e].from == id
  }

  ghost predicate EdgesKnown(ctx: Context, def: Definition) {
    forall e | e in def.requiredEdges :: e in ctx.edges
  }

  // ----- the condition

  predicate Leaves(inside: set<Id>, from: Id, to: Id) {
    from in inside && to !in inside
  }

  /** The edge is the least allowed one of its hop, and the hop leaves the set. */
  predicate CutEdge(ctx: Context, adj: Graph, inside: set<Id>, e: Id) {
    && e in ctx.edges && Leaves(inside, ctx.edges[e].from, ctx.edges[e].to)
    && HopEdge(adj, ctx.edges[e].from, ctx.edges[e].to) == Some(e)
  }

  /** The hop exists, and has a second allowed edge if it leaves the set. */
  ghost predicate HopAround(adj: Graph, inside: set<Id>, from: Id, to: Id) {
    HasStep(adj, from, to) && (Leaves(inside, from, to) ==> !SingleEdge(adj, from, to))
  }

  ghost function AroundLink(adj: Graph, inside: set<Id>): Link {
    (from, to) => HopAround(adj, inside, from, to)
  }

  /**
   A set of services that holds the entry but not all that is wanted, such that no required call is the least edge of
   a hop leaving it, and everything wanted can be reached leaving the set only by hops with parallel edges.
   */
  ghost predicate ParallelCut(ctx: Context, def: Definition, adj: Graph, inside: set<Id>) {
    && def.entryService in inside
    && (exists id | Wanted(ctx, def, id) :: id !in inside)
    && (forall e | e in def.requiredEdges :: !CutEdge(ctx, adj, inside, e))
    && (forall id | Wanted(ctx, def, id) :: Reachable(AroundLink(adj, inside), AllUp(ctx), def.entryService, id))
  }

  // ----- edge IDs in an adjacency belong to one hop

  function EndsOf(ctx: Context): Ends {
    e => if e in ctx.edges then (ctx.edges[e].from, ctx.edges[e].to) else ("", "")
  }

  /** The adjacency of a valid graph is sorted and lists every edge under its own two services only. */
  lemma AdjacencyApart(ctx: Context, modes: seq<EdgeMode>, adj: Graph)
    requires ctx.Valid() && IsAdjacency(ctx, modes, adj)
    ensures SortedGraph(adj) && EdgesApart(adj, EndsOf(ctx))
  {
    AdjacencyMeaning(ctx, modes, adj);
    forall from, step: Step | step in Steps(adj, from)
      ensures EndsOf(ctx)(step.edgeID) == (from, step.to)
    {
      assert IsStep(ctx, modes, from, step);
    }
  }

  /** What the proofs below use of an adjacency: sorted lists of known edges between known services. */
  ghost predicate Known(ctx: Context, adj: Graph) {
    && SortedGraph(adj)
    && (forall from, step: Step | step in Steps(adj, from) ::
          && step.edgeID in ctx.edges && ctx.edges[step.edgeID].from == from && ctx.edges[step.edgeID].to == step.to
          && from in ctx.services && step.to in ctx.services)
  }

  lemma AdjacencyKnown(ctx: Context, modes: seq<EdgeMode>, adj: Graph)
    requires ctx.Valid() && IsAdjacency(ctx, modes, adj)
    ensures Known(ctx, adj)
  {
    AdjacencyMeaning(ctx, modes, adj);
    forall from, step: Step | step in Steps(adj, from)
      ensures && step.edgeID in ctx.edges && ctx.edges[step.edgeID].from == from && ctx.edges[step.edgeID].to == step.to
              && from in ctx.services && step.to in ctx.services
    {
      assert IsStep(ctx, modes, from, step);
    }
  }

  lemma LeastStep(ctx: Context, adj: Graph, from: Id, to: Id)
    requires Known(ctx, adj) && HasStep(adj, from, to)
    ensures var e := HopEdge(adj, from, to).value;
      e in ctx.edges && ctx.edges[e].from == from && ctx.edges[e].to == to && from in ctx.services && to in ctx.services
  {
    HasStepMeans(adj, from, to);
    assert Step(to, HopEdge(adj, from, to).value) in Steps(adj, from);
  }

  // ----- a cut separates the two meanings

  /** Everything is up but the least edges of the hops that leave the set. */
  function CutWorld(ctx: Context, adj: Graph, inside: set<Id>): World {
    World(map[], map id | id in ctx.services :: true, map e | e in ctx.edges :: !CutEdge(ctx, adj, inside, e))
  }

  lemma LeastStaysInside(ctx: Context, adj: Graph, inside: set<Id>, from: Id, to: Id)
    requires Known(ctx, adj) && from in inside && LeastEdgeUp(adj, CutWorld(ctx, adj, inside), from, to)
    ensures to in inside
  {
    LeastStep(ctx, adj, from, to);
  }

  lemma WalkStaysInside(ctx: Context, adj: Graph, inside: set<Id>, entry: Id, target: Id)
    requires Known(ctx, adj) && entry in inside
    requires Reachable(LeastLink(adj, CutWorld(ctx, adj, inside)), CutWorld(ctx, adj, inside), entry, target)
    ensures target in inside
  {
    var world := CutWorld(ctx, adj, inside);
    var t :| Walk(LeastLink(adj, world), world, entry, target, t);
    for q := 0 to |t| - 1
      invariant t[q] in inside
    {
      assert LeastLink(adj, world)(t[q], t[q + 1]);
      LeastStaysInside(ctx, adj, inside, t[q], t[q + 1]);
    }
  }

  lemma AroundIsSome(ctx: Context, adj: Graph, inside: set<Id>, from: Id, to: Id)
    requires Known(ctx, adj) && HopAround(adj, inside, from, to)
    ensures SomeEdgeUp(adj, CutWorld(ctx, adj, inside), from, to)
  {
    var steps := Steps(adj, from);
    var least := HopEdge(adj, from, to);
    HasStepMeans(adj, from, to);
    if Leaves(inside, from, to) {
      var i, j :| 0 <= i < j < |steps| && steps[i].to == to && steps[j].to == to && steps[i].edgeID != steps[j].edgeID;
      var k := if least == Some(steps[i].edgeID) then j else i;
      assert steps[k] in steps;
      assert !CutEdge(ctx, adj, inside, steps[k].edgeID);
      assert steps[k].to == to && Up(CutWorld(ctx, adj, inside).edgeAlive, steps[k].edgeID);
    } else {
      LeastStep(ctx, adj, from, to);
      var k :| 0 <= k < |steps| && steps[k] == Step(to, least.value);
      assert steps[k].to == to && Up(CutWorld(ctx, adj, inside).edgeAlive, steps[k].edgeID);
    }
  }

  lemma AroundReaches(ctx: Context, adj: Graph, inside: set<Id>, entry: Id, target: Id)
    requires Known(ctx, adj) && Reachable(AroundLink(adj, inside), AllUp(ctx), entry, target)
    ensures Reachable(SomeLink(adj, CutWorld(ctx, adj, inside)), CutWorld(ctx, adj, inside), entry, target)
  {
    var world := CutWorld(ctx, adj, inside);
    var t :| Walk(AroundLink(adj, inside), AllUp(ctx), entry, target, t);
    forall i | 0 <= i < |t| - 1
      ensures SomeLink(adj, world)(t[i], t[i + 1])
    {
      assert AroundLink(adj, inside)(t[i], t[i + 1]);
      AroundIsSome(ctx, adj, inside, t[i], t[i + 1]);
    }
    assert forall i | 0 <= i < |t| :: Up(AllUp(ctx).serviceAlive, t[i]) ==> Up(world.serviceAlive, t[i]);
    assert Walk(SomeLink(adj, world), world, entry, target, t);
  }

  ghost predicate AllReached(ctx: Context, def: Definition, adj: Graph, world: World) {
    forall id | Wanted(ctx, def, id) :: Reachable(SomeLink(adj, world), world, def.entryService, id)
  }

  lemma CutReachesAll(ctx: Context, def: Definition, adj: Graph, inside: set<Id>)
    requires Known(ctx, adj) && ParallelCut(ctx, def, adj, inside)
    ensures AllReached(ctx, def, adj, CutWorld(ctx, adj, inside))
  {
    forall id | Wanted(ctx, def, id)
      ensures Reachable(SomeLink(adj, CutWorld(ctx, adj, inside)), CutWorld(ctx, adj, inside), def.entryService, id)
    {
      AroundReaches(ctx, adj, inside, def.entryService, id);
    }
  }

  lemma CutDocumentedCall(ctx: Context, def: Definition, adj: Graph, inside: set<Id>, e: Id)
    requires ctx.Valid() && e in ctx.edges && e in def.requiredEdges && !CutEdge(ctx, adj, inside, e)
    requires AllReached(ctx, def, adj, CutWorld(ctx, adj, inside))
    ensures DocumentedCall(ctx, adj, CutWorld(ctx, adj, inside), def.entryService, e)
  {
    assert Wanted(ctx, def, ctx.edges[e].from);
  }

  lemma CutIsDocumented(ctx: Context, def: Definition, adj: Graph, inside: set<Id>)
    requires ctx.Valid() && Known(ctx, adj) && EdgesKnown(ctx, def) && ParallelCut(ctx, def, adj, inside)
    ensures DocumentedHolds(ctx, def, adj, CutWorld(ctx, adj, inside))
  {
    CutReachesAll(ctx, def, adj, inside);
    forall e | e in def.requiredEdges
      ensures DocumentedCall(ctx, adj, CutWorld(ctx, adj, inside), def.entryService, e)
    {
      CutDocumentedCall(ctx, def, adj, inside, e);
    }
  }

  lemma NotAllInside(ctx: Context, def: Definition, adj: Graph, inside: set<Id>)
    requires Known(ctx, adj) && EdgesKnown(ctx, def) && ParallelCut(ctx, def, adj, inside)
    ensures !GraphHolds(ctx, def, adj, CutWorld(ctx, adj, inside))
  {
    if GraphHolds(ctx, def, adj, CutWorld(ctx, adj, inside)) {
      var id :| Wanted(ctx, def, id) && id !in inside;
      if id !in def.mandatoryTargets {
        var e :| e in def.requiredEdges && e in ctx.edges && ctx.edges[e].from == id;
        assert CallLive(ctx, adj, CutWorld(ctx, adj, inside), def.entryService, e);
      }
      WalkStaysInside(ctx, adj, inside, def.entryService, id);
      assert false;
    }
  }

  // ----- and every world that separates them gives a cut

  ghost function LeastReached(ctx: Context, adj: Graph, world: World, entry: Id): set<Id> {
    set id | id in ctx.services && Reachable(LeastLink(adj, world), world, entry, id)
  }

  lemma LeastExtends(ctx: Context, adj: Graph, world: World, entry: Id, from: Id, to: Id)
    requires Known(ctx, adj) && from in LeastReached(ctx, adj, world, entry)
    requires LeastEdgeUp(adj, world, from, to) && Up(world.serviceAlive, to)
    ensures to in LeastReached(ctx, adj, world, entry)
  {
    LeastStep(ctx, adj, from, to);
    var t :| Walk(LeastLink(adj, world), world, entry, from, t);
    var s := t + [to];
    forall i | 0 <= i < |s| - 1
      ensures LeastLink(adj, world)(s[i], s[i + 1])
    {
      assert i < |t| - 1 ==> LeastLink(adj, world)(t[i], t[i + 1]);
    }
    assert Walk(LeastLink(adj, world), world, entry, to, s);
  }

  lemma EntryReached(ctx: Context, adj: Graph, world: World, entry: Id, target: Id)
    requires entry in ctx.services && Reachable(SomeLink(adj, world), world, entry, target)
    ensures entry in LeastReached(ctx, adj, world, entry)
  {
    var t :| Walk(SomeLink(adj, world), world, entry, target, t);
    assert Up(world.serviceAlive, t[0]);
    assert Walk(LeastLink(adj, world), world, entry, entry, [entry]);
  }

  lemma SomeIsAround(ctx: Context, adj: Graph, world: World, entry: Id, from: Id, to: Id)
    requires Known(ctx, adj) && SomeEdgeUp(adj, world, from, to) && Up(world.serviceAlive, to)
    ensures HopAround(adj, LeastReached(ctx, adj, world, entry), from, to) && to in ctx.services
  {
    var inside, steps := LeastReached(ctx, adj, world, entry), Steps(adj, from);
    HasStepMeans(adj, from, to);
    LeastStep(ctx, adj, from, to);
    if Leaves(inside, from, to) {
      var j :| 0 <= j < |steps| && steps[j].to == to && Up(world.edgeAlive, steps[j].edgeID);
      var least := HopEdge(adj, from, to).value;
      var k :| 0 <= k < |steps| && steps[k] == Step(to, least);
      if steps[j].edgeID == least {
        LeastExtends(ctx, adj, world, entry, from, to);
        assert false;
      }
      assert !SingleEdge(adj, from, to) by {
        assert j < k || k < j;
      }
    }
  }

  lemma SomeReachesAround(ctx: Context, adj: Graph, world: World, entry: Id, target: Id)
    requires Known(ctx, adj) && entry in ctx.services && Reachable(SomeLink(adj, world), world, entry, target)
    ensures Reachable(AroundLink(adj, LeastReached(ctx, adj, world, entry)), AllUp(ctx), entry, target)
  {
    var inside := LeastReached(ctx, adj, world, entry);
    var t :| Walk(SomeLink(adj, world), world, entry, target, t);
    forall i | 0 <= i < |t| - 1
      ensures AroundLink(adj, inside)(t[i], t[i + 1])
    {
      assert SomeLink(adj, world)(t[i], t[i + 1]);
      SomeIsAround(ctx, adj, world, entry, t[i], t[i + 1]);
    }
    forall i | 0 <= i < |t|
      ensures Up(AllUp(ctx).serviceAlive, t[i])
    {
      if i > 0 {
        var before := i - 1;
        assert SomeLink(adj, world)(t[before], t[before + 1]);
        SomeIsAround(ctx, adj, world, entry, t[before], t[before + 1]);
      }
    }
    assert Walk(AroundLink(adj, inside), AllUp(ctx), entry, target, t);
  }

  lemma CallIsNoCutEdge(ctx: Context, adj: Graph, world: World, entry: Id, e: Id)
    requires Known(ctx, adj) && DocumentedCall(ctx, adj, world, entry, e)
    ensures !CutEdge(ctx, adj, LeastReached(ctx, adj, world, entry), e)
  {
    if CutEdge(ctx, adj, LeastReached(ctx, adj, world, entry), e) {
      LeastExtends(ctx, adj, world, entry, ctx.edges[e].from, ctx.edges[e].to);
      assert false;
    }
  }

  lemma DocumentedReachesWanted(ctx: Context, def: Definition, adj: Graph, world: World, id: Id)
    requires DocumentedHolds(ctx, def, adj, world) && Wanted(ctx, def, id)
    ensures Reachable(SomeLink(adj, world), world, def.entryService, id)
  {
    if id !in def.mandatoryTargets {
      var e :| e in def.requiredEdges && e in ctx.edges && ctx.edges[e].from == id;
      assert DocumentedCall(ctx, adj, world, def.entryService, e);
    }
  }

  lemma MissedIsWanted(ctx: Context, def: Definition, adj: Graph, world: World) returns (id: Id)
    requires DocumentedHolds(ctx, def, adj, world) && !GraphHolds(ctx, def, adj, world)
    ensures Wanted(ctx, def, id) && !Reachable(LeastLink(adj, world), world, def.entryService, id)
  {
    if t :| t in def.mandatoryTargets && !Reachable(LeastLink(adj, world), world, def.entryService, t) {
      id := t;
    } else {
      var e :| e in def.requiredEdges && !CallLive(ctx, adj, world, def.entryService, e);
      assert DocumentedCall(ctx, adj, world, def.entryService, e);
      id := ctx.edges[e].from;
    }
  }

  lemma SeparationGivesCut(ctx: Context, def: Definition, adj: Graph, world: World)
    requires Known(ctx, adj) && def.entryService in ctx.services
    requires DocumentedHolds(ctx, def, adj, world) && !GraphHolds(ctx, def, adj, world)
    ensures ParallelCut(ctx, def, adj, LeastReached(ctx, adj, world, def.entryService))
  {
    var inside := LeastReached(ctx, adj, world, def.entryService);
    var missed := MissedIsWanted(ctx, def, adj, world);
    DocumentedReachesWanted(ctx, def, adj, world, missed);
    EntryReached(ctx, adj, world, def.entryService, missed);
    assert missed !in inside;
    forall e | e in def.requiredEdges
      ensures !CutEdge(ctx, adj, inside, e)
    {
      assert DocumentedCall(ctx, adj, world, def.entryService, e);
      CallIsNoCutEdge(ctx, adj, world, def.entryService, e);
    }
    forall id | Wanted(ctx, def, id)
      ensures Reachable(AroundLink(adj, inside), AllUp(ctx), def.entryService, id)
    {
      DocumentedReachesWanted(ctx, def, adj, world, id);
      SomeReachesAround(ctx, adj, world, def.entryService, id);
    }
  }

  /** What execution checks is never less than what is documented. */
  lemma GraphImpliesDocumented(ctx: Context, def: Definition, adj: Graph, world: World)
    requires SortedGraph(adj) && GraphHolds(ctx, def, adj, world)
    ensures DocumentedHolds(ctx, def, adj, world)
  {
    forall t | t in def.mandatoryTargets
      ensures Reachable(SomeLink(adj, world), world, def.entryService, t)
    {
      LeastImpliesSome(adj, world, def.entryService, t);
    }
    forall e | e in def.requiredEdges
      ensures DocumentedCall(ctx, adj, world, def.entryService, e)
    {
      assert CallLive(ctx, adj, world, def.entryService, e);
      LeastImpliesSome(adj, world, def.entryService, ctx.edges[e].from);
    }
  }

  // ----- whole endpoints

  ghost predicate MeaningsAgree(ctx: Context, def: Definition, adj: Graph, world: World) {
    GraphHolds(ctx, def, adj, world) <==> DocumentedHolds(ctx, def, adj, world)
  }

  lemma MeaningsAgreeExactly(ctx: Context, def: Definition, adj: Graph)
    requires ctx.Valid() && IsAdjacency(ctx, def.edgeModes, adj) && def.entryService in ctx.services
        && EdgesKnown(ctx, def)
    ensures (forall world :: MeaningsAgree(ctx, def, adj, world))
        <==> !exists inside :: ParallelCut(ctx, def, adj, inside)
  {
    AdjacencyKnown(ctx, def.edgeModes, adj);
    if inside :| ParallelCut(ctx, def, adj, inside) {
      CutIsDocumented(ctx, def, adj, inside);
      NotAllInside(ctx, def, adj, inside);
      assert !MeaningsAgree(ctx, def, adj, CutWorld(ctx, adj, inside));
    } else {
      forall world
        ensures MeaningsAgree(ctx, def, adj, world)
      {
        if GraphHolds(ctx, def, adj, world) {
          GraphImpliesDocumented(ctx, def, adj, world);
        } else if DocumentedHolds(ctx, def, adj, world) {
          SeparationGivesCut(ctx, def, adj, world);
          assert false;
        }
      }
    }
  }

  lemma PlannedKnown(ctx: Context, def: Definition, adj: Graph)
    requires Prepared(ctx, def.edgeModes, adj) && Planned(ctx, def, adj).Ok?
    ensures def.entryService in ctx.services && EdgesKnown(ctx, def)
  {
    FoundAreChains(ctx, def, adj);
    EverythingListed(ctx, def, adj);
  }

  /** Real execution of the planned endpoint in this world answers as documented. */
  ghost predicate AsDocumented(ctx: Context, faults: Faults, id: Id, def: Definition, adj: Graph, tape: Tapes,
      world: World)
    requires Prepared(ctx, def.edgeModes, adj) && Planned(ctx, def, adj).Ok?
    requires AllViable(ctx, faults, Planned(ctx, def, adj).value.diagnostic, tape)
  {
    var endpoint := PlannedEndpoint(id, def, Planned(ctx, def, adj).value);
    Outcome(endpoint, world, Executed(ctx, faults, endpoint.diagnostic, world, tape, |endpoint.diagnostic|))
    <==> DocumentedHolds(ctx, def, adj, world)
  }

  /**
   With every planned path viable, executing an edge-aware endpoint answers in every world as documented, reachability
   of all targets and callers through live allowed edges, exactly when no set of services cuts the entry from
   something wanted in such a way that it is left by parallel edges only.
   */
  lemma DocumentedExactly(ctx: Context, faults: Faults, id: Id, def: Definition, adj: Graph, tape: Tapes)
    requires Prepared(ctx, def.edgeModes, adj) && Planned(ctx, def, adj).Ok?
    requires AllViable(ctx, faults, Planned(ctx, def, adj).value.diagnostic, tape)
    ensures (forall world :: AsDocumented(ctx, faults, id, def, adj, tape, world))
        <==> !exists inside :: ParallelCut(ctx, def, adj, inside)
  {
    PlannedKnown(ctx, def, adj);
    MeaningsAgreeExactly(ctx, def, adj);
    forall world
      ensures AsDocumented(ctx, faults, id, def, adj, tape, world) <==> MeaningsAgree(ctx, def, adj, world)
    {
      ExecutionIsReachability(ctx, faults, id, def, adj, world, tape);
    }
  }
}
