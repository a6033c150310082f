/** Journeys as predicates and as executable paths, and why the two agree when nothing but services can fail. */
module JourneyPaths {
  import opened Wrappers
  import opened Ids
  import opened Sorting
  import opened Draws
  import opened Topology
  import opened Execution
  import opened Adjacency
  import opened Journeys
  import opened Predicates
  import EdgeAware
  import TargetPaths
  import Endpoints

  // ----- the legacy predicate of a list of journeys

  function AllOfJourney(journey: Journey): Definition {
    Definition(AllOf, journey, [], 0, "", [], [], [])
  }

  function AnyJourney(journeys: seq<Journey>): Definition {
    Definition(AnyOf, [], seq(|journeys|, i requires 0 <= i < |journeys| => AllOfJourney(journeys[i])), 0, "", [], [],
        [])
  }

  method JourneysToPredicate(paths: seq<Journey>) returns (def: Definition)
    ensures exists journeys :: Normalizes(journeys, paths) && def == AnyJourney(journeys)
  {
    var journeys := CloneAndNormalizeJourneys(paths);
    var children: seq<Definition> := [];
    for i := 0 to |journeys|
      invariant children == AnyJourney(journeys).children[..i]
    {
      children := children + [AllOfJourney(journeys[i])];
    }
    def := Definition(AnyOf, [], children, 0, "", [], [], []);
    assert def == AnyJourney(journeys);
  }

  // ----- neighbours and edges of the journeys

  /** The distinct targets of a list of steps, in order of first appearance. */
  function Targets(steps: seq<Step>, n: nat): seq<Id>
    requires n <= |steps|
  {
    if n == 0 then []
    else
      var before := Targets(steps, n - 1);
      if steps[n - 1].to in before then before else before + [steps[n - 1].to]
  }

  lemma {:induction false} TargetsMembers(steps: seq<Step>, n: nat, to: Id)
    requires n <= |steps|
    ensures to in Targets(steps, n) <==> exists i | 0 <= i < n :: steps[i].to == to
  {
    if n > 0 {
      TargetsMembers(steps, n - 1, to);
    }
  }

  ghost predicate IsNeighbours(adj: Graph, out: Neighbours) {
    forall from :: Next(out, from) == Sort(Leq, Targets(Steps(adj, from), |Steps(adj, from)|))
  }

  method CollectTargets(steps: seq<Step>) returns (targets: seq<Id>)
    ensures targets == Targets(steps, |steps|)
  {
    var seen := {};
    targets := [];
    for n := 0 to |steps|
      invariant targets == Targets(steps, n)
      invariant forall id :: id in seen <==> id in targets
    {
      if steps[n].to in seen {
        continue;
      }
      seen := seen + {steps[n].to};
      targets := targets + [steps[n].to];
    }
  }

  method ServiceAdjacency(adj: Graph) returns (out: Neighbours)
    ensures IsNeighbours(adj, out)
  {
    out := map[];
    var rest := adj.Keys;
    while rest != {}
      invariant rest <= adj.Keys && out.Keys == adj.Keys - rest
      invariant forall from | from in out :: out[from] == Sort(Leq, Targets(adj[from], |adj[from]|))
      decreases rest
    {
      var from :| from in rest;
      var targets := CollectTargets(adj[from]);
      out := out[from := Sort(Leq, targets)];
      rest := rest - {from};
    }
  }

  /** A neighbour is exactly the end of a hop that has an edge. */
  lemma NeighboursHaveEdges(adj: Graph, out: Neighbours, from: Id, to: Id)
    requires SortedGraph(adj) && IsNeighbours(adj, out)
    ensures to in Next(out, from) <==> HopEdge(adj, from, to).Some?
  {
    var steps := Steps(adj, from);
    EdgeAware.IdOrder();
    SortSorts(Leq, Targets(steps, |steps|));
    TargetsMembers(steps, |steps|, to);
    assert SortedBy(StepLeq, steps);
    FirstEdgeIsLeast(steps, |steps|, to);
  }

  function Hops(journey: Journey): nat {
    if journey == [] then 0 else |journey| - 1
  }

  /** The edges of the first `n` hops, if each has one. */
  function EdgesOf(adj: Graph, journey: Journey, n: nat): Option<seq<Id>>
    requires n <= Hops(journey)
  {
    if n == 0 then Some([])
    else
      var before := EdgesOf(adj, journey, n - 1);
      var edge := HopEdge(adj, journey[n - 1], journey[n]);
      if before.Some? && edge.Some? then Some(before.value + [edge.value]) else None
  }

  lemma {:induction false} EdgesOfHops(adj: Graph, journey: Journey, n: nat)
    requires n <= Hops(journey)
    ensures EdgesOf(adj, journey, n).Some? <==> forall i | 0 <= i < n :: HopEdge(adj, journey[i], journey[i + 1]).Some?
    ensures EdgesOf(adj, journey, n).Some? ==>
              && |EdgesOf(adj, journey, n).value| == n
              && forall i | 0 <= i < n :: HopEdge(adj, journey[i], journey[i + 1])
                  == Some(EdgesOf(adj, journey, n).value[i])
  {
    if n > 0 {
      EdgesOfHops(adj, journey, n - 1);
    }
  }

  ghost predicate Mappable(adj: Graph, journey: Journey) {
    EdgesOf(adj, journey, Hops(journey)).Some?
  }

  function PathOf(adj: Graph, journey: Journey): Path
    requires EdgesOf(adj, journey, Hops(journey)).Some?
  {
    Path(Join(journey), journey, EdgesOf(adj, journey, Hops(journey)).value)
  }

  /** The paths of the normalized journeys, one each and in order. */
  ghost predicate Mapped(adj: Graph, journeys: seq<Journey>, out: seq<Path>) {
    && |out| == |journeys|
    && forall i | 0 <= i < |journeys| :: Mappable(adj, journeys[i]) && out[i] == PathOf(adj, journeys[i])
  }

  ghost predicate Agrees(lookup: map<Id, map<Id, Id>>, adj: Graph) {
    forall from, to :: HopEdge(adj, from, to) == if from in lookup && to in lookup[from] then Some(lookup[from][to])
        else None
  }

  method MapJourney(adj: Graph, lookup: map<Id, map<Id, Id>>, services: Journey) returns (r: Result<Path>)
    requires Agrees(lookup, adj)
    ensures r.Ok? <==> Mappable(adj, services)
    ensures r.Ok? ==> r.value == PathOf(adj, services)
  {
    var edgeIDs: seq<Id> := [];
    EdgesOfHops(adj, services, Hops(services));
    for i := 0 to Hops(services)
      invariant EdgesOf(adj, services, i) == Some(edgeIDs)
    {
      var from, to := services[i], services[i + 1];
      assert HopEdge(adj, from, to) == if from in lookup && to in lookup[from] then Some(lookup[from][to]) else None;
      if from !in lookup || to !in lookup[from] {
        return Err("missing blocking sync edge");
      }
      edgeIDs := edgeIDs + [lookup[from][to]];
    }
    return Ok(Path(Join(services), services, edgeIDs));
  }

  method MapEach(journeys: seq<Journey>, adj: Graph, lookup: map<Id, map<Id, Id>>) returns (r: Result<seq<Path>>)
    requires Agrees(lookup, adj)
    ensures r.Ok? <==> forall i | 0 <= i < |journeys| :: Mappable(adj, journeys[i])
    ensures r.Ok? ==> Mapped(adj, journeys, r.value)
  {
    var out: seq<Path> := [];
    for i := 0 to |journeys|
      invariant |out| == i
      invariant forall j | 0 <= j < i :: Mappable(adj, journeys[j]) && out[j] == PathOf(adj, journeys[j])
    {
      var path := MapJourney(adj, lookup, journeys[i]);
      if path.Err? {
        return Err(path.error);
      }
      out := out + [path.value];
    }
    return Ok(out);
  }

  /** Mapping the normalized journeys: fails exactly when some journey uses a hop without an edge. */
  ghost predicate Maps(adj: Graph, journeys: seq<Journey>, r: Result<seq<Path>>) {
    && (r.Ok? <==> forall i | 0 <= i < |journeys| :: Mappable(adj, journeys[i]))
    && (r.Ok? ==> Mapped(adj, journeys, r.value))
  }

  method MapJourneyPaths(paths: seq<Journey>, adj: Graph, lookup: map<Id, map<Id, Id>>) returns (r: Result<seq<Path>>)
    requires Agrees(lookup, adj)
    ensures exists journeys :: Normalizes(journeys, paths) && Maps(adj, journeys, r)
  {
    var normalized := CloneAndNormalizeJourneys(paths);
    r := MapEach(normalized, adj, lookup);
    assert Normalizes(normalized, paths) && Maps(adj, normalized, r);
  }

  /** Journeys found over the neighbours of the same adjacency can always be mapped. */
  lemma DiscoveredMappable(adj: Graph, out: Neighbours, entry: Id, journey: Journey)
    requires SortedGraph(adj) && IsNeighbours(adj, out) && MaximalPath(out, entry, journey)
    ensures Mappable(adj, journey)
  {
    forall i | 0 <= i < |journey| - 1
      ensures HopEdge(adj, journey[i], journey[i + 1]).Some?
    {
      NeighboursHaveEdges(adj, out, journey[i], journey[i + 1]);
    }
    EdgesOfHops(adj, journey, Hops(journey));
  }

  /** A mapped path is named by its services, runs through the journey's services and takes the edge of every hop. */
  lemma MappedExactly(adj: Graph, journeys: seq<Journey>, out: seq<Path>, i: nat)
    requires Mapped(adj, journeys, out) && i < |journeys| && journeys[i] != []
    ensures out[i].services == journeys[i] && out[i].id == Join(journeys[i])
    ensures |out[i].edgeIDs| == |journeys[i]| - 1
    ensures forall k | 0 <= k < |out[i].edgeIDs| ::
              HopEdge(adj, journeys[i][k], journeys[i][k + 1]) == Some(out[i].edgeIDs[k])
  {
    assert Mappable(adj, journeys[i]);
    EdgesOfHops(adj, journeys[i], Hops(journeys[i]));
  }

  // ----- agreement of the predicate with path execution

  /** No brownout, no edge error and no timeout anywhere on the path. */
  predicate Undisturbed(ctx: Context, faults: Faults, path: Path)
    requires path.Shaped()
  {
    && (forall i | 0 <= i < |path.services| :: RateOf(faults.serviceErrorRates, path.services[i]) <= 0.0)
    && (forall i | 0 <= i < |path.edgeIDs| ::
          EdgeErrorRate(ctx, faults, path.edgeIDs[i]) <= 0.0 && !TimesOut(ctx, faults, path, i))
  }

  /** An undisturbed path whose parts are up succeeds at the first attempt of every hop, drawing nothing. */
  lemma {:induction false} UndisturbedSucceeds(ctx: Context, faults: Faults, path: Path, world: World, stream: Stream,
      i: nat, pos: nat)
    requires path.Shaped() && i < |path.services| && Undisturbed(ctx, faults, path) && PathUp(world, path)
    ensures ServiceRun(ctx, faults, path, world, stream, i, pos) == (true, pos)
    decreases |path.services| - i
  {
    if i < |path.edgeIDs| {
      UndisturbedSucceeds(ctx, faults, path, world, stream, i + 1, pos);
      var left := EffectiveAttempts(ctx.EdgeOf(path.edgeIDs[i]).resilience);
      assert Attempts(ctx, faults, path, world, stream, i, left, pos) == (true, pos);
    }
  }

  /** A path with undisturbed parts succeeds exactly when all its parts are up. */
  lemma UndisturbedIsUp(ctx: Context, faults: Faults, path: Path, world: World, stream: Stream)
    requires path.Shaped() && Undisturbed(ctx, faults, path)
    ensures Succeeds(ctx, faults, path, world, stream) <==> PathUp(world, path)
  {
    if PathUp(world, path) {
      UndisturbedSucceeds(ctx, faults, path, world, stream, 0, 0);
    }
    if Succeeds(ctx, faults, path, world, stream) {
      SuccessNeedsPartsUp(ctx, faults, path, world, stream, 0, 0);
    }
  }

  /**
   The legacy verdict and the path verdict are the same: with every edge of the journeys up and nothing degraded or
   timing out, the predicate of the journeys holds exactly when executing one of their paths succeeds.
   */
  lemma JourneyPredicateIsExecution(ctx: Context, faults: Faults, adj: Graph, journeys: seq<Journey>, paths: seq<Path>,
      world: World, tape: Path -> Stream)
    requires Mapped(adj, journeys, paths)
    requires forall i | 0 <= i < |paths| :: paths[i].Shaped() && Undisturbed(ctx, faults, paths[i])
    requires forall i, e | 0 <= i < |paths| && 0 <= e < |paths[i].edgeIDs| :: Up(world.edgeAlive, paths[i].edgeIDs[e])
    ensures Holds(AnyJourney(journeys), Endpoints.Liveness(world))
        <==> exists i | 0 <= i < |paths| :: Succeeds(ctx, faults, paths[i], world, tape(paths[i]))
  {
    var def, alive := AnyJourney(journeys), Endpoints.Liveness(world);
    forall i | 0 <= i < |paths|
      ensures Holds(def.children[i], alive) <==> Succeeds(ctx, faults, paths[i], world, tape(paths[i]))
    {
      assert Mappable(adj, journeys[i]) && paths[i] == PathOf(adj, journeys[i]);
      UndisturbedIsUp(ctx, faults, paths[i], world, tape(paths[i]));
      assert def.children[i] == AllOfJourney(journeys[i]);
      assert Holds(AllOfJourney(journeys[i]), alive) <==> forall j | 0 <= j < |journeys[i]| :: alive(journeys[i][j]);
    }
  }

  /** Normalizing journeys that are already normalized changes nothing, so both sides work on the discovered list. */
  lemma NormalizingTwice(once: seq<Journey>, twice: seq<Journey>)
    requires Ascending(once) && PlainJourneys(once) && Normalizes(twice, once)
    ensures twice == once
  {
    NormalizationKeepsSet(twice, once);
    NormalizedUnique(twice, once);
  }

  // ----- the legacy engine's own adjacency

  /** The targets of the blocking synchronous calls out of a service among the first `n` edges, repetitions included. */
  function CallsFrom(edges: seq<Edge>, n: nat, from: Id): seq<Id>
    requires n <= |edges|
  {
    if n == 0 then []
    else
      var edge := edges[n - 1];
      CallsFrom(edges, n - 1, from) + if IsCall(edge, from, edge.to) then [edge.to] else []
  }

  /** The lists of known services are sorted. */
  ghost predicate IsLegacyAdjacency(edges: seq<Edge>, serviceIDs: seq<Id>, adj: Neighbours) {
    forall from ::
      var calls := CallsFrom(edges, |edges|, from);
      Next(adj, from) == if from in serviceIDs then Sort(Leq, calls) else calls
  }

  function AppendTo(adj: Neighbours, from: Id, to: Id): (r: Neighbours)
    ensures forall id :: Next(r, id) == if id == from then Next(adj, from) + [to] else Next(adj, id)
  {
    adj[from := Next(adj, from) + [to]]
  }

  method CollectCalls(edges: seq<Edge>) returns (adj: Neighbours)
    ensures forall from :: Next(adj, from) == CallsFrom(edges, |edges|, from)
  {
    adj := map[];
    for n := 0 to |edges|
      invariant forall from :: Next(adj, from) == CallsFrom(edges, n, from)
    {
      if !edges[n].blocking || edges[n].kind.Async? {
        continue;
      }
      adj := AppendTo(adj, edges[n].from, edges[n].to);
    }
  }

  /** Sorting a list twice changes nothing. */
  lemma SortedOnce(calls: seq<Id>)
    ensures Sort(Leq, Sort(Leq, calls)) == Sort(Leq, calls)
  {
    EdgeAware.IdOrder();
    SortSorts(Leq, calls);
    SortIsIdentity(Sort(Leq, calls));
  }

  lemma {:induction false} SortIsIdentity(ids: seq<Id>)
    requires SortedBy(Leq, ids)
    ensures Sort(Leq, ids) == ids
  {
    if ids != [] {
      SortIsIdentity(ids[1..]);
      assert ids == [ids[0]] + ids[1..];
      if |ids| > 1 {
        assert Leq(ids[0], ids[1]);
      }
    }
  }

  method LegacyAdjacency(edges: seq<Edge>, serviceIDs: seq<Id>) returns (adj: Neighbours)
    ensures IsLegacyAdjacency(edges, serviceIDs, adj)
  {
    adj := CollectCalls(edges);
    for i := 0 to |serviceIDs|
      invariant forall from ::
                  var calls := CallsFrom(edges, |edges|, from);
                  Next(adj, from) == if from in serviceIDs[..i] then Sort(Leq, calls) else calls
    {
      assert serviceIDs[..i + 1] == serviceIDs[..i] + [serviceIDs[i]];
      SortedOnce(CallsFrom(edges, |edges|, serviceIDs[i]));
      if serviceIDs[i] in adj {
        adj := adj[serviceIDs[i] := Sort(Leq, adj[serviceIDs[i]])];
      }
    }
    assert serviceIDs[..|serviceIDs|] == serviceIDs;
  }

  /** The edges of the model, in any order, are those of the graph. */
  ghost predicate ModelEdges(ctx: Context, edges: seq<Edge>) {
    forall edge :: edge in edges <==> edge.id in ctx.edges && ctx.edges[edge.id] == edge
  }

  /** The edge is a blocking synchronous call between the two services. */
  predicate IsCall(edge: Edge, from: Id, to: Id) {
    edge.blocking && !edge.kind.Async? && edge.from == from && edge.to == to
  }

  lemma {:induction false} CallsMembers(edges: seq<Edge>, n: nat, from: Id, to: Id)
    requires n <= |edges|
    ensures to in CallsFrom(edges, n, from) <==> exists i | 0 <= i < n :: IsCall(edges[i], from, to)
  {
    if n > 0 {
      CallsMembers(edges, n - 1, from, to);
    }
  }

  /** Some edge of the graph is such a call. */
  ghost predicate Calls(ctx: Context, from: Id, to: Id) {
    exists id | id in ctx.edges :: IsCall(ctx.edges[id], from, to)
  }

  lemma ModelCalls(ctx: Context, edges: seq<Edge>, from: Id, to: Id)
    requires ctx.Valid() && ModelEdges(ctx, edges)
    ensures (exists i | 0 <= i < |edges| :: IsCall(edges[i], from, to)) <==> Calls(ctx, from, to)
  {
    if i :| 0 <= i < |edges| && IsCall(edges[i], from, to) {
      assert edges[i] in edges;
    }
    if Calls(ctx, from, to) {
      var id :| id in ctx.edges && IsCall(ctx.edges[id], from, to);
      assert ctx.edges[id].id == id;
      assert ctx.edges[id] in edges;
      var i :| 0 <= i < |edges| && edges[i] == ctx.edges[id];
    }
  }

  lemma LegacyNextMembers(edges: seq<Edge>, serviceIDs: seq<Id>, legacy: Neighbours, from: Id, to: Id)
    requires IsLegacyAdjacency(edges, serviceIDs, legacy)
    ensures to in Next(legacy, from) <==> exists i | 0 <= i < |edges| :: IsCall(edges[i], from, to)
  {
    EdgeAware.IdOrder();
    SortSorts(Leq, CallsFrom(edges, |edges|, from));
    CallsMembers(edges, |edges|, from, to);
  }

  lemma LegacyNextMeans(ctx: Context, edges: seq<Edge>, legacy: Neighbours, from: Id, to: Id)
    requires ctx.Valid() && ModelEdges(ctx, edges) && IsLegacyAdjacency(edges, ctx.serviceIDs, legacy)
    ensures to in Next(legacy, from) <==> Calls(ctx, from, to)
  {
    LegacyNextMembers(edges, ctx.serviceIDs, legacy, from, to);
    ModelCalls(ctx, edges, from, to);
  }

  lemma NextMeans(ctx: Context, adj: Graph, neighbours: Neighbours, from: Id, to: Id)
    requires ctx.Valid() && IsAdjacency(ctx, [SyncMode], adj) && IsNeighbours(adj, neighbours)
    ensures to in Next(neighbours, from) <==> Calls(ctx, from, to)
  {
    AdjacencyMeaning(ctx, [SyncMode], adj);
    var steps := Steps(adj, from);
    EdgeAware.IdOrder();
    SortSorts(Leq, Targets(steps, |steps|));
    TargetsMembers(steps, |steps|, to);
    if to in Targets(steps, |steps|) {
      var i :| 0 <= i < |steps| && steps[i].to == to;
      assert IsStep(ctx, [SyncMode], from, steps[i]);
    }
    if Calls(ctx, from, to) {
      var id :| id in ctx.edges && IsCall(ctx.edges[id], from, to);
      assert IsStep(ctx, [SyncMode], from, Step(to, id));
      assert Step(to, id) in steps;
    }
  }

  /** The two engines build the same neighbour sets: one lists parallel calls repeatedly, the other once. */
  lemma SameNeighbours(ctx: Context, edges: seq<Edge>, legacy: Neighbours, adj: Graph, neighbours: Neighbours)
    requires ctx.Valid() && ModelEdges(ctx, edges) && IsLegacyAdjacency(edges, ctx.serviceIDs, legacy)
    requires IsAdjacency(ctx, [SyncMode], adj) && IsNeighbours(adj, neighbours)
    ensures forall from, to :: to in Next(legacy, from) <==> to in Next(neighbours, from)
    ensures Closed(legacy, ctx.services.Keys) && Closed(neighbours, ctx.services.Keys)
  {
    forall from, to
      ensures to in Next(legacy, from) <==> to in Next(neighbours, from)
    {
      LegacyNextMeans(ctx, edges, legacy, from, to);
      NextMeans(ctx, adj, neighbours, from, to);
    }
    NeighboursClosed(ctx, [SyncMode], adj, neighbours);
    forall from, i | from in ctx.services.Keys && 0 <= i < |Next(legacy, from)|
      ensures Next(legacy, from)[i] in ctx.services.Keys
    {
      assert Next(legacy, from)[i] in Next(neighbours, from);
    }
  }

  /** The journeys each engine discovers from an entry, over its own adjacency, are the same list. */
  lemma SameJourneys(ctx: Context, edges: seq<Edge>, legacy: Neighbours, adj: Graph, neighbours: Neighbours, entry: Id,
      byLegacy: seq<Journey>, byPaths: seq<Journey>)
    requires ctx.Valid() && ModelEdges(ctx, edges) && IsLegacyAdjacency(edges, ctx.serviceIDs, legacy)
    requires IsAdjacency(ctx, [SyncMode], adj) && IsNeighbours(adj, neighbours)
    requires Closed(legacy, ctx.services.Keys) && Closed(neighbours, ctx.services.Keys)
    requires entry in ctx.services && forall id | id in ctx.services :: Plain(id)
    requires Normalizes(byLegacy, Raw(legacy, ctx.services.Keys, entry, {}, []))
    requires Normalizes(byPaths, Raw(neighbours, ctx.services.Keys, entry, {}, []))
    ensures byLegacy == byPaths
  {
    SameNeighbours(ctx, edges, legacy, adj, neighbours);
    JourneysIgnoreRepetition(legacy, neighbours, entry, ctx.services.Keys, byLegacy, byPaths);
  }

  /** What the path engine needs of the world and the faults for the legacy verdict to be its own. */
  ghost predicate OnlyServicesFail(ctx: Context, faults: Faults, paths: seq<Path>, world: World) {
    && (forall i | 0 <= i < |paths| :: paths[i].Shaped() && Undisturbed(ctx, faults, paths[i]))
    && (forall i, e | 0 <= i < |paths| && 0 <= e < |paths[i].edgeIDs| :: Up(world.edgeAlive, paths[i].edgeIDs[e]))
  }

  /**
   End to end, each engine over its own adjacency of one graph: the journeys of the path engine always map to paths, and
   the predicate the legacy engine builds from its journeys holds exactly when executing one of those paths succeeds.
   */
  lemma LegacyVerdictIsExecution(ctx: Context, faults: Faults, edges: seq<Edge>, legacy: Neighbours, adj: Graph,
      neighbours: Neighbours, entry: Id, byLegacy: seq<Journey>, byPaths: seq<Journey>, forPredicate: seq<Journey>,
      forPaths: seq<Journey>, paths: seq<Path>, world: World, tape: Path -> Stream)
    requires ctx.Valid() && ModelEdges(ctx, edges) && IsLegacyAdjacency(edges, ctx.serviceIDs, legacy)
    requires IsAdjacency(ctx, [SyncMode], adj) && IsNeighbours(adj, neighbours)
    requires Closed(legacy, ctx.services.Keys) && Closed(neighbours, ctx.services.Keys)
    requires entry in ctx.services && forall id | id in ctx.services :: Plain(id)
    requires Normalizes(byLegacy, Raw(legacy, ctx.services.Keys, entry, {}, [])) && Normalizes(forPredicate, byLegacy)
    requires Normalizes(byPaths, Raw(neighbours, ctx.services.Keys, entry, {}, [])) && Normalizes(forPaths, byPaths)
    ensures forall i | 0 <= i < |forPaths| :: Mappable(adj, forPaths[i])
    ensures Mapped(adj, forPaths, paths) && OnlyServicesFail(ctx, faults, paths, world) ==>
              (Holds(AnyJourney(forPredicate), Endpoints.Liveness(world))
               <==> exists i | 0 <= i < |paths| :: Succeeds(ctx, faults, paths[i], world, tape(paths[i])))
  {
    SameJourneys(ctx, edges, legacy, adj, neighbours, entry, byLegacy, byPaths);
    AdjacencyMeaning(ctx, [SyncMode], adj);
    JourneysExact(neighbours, entry, ctx.services.Keys, byPaths);
    DiscoveredArePlain(neighbours, ctx.services.Keys, entry, byPaths);
    NormalizingTwice(byPaths, forPredicate);
    NormalizingTwice(byPaths, forPaths);
    forall i | 0 <= i < |forPaths|
      ensures Mappable(adj, forPaths[i])
    {
      assert forPaths[i] in byPaths;
      DiscoveredMappable(adj, neighbours, entry, forPaths[i]);
    }
    if Mapped(adj, forPaths, paths) && OnlyServicesFail(ctx, faults, paths, world) {
      JourneyPredicateIsExecution(ctx, faults, adj, forPaths, paths, world, tape);
    }
  }

  // ----- building the paths of a journey endpoint

  lemma LookupAgrees(adj: Graph, lookup: map<Id, map<Id, Id>>)
    requires lookup.Keys == adj.Keys
    requires forall from, to | from in lookup ::
               HopEdge(adj, from, to) == if to in lookup[from] then Some(lookup[from][to]) else None
    ensures Agrees(lookup, adj)
  {
  }

  lemma HopIsStep(ctx: Context, modes: seq<EdgeMode>, adj: Graph, from: Id, to: Id)
    requires ctx.Valid() && IsAdjacency(ctx, modes, adj) && HopEdge(adj, from, to).Some?
    ensures HopEdge(adj, from, to).value in ctx.edges && from in ctx.services && to in ctx.services
  {
    AdjacencyMeaning(ctx, modes, adj);
    var steps := Steps(adj, from);
    assert SortedBy(StepLeq, steps);
    FirstEdgeIsLeast(steps, |steps|, to);
    assert Step(to, HopEdge(adj, from, to).value) in steps;
    assert IsStep(ctx, modes, from, Step(to, HopEdge(adj, from, to).value));
  }

  lemma NeighboursClosed(ctx: Context, modes: seq<EdgeMode>, adj: Graph, out: Neighbours)
    requires ctx.Valid() && IsAdjacency(ctx, modes, adj) && IsNeighbours(adj, out)
    ensures Closed(out, ctx.services.Keys)
  {
    AdjacencyMeaning(ctx, modes, adj);
    forall from, i | from in ctx.services.Keys && 0 <= i < |Next(out, from)|
      ensures Next(out, from)[i] in ctx.services.Keys
    {
      var to := Next(out, from)[i];
      assert to in Next(out, from);
      NeighboursHaveEdges(adj, out, from, to);
      HopIsStep(ctx, modes, adj, from, to);
    }
  }

  lemma MappedWithin(ctx: Context, modes: seq<EdgeMode>, adj: Graph, journey: Journey)
    requires ctx.Valid() && IsAdjacency(ctx, modes, adj) && journey != [] && Mappable(adj, journey)
    requires forall i | 0 <= i < |journey| :: journey[i] in ctx.services
    ensures PathOf(adj, journey).Within(ctx)
  {
    EdgesOfHops(adj, journey, Hops(journey));
    forall i | 0 <= i < |journey| - 1
      ensures PathOf(adj, journey).edgeIDs[i] in ctx.edges
    {
      HopIsStep(ctx, modes, adj, journey[i], journey[i + 1]);
    }
  }

  lemma MappedDistinct(adj: Graph, journeys: seq<Journey>, paths: seq<Path>)
    requires Ascending(journeys) && Mapped(adj, journeys, paths)
    ensures TargetPaths.DistinctIDs(paths)
  {
    forall i, j | 0 <= i < j < |paths|
      ensures paths[i].id != paths[j].id
    {
      assert Mappable(adj, journeys[i]) && Mappable(adj, journeys[j]);
      assert Less(Join(journeys[i]), Join(journeys[j]));
    }
  }

  /** What the mapped journeys of a built graph are worth: executable paths with distinct IDs. */
  lemma MappedAreGood(ctx: Context, modes: seq<EdgeMode>, adj: Graph, neighbours: Neighbours, entry: Id,
      journeys: seq<Journey>, paths: seq<Path>)
    requires ctx.Valid() && entry in ctx.services && IsAdjacency(ctx, modes, adj)
        && Closed(neighbours, ctx.services.Keys)
    requires Ascending(journeys) && Mapped(adj, journeys, paths)
    requires forall t :: t in journeys <==> MaximalPath(neighbours, entry, t)
    ensures TargetPaths.DistinctIDs(paths) && forall i | 0 <= i < |paths| :: paths[i].Within(ctx)
  {
    MappedDistinct(adj, journeys, paths);
    forall i | 0 <= i < |paths|
      ensures paths[i].Within(ctx)
    {
      assert Mappable(adj, journeys[i]) && journeys[i] in journeys;
      StaysInside(neighbours, ctx.services.Keys, journeys[i]);
      MappedWithin(ctx, modes, adj, journeys[i]);
    }
  }

  lemma DiscoveredArePlain(neighbours: Neighbours, nodes: set<Id>, entry: Id, journeys: seq<Journey>)
    requires Closed(neighbours, nodes) && entry in nodes && forall id | id in nodes :: Plain(id)
    requires forall t :: t in journeys <==> MaximalPath(neighbours, entry, t)
    ensures PlainJourneys(journeys)
  {
    forall i | 0 <= i < |journeys|
      ensures journeys[i] != [] && AllPlain(journeys[i])
    {
      assert journeys[i] in journeys;
      StaysInside(neighbours, nodes, journeys[i]);
    }
  }

  /**
   The paths of a journey endpoint without overrides: building them never fails, there is one path per maximal simple
   path over the blocking sync edges, and the endpoint is fit for running and importance analysis.
   */
  method DiscoverEndpointPaths(ctx: Context, entry: Id)
    returns (r: Result<seq<Path>>, ghost adj: Graph, ghost neighbours: Neighbours, ghost journeys: seq<Journey>)
    requires ctx.Valid() && entry in ctx.services && forall id | id in ctx.services :: Plain(id)
    ensures IsAdjacency(ctx, [SyncMode], adj) && IsNeighbours(adj, neighbours)
    ensures Ascending(journeys) && forall t :: t in journeys <==> MaximalPath(neighbours, entry, t)
    ensures r.Ok? && Mapped(adj, journeys, r.value)
    ensures TargetPaths.DistinctIDs(r.value) && forall i | 0 <= i < |r.value| :: r.value[i].Within(ctx)
  {
    var syncAdj := BuildEdgeAdjacency(ctx, [SyncMode]);
    AdjacencyMeaning(ctx, [SyncMode], syncAdj);
    var syncNeighbours := ServiceAdjacency(syncAdj);
    var lookup := EdgeLookup(syncAdj);
    LookupAgrees(syncAdj, lookup);
    NeighboursClosed(ctx, [SyncMode], syncAdj, syncNeighbours);
    ghost var nodes := ctx.services.Keys;
    var discovered := DiscoverJourneys(syncNeighbours, entry, nodes);
    JourneysExact(syncNeighbours, entry, nodes, discovered);
    DiscoveredArePlain(syncNeighbours, nodes, entry, discovered);
    r := MapJourneyPaths(discovered, syncAdj, lookup);
    adj, neighbours := syncAdj, syncNeighbours;
    journeys :| Normalizes(journeys, discovered) && Maps(adj, journeys, r);
    NormalizingTwice(discovered, journeys);
    forall i | 0 <= i < |journeys|
      ensures Mappable(adj, journeys[i])
    {
      assert journeys[i] in journeys;
      DiscoveredMappable(adj, neighbours, entry, journeys[i]);
    }
    MappedAreGood(ctx, [SyncMode], adj, neighbours, entry, journeys, r.value);
  }
}
