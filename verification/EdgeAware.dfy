/** Edge-aware endpoints: the groups of paths that must each deliver one success, and what their conjunction means. */
module EdgeAware {
  import opened Wrappers
  import opened Ids
  import opened Sorting
  import opened Topology
  import opened Predicates
  import opened Adjacency
  import opened TargetPaths
  import opened Reachability

  const REQUIRED_EDGE := "required-edge:"

  function TargetKey(target: Id): string { target }

  function SourceKey(edgeID: Id): string { "\0required-source:" + edgeID }

  function CallKey(edgeID: Id): string { "\0required-edge:" + edgeID }

  /** The one-hop path that stands for a required call. */
  function CallPath(edgeID: Id, edge: Edge): Path {
    Path(REQUIRED_EDGE + edgeID, [edge.from, edge.to], [edgeID])
  }

  // ----- sorted unique ID lists

  function Compact(ids: seq<Id>): seq<Id> {
    if |ids| <= 1 then ids
    else if ids[0] == ids[1] then Compact(ids[1..])
    else [ids[0]] + Compact(ids[1..])
  }

  function SortedUnique(ids: seq<Id>): seq<Id> {
    Compact(Sort(Leq, ids))
  }

  lemma IdOrder()
    ensures TotalPreorder(Leq)
  {
    forall a: Id, b: Id
      ensures Leq(a, b) || Leq(b, a)
    {
      LeqTotal(a, b);
    }
    forall a: Id, b: Id, c: Id | Leq(a, b) && Leq(b, c)
      ensures Leq(a, c)
    {
      LeqTransitive(a, b, c);
    }
  }

  lemma {:induction false} CompactStrict(ids: seq<Id>)
    requires SortedBy(Leq, ids)
    ensures forall id :: id in Compact(ids) <==> id in ids
    ensures forall i, j | 0 <= i < j < |Compact(ids)| :: Less(Compact(ids)[i], Compact(ids)[j])
  {
    if |ids| > 1 {
      CompactStrict(ids[1..]);
      assert ids == [ids[0]] + ids[1..];
      var rest := Compact(ids[1..]);
      if ids[0] != ids[1] {
        forall j | 0 <= j < |rest|
          ensures Less(ids[0], rest[j])
        {
          assert rest[j] in ids[1..];
          var k :| 1 <= k < |ids| && ids[k] == rest[j];
          assert Leq(ids[0], ids[1]) && Leq(ids[1], ids[k]) by {
            LeqTotal(ids[1], ids[1]);
          }
          if ids[k] == ids[0] {
            LeqTotal(ids[0], ids[1]);
          }
          assert Leq(ids[0], ids[k]);
        }
      }
    }
  }

  lemma SortedUniqueMembers(ids: seq<Id>)
    ensures forall id :: id in SortedUnique(ids) <==> id in ids
    ensures forall i, j | 0 <= i < j < |SortedUnique(ids)| :: Less(SortedUnique(ids)[i], SortedUnique(ids)[j])
  {
    IdOrder();
    SortSorts(Leq, ids);
    CompactStrict(Sort(Leq, ids));
  }

  // ----- building the groups

  /** Path groups, the flat list of paths to execute, and the IDs the search-based ones have been listed under. */
  datatype Plan = Plan(groups: map<string, seq<Path>>, diagnostic: seq<Path>, seen: set<string>)

  /** Listing one path, unless a path of its ID has been listed. */
  function ListOne(plan: Plan, p: Path): Plan {
    if p.id in plan.seen then plan else plan.(diagnostic := plan.diagnostic + [p], seen := plan.seen + {p.id})
  }

  function List(plan: Plan, paths: seq<Path>): Plan
    decreases |paths|
  {
    if paths == [] then plan else List(ListOne(plan, paths[0]), paths[1..])
  }

  function WithGroup(plan: Plan, key: string, paths: seq<Path>): Plan {
    List(plan.(groups := plan.groups[key := paths]), paths)
  }

  /** The paths discovery finds from the entry, by target. */
  type Found = Id -> seq<Path>

  ghost function Finder(adj: Graph, entry: Id, nodes: set<Id>): Found
    requires Closed(adj, nodes) && entry in nodes
  {
    target => Discovered(adj, entry, target, nodes)
  }

  function TargetsPlan(found: Found, targets: seq<Id>, n: nat): Plan
    requires n <= |targets|
  {
    if n == 0 then Plan(map[], [], {})
    else WithGroup(TargetsPlan(found, targets, n - 1), TargetKey(targets[n - 1]), found(targets[n - 1]))
  }

  /** Adding one required call: its caller must be reachable, and the call itself is listed unconditionally. */
  function WithCall(ctx: Context, adj: Graph, entry: Id, found: Found, plan: Plan, edgeID: Id): Result<Plan> {
    if edgeID !in ctx.edges then Err("required edge is absent from the model")
    else
      var edge := ctx.edges[edgeID];
      if !(exists i | 0 <= i < |Steps(adj, edge.from)| :: Steps(adj, edge.from)[i].edgeID == edgeID)
          then Err("required edge is excluded by edge_modes")
      else
        var sources := found(edge.from);
        if edge.from != entry && sources == [] then Err("required edge has a source unreachable from the entry service")
        else
          var base := if edge.from != entry then WithGroup(plan, SourceKey(edgeID), sources) else plan;
          Ok(base.(groups := base.groups[CallKey(edgeID) := [CallPath(edgeID, edge)]],
              diagnostic := base.diagnostic + [CallPath(edgeID, edge)]))
  }

  function CallsPlan(ctx: Context, adj: Graph, entry: Id, found: Found, plan: Plan, calls: seq<Id>,
      n: nat): Result<Plan>
    requires n <= |calls|
  {
    if n == 0 then Ok(plan)
    else
      var before := CallsPlan(ctx, adj, entry, found, plan, calls, n - 1);
      if before.Err? then before else WithCall(ctx, adj, entry, found, before.value, calls[n - 1])
  }

  /** White space as `unicode.IsSpace` has it, by code point. */
  predicate IsSpace(c: char) {
    var n := c as int;
    || 0x09 <= n <= 0x0D || n == 0x20 || n == 0x85 || n == 0xA0 || n == 0x1680 || 0x2000 <= n <= 0x200A
    || n == 0x2028 || n == 0x2029 || n == 0x202F || n == 0x205F || n == 0x3000
  }

  /** `strings.TrimSpace(id) == ""`. */
  predicate Blank(id: Id) {
    forall i | 0 <= i < |id| :: IsSpace(id[i])
  }

  predicate AnyBlank(ids: seq<Id>) {
    exists i | 0 <= i < |ids| :: Blank(ids[i])
  }

  predicate DefinitionValid(def: Definition) {
    && def.kind == Kind.EdgeAware && def.mandatoryTargets != [] && def.edgeModes != []
    && def.services == [] && def.children == [] && def.k == 0
    && !Blank(def.entryService) && !AnyBlank(def.mandatoryTargets) && !AnyBlank(def.requiredEdges)
    && forall i, j | 0 <= i < j < |def.requiredEdges| :: def.requiredEdges[i] != def.requiredEdges[j]
  }

  predicate ServicesKnown(ctx: Context, def: Definition) {
    def.entryService in ctx.services && forall i | 0 <= i < |def.mandatoryTargets| ::
        def.mandatoryTargets[i] in ctx.services
  }

  /** The whole construction as a function of the adjacency the definition's modes select. */
  ghost function Planned(ctx: Context, def: Definition, adj: Graph): Result<Plan>
    requires ctx.Valid() && Closed(adj, ctx.services.Keys)
  {
    if !DefinitionValid(def) then Err("invalid predicate")
    else if !ServicesKnown(ctx, def) then Err("predicate references unknown service")
    else
      var found := Finder(adj, def.entryService, ctx.services.Keys);
      var targets, calls := SortedUnique(def.mandatoryTargets), SortedUnique(def.requiredEdges);
      var base := TargetsPlan(found, targets, |targets|);
      var full := CallsPlan(ctx, adj, def.entryService, found, base, calls, |calls|);
      if full.Err? then full else Ok(full.value.(diagnostic := Sort(PathLeq, full.value.diagnostic)))
  }

  method ListPaths(plan: Plan, paths: seq<Path>) returns (r: Plan)
    ensures r == List(plan, paths)
  {
    r := plan;
    for i := 0 to |paths|
      invariant List(r, paths[i..]) == List(plan, paths)
    {
      if paths[i].id in r.seen {
        continue;
      }
      r := r.(diagnostic := r.diagnostic + [paths[i]], seen := r.seen + {paths[i].id});
    }
  }

  method BuildEdgeAwarePaths(ctx: Context, def: Definition) returns (adj: Graph, r: Result<Plan>)
    requires ctx.Valid()
    ensures IsAdjacency(ctx, def.edgeModes, adj) && Closed(adj, ctx.services.Keys)
    ensures r == Planned(ctx, def, adj)
  {
    ghost var nodes := ctx.services.Keys;
    adj := BuildEdgeAdjacency(ctx, def.edgeModes);
    AdjacencyClosed(ctx, def.edgeModes, adj);
    if !DefinitionValid(def) {
      return adj, Err("invalid predicate");
    }
    if !ServicesKnown(ctx, def) {
      return adj, Err("predicate references unknown service");
    }
    var base := PlanTargets(adj, def.entryService, nodes, SortedUnique(def.mandatoryTargets));
    r := PlanCalls(ctx, adj, def.entryService, nodes, base, SortedUnique(def.requiredEdges));
    if r.Ok? {
      r := Ok(r.value.(diagnostic := Sort(PathLeq, r.value.diagnostic)));
    }
  }

  method PlanTargets(adj: Graph, entry: Id, ghost nodes: set<Id>, targets: seq<Id>) returns (plan: Plan)
    requires Closed(adj, nodes) && entry in nodes
    ensures plan == TargetsPlan(Finder(adj, entry, nodes), targets, |targets|)
  {
    plan := Plan(map[], [], {});
    for n := 0 to |targets|
      invariant plan == TargetsPlan(Finder(adj, entry, nodes), targets, n)
    {
      var paths := DiscoverJourneyPathsToTarget(adj, entry, targets[n], nodes);
      plan := ListPaths(plan.(groups := plan.groups[TargetKey(targets[n]) := paths]), paths);
    }
  }

  method PlanCalls(ctx: Context, adj: Graph, entry: Id, ghost nodes: set<Id>, base: Plan, calls: seq<Id>)
      returns (r: Result<Plan>)
    requires Closed(adj, nodes) && entry in nodes
    ensures r == CallsPlan(ctx, adj, entry, Finder(adj, entry, nodes), base, calls, |calls|)
  {
    ghost var found := Finder(adj, entry, nodes);
    r := Ok(base);
    for n := 0 to |calls|
      invariant r.Ok? && r == CallsPlan(ctx, adj, entry, found, base, calls, n)
    {
      r := AddCall(ctx, adj, entry, nodes, r.value, calls[n]);
      if r.Err? {
        CallsPlanFails(ctx, adj, entry, found, base, calls, n + 1);
        return;
      }
    }
  }

  method AddCall(ctx: Context, adj: Graph, entry: Id, ghost nodes: set<Id>, plan: Plan, edgeID: Id)
      returns (r: Result<Plan>)
    requires Closed(adj, nodes) && entry in nodes
    ensures r == WithCall(ctx, adj, entry, Finder(adj, entry, nodes), plan, edgeID)
  {
    if edgeID !in ctx.edges {
      return Err("required edge is absent from the model");
    }
    var edge := ctx.edges[edgeID];
    var steps := Steps(adj, edge.from);
    var allowed := false;
    for i := 0 to |steps|
      invariant allowed == exists j | 0 <= j < i :: steps[j].edgeID == edgeID
    {
      if steps[i].edgeID == edgeID {
        allowed := true;
        break;
      }
    }
    if !allowed {
      return Err("required edge is excluded by edge_modes");
    }
    var next := plan;
    if edge.from != entry {
      var sources := DiscoverJourneyPathsToTarget(adj, entry, edge.from, nodes);
      if sources == [] {
        return Err("required edge has a source unreachable from the entry service");
      }
      next := ListPaths(plan.(groups := plan.groups[SourceKey(edgeID) := sources]), sources);
    }
    return Ok(next.(groups := next.groups[CallKey(edgeID) := [CallPath(edgeID, edge)]],
        diagnostic := next.diagnostic + [CallPath(edgeID, edge)]));
  }

  lemma {:induction false} CallsPlanFails(ctx: Context, adj: Graph, entry: Id, found: Found, plan: Plan, calls: seq<Id>,
      n: nat)
    requires n <= |calls|
    requires CallsPlan(ctx, adj, entry, found, plan, calls, n).Err?
    ensures CallsPlan(ctx, adj, entry, found, plan, calls, |calls|) == CallsPlan(ctx, adj, entry, found, plan, calls, n)
    decreases |calls| - n
  {
    if n < |calls| {
      CallsPlanFails(ctx, adj, entry, found, plan, calls, n + 1);
    }
  }

  lemma AdjacencyClosed(ctx: Context, modes: seq<EdgeMode>, adj: Graph)
    requires ctx.Valid() && IsAdjacency(ctx, modes, adj)
    ensures Closed(adj, ctx.services.Keys)
  {
    AdjacencyMeaning(ctx, modes, adj);
    forall from, i | from in ctx.services && 0 <= i < |Steps(adj, from)|
      ensures Steps(adj, from)[i].to in ctx.services
    {
      assert IsStep(ctx, modes, from, Steps(adj, from)[i]);
    }
  }

  // ----- evaluating the groups

  /** Every group must contain a path that succeeded. */
  predicate EdgeAwareSuccess(groups: map<string, seq<Path>>, results: map<string, bool>) {
    && groups != map[]
    && forall key | key in groups :: exists i | 0 <= i < |groups[key]| :: Up(results, groups[key][i].id)
  }

  method EdgeAwareEndpointSuccess(groups: map<string, seq<Path>>, results: map<string, bool>) returns (ok: bool)
    ensures ok == EdgeAwareSuccess(groups, results)
  {
    if |groups| == 0 {
      return false;
    }
    var rest := groups.Keys;
    while rest != {}
      invariant rest <= groups.Keys
      invariant forall key | key in groups && key !in rest :: exists i | 0 <= i < |groups[key]| ::
          Up(results, groups[key][i].id)
      decreases rest
    {
      var key :| key in rest;
      var paths := groups[key];
      var targetReached := false;
      for i := 0 to |paths|
        invariant targetReached == exists j | 0 <= j < i :: Up(results, paths[j].id)
      {
        if Up(results, paths[i].id) {
          targetReached := true;
          break;
        }
      }
      if !targetReached {
        return false;
      }
      rest := rest - {key};
    }
    return true;
  }
}
