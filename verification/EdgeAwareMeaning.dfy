/** What the edge-aware plan guarantees: every grouped path is executed, and the conjunction is live reachability. */
module EdgeAwareMeaning {
  import opened Wrappers
  import opened Ids
  import opened Sorting
  import opened Topology
  import opened Predicates
  import opened Adjacency
  import opened TargetPaths
  import opened Reachability
  import opened EdgeAware

  /** A service ID that path names and group keys cannot confuse: no "->", no leading NUL, no required-call prefix. */
  ghost predicate Proper(id: Id) {
    Plain(id) && (id == "" || id[0] != '\0') && !(REQUIRED_EDGE <= id)
  }

  ghost predicate ProperServices(ctx: Context) {
    forall id | id in ctx.services :: Proper(id)
  }

  // ----- names never collide

  lemma ChainNameIsNotACall(services: seq<Id>)
    requires services != [] && AllPlain(services) && !(REQUIRED_EDGE <= services[0])
    ensures !(REQUIRED_EDGE <= Join(services))
  {
    if |services| > 1 {
      var head, rest := services[0], Join(services[1..]);
      FirstArrow(head, rest);
      var name := Join(services);
      assert name == head + "->" + rest;
      assert forall i | 0 <= i < |head| :: name[i] == head[i];
    }
  }

  lemma KeysApart(id: Id, e: Id, f: Id)
    requires Proper(id)
    ensures TargetKey(id) != SourceKey(e) && TargetKey(id) != CallKey(e) && SourceKey(e) != CallKey(f)
    ensures SourceKey(e) == SourceKey(f) ==> e == f
    ensures CallKey(e) == CallKey(f) ==> e == f
  {
    var s, c := "\0required-source:", "\0required-edge:";
    assert SourceKey(e)[0] == s[0] && CallKey(e)[0] == c[0];
    assert SourceKey(e)[10] == s[10] && CallKey(f)[10] == c[10];
    assert SourceKey(e)[|s|..] == e && SourceKey(f)[|s|..] == f;
    assert CallKey(e)[|c|..] == e && CallKey(f)[|c|..] == f;
  }

  lemma CallKeysApart(e: Id, f: Id)
    ensures SourceKey(e) != CallKey(f)
    ensures SourceKey(e) == SourceKey(f) ==> e == f
    ensures CallKey(e) == CallKey(f) ==> e == f
  {
    var plain := "";
    assert forall i :: !ArrowAt(plain, i);
    KeysApart(plain, e, f);
  }

  // ----- discovered paths stay within the graph

  ghost predicate Chain(ctx: Context, adj: Graph, p: Path) {
    && p.Within(ctx) && CanonicalPath(adj, p)
    && p.services != [] && (forall i | 0 <= i < |p.services| :: Proper(p.services[i]))
  }

  lemma {:induction false} WalkStays(adj: Graph, nodes: set<Id>, t: seq<Id>, i: nat)
    requires Closed(adj, nodes) && SortedGraph(adj) && i < |t| && t[0] in nodes
    requires forall k | 0 <= k < |t| - 1 :: HasStep(adj, t[k], t[k + 1])
    ensures t[i] in nodes
  {
    if i > 0 {
      WalkStays(adj, nodes, t, i - 1);
      assert HasStep(adj, t[i - 1], t[i]);
      HasStepMeans(adj, t[i - 1], t[i]);
    }
  }

  lemma DiscoveredIsChain(ctx: Context, modes: seq<EdgeMode>, adj: Graph, entry: Id, target: Id, p: Path)
    requires ctx.Valid() && ProperServices(ctx) && IsAdjacency(ctx, modes, adj) && Closed(adj, ctx.services.Keys)
    requires entry in ctx.services && p in Discovered(adj, entry, target, ctx.services.Keys)
    ensures Chain(ctx, adj, p)
  {
    AdjacencyMeaning(ctx, modes, adj);
    DiscoveryExact(adj, entry, target, ctx.services.Keys);
    var t := p.services;
    HopEdgesLength(adj, t);
    forall i | 0 <= i < |t|
      ensures t[i] in ctx.services
    {
      WalkStays(adj, ctx.services.Keys, t, i);
    }
    forall i | 0 <= i < |p.edgeIDs|
      ensures p.edgeIDs[i] in ctx.edges
    {
      HopEdgesAt(adj, t, i);
      assert HasStep(adj, t[i], t[i + 1]);
      HasStepMeans(adj, t[i], t[i + 1]);
      assert IsStep(ctx, modes, t[i], Step(t[i + 1], p.edgeIDs[i]));
    }
  }

  lemma SameChain(ctx: Context, adj: Graph, p: Path, q: Path)
    requires Chain(ctx, adj, p) && Chain(ctx, adj, q) && p.id == q.id
    ensures p == q
  {
    JoinInjective(p.services, q.services);
  }

  // ----- the listing invariant

  ghost predicate IsCall(ctx: Context, calls: set<Id>, p: Path) {
    exists e | e in calls && e in ctx.edges :: p == CallPath(e, ctx.edges[e])
  }

  /** Everything grouped is listed; a listed path is a chain seen by its ID or one of the calls; IDs are distinct. */
  ghost predicate Sound(ctx: Context, adj: Graph, plan: Plan, calls: set<Id>) {
    && (forall key, i | key in plan.groups && 0 <= i < |plan.groups[key]| :: plan.groups[key][i] in plan.diagnostic)
    && (forall p | p in plan.diagnostic :: (Chain(ctx, adj, p) && p.id in plan.seen) || IsCall(ctx, calls, p))
    && (forall id | id in plan.seen :: exists p | p in plan.diagnostic :: p.id == id && Chain(ctx, adj, p))
    && DistinctIDs(plan.diagnostic)
  }

  ghost predicate AllListed(paths: seq<Path>, diagnostic: seq<Path>) {
    forall p | p in paths :: p in diagnostic
  }

  lemma AppendDistinct(paths: seq<Path>, p: Path)
    requires DistinctIDs(paths) && forall q | q in paths :: q.id != p.id
    ensures DistinctIDs(paths + [p])
  {
    var all := paths + [p];
    forall i, j | 0 <= i < j < |all|
      ensures all[i].id != all[j].id
    {
      if j == |paths| {
        assert paths[i] in paths;
      }
    }
  }

  lemma ChainIsNoCall(ctx: Context, adj: Graph, calls: set<Id>, p: Path, q: Path)
    requires Chain(ctx, adj, p) && IsCall(ctx, calls, q)
    ensures p.id != q.id
  {
    ChainNameIsNotACall(p.services);
    var e :| e in calls && e in ctx.edges && q == CallPath(e, ctx.edges[e]);
    assert q.id[..|REQUIRED_EDGE|] == REQUIRED_EDGE;
  }

  lemma ListOneKeepsSound(ctx: Context, adj: Graph, plan: Plan, p: Path, calls: set<Id>)
    requires Sound(ctx, adj, plan, calls) && Chain(ctx, adj, p)
    ensures Sound(ctx, adj, ListOne(plan, p), calls) && p in ListOne(plan, p).diagnostic
  {
    if p.id in plan.seen {
      var q :| q in plan.diagnostic && q.id == p.id && Chain(ctx, adj, q);
      SameChain(ctx, adj, p, q);
    } else {
      var next := ListOne(plan, p);
      forall q | q in plan.diagnostic
        ensures q.id != p.id
      {
        if IsCall(ctx, calls, q) {
          ChainIsNoCall(ctx, adj, calls, p, q);
        }
      }
      AppendDistinct(plan.diagnostic, p);
      assert next.diagnostic[|plan.diagnostic|] == p;
      forall id | id in next.seen
        ensures exists q | q in next.diagnostic :: q.id == id && Chain(ctx, adj, q)
      {
        if id in plan.seen {
          var q :| q in plan.diagnostic && q.id == id && Chain(ctx, adj, q);
          assert q in next.diagnostic;
        } else {
          assert p in next.diagnostic;
        }
      }
    }
  }

  lemma {:induction false} ListKeepsSound(ctx: Context, adj: Graph, plan: Plan, paths: seq<Path>, calls: set<Id>)
    requires Sound(ctx, adj, plan, calls) && forall i | 0 <= i < |paths| :: Chain(ctx, adj, paths[i])
    ensures Sound(ctx, adj, List(plan, paths), calls)
    decreases |paths|
  {
    if paths != [] {
      ListOneKeepsSound(ctx, adj, plan, paths[0], calls);
      ListKeepsSound(ctx, adj, ListOne(plan, paths[0]), paths[1..], calls);
    }
  }

  lemma {:induction false} ListGrows(plan: Plan, paths: seq<Path>)
    ensures List(plan, paths).groups == plan.groups
    ensures AllListed(plan.diagnostic, List(plan, paths).diagnostic)
    decreases |paths|
  {
    if paths != [] {
      var next := ListOne(plan, paths[0]);
      ListGrows(next, paths[1..]);
      assert AllListed(plan.diagnostic, next.diagnostic);
    }
  }

  /** Listing chains lists every one of them, by itself or by the equal path already there. */
  lemma {:induction false} ListLists(ctx: Context, adj: Graph, plan: Plan, paths: seq<Path>, calls: set<Id>, i: nat)
    requires Sound(ctx, adj, plan, calls) && (forall j | 0 <= j < |paths| :: Chain(ctx, adj, paths[j])) && i < |paths|
    ensures paths[i] in List(plan, paths).diagnostic
    decreases |paths|
  {
    var next := ListOne(plan, paths[0]);
    ListOneKeepsSound(ctx, adj, plan, paths[0], calls);
    if i == 0 {
      ListGrows(next, paths[1..]);
    } else {
      ListLists(ctx, adj, next, paths[1..], calls, i - 1);
    }
  }

  lemma ListListsAll(ctx: Context, adj: Graph, plan: Plan, paths: seq<Path>, calls: set<Id>)
    requires Sound(ctx, adj, plan, calls) && forall j | 0 <= j < |paths| :: Chain(ctx, adj, paths[j])
    ensures AllListed(paths, List(plan, paths).diagnostic)
  {
    forall i | 0 <= i < |paths|
      ensures paths[i] in List(plan, paths).diagnostic
    {
      ListLists(ctx, adj, plan, paths, calls, i);
    }
  }

  lemma {:induction false} ListIgnoresGroups(plan: Plan, groups: map<string, seq<Path>>, paths: seq<Path>)
    ensures List(plan.(groups := groups), paths) == List(plan, paths).(groups := groups)
    decreases |paths|
  {
    if paths != [] {
      ListIgnoresGroups(ListOne(plan, paths[0]), groups, paths[1..]);
    }
  }

  lemma WithGroupKeepsSound(ctx: Context, adj: Graph, plan: Plan, key: string, paths: seq<Path>, calls: set<Id>)
    requires Sound(ctx, adj, plan, calls) && forall i | 0 <= i < |paths| :: Chain(ctx, adj, paths[i])
    ensures Sound(ctx, adj, WithGroup(plan, key, paths), calls)
    ensures WithGroup(plan, key, paths).groups == plan.groups[key := paths]
  {
    ListIgnoresGroups(plan, plan.groups[key := paths], paths);
    ListKeepsSound(ctx, adj, plan, paths, calls);
    ListGrows(plan, paths);
    ListListsAll(ctx, adj, plan, paths, calls);
  }

  lemma WithCallPathKeepsSound(ctx: Context, adj: Graph, plan: Plan, edgeID: Id, calls: set<Id>)
    requires Sound(ctx, adj, plan, calls) && edgeID in ctx.edges && edgeID !in calls
    ensures var path := CallPath(edgeID, ctx.edges[edgeID]);
      Sound(ctx, adj, plan.(groups := plan.groups[CallKey(edgeID) := [path]], diagnostic := plan.diagnostic + [path]),
          calls + {edgeID})
  {
    var path := CallPath(edgeID, ctx.edges[edgeID]);
    var next := plan.(groups := plan.groups[CallKey(edgeID) := [path]], diagnostic := plan.diagnostic + [path]);
    assert path.id[|REQUIRED_EDGE|..] == edgeID;
    forall q | q in plan.diagnostic
      ensures q.id != path.id
    {
      if IsCall(ctx, calls, q) {
        var e :| e in calls && e in ctx.edges && q == CallPath(e, ctx.edges[e]);
        assert q.id[|REQUIRED_EDGE|..] == e;
      } else {
        assert IsCall(ctx, {edgeID}, path);
        ChainIsNoCall(ctx, adj, {edgeID}, q, path);
      }
    }
    AppendDistinct(plan.diagnostic, path);
    assert next.diagnostic[|plan.diagnostic|] == path;
    forall p | p in next.diagnostic
      ensures (Chain(ctx, adj, p) && p.id in next.seen) || IsCall(ctx, calls + {edgeID}, p)
    {
      if p in plan.diagnostic && IsCall(ctx, calls, p) {
        var e :| e in calls && e in ctx.edges && p == CallPath(e, ctx.edges[e]);
        assert e in calls + {edgeID};
      }
    }
    forall id | id in next.seen
      ensures exists q | q in next.diagnostic :: q.id == id && Chain(ctx, adj, q)
    {
      var q :| q in plan.diagnostic && q.id == id && Chain(ctx, adj, q);
      assert q in next.diagnostic;
    }
  }

  // ----- every listed path of a finished plan

  /** What building needs of its inputs: a valid graph with proper names, and the adjacency of the selected modes. */
  ghost predicate Prepared(ctx: Context, modes: seq<EdgeMode>, adj: Graph) {
    ctx.Valid() && ProperServices(ctx) && IsAdjacency(ctx, modes, adj) && Closed(adj, ctx.services.Keys)
  }

  /** Whatever discovery returns is a chain of the graph. */
  ghost predicate OnlyChains(ctx: Context, adj: Graph, found: Found) {
    forall target, i | 0 <= i < |found(target)| :: Chain(ctx, adj, found(target)[i])
  }

  lemma {:induction false} TargetsPlanSound(ctx: Context, adj: Graph, found: Found, targets: seq<Id>, n: nat)
    requires OnlyChains(ctx, adj, found) && n <= |targets|
    ensures Sound(ctx, adj, TargetsPlan(found, targets, n), {})
  {
    if n > 0 {
      TargetsPlanSound(ctx, adj, found, targets, n - 1);
      WithGroupKeepsSound(ctx, adj, TargetsPlan(found, targets, n - 1), TargetKey(targets[n - 1]),
          found(targets[n - 1]), {});
    }
  }

  lemma WithCallSound(ctx: Context, adj: Graph, entry: Id, found: Found, plan: Plan, edgeID: Id, calls: set<Id>)
    requires OnlyChains(ctx, adj, found) && Sound(ctx, adj, plan, calls) && edgeID !in calls
    requires WithCall(ctx, adj, entry, found, plan, edgeID).Ok?
    ensures Sound(ctx, adj, WithCall(ctx, adj, entry, found, plan, edgeID).value, calls + {edgeID})
  {
    var edge := ctx.edges[edgeID];
    if edge.from != entry {
      WithGroupKeepsSound(ctx, adj, plan, SourceKey(edgeID), found(edge.from), calls);
      WithCallPathKeepsSound(ctx, adj, WithGroup(plan, SourceKey(edgeID), found(edge.from)), edgeID, calls);
    } else {
      WithCallPathKeepsSound(ctx, adj, plan, edgeID, calls);
    }
  }

  function First(calls: seq<Id>, n: nat): set<Id>
    requires n <= |calls|
  {
    if n == 0 then {} else First(calls, n - 1) + {calls[n - 1]}
  }

  lemma {:induction false} FirstMembers(calls: seq<Id>, n: nat, id: Id)
    requires n <= |calls|
    ensures id in First(calls, n) <==> exists j | 0 <= j < n :: calls[j] == id
  {
    if n > 0 {
      FirstMembers(calls, n - 1, id);
    }
  }

  lemma NotYetCalled(calls: seq<Id>, n: nat)
    requires 0 < n <= |calls| && Distinct(calls)
    ensures calls[n - 1] !in First(calls, n - 1)
  {
    FirstMembers(calls, n - 1, calls[n - 1]);
  }

  lemma {:induction false} CallsPlanSound(ctx: Context, adj: Graph, entry: Id, found: Found, plan: Plan, calls: seq<Id>,
      n: nat)
    requires OnlyChains(ctx, adj, found) && n <= |calls| && Distinct(calls)
    requires Sound(ctx, adj, plan, {}) && CallsPlan(ctx, adj, entry, found, plan, calls, n).Ok?
    ensures Sound(ctx, adj, CallsPlan(ctx, adj, entry, found, plan, calls, n).value, First(calls, n))
  {
    if n > 0 {
      CallsPlanSound(ctx, adj, entry, found, plan, calls, n - 1);
      NotYetCalled(calls, n);
      var before := CallsPlan(ctx, adj, entry, found, plan, calls, n - 1);
      WithCallSound(ctx, adj, entry, found, before.value, calls[n - 1], First(calls, n - 1));
      assert CallsPlan(ctx, adj, entry, found, plan, calls, n)
          == WithCall(ctx, adj, entry, found, before.value, calls[n - 1]);
      assert First(calls, n) == First(calls, n - 1) + {calls[n - 1]};
    }
  }

  lemma SoundAfterSorting(ctx: Context, adj: Graph, plan: Plan, calls: set<Id>)
    requires Sound(ctx, adj, plan, calls)
    ensures var sorted := Sort(PathLeq, plan.diagnostic);
      && (forall key, i | key in plan.groups && 0 <= i < |plan.groups[key]| :: plan.groups[key][i] in sorted)
      && (forall p | p in sorted :: Chain(ctx, adj, p) || IsCall(ctx, calls, p))
      && DistinctIDs(sorted)
  {
    PathOrder();
    SortSorts(PathLeq, plan.diagnostic);
    DistinctAfterSort(plan.diagnostic, Sort(PathLeq, plan.diagnostic));
  }

  lemma CallWithin(ctx: Context, calls: set<Id>, p: Path)
    requires ctx.Valid() && IsCall(ctx, calls, p)
    ensures p.Within(ctx)
  {
    var e :| e in calls && e in ctx.edges && p == CallPath(e, ctx.edges[e]);
    assert |p.services| == 2 && |p.edgeIDs| == 1;
  }

  /** The finished plan with its bookkeeping. */
  lemma PlanSound(ctx: Context, def: Definition, adj: Graph) returns (calls: set<Id>)
    requires ctx.Valid() && Closed(adj, ctx.services.Keys) && Planned(ctx, def, adj).Ok?
    requires OnlyChains(ctx, adj, Finder(adj, def.entryService, ctx.services.Keys))
    ensures var plan := Planned(ctx, def, adj).value;
      && (forall key, i | key in plan.groups && 0 <= i < |plan.groups[key]| :: plan.groups[key][i] in plan.diagnostic)
      && (forall p | p in plan.diagnostic :: Chain(ctx, adj, p) || IsCall(ctx, calls, p))
      && DistinctIDs(plan.diagnostic)
  {
    var found := Finder(adj, def.entryService, ctx.services.Keys);
    var targets, ids := SortedUnique(def.mandatoryTargets), SortedUnique(def.requiredEdges);
    SortedUniqueMembers(def.requiredEdges);
    assert Distinct(ids);
    var base := TargetsPlan(found, targets, |targets|);
    TargetsPlanSound(ctx, adj, found, targets, |targets|);
    CallsPlanSound(ctx, adj, def.entryService, found, base, ids, |ids|);
    calls := First(ids, |ids|);
    SoundAfterSorting(ctx, adj, CallsPlan(ctx, adj, def.entryService, found, base, ids, |ids|).value, calls);
  }

  lemma FoundAreChains(ctx: Context, def: Definition, adj: Graph)
    requires Prepared(ctx, def.edgeModes, adj) && def.entryService in ctx.services
    ensures OnlyChains(ctx, adj, Finder(adj, def.entryService, ctx.services.Keys))
  {
    var found := Finder(adj, def.entryService, ctx.services.Keys);
    forall target, i | 0 <= i < |found(target)|
      ensures Chain(ctx, adj, found(target)[i])
    {
      DiscoveredIsChain(ctx, def.edgeModes, adj, def.entryService, target, found(target)[i]);
    }
  }

  /**
   Every path an edge-aware group waits for is on the list of paths the engine executes, under its own ID, with the
   same services and edges; the list has no two paths of one ID and stays within the graph.
   */
  lemma PlanCoversGroups(ctx: Context, def: Definition, adj: Graph)
    requires Prepared(ctx, def.edgeModes, adj) && Planned(ctx, def, adj).Ok?
    ensures var plan := Planned(ctx, def, adj).value;
      && (forall key, i | key in plan.groups && 0 <= i < |plan.groups[key]| :: plan.groups[key][i] in plan.diagnostic)
      && (forall p | p in plan.diagnostic :: p.Within(ctx))
      && DistinctIDs(plan.diagnostic)
  {
    FoundAreChains(ctx, def, adj);
    var calls := PlanSound(ctx, def, adj);
    forall p | p in Planned(ctx, def, adj).value.diagnostic
      ensures p.Within(ctx)
    {
      if IsCall(ctx, calls, p) {
        CallWithin(ctx, calls, p);
      }
    }
  }

  // ----- what the groups demand

  /** Some path of the group succeeded. */
  predicate GroupMet(paths: seq<Path>, results: map<string, bool>) {
    exists i | 0 <= i < |paths| :: Up(results, paths[i].id)
  }

  predicate AllMet(groups: map<string, seq<Path>>, results: map<string, bool>) {
    forall key | key in groups :: GroupMet(groups[key], results)
  }

  lemma AddingAGroup(groups: map<string, seq<Path>>, key: string, paths: seq<Path>, results: map<string, bool>)
    requires key !in groups || groups[key] == paths
    ensures AllMet(groups[key := paths], results) <==> AllMet(groups, results) && GroupMet(paths, results)
  {
    var after := groups[key := paths];
    if AllMet(after, results) {
      assert GroupMet(after[key], results);
      forall k | k in groups
        ensures GroupMet(groups[k], results)
      {
        assert after[k] == groups[k];
      }
    }
  }

  lemma TargetsPlanGroups(found: Found, targets: seq<Id>, n: nat)
    requires 0 < n <= |targets|
    ensures TargetsPlan(found, targets, n).groups
         == TargetsPlan(found, targets, n - 1).groups[targets[n - 1] := found(targets[n - 1])]
  {
    var before := TargetsPlan(found, targets, n - 1);
    ListGrows(before.(groups := before.groups[TargetKey(targets[n - 1]) := found(targets[n - 1])]),
        found(targets[n - 1]));
  }

  lemma {:induction false} TargetsDemand(found: Found, targets: seq<Id>, n: nat, results: map<string, bool>)
    requires n <= |targets|
    ensures var groups := TargetsPlan(found, targets, n).groups;
      && (n > 0 ==> targets[n - 1] in groups)
      && (forall key | key in groups :: key in targets && groups[key] == found(key))
      && (AllMet(groups, results) <==> forall i | 0 <= i < n :: GroupMet(found(targets[i]), results))
  {
    if n > 0 {
      TargetsDemand(found, targets, n - 1, results);
      TargetsPlanGroups(found, targets, n);
      AddingAGroup(TargetsPlan(found, targets, n - 1).groups, targets[n - 1], found(targets[n - 1]), results);
    }
  }

  /** No group of a call outside `done` exists yet. */
  ghost predicate FreshFor(groups: map<string, seq<Path>>, done: set<Id>) {
    forall e | e !in done :: CallKey(e) !in groups && SourceKey(e) !in groups
  }

  /** The call's own path succeeded and, unless it leaves the entry itself, so did a path to its caller. */
  predicate CallMet(ctx: Context, entry: Id, found: Found, call: Id, results: map<string, bool>) {
    && call in ctx.edges
    && GroupMet([CallPath(call, ctx.edges[call])], results)
    && (ctx.edges[call].from != entry ==> GroupMet(found(ctx.edges[call].from), results))
  }

  lemma CallDemands(ctx: Context, adj: Graph, entry: Id, found: Found, plan: Plan, call: Id, done: set<Id>,
      results: map<string, bool>)
    requires call !in done && FreshFor(plan.groups, done)
    requires WithCall(ctx, adj, entry, found, plan, call).Ok?
    ensures var groups := WithCall(ctx, adj, entry, found, plan, call).value.groups;
      && FreshFor(groups, done + {call})
      && plan.groups.Keys <= groups.Keys
      && (AllMet(groups, results) <==> AllMet(plan.groups, results) && CallMet(ctx, entry, found, call, results))
  {
    var edge := ctx.edges[call];
    var sources := found(edge.from);
    var middle := if edge.from != entry then plan.groups[SourceKey(call) := sources] else plan.groups;
    ListGrows(plan.(groups := plan.groups[SourceKey(call) := sources]), sources);
    CallKeysApart(call, call);
    AddingAGroup(plan.groups, SourceKey(call), sources, results);
    AddingAGroup(middle, CallKey(call), [CallPath(call, edge)], results);
    forall e | e !in done + {call}
      ensures CallKey(e) !in middle[CallKey(call) := [CallPath(call, edge)]]
      ensures SourceKey(e) !in middle[CallKey(call) := [CallPath(call, edge)]]
    {
      CallKeysApart(e, call);
      CallKeysApart(call, e);
    }
  }

  predicate CallsMet(ctx: Context, entry: Id, found: Found, calls: seq<Id>, n: nat, results: map<string, bool>)
    requires n <= |calls|
  {
    n == 0 || (CallsMet(ctx, entry, found, calls, n - 1, results) && CallMet(ctx, entry, found, calls[n - 1], results))
  }

  lemma {:induction false} CallsMetEach(ctx: Context, entry: Id, found: Found, calls: seq<Id>, n: nat,
      results: map<string, bool>)
    requires n <= |calls|
    ensures CallsMet(ctx, entry, found, calls, n, results)
        <==> forall j | 0 <= j < n :: CallMet(ctx, entry, found, calls[j], results)
  {
    if n > 0 {
      CallsMetEach(ctx, entry, found, calls, n - 1, results);
    }
  }

  lemma {:induction false} CallsDemand(ctx: Context, adj: Graph, entry: Id, found: Found, plan: Plan, calls: seq<Id>,
      n: nat, results: map<string, bool>)
    requires n <= |calls| && Distinct(calls) && FreshFor(plan.groups, {})
    requires CallsPlan(ctx, adj, entry, found, plan, calls, n).Ok?
    ensures var groups := CallsPlan(ctx, adj, entry, found, plan, calls, n).value.groups;
      && FreshFor(groups, First(calls, n))
      && plan.groups.Keys <= groups.Keys
      && (AllMet(groups, results) <==> AllMet(plan.groups, results) && CallsMet(ctx, entry, found, calls, n, results))
  {
    if n > 0 {
      CallsDemand(ctx, adj, entry, found, plan, calls, n - 1, results);
      FirstMembers(calls, n - 1, calls[n - 1]);
      CallDemands(ctx, adj, entry, found, CallsPlan(ctx, adj, entry, found, plan, calls, n - 1).value, calls[n - 1],
                  First(calls, n - 1), results);
    }
  }

  lemma PlanDemands(ctx: Context, adj: Graph, entry: Id, found: Found, targets: seq<Id>, calls: seq<Id>,
      results: map<string, bool>)
    requires targets != [] && (forall i | 0 <= i < |targets| :: Proper(targets[i])) && Distinct(calls)
    requires CallsPlan(ctx, adj, entry, found, TargetsPlan(found, targets, |targets|), calls, |calls|).Ok?
    ensures var groups := CallsPlan(ctx, adj, entry, found, TargetsPlan(found, targets, |targets|), calls,
        |calls|).value.groups;
      EdgeAwareSuccess(groups, results)
      <==> (forall i | 0 <= i < |targets| :: GroupMet(found(targets[i]), results))
           && (forall j | 0 <= j < |calls| :: CallMet(ctx, entry, found, calls[j], results))
  {
    var base := TargetsPlan(found, targets, |targets|);
    TargetsDemand(found, targets, |targets|, results);
    forall e
      ensures CallKey(e) !in base.groups && SourceKey(e) !in base.groups
    {
      forall key | key in base.groups
        ensures key != CallKey(e) && key != SourceKey(e)
      {
        KeysApart(key, e, e);
      }
    }
    CallsDemand(ctx, adj, entry, found, base, calls, |calls|, results);
    CallsMetEach(ctx, entry, found, calls, |calls|, results);
    var groups := CallsPlan(ctx, adj, entry, found, base, calls, |calls|).value.groups;
    assert targets[|targets| - 1] in groups;
    SuccessIsAllMet(groups, results);
  }

  /**
   The conjunction the engine evaluates, unfolded: every target's paths, and every required call with its caller's
   paths.
   */
  lemma GroupsDemand(ctx: Context, def: Definition, adj: Graph, results: map<string, bool>)
    requires ctx.Valid() && ProperServices(ctx) && Closed(adj, ctx.services.Keys) && Planned(ctx, def, adj).Ok?
    ensures var found := Finder(adj, def.entryService, ctx.services.Keys);
      EdgeAwareSuccess(Planned(ctx, def, adj).value.groups, results)
      <==> (forall t | t in def.mandatoryTargets :: GroupMet(found(t), results))
           && (forall e | e in def.requiredEdges :: CallMet(ctx, def.entryService, found, e, results))
  {
    var found := Finder(adj, def.entryService, ctx.services.Keys);
    var targets, calls := SortedUnique(def.mandatoryTargets), SortedUnique(def.requiredEdges);
    SortedUniqueMembers(def.mandatoryTargets);
    SortedUniqueMembers(def.requiredEdges);
    assert def.mandatoryTargets[0] in targets;
    forall i | 0 <= i < |targets|
      ensures Proper(targets[i])
    {
      assert targets[i] in def.mandatoryTargets;
    }
    PlanDemands(ctx, adj, def.entryService, found, targets, calls, results);
    SameForMembers(targets, def.mandatoryTargets, t => GroupMet(found(t), results));
    SameForMembers(calls, def.requiredEdges, e => CallMet(ctx, def.entryService, found, e, results));
  }

  lemma SameForMembers(a: seq<Id>, b: seq<Id>, p: Id -> bool)
    requires forall id :: id in a <==> id in b
    ensures (forall i | 0 <= i < |a| :: p(a[i])) <==> (forall id | id in b :: p(id))
  {
    if forall i | 0 <= i < |a| :: p(a[i]) {
      forall id | id in b
        ensures p(id)
      {
        assert id in a;
      }
    }
  }

  lemma SuccessIsAllMet(groups: map<string, seq<Path>>, results: map<string, bool>)
    ensures EdgeAwareSuccess(groups, results) <==> groups != map[] && AllMet(groups, results)
  {
  }

  // ----- everything demanded is listed

  lemma GroupListed(ctx: Context, adj: Graph, plan: Plan, key: string, paths: seq<Path>, calls: set<Id>)
    requires Sound(ctx, adj, plan, calls) && forall i | 0 <= i < |paths| :: Chain(ctx, adj, paths[i])
    ensures AllListed(plan.diagnostic, WithGroup(plan, key, paths).diagnostic)
    ensures AllListed(paths, WithGroup(plan, key, paths).diagnostic)
  {
    ListIgnoresGroups(plan, plan.groups[key := paths], paths);
    ListGrows(plan, paths);
    ListListsAll(ctx, adj, plan, paths, calls);
  }

  lemma TargetStep(ctx: Context, adj: Graph, found: Found, targets: seq<Id>, n: nat)
    requires OnlyChains(ctx, adj, found) && 0 < n <= |targets|
    ensures AllListed(found(targets[n - 1]), TargetsPlan(found, targets, n).diagnostic)
    ensures AllListed(TargetsPlan(found, targets, n - 1).diagnostic, TargetsPlan(found, targets, n).diagnostic)
  {
    TargetsPlanSound(ctx, adj, found, targets, n - 1);
    GroupListed(ctx, adj, TargetsPlan(found, targets, n - 1), TargetKey(targets[n - 1]), found(targets[n - 1]), {});
  }

  lemma {:induction false} TargetListed(ctx: Context, adj: Graph, found: Found, targets: seq<Id>, n: nat, i: nat)
    requires OnlyChains(ctx, adj, found) && i < n <= |targets|
    ensures AllListed(found(targets[i]), TargetsPlan(found, targets, n).diagnostic)
  {
    TargetStep(ctx, adj, found, targets, n);
    if i < n - 1 {
      TargetListed(ctx, adj, found, targets, n - 1, i);
      ListedTransitive(found(targets[i]), TargetsPlan(found, targets, n - 1).diagnostic,
          TargetsPlan(found, targets, n).diagnostic);
    }
  }

  lemma ListedTransitive(a: seq<Path>, b: seq<Path>, c: seq<Path>)
    requires AllListed(a, b) && AllListed(b, c)
    ensures AllListed(a, c)
  {
  }

  ghost predicate CallListed(ctx: Context, entry: Id, found: Found, call: Id, diagnostic: seq<Path>) {
    && call in ctx.edges
    && CallPath(call, ctx.edges[call]) in diagnostic
    && (ctx.edges[call].from != entry ==> AllListed(found(ctx.edges[call].from), diagnostic))
  }

  lemma {:induction false} CallsGrow(ctx: Context, adj: Graph, entry: Id, found: Found, plan: Plan, calls: seq<Id>,
      n: nat)
    requires OnlyChains(ctx, adj, found) && n <= |calls| && Distinct(calls)
    requires Sound(ctx, adj, plan, {}) && CallsPlan(ctx, adj, entry, found, plan, calls, n).Ok?
    ensures AllListed(plan.diagnostic, CallsPlan(ctx, adj, entry, found, plan, calls, n).value.diagnostic)
  {
    if n > 0 {
      CallsGrow(ctx, adj, entry, found, plan, calls, n - 1);
      CallStep(ctx, adj, entry, found, plan, calls, n);
      ListedTransitive(plan.diagnostic, CallsPlan(ctx, adj, entry, found, plan, calls, n - 1).value.diagnostic,
        CallsPlan(ctx, adj, entry, found, plan, calls, n).value.diagnostic);
    }
  }

  lemma CallStep(ctx: Context, adj: Graph, entry: Id, found: Found, plan: Plan, calls: seq<Id>, n: nat)
    requires OnlyChains(ctx, adj, found) && 0 < n <= |calls| && Distinct(calls)
    requires Sound(ctx, adj, plan, {}) && CallsPlan(ctx, adj, entry, found, plan, calls, n).Ok?
    ensures CallsPlan(ctx, adj, entry, found, plan, calls, n - 1).Ok?
    ensures AllListed(CallsPlan(ctx, adj, entry, found, plan, calls, n - 1).value.diagnostic,
                      CallsPlan(ctx, adj, entry, found, plan, calls, n).value.diagnostic)
    ensures CallListed(ctx, entry, found, calls[n - 1],
        CallsPlan(ctx, adj, entry, found, plan, calls, n).value.diagnostic)
  {
    CallsPlanSound(ctx, adj, entry, found, plan, calls, n - 1);
    OneCallListed(ctx, adj, entry, found, CallsPlan(ctx, adj, entry, found, plan, calls, n - 1).value, calls[n - 1],
        First(calls, n - 1));
  }

  lemma CallListedGrows(ctx: Context, entry: Id, found: Found, call: Id, before: seq<Path>, after: seq<Path>)
    requires CallListed(ctx, entry, found, call, before) && AllListed(before, after)
    ensures CallListed(ctx, entry, found, call, after)
  {
  }

  lemma {:induction false} CallListedAt(ctx: Context, adj: Graph, entry: Id, found: Found, plan: Plan, calls: seq<Id>,
      n: nat, j: nat)
    requires OnlyChains(ctx, adj, found) && j < n <= |calls| && Distinct(calls)
    requires Sound(ctx, adj, plan, {}) && CallsPlan(ctx, adj, entry, found, plan, calls, n).Ok?
    ensures CallListed(ctx, entry, found, calls[j], CallsPlan(ctx, adj, entry, found, plan, calls, n).value.diagnostic)
  {
    CallStep(ctx, adj, entry, found, plan, calls, n);
    if j < n - 1 {
      CallListedAt(ctx, adj, entry, found, plan, calls, n - 1, j);
      CallListedGrows(ctx, entry, found, calls[j],
          CallsPlan(ctx, adj, entry, found, plan, calls, n - 1).value.diagnostic,
        CallsPlan(ctx, adj, entry, found, plan, calls, n).value.diagnostic);
    }
  }

  lemma OneCallListed(ctx: Context, adj: Graph, entry: Id, found: Found, plan: Plan, call: Id, done: set<Id>)
    requires OnlyChains(ctx, adj, found) && Sound(ctx, adj, plan, done)
    requires WithCall(ctx, adj, entry, found, plan, call).Ok?
    ensures var diagnostic := WithCall(ctx, adj, entry, found, plan, call).value.diagnostic;
      AllListed(plan.diagnostic, diagnostic) && CallListed(ctx, entry, found, call, diagnostic)
  {
    var edge := ctx.edges[call];
    if edge.from != entry {
      GroupListed(ctx, adj, plan, SourceKey(call), found(edge.from), done);
    }
    var base := if edge.from != entry then WithGroup(plan, SourceKey(call), found(edge.from)) else plan;
    assert (base.diagnostic + [CallPath(call, edge)])[|base.diagnostic|] == CallPath(call, edge);
  }

  lemma EverythingListed(ctx: Context, def: Definition, adj: Graph)
    requires ctx.Valid() && Closed(adj, ctx.services.Keys) && Planned(ctx, def, adj).Ok?
    requires OnlyChains(ctx, adj, Finder(adj, def.entryService, ctx.services.Keys))
    ensures var found, diagnostic := Finder(adj, def.entryService, ctx.services.Keys),
        Planned(ctx, def, adj).value.diagnostic;
      && (forall t | t in def.mandatoryTargets :: AllListed(found(t), diagnostic))
      && (forall e | e in def.requiredEdges :: CallListed(ctx, def.entryService, found, e, diagnostic))
  {
    var found := Finder(adj, def.entryService, ctx.services.Keys);
    var targets, calls := SortedUnique(def.mandatoryTargets), SortedUnique(def.requiredEdges);
    SortedUniqueMembers(def.mandatoryTargets);
    SortedUniqueMembers(def.requiredEdges);
    assert Distinct(calls);
    var base := TargetsPlan(found, targets, |targets|);
    TargetsPlanSound(ctx, adj, found, targets, |targets|);
    CallsGrow(ctx, adj, def.entryService, found, base, calls, |calls|);
    var full := CallsPlan(ctx, adj, def.entryService, found, base, calls, |calls|).value;
    PathOrder();
    SortSorts(PathLeq, full.diagnostic);
    forall t | t in def.mandatoryTargets
      ensures AllListed(found(t), Sort(PathLeq, full.diagnostic))
    {
      var i :| 0 <= i < |targets| && targets[i] == t;
      TargetListed(ctx, adj, found, targets, |targets|, i);
    }
    forall e | e in def.requiredEdges
      ensures CallListed(ctx, def.entryService, found, e, Sort(PathLeq, full.diagnostic))
    {
      var j :| 0 <= j < |calls| && calls[j] == e;
      CallListedAt(ctx, adj, def.entryService, found, base, calls, |calls|, j);
    }
  }

  // ----- the documented meaning

  /** The call itself is live: its edge, both its ends, and a live route from the entry to its caller. */
  ghost predicate CallLive(ctx: Context, adj: Graph, world: World, entry: Id, call: Id) {
    && call in ctx.edges
    && Up(world.edgeAlive, call)
    && Up(world.serviceAlive, ctx.edges[call].from) && Up(world.serviceAlive, ctx.edges[call].to)
    && Reachable(LeastLink(adj, world), world, entry, ctx.edges[call].from)
  }

  /**
   Every mandatory target is reachable through live services and live least edges, and every required call is live.
   */
  ghost predicate GraphHolds(ctx: Context, def: Definition, adj: Graph, world: World) {
    && (forall t | t in def.mandatoryTargets :: Reachable(LeastLink(adj, world), world, def.entryService, t))
    && (forall e | e in def.requiredEdges :: CallLive(ctx, adj, world, def.entryService, e))
  }

  ghost predicate ResultsAreLiveness(world: World, results: map<string, bool>, paths: seq<Path>) {
    forall p | p in paths :: Up(results, p.id) <==> PathUp(world, p)
  }

  lemma GroupMetExactly(ctx: Context, adj: Graph, world: World, entry: Id, target: Id, results: map<string, bool>)
    requires Closed(adj, ctx.services.Keys) && entry in ctx.services && ProperServices(ctx)
    requires ResultsAreLiveness(world, results, Discovered(adj, entry, target, ctx.services.Keys))
    ensures GroupMet(Discovered(adj, entry, target, ctx.services.Keys), results)
        <==> Reachable(LeastLink(adj, world), world, entry, target)
  {
    var paths := Discovered(adj, entry, target, ctx.services.Keys);
    DiscoveredMeansReachable(adj, world, entry, target, ctx.services.Keys);
    if p :| p in paths && PathUp(world, p) {
      var i :| 0 <= i < |paths| && paths[i] == p;
      assert Up(results, paths[i].id);
    }
    if GroupMet(paths, results) {
      var i :| 0 <= i < |paths| && Up(results, paths[i].id);
      assert paths[i] in paths;
    }
  }

  lemma CallMetExactly(ctx: Context, adj: Graph, world: World, entry: Id, call: Id, results: map<string, bool>)
    requires ctx.Valid() && Closed(adj, ctx.services.Keys) && entry in ctx.services && ProperServices(ctx)
        && call in ctx.edges
    requires Up(results, CallPath(call, ctx.edges[call]).id) <==> PathUp(world, CallPath(call, ctx.edges[call]))
    requires ctx.edges[call].from != entry ==>
               ResultsAreLiveness(world, results, Discovered(adj, entry, ctx.edges[call].from, ctx.services.Keys))
    ensures CallMet(ctx, entry, Finder(adj, entry, ctx.services.Keys), call, results)
        <==> CallLive(ctx, adj, world, entry, call)
  {
    var edge := ctx.edges[call];
    var path := CallPath(call, edge);
    assert PathUp(world, path) <==>
        Up(world.edgeAlive, call) && Up(world.serviceAlive, edge.from) && Up(world.serviceAlive, edge.to) by {
      assert path.services[0] == edge.from && path.services[1] == edge.to && path.edgeIDs[0] == call;
    }
    assert GroupMet([path], results) <==> Up(results, path.id) by {
      assert [path][0] == path;
    }
    if edge.from != entry {
      GroupMetExactly(ctx, adj, world, entry, edge.from, results);
    } else if Up(world.serviceAlive, entry) {
      assert Walk(LeastLink(adj, world), world, entry, entry, [entry]);
    }
  }

  /**
   When execution results are plain liveness (every path viable), an edge-aware endpoint succeeds exactly when its
   mandatory targets are reachable and its required calls are live, each from a reachable caller.
   */
  lemma EdgeAwareIsReachability(ctx: Context, def: Definition, adj: Graph, world: World, results: map<string, bool>)
    requires Prepared(ctx, def.edgeModes, adj) && Planned(ctx, def, adj).Ok?
    requires ResultsAreLiveness(world, results, Planned(ctx, def, adj).value.diagnostic)
    ensures EdgeAwareSuccess(Planned(ctx, def, adj).value.groups, results) <==> GraphHolds(ctx, def, adj, world)
  {
    var entry := def.entryService;
    var found := Finder(adj, entry, ctx.services.Keys);
    FoundAreChains(ctx, def, adj);
    EverythingListed(ctx, def, adj);
    DemandsAreLiveness(ctx, def, adj, world, results, Planned(ctx, def, adj).value.diagnostic);
    GroupsDemand(ctx, def, adj, results);
  }

  lemma DemandsAreLiveness(ctx: Context, def: Definition, adj: Graph, world: World, results: map<string, bool>,
      diagnostic: seq<Path>)
    requires ctx.Valid() && ProperServices(ctx) && Closed(adj, ctx.services.Keys) && def.entryService in ctx.services
    requires ResultsAreLiveness(world, results, diagnostic)
    requires var found := Finder(adj, def.entryService, ctx.services.Keys);
      && (forall t | t in def.mandatoryTargets :: AllListed(found(t), diagnostic))
      && (forall e | e in def.requiredEdges :: CallListed(ctx, def.entryService, found, e, diagnostic))
    ensures var found := Finder(adj, def.entryService, ctx.services.Keys);
      && (forall t | t in def.mandatoryTargets ::
            GroupMet(found(t), results) <==> Reachable(LeastLink(adj, world), world, def.entryService, t))
      && (forall e | e in def.requiredEdges ::
            CallMet(ctx, def.entryService, found, e, results) <==> CallLive(ctx, adj, world, def.entryService, e))
  {
    var found := Finder(adj, def.entryService, ctx.services.Keys);
    forall t | t in def.mandatoryTargets
      ensures GroupMet(found(t), results) <==> Reachable(LeastLink(adj, world), world, def.entryService, t)
    {
      GroupMetExactly(ctx, adj, world, def.entryService, t, results);
    }
    forall e | e in def.requiredEdges
      ensures CallMet(ctx, def.entryService, found, e, results) <==> CallLive(ctx, adj, world, def.entryService, e)
    {
      CallMetExactly(ctx, adj, world, def.entryService, e, results);
    }
  }
}
