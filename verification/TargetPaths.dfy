/** Discovery of every simple path from an entry service to a target, by backtracking depth-first search. */
module TargetPaths {
  import opened Wrappers
  import opened Ids
  import opened Sorting
  import opened Topology
  import opened Adjacency

  /** A finite set of services that no step leaves. */
  ghost predicate Closed(adj: Graph, nodes: set<Id>) {
    forall from, i | from in nodes && 0 <= i < |Steps(adj, from)| :: Steps(adj, from)[i].to in nodes
  }

  // ----- what counts as a route

  predicate HasStep(adj: Graph, from: Id, to: Id) {
    HopEdge(adj, from, to).Some?
  }

  /** `t` is a simple path ending in the target and avoiding `visited`. */
  ghost predicate Route(adj: Graph, target: Id, visited: set<Id>, t: seq<Id>)
    decreases |t|
  {
    && t != []
    && t[0] !in visited
    && if t[0] == target then |t| == 1
       else |t| > 1 && HasStep(adj, t[0], t[1]) && Route(adj, target, visited + {t[0]}, t[1..])
  }

  /** The least allowed edge of every hop. */
  function HopEdges(adj: Graph, t: seq<Id>): seq<Id> {
    if |t| <= 1 then []
    else
      var edge := HopEdge(adj, t[0], t[1]);
      [if edge.Some? then edge.value else ""] + HopEdges(adj, t[1..])
  }

  /** The usual statement of the same notion: linked hop by hop, no repeated service, ending in the target. */
  ghost predicate SimplePath(adj: Graph, entry: Id, target: Id, t: seq<Id>) {
    && t != [] && t[0] == entry && t[|t| - 1] == target
    && (forall i | 0 <= i < |t| - 1 :: HasStep(adj, t[i], t[i + 1]))
    && (forall i, j | 0 <= i < j < |t| :: t[i] != t[j])
  }

  lemma {:induction false} RouteIsSimplePath(adj: Graph, target: Id, visited: set<Id>, t: seq<Id>)
    requires t != []
    ensures Route(adj, target, visited, t)
        <==> SimplePath(adj, t[0], target, t) && forall i | 0 <= i < |t| :: t[i] !in visited
    decreases |t|
  {
    if |t| > 1 {
      RouteIsSimplePath(adj, target, visited + {t[0]}, t[1..]);
      if Route(adj, target, visited, t) {
        forall i | 0 <= i < |t| - 1
          ensures HasStep(adj, t[i], t[i + 1])
        {
          if i > 0 {
            assert HasStep(adj, t[1..][i - 1], t[1..][i]);
          }
        }
        forall i, j | 0 <= i < j < |t|
          ensures t[i] != t[j]
        {
          assert t[j] == t[1..][j - 1];
          if i > 0 {
            assert t[i] == t[1..][i - 1];
          }
        }
        forall i | 0 <= i < |t|
          ensures t[i] !in visited
        {
          if i > 0 {
            assert t[i] == t[1..][i - 1];
          }
        }
      }
      if SimplePath(adj, t[0], target, t) && (forall i | 0 <= i < |t| :: t[i] !in visited) {
        assert SimplePath(adj, t[1], target, t[1..]);
        forall i | 0 <= i < |t[1..]|
          ensures t[1..][i] !in visited + {t[0]}
        {
          assert t[1..][i] == t[i + 1];
        }
      }
    }
  }

  // ----- the search as a function of its state: paths in discovery order, repetitions included

  ghost function Raw(adj: Graph, target: Id, nodes: set<Id>, current: Id, visited: set<Id>, services: seq<Id>,
      edgeIDs: seq<Id>)
    : seq<Path>
    requires Closed(adj, nodes) && current in nodes && current !in visited
    decreases nodes - visited, 0
  {
    var here := services + [current];
    if current == target then [Path(Join(here), here, edgeIDs)]
    else RawSteps(adj, target, nodes, current, |Steps(adj, current)|, visited + {current}, here, edgeIDs)
  }

  /** The contribution of the first `n` steps out of `current`. */
  ghost function RawSteps(adj: Graph, target: Id, nodes: set<Id>, current: Id, n: nat, visited: set<Id>,
      services: seq<Id>, edgeIDs: seq<Id>)
    : seq<Path>
    requires Closed(adj, nodes) && current in nodes && n <= |Steps(adj, current)|
    decreases nodes - visited, n + 1
  {
    if n == 0 then []
    else
      var step := Steps(adj, current)[n - 1];
      RawSteps(adj, target, nodes, current, n - 1, visited, services, edgeIDs)
      + if step.to in visited then [] else Raw(adj, target, nodes, step.to, visited, services, edgeIDs + [step.edgeID])
  }

  lemma RawStepsNext(adj: Graph, target: Id, nodes: set<Id>, current: Id, n: nat, visited: set<Id>, services: seq<Id>,
      edgeIDs: seq<Id>)
    requires Closed(adj, nodes) && current in nodes && n < |Steps(adj, current)|
    ensures var step := Steps(adj, current)[n];
      var before := RawSteps(adj, target, nodes, current, n, visited, services, edgeIDs);
      RawSteps(adj, target, nodes, current, n + 1, visited, services, edgeIDs)
      == if step.to in visited then before
         else before + Raw(adj, target, nodes, step.to, visited, services, edgeIDs + [step.edgeID])
  {
  }

  /** The first path of the list over exactly these services. */
  function FirstOver(paths: seq<Path>, services: seq<Id>): Option<Path> {
    if paths == [] then None
    else if paths[0].services == services then Some(paths[0])
    else FirstOver(paths[1..], services)
  }

  lemma {:induction false} FirstOverConcat(a: seq<Path>, b: seq<Path>, services: seq<Id>)
    ensures FirstOver(a + b, services) == if FirstOver(a, services).Some? then FirstOver(a, services)
        else FirstOver(b, services)
  {
    if a == [] {
      assert a + b == b;
    } else {
      FirstOverConcat(a[1..], b, services);
      assert (a + b)[1..] == a[1..] + b;
    }
  }

  lemma {:induction false} FirstOverIn(paths: seq<Path>, p: Path)
    requires p in paths
    ensures FirstOver(paths, p.services).Some?
  {
    if paths[0].services != p.services {
      FirstOverIn(paths[1..], p);
    }
  }

  lemma {:induction false} FirstOverAmong(paths: seq<Path>, services: seq<Id>)
    ensures FirstOver(paths, services).Some? ==>
              FirstOver(paths, services).value in paths && FirstOver(paths, services).value.services == services
  {
    if paths != [] && paths[0].services != services {
      FirstOverAmong(paths[1..], services);
    }
  }

  /**
   What the search owes for the services `here + t`: the canonical path, when `t` is a route, and nothing otherwise.
   */
  ghost function Owed(adj: Graph, target: Id, visited: set<Id>, here: seq<Id>, edgeIDs: seq<Id>,
      t: seq<Id>): Option<Path> {
    if Route(adj, target, visited, t) then Some(Path(Join(here + t), here + t, edgeIDs + HopEdges(adj, t))) else None
  }

  lemma ExtensionStarts(services: seq<Id>, current: Id, t: seq<Id>)
    ensures services + [current] <= services + t ==> t != [] && t[0] == current
  {
    if services + [current] <= services + t {
      assert (services + t)[|services|] == (services + [current])[|services|];
    }
  }

  /**
   The heart of the search: whatever edges run in parallel, the first path it finds over a service sequence uses the
   least edge on each hop, and it finds one exactly when the sequence is a simple path to the target.
   */
  lemma {:induction false} RawFirst(adj: Graph, target: Id, nodes: set<Id>, current: Id, visited: set<Id>,
      services: seq<Id>, edgeIDs: seq<Id>, t: seq<Id>)
    requires Closed(adj, nodes) && current in nodes && current !in visited
    ensures FirstOver(Raw(adj, target, nodes, current, visited, services, edgeIDs), services + t)
         == if t != [] && t[0] == current then Owed(adj, target, visited, services, edgeIDs, t) else None
    decreases nodes - visited, 0
  {
    var here := services + [current];
    var raw := Raw(adj, target, nodes, current, visited, services, edgeIDs);
    if t == [] || t[0] != current {
      if FirstOver(raw, services + t).Some? {
        FirstOverAmong(raw, services + t);
        RawExtends(adj, target, nodes, current, visited, services, edgeIDs, FirstOver(raw, services + t).value);
        ExtensionStarts(services, current, t);
        assert false;
      }
    } else {
      assert services + t == here + t[1..];
      if current == target {
        if |t| == 1 {
          assert services + t == here;
          assert edgeIDs + HopEdges(adj, t) == edgeIDs;
        }
      } else {
        RawStepsFirst(adj, target, nodes, current, |Steps(adj, current)|, visited + {current}, here, edgeIDs, t[1..]);
        if |t| > 1 && HasStep(adj, t[0], t[1]) {
          var edge := HopEdge(adj, t[0], t[1]).value;
          assert (edgeIDs + [edge]) + HopEdges(adj, t[1..]) == edgeIDs + HopEdges(adj, t);
        }
      }
    }
  }

  lemma {:induction false} RawStepsFirst(adj: Graph, target: Id, nodes: set<Id>, current: Id, n: nat, visited: set<Id>,
      services: seq<Id>, edgeIDs: seq<Id>, t: seq<Id>)
    requires Closed(adj, nodes) && current in nodes && n <= |Steps(adj, current)|
    ensures FirstOver(RawSteps(adj, target, nodes, current, n, visited, services, edgeIDs), services + t)
         == if t == [] then None
            else
              var edge := FirstEdge(Steps(adj, current), n, t[0]);
              if edge.Some? then Owed(adj, target, visited, services, edgeIDs + [edge.value], t) else None
    decreases nodes - visited, n + 1
  {
    if n > 0 {
      RawStepsFirst(adj, target, nodes, current, n - 1, visited, services, edgeIDs, t);
      var step := Steps(adj, current)[n - 1];
      if step.to !in visited {
        var before := RawSteps(adj, target, nodes, current, n - 1, visited, services, edgeIDs);
        var added := Raw(adj, target, nodes, step.to, visited, services, edgeIDs + [step.edgeID]);
        FirstOverConcat(before, added, services + t);
        RawFirst(adj, target, nodes, step.to, visited, services, edgeIDs + [step.edgeID], t);
      } else {
        assert RawSteps(adj, target, nodes, current, n, visited, services, edgeIDs)
            == RawSteps(adj, target, nodes, current, n - 1, visited, services, edgeIDs);
        assert t != [] && step.to == t[0] ==> !Route(adj, target, visited, t);
      }
    }
  }

  /** Every path found extends the stack it was found on. */
  lemma {:induction false} RawExtends(adj: Graph, target: Id, nodes: set<Id>, current: Id, visited: set<Id>,
      services: seq<Id>, edgeIDs: seq<Id>, p: Path)
    requires Closed(adj, nodes) && current in nodes && current !in visited
    requires p in Raw(adj, target, nodes, current, visited, services, edgeIDs)
    ensures services + [current] <= p.services && p.id == Join(p.services)
    ensures forall i | |services| <= i < |p.services| :: p.services[i] in nodes
    decreases nodes - visited, 0
  {
    if current != target {
      RawStepsExtend(adj, target, nodes, current, |Steps(adj, current)|, visited + {current}, services + [current],
          edgeIDs, p);
      assert p.services[|services|] == (services + [current])[|services|];
    }
  }

  lemma {:induction false} RawStepsExtend(adj: Graph, target: Id, nodes: set<Id>, current: Id, n: nat, visited: set<Id>,
      services: seq<Id>, edgeIDs: seq<Id>, p: Path)
    requires Closed(adj, nodes) && current in nodes && n <= |Steps(adj, current)|
    requires p in RawSteps(adj, target, nodes, current, n, visited, services, edgeIDs)
    ensures services <= p.services && p.id == Join(p.services)
    ensures forall i | |services| <= i < |p.services| :: p.services[i] in nodes
    decreases nodes - visited, n + 1
  {
    if p in RawSteps(adj, target, nodes, current, n - 1, visited, services, edgeIDs) {
      RawStepsExtend(adj, target, nodes, current, n - 1, visited, services, edgeIDs, p);
    } else {
      var step := Steps(adj, current)[n - 1];
      RawExtends(adj, target, nodes, step.to, visited, services, edgeIDs + [step.edgeID], p);
      assert services <= services + [step.to] <= p.services;
    }
  }

  // ----- keeping the first path of every ID

  predicate HasID(paths: seq<Path>, id: string) {
    exists i | 0 <= i < |paths| :: paths[i].id == id
  }

  lemma AppendedIDs(paths: seq<Path>, p: Path)
    ensures forall id :: HasID(paths + [p], id) <==> id == p.id || HasID(paths, id)
  {
    forall id
      ensures HasID(paths + [p], id) <==> id == p.id || HasID(paths, id)
    {
      assert (paths + [p])[|paths|] == p;
      if i :| 0 <= i < |paths| && paths[i].id == id {
        assert (paths + [p])[i].id == id;
      }
    }
  }

  /** The list after appending, in order, the found paths whose ID is new. */
  function Absorb(paths: seq<Path>, found: seq<Path>): seq<Path>
    decreases |found|
  {
    if found == [] then paths
    else Absorb(if HasID(paths, found[0].id) then paths else paths + [found[0]], found[1..])
  }

  lemma {:induction false} AbsorbConcat(paths: seq<Path>, a: seq<Path>, b: seq<Path>)
    ensures Absorb(paths, a + b) == Absorb(Absorb(paths, a), b)
    decreases |a|
  {
    if a == [] {
      assert a + b == b;
    } else {
      AbsorbConcat(if HasID(paths, a[0].id) then paths else paths + [a[0]], a[1..], b);
      assert (a + b)[1..] == a[1..] + b;
    }
  }

  predicate DistinctIDs(paths: seq<Path>) {
    forall i, j | 0 <= i < j < |paths| :: paths[i].id != paths[j].id
  }

  /** Paths are named by joining services that cannot be mistaken for one another. */
  ghost predicate WellNamed(paths: seq<Path>) {
    forall i | 0 <= i < |paths| ::
      paths[i].services != [] && AllPlain(paths[i].services) && paths[i].id == Join(paths[i].services)
  }

  lemma FirstOfDistinct(paths: seq<Path>, p: Path)
    requires WellNamed(paths) && DistinctIDs(paths)
    ensures p in paths <==> FirstOver(paths, p.services) == Some(p)
  {
    FirstOverAmong(paths, p.services);
    if p in paths {
      FirstOverIn(paths, p);
      SameIDSamePath(paths, p, FirstOver(paths, p.services).value);
    }
  }

  lemma {:induction false} AbsorbKeepsFirst(paths: seq<Path>, found: seq<Path>)
    requires WellNamed(paths) && WellNamed(found) && DistinctIDs(paths)
    ensures WellNamed(Absorb(paths, found)) && DistinctIDs(Absorb(paths, found))
    ensures forall p :: p in Absorb(paths, found) <==> FirstOver(paths + found, p.services) == Some(p)
    decreases |found|
  {
    if found == [] {
      assert paths + found == paths;
      forall p
        ensures p in paths <==> FirstOver(paths, p.services) == Some(p)
      {
        FirstOfDistinct(paths, p);
      }
    } else {
      var next := if HasID(paths, found[0].id) then paths else paths + [found[0]];
      assert WellNamed(next) && DistinctIDs(next) && WellNamed(found[1..]);
      AbsorbKeepsFirst(next, found[1..]);
      forall p: Path
        ensures FirstOver(next + found[1..], p.services) == FirstOver(paths + found, p.services)
      {
        AbsorbStep(paths, found, p.services);
      }
    }
  }

  /** Absorbing one path changes nothing about which path is first over any services. */
  lemma AbsorbStep(paths: seq<Path>, found: seq<Path>, services: seq<Id>)
    requires WellNamed(paths) && WellNamed(found) && found != []
    ensures FirstOver((if HasID(paths, found[0].id) then paths else paths + [found[0]]) + found[1..], services)
         == FirstOver(paths + found, services)
  {
    if HasID(paths, found[0].id) {
      var i :| 0 <= i < |paths| && paths[i].id == found[0].id;
      JoinInjective(paths[i].services, found[0].services);
      FirstOverIn(paths, paths[i]);
      FirstOverConcat(paths, found, services);
      FirstOverConcat(paths, found[1..], services);
    } else {
      assert (paths + [found[0]]) + found[1..] == paths + found;
    }
  }

  // ----- the engine's search, with its stack, its visited map and its seen set

  /** Absorbing the contribution of one more step. */
  lemma AbsorbNext(start: seq<Path>, adj: Graph, target: Id, nodes: set<Id>, current: Id, n: nat, visited: set<Id>,
      services: seq<Id>, edgeIDs: seq<Id>)
    requires Closed(adj, nodes) && current in nodes && n < |Steps(adj, current)|
    ensures var step := Steps(adj, current)[n];
      var before := Absorb(start, RawSteps(adj, target, nodes, current, n, visited, services, edgeIDs));
      Absorb(start, RawSteps(adj, target, nodes, current, n + 1, visited, services, edgeIDs))
      == if step.to in visited then before
         else Absorb(before, Raw(adj, target, nodes, step.to, visited, services, edgeIDs + [step.edgeID]))
  {
    var step := Steps(adj, current)[n];
    RawStepsNext(adj, target, nodes, current, n, visited, services, edgeIDs);
    if step.to !in visited {
      AbsorbConcat(start, RawSteps(adj, target, nodes, current, n, visited, services, edgeIDs),
        Raw(adj, target, nodes, step.to, visited, services, edgeIDs + [step.edgeID]));
    }
  }

  class PathSearch {
    const adj: Graph
    const target: Id
    ghost const nodes: set<Id>
    var visited: map<Id, bool>
    var services: seq<Id>
    var edgeIDs: seq<Id>
    var paths: seq<Path>
    var seen: set<string>

    constructor (adj: Graph, target: Id, ghost nodes: set<Id>)
      ensures this.adj == adj && this.target == target && this.nodes == nodes
      ensures visited == map[] && services == [] && edgeIDs == [] && paths == [] && seen == {}
    {
      this.adj, this.target, this.nodes := adj, target, nodes;
      visited, services, edgeIDs, paths, seen := map[], [], [], [], {};
    }

    /** The services the visited map currently marks. */
    ghost function Marked(): set<Id>
      reads this
    {
      set id | id in visited && visited[id]
    }

    ghost predicate SeenIsPaths()
      reads this
    {
      forall id :: id in seen <==> HasID(paths, id)
    }

    /** One activation: it appends what it finds and hands back the stack and the marks as it got them. */
    method Dfs(current: Id)
      requires Closed(adj, nodes) && current in nodes && current !in Marked() && SeenIsPaths()
      modifies this
      ensures services == old(services) && edgeIDs == old(edgeIDs) && Marked() == old(Marked()) && SeenIsPaths()
      ensures paths == Absorb(old(paths), Raw(adj, target, nodes, current, old(Marked()), old(services), old(edgeIDs)))
      decreases nodes - Marked(), 0
    {
      ghost var marks := Marked();
      visited := visited[current := true];
      services := services + [current];
      assert Marked() == marks + {current};
      if current == target {
        Emit();
      } else {
        Expand(current);
      }
      services := services[..|services| - 1];
      visited := visited[current := false];
      assert Marked() == marks;
    }

    method Emit()
      requires SeenIsPaths()
      modifies `paths, `seen
      ensures SeenIsPaths()
      ensures paths == Absorb(old(paths), [Path(Join(services), services, edgeIDs)])
    {
      var id := Join(services);
      ghost var found := Path(id, services, edgeIDs);
      assert Absorb(paths, [found]) == if HasID(paths, id) then paths else paths + [found];
      if id !in seen {
        seen := seen + {id};
        paths := paths + [Path(id, services, edgeIDs)];
        AppendedIDs(old(paths), found);
      }
    }

    method Expand(current: Id)
      requires Closed(adj, nodes) && current in nodes && current in Marked() && SeenIsPaths()
      modifies this
      ensures services == old(services) && edgeIDs == old(edgeIDs) && Marked() == old(Marked()) && SeenIsPaths()
      ensures paths == Absorb(old(paths), RawSteps(adj, target, nodes, current, |Steps(adj, current)|, old(Marked()),
          services, edgeIDs))
      decreases nodes - Marked(), 2
    {
      var steps := Steps(adj, current);
      ghost var marks, start, chain, edges := Marked(), paths, services, edgeIDs;
      for n := 0 to |steps|
        invariant services == chain && edgeIDs == edges && Marked() == marks && SeenIsPaths()
        invariant paths == Absorb(start, RawSteps(adj, target, nodes, current, n, marks, chain, edges))
      {
        var step := steps[n];
        AbsorbNext(start, adj, target, nodes, current, n, marks, chain, edges);
        if step.to in visited && visited[step.to] {
          continue;
        }
        Follow(step);
      }
    }

    /** Going along one step and back. */
    method Follow(step: Step)
      requires Closed(adj, nodes) && step.to in nodes && step.to !in Marked() && SeenIsPaths()
      modifies this
      ensures services == old(services) && edgeIDs == old(edgeIDs) && Marked() == old(Marked()) && SeenIsPaths()
      ensures paths == Absorb(old(paths), Raw(adj, target, nodes, step.to, old(Marked()), old(services),
          old(edgeIDs) + [step.edgeID]))
      decreases nodes - Marked(), 1
    {
      edgeIDs := edgeIDs + [step.edgeID];
      Dfs(step.to);
      edgeIDs := edgeIDs[..|edgeIDs| - 1];
    }
  }

  predicate PathLeq(a: Path, b: Path) {
    Leq(a.id, b.id)
  }

  /** The paths discovery returns. */
  ghost function Discovered(adj: Graph, entry: Id, target: Id, nodes: set<Id>): seq<Path>
    requires Closed(adj, nodes) && entry in nodes
  {
    Sort(PathLeq, Absorb([], Raw(adj, target, nodes, entry, {}, [], [])))
  }

  method DiscoverJourneyPathsToTarget(adj: Graph, entry: Id, target: Id, ghost nodes: set<Id>)
      returns (paths: seq<Path>)
    requires Closed(adj, nodes) && entry in nodes
    ensures paths == Discovered(adj, entry, target, nodes)
  {
    var search := new PathSearch(adj, target, nodes);
    assert search.Marked() == {};
    search.Dfs(entry);
    paths := Sort(PathLeq, search.paths);
  }

  ghost predicate CanonicalPath(adj: Graph, p: Path) {
    p == Path(Join(p.services), p.services, HopEdges(adj, p.services))
  }

  /**
   Discovery returns one path for every simple service path from the entry to the target and no others, in ascending
   ID order, each using on every hop the edge of least ID.
   */
  lemma DiscoveryExact(adj: Graph, entry: Id, target: Id, nodes: set<Id>)
    requires Closed(adj, nodes) && entry in nodes && forall id | id in nodes :: Plain(id)
    ensures var paths := Discovered(adj, entry, target, nodes);
      && (forall p :: p in paths <==> SimplePath(adj, entry, target, p.services) && CanonicalPath(adj, p))
      && (forall i, j | 0 <= i < j < |paths| :: Less(paths[i].id, paths[j].id))
  {
    var raw := Raw(adj, target, nodes, entry, {}, [], []);
    forall i | 0 <= i < |raw|
      ensures raw[i].services != [] && AllPlain(raw[i].services) && raw[i].id == Join(raw[i].services)
    {
      RawExtends(adj, target, nodes, entry, {}, [], [], raw[i]);
    }
    var kept := Absorb([], raw);
    AbsorbKeepsFirst([], raw);
    assert [] + raw == raw;
    PathOrder();
    SortSorts(PathLeq, kept);
    var paths := Sort(PathLeq, kept);
    forall p
      ensures p in paths <==> SimplePath(adj, entry, target, p.services) && CanonicalPath(adj, p)
    {
      RawFirst(adj, target, nodes, entry, {}, [], [], p.services);
      assert [] + p.services == p.services && [] + HopEdges(adj, p.services) == HopEdges(adj, p.services);
      if p.services != [] {
        RouteIsSimplePath(adj, target, {}, p.services);
      }
    }
    DistinctAfterSort(kept, paths);
    forall i, j | 0 <= i < j < |paths|
      ensures Less(paths[i].id, paths[j].id)
    {
      assert PathLeq(paths[i], paths[j]);
    }
  }

  lemma PathOrder()
    ensures TotalPreorder(PathLeq)
  {
    forall a: Path, b: Path
      ensures PathLeq(a, b) || PathLeq(b, a)
    {
      LeqTotal(a.id, b.id);
    }
    forall a: Path, b: Path, c: Path | PathLeq(a, b) && PathLeq(b, c)
      ensures PathLeq(a, c)
    {
      LeqTransitive(a.id, b.id, c.id);
    }
  }

  lemma DistinctAfterSort(kept: seq<Path>, paths: seq<Path>)
    requires DistinctIDs(kept) && multiset(kept) == multiset(paths)
    ensures DistinctIDs(paths)
  {
    forall i, j | 0 <= i < j < |paths|
      ensures paths[i].id != paths[j].id
    {
      if paths[i].id == paths[j].id {
        assert paths[i] in multiset(kept) && paths[j] in multiset(kept);
        SameIDSamePath(kept, paths[i], paths[j]);
        Twice(paths, i, j);
        Once(kept, paths[i]);
        assert false;
      }
    }
  }

  lemma SameIDSamePath(paths: seq<Path>, p: Path, q: Path)
    requires DistinctIDs(paths) && p in paths && q in paths && p.id == q.id
    ensures p == q
  {
  }
}
