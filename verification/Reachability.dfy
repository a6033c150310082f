/** Live reachability over a service graph, and the simple paths that witness it. */
module Reachability {
  import opened Wrappers
  import opened Ids
  import opened Sorting
  import opened Topology
  import opened Adjacency
  import opened TargetPaths

  type Link = (Id, Id) -> bool

  /** A walk between live services over live links; services may repeat. */
  ghost predicate Walk(link: Link, world: World, from: Id, to: Id, t: seq<Id>) {
    && t != [] && t[0] == from && t[|t| - 1] == to
    && (forall i | 0 <= i < |t| :: Up(world.serviceAlive, t[i]))
    && (forall i | 0 <= i < |t| - 1 :: link(t[i], t[i + 1]))
  }

  ghost predicate Distinct(t: seq<Id>) {
    forall i, j | 0 <= i < j < |t| :: t[i] != t[j]
  }

  ghost predicate Reachable(link: Link, world: World, from: Id, to: Id) {
    exists t :: Walk(link, world, from, to, t)
  }

  /** Cutting out cycles leaves a simple walk between the same ends. */
  lemma {:induction false} Shorten(link: Link, world: World, from: Id, to: Id, t: seq<Id>) returns (s: seq<Id>)
    requires Walk(link, world, from, to, t)
    ensures Walk(link, world, from, to, s) && Distinct(s)
    decreases |t|
  {
    if Distinct(t) {
      s := t;
    } else {
      var i, j :| 0 <= i < j < |t| && t[i] == t[j];
      var cut := t[..i] + t[j..];
      forall k | 0 <= k < |cut| - 1
        ensures link(cut[k], cut[k + 1])
      {
        var at := if k < i then k else k + (j - i);
        assert cut[k] == t[at] && cut[k + 1] == t[at + 1];
      }
      s := Shorten(link, world, from, to, cut);
    }
  }

  // ----- the two notions of a live hop

  /** The hop's own edge, the least allowed one, is up. */
  predicate LeastEdgeUp(adj: Graph, world: World, from: Id, to: Id) {
    HasStep(adj, from, to) && Up(world.edgeAlive, HopEdge(adj, from, to).value)
  }

  /** Some allowed edge of the hop is up. */
  predicate SomeEdgeUp(adj: Graph, world: World, from: Id, to: Id) {
    exists i | 0 <= i < |Steps(adj, from)| :: Steps(adj, from)[i].to == to
        && Up(world.edgeAlive, Steps(adj, from)[i].edgeID)
  }

  function LeastLink(adj: Graph, world: World): Link {
    (from, to) => LeastEdgeUp(adj, world, from, to)
  }

  function SomeLink(adj: Graph, world: World): Link {
    (from, to) => SomeEdgeUp(adj, world, from, to)
  }

  /** What a path must have up, hop by hop. */
  lemma {:induction false} HopEdgesAt(adj: Graph, t: seq<Id>, i: nat)
    requires i + 1 < |t|
    ensures |HopEdges(adj, t)| == |t| - 1
    ensures HasStep(adj, t[i], t[i + 1]) ==> HopEdges(adj, t)[i] == HopEdge(adj, t[i], t[i + 1]).value
  {
    if i > 0 {
      HopEdgesAt(adj, t[1..], i - 1);
    } else {
      HopEdgesLength(adj, t);
    }
  }

  lemma {:induction false} HopEdgesLength(adj: Graph, t: seq<Id>)
    ensures t != [] ==> |HopEdges(adj, t)| == |t| - 1
  {
    if |t| > 1 {
      HopEdgesLength(adj, t[1..]);
    }
  }

  lemma CanonicalUp(adj: Graph, world: World, entry: Id, target: Id, p: Path)
    requires CanonicalPath(adj, p) && SimplePath(adj, entry, target, p.services)
    ensures PathUp(world, p) <==> Walk(LeastLink(adj, world), world, entry, target, p.services)
  {
    var t := p.services;
    HopEdgesLength(adj, t);
    forall i | 0 <= i < |t| - 1
      ensures p.edgeIDs[i] == HopEdge(adj, t[i], t[i + 1]).value
    {
      HopEdgesAt(adj, t, i);
    }
    if PathUp(world, p) {
      forall i | 0 <= i < |t| - 1
        ensures LeastLink(adj, world)(t[i], t[i + 1])
      {
        assert Up(world.edgeAlive, p.edgeIDs[i]);
      }
    }
    if Walk(LeastLink(adj, world), world, entry, target, t) {
      forall i | 0 <= i < |p.edgeIDs|
        ensures Up(world.edgeAlive, p.edgeIDs[i])
      {
        assert LeastLink(adj, world)(t[i], t[i + 1]);
      }
    }
  }

  /** A discovered path is completely up exactly when the target is reachable through live least edges. */
  lemma DiscoveredMeansReachable(adj: Graph, world: World, entry: Id, target: Id, nodes: set<Id>)
    requires Closed(adj, nodes) && entry in nodes && forall id | id in nodes :: Plain(id)
    ensures (exists p | p in Discovered(adj, entry, target, nodes) :: PathUp(world, p))
        <==> Reachable(LeastLink(adj, world), world, entry, target)
  {
    DiscoveryExact(adj, entry, target, nodes);
    if p :| p in Discovered(adj, entry, target, nodes) && PathUp(world, p) {
      CanonicalUp(adj, world, entry, target, p);
    }
    if Reachable(LeastLink(adj, world), world, entry, target) {
      var p := ReachedPath(adj, world, entry, target);
      assert p in Discovered(adj, entry, target, nodes);
    }
  }

  /** A reachable target has a live least-edge path to it that is simple. */
  lemma ReachedPath(adj: Graph, world: World, entry: Id, target: Id) returns (p: Path)
    requires Reachable(LeastLink(adj, world), world, entry, target)
    ensures CanonicalPath(adj, p) && SimplePath(adj, entry, target, p.services) && PathUp(world, p)
  {
    var t :| Walk(LeastLink(adj, world), world, entry, target, t);
    var s := Shorten(LeastLink(adj, world), world, entry, target, t);
    assert forall i | 0 <= i < |s| - 1 :: LeastLink(adj, world)(s[i], s[i + 1]);
    p := Path(Join(s), s, HopEdges(adj, s));
    CanonicalUp(adj, world, entry, target, p);
  }

  // ----- parallel edges: the documented reachability, through any live allowed edge, and when it coincides

  ghost predicate SingleEdge(adj: Graph, from: Id, to: Id) {
    forall i, j | 0 <= i < j < |Steps(adj, from)| && Steps(adj, from)[i].to == to && Steps(adj, from)[j].to == to ::
      Steps(adj, from)[i].edgeID == Steps(adj, from)[j].edgeID
  }

  ghost predicate NoParallelHop(adj: Graph, entry: Id, target: Id) {
    forall t, i | SimplePath(adj, entry, target, t) && 0 <= i < |t| - 1 :: SingleEdge(adj, t[i], t[i + 1])
  }

  ghost predicate Agree(adj: Graph, world: World, entry: Id, target: Id) {
    Reachable(LeastLink(adj, world), world, entry, target) <==> Reachable(SomeLink(adj, world), world, entry, target)
  }

  lemma HasStepMeans(adj: Graph, from: Id, to: Id)
    requires SortedGraph(adj)
    ensures HasStep(adj, from, to) <==> exists i | 0 <= i < |Steps(adj, from)| :: Steps(adj, from)[i].to == to
    ensures HasStep(adj, from, to) ==> Step(to, HopEdge(adj, from, to).value) in Steps(adj, from)
  {
    var steps := Steps(adj, from);
    assert SortedBy(StepLeq, steps);
    FirstEdgeIsLeast(steps, |steps|, to);
    assert steps[..|steps|] == steps;
  }

  lemma LeastImpliesSome(adj: Graph, world: World, entry: Id, target: Id)
    requires SortedGraph(adj) && Reachable(LeastLink(adj, world), world, entry, target)
    ensures Reachable(SomeLink(adj, world), world, entry, target)
  {
    var t :| Walk(LeastLink(adj, world), world, entry, target, t);
    forall i | 0 <= i < |t| - 1
      ensures SomeLink(adj, world)(t[i], t[i + 1])
    {
      assert LeastLink(adj, world)(t[i], t[i + 1]);
      HasStepMeans(adj, t[i], t[i + 1]);
    }
    assert Walk(SomeLink(adj, world), world, entry, target, t);
  }

  /** A live edge of a hop without parallel edges is the least edge of the hop. */
  lemma SingleIsLeast(adj: Graph, world: World, from: Id, to: Id)
    requires SortedGraph(adj) && HasStep(adj, from, to) && SingleEdge(adj, from, to) && SomeEdgeUp(adj, world, from, to)
    ensures LeastLink(adj, world)(from, to)
  {
    HasStepMeans(adj, from, to);
    var steps := Steps(adj, from);
    var j :| 0 <= j < |steps| && steps[j].to == to && Up(world.edgeAlive, steps[j].edgeID);
    var k :| 0 <= k < |steps| && steps[k] == Step(to, HopEdge(adj, from, to).value);
  }

  lemma SomeLinkHasStep(adj: Graph, world: World, from: Id, to: Id)
    requires SortedGraph(adj) && SomeLink(adj, world)(from, to)
    ensures HasStep(adj, from, to) && SomeEdgeUp(adj, world, from, to)
  {
    HasStepMeans(adj, from, to);
  }

  lemma SomeImpliesLeastWithoutParallels(adj: Graph, world: World, entry: Id, target: Id)
    requires SortedGraph(adj) && NoParallelHop(adj, entry, target)
    requires Reachable(SomeLink(adj, world), world, entry, target)
    ensures Reachable(LeastLink(adj, world), world, entry, target)
  {
    var t :| Walk(SomeLink(adj, world), world, entry, target, t);
    var s := Shorten(SomeLink(adj, world), world, entry, target, t);
    forall i | 0 <= i < |s| - 1
      ensures HasStep(adj, s[i], s[i + 1]) && SomeEdgeUp(adj, world, s[i], s[i + 1])
    {
      SomeLinkHasStep(adj, world, s[i], s[i + 1]);
    }
    assert SimplePath(adj, entry, target, s);
    forall i | 0 <= i < |s| - 1
      ensures LeastLink(adj, world)(s[i], s[i + 1])
    {
      SingleIsLeast(adj, world, s[i], s[i + 1]);
    }
    assert Walk(LeastLink(adj, world), world, entry, target, s);
  }

  type Ends = Id -> (Id, Id)

  /** An edge ID belongs to one ordered pair of services. */
  ghost predicate EdgesApart(adj: Graph, ends: Ends) {
    forall from, step: Step | step in Steps(adj, from) :: ends(step.edgeID) == (from, step.to)
  }

  /** Only the services of `t` are up, and the least edges of its hops, with `other` in place of hop `k`'s. */
  ghost function DetourWorld(adj: Graph, t: seq<Id>, k: nat, other: Id): World
    requires k + 1 < |t|
  {
    World(map[],
          map id | id in t :: true,
          map id | id in HopEdges(adj, t) + [other] :: id == other || Some(id) != HopEdge(adj, t[k], t[k + 1]))
  }

  ghost predicate ParallelAt(adj: Graph, entry: Id, target: Id, t: seq<Id>, k: nat, other: Id) {
    && SimplePath(adj, entry, target, t) && k + 1 < |t|
    && Step(t[k + 1], other) in Steps(adj, t[k])
    && HopEdge(adj, t[k], t[k + 1]) != Some(other)
  }

  lemma OtherEdgeUp(adj: Graph, t: seq<Id>, k: nat, other: Id)
    requires k + 1 < |t| && Step(t[k + 1], other) in Steps(adj, t[k])
    ensures SomeEdgeUp(adj, DetourWorld(adj, t, k, other), t[k], t[k + 1])
  {
    var steps := Steps(adj, t[k]);
    var j :| 0 <= j < |steps| && steps[j] == Step(t[k + 1], other);
    assert steps[j].to == t[k + 1] && Up(DetourWorld(adj, t, k, other).edgeAlive, steps[j].edgeID);
  }

  lemma LeastEdgeStaysUp(adj: Graph, ends: Ends, t: seq<Id>, k: nat, other: Id, i: nat)
    requires SortedGraph(adj) && EdgesApart(adj, ends) && k + 1 < |t| && i + 1 < |t| && t[i] != t[k]
    requires HasStep(adj, t[i], t[i + 1]) && HasStep(adj, t[k], t[k + 1])
    ensures SomeEdgeUp(adj, DetourWorld(adj, t, k, other), t[i], t[i + 1])
  {
    var steps, edge := Steps(adj, t[i]), HopEdge(adj, t[i], t[i + 1]).value;
    HasStepMeans(adj, t[i], t[i + 1]);
    HasStepMeans(adj, t[k], t[k + 1]);
    HopEdgesAt(adj, t, i);
    var j :| 0 <= j < |steps| && steps[j] == Step(t[i + 1], edge);
    assert ends(edge) == (t[i], t[i + 1]) && ends(HopEdge(adj, t[k], t[k + 1]).value) == (t[k], t[k + 1]);
    assert edge in HopEdges(adj, t);
    assert steps[j].to == t[i + 1] && Up(DetourWorld(adj, t, k, other).edgeAlive, steps[j].edgeID);
  }

  lemma DetourLink(adj: Graph, ends: Ends, entry: Id, target: Id, t: seq<Id>, k: nat, other: Id, i: nat)
    requires SortedGraph(adj) && EdgesApart(adj, ends) && ParallelAt(adj, entry, target, t, k, other) && i + 1 < |t|
    ensures SomeEdgeUp(adj, DetourWorld(adj, t, k, other), t[i], t[i + 1])
  {
    if i == k {
      OtherEdgeUp(adj, t, k, other);
    } else {
      assert t[i] != t[k];
      LeastEdgeStaysUp(adj, ends, t, k, other, i);
    }
  }

  lemma DetourReaches(adj: Graph, ends: Ends, entry: Id, target: Id, t: seq<Id>, k: nat, other: Id)
    requires SortedGraph(adj) && EdgesApart(adj, ends) && ParallelAt(adj, entry, target, t, k, other)
    ensures Reachable(SomeLink(adj, DetourWorld(adj, t, k, other)), DetourWorld(adj, t, k, other), entry, target)
  {
    var world := DetourWorld(adj, t, k, other);
    forall i | 0 <= i < |t| - 1
      ensures SomeLink(adj, world)(t[i], t[i + 1])
    {
      DetourLink(adj, ends, entry, target, t, k, other, i);
    }
    assert Walk(SomeLink(adj, world), world, entry, target, t);
  }

  /**
   In the detour world a live least-edge hop only ever leads one place further along `t`, and never out of place `k`.
   */
  lemma DetourHop(adj: Graph, ends: Ends, entry: Id, target: Id, t: seq<Id>, k: nat, other: Id, from: Id, to: Id)
    requires SortedGraph(adj) && EdgesApart(adj, ends) && ParallelAt(adj, entry, target, t, k, other)
    requires LeastEdgeUp(adj, DetourWorld(adj, t, k, other), from, to)
    ensures exists m | 0 <= m < |t| - 1 :: m != k && from == t[m] && to == t[m + 1]
  {
    HasStepMeans(adj, from, to);
    var edge := HopEdge(adj, from, to).value;
    assert ends(other) == (t[k], t[k + 1]) && ends(edge) == (from, to);
    assert edge != other;
    var m :| 0 <= m < |HopEdges(adj, t)| && HopEdges(adj, t)[m] == edge;
    HopEdgesLength(adj, t);
    HopEdgesAt(adj, t, m);
    assert HasStep(adj, t[m], t[m + 1]);
    HasStepMeans(adj, t[m], t[m + 1]);
    assert from == t[m] && to == t[m + 1];
  }

  lemma DetourStuck(adj: Graph, ends: Ends, entry: Id, target: Id, t: seq<Id>, k: nat, other: Id)
    requires SortedGraph(adj) && EdgesApart(adj, ends) && ParallelAt(adj, entry, target, t, k, other)
    ensures !Reachable(LeastLink(adj, DetourWorld(adj, t, k, other)), DetourWorld(adj, t, k, other), entry, target)
  {
    var world := DetourWorld(adj, t, k, other);
    if Reachable(LeastLink(adj, world), world, entry, target) {
      var w :| Walk(LeastLink(adj, world), world, entry, target, w);
      for q := 0 to |w| - 1
        invariant exists i | 0 <= i <= k :: w[q] == t[i]
      {
        var i :| 0 <= i <= k && w[q] == t[i];
        assert LeastLink(adj, world)(w[q], w[q + 1]);
        DetourHop(adj, ends, entry, target, t, k, other, w[q], w[q + 1]);
        var m :| 0 <= m < |t| - 1 && m != k && w[q] == t[m] && w[q + 1] == t[m + 1];
        assert m == i;
        assert w[q + 1] == t[m + 1] && m + 1 <= k;
      }
      assert false;
    }
  }

  /**
   The documented reading, reachable through live allowed edges, differs from what execution checks when services are
   joined by parallel allowed edges. The two agree in every world exactly when no hop of a simple path from the entry
   to the target has two allowed edges.
   */
  lemma ReachabilityAgreesExactly(adj: Graph, ends: Ends, entry: Id, target: Id)
    requires SortedGraph(adj) && EdgesApart(adj, ends)
    ensures (forall world :: Agree(adj, world, entry, target)) <==> NoParallelHop(adj, entry, target)
  {
    if NoParallelHop(adj, entry, target) {
      forall world
        ensures Agree(adj, world, entry, target)
      {
        if Reachable(LeastLink(adj, world), world, entry, target) {
          LeastImpliesSome(adj, world, entry, target);
        }
        if Reachable(SomeLink(adj, world), world, entry, target) {
          SomeImpliesLeastWithoutParallels(adj, world, entry, target);
        }
      }
    } else {
      var t, k :| SimplePath(adj, entry, target, t) && 0 <= k < |t| - 1 && !SingleEdge(adj, t[k], t[k + 1]);
      var steps := Steps(adj, t[k]);
      var i, j :| 0 <= i < j < |steps| && steps[i].to == t[k + 1] && steps[j].to == t[k + 1]
          && steps[i].edgeID != steps[j].edgeID;
      var other := if HopEdge(adj, t[k], t[k + 1]) == Some(steps[i].edgeID) then steps[j].edgeID else steps[i].edgeID;
      assert steps[i] in steps && steps[j] in steps;
      DetourReaches(adj, ends, entry, target, t, k, other);
      DetourStuck(adj, ends, entry, target, t, k, other);
      assert !Agree(adj, DetourWorld(adj, t, k, other), entry, target);
    }
  }
}
