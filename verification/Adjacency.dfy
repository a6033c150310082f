/** The adjacency lists path discovery walks: steps over allowed edges, sorted by target and then by edge ID. */
module Adjacency {
  import opened Wrappers
  import opened Ids
  import opened Sorting
  import opened Topology
  import opened Predicates

  datatype Step = Step(to: Id, edgeID: Id)

  type Graph = map<Id, seq<Step>>

  predicate StepLeq(a: Step, b: Step) {
    Less(a.to, b.to) || (a.to == b.to && Leq(a.edgeID, b.edgeID))
  }

  lemma StepOrder()
    ensures TotalPreorder(StepLeq)
  {
    forall a: Step, b: Step
      ensures StepLeq(a, b) || StepLeq(b, a)
    {
      LeqTotal(a.to, b.to);
      LeqTotal(a.edgeID, b.edgeID);
    }
    forall a: Step, b: Step, c: Step | StepLeq(a, b) && StepLeq(b, c)
      ensures StepLeq(a, c)
    {
      if a.to == b.to == c.to {
        LeqTransitive(a.edgeID, b.edgeID, c.edgeID);
      } else if a.to != b.to && b.to != c.to {
        LeqTransitive(a.to, b.to, c.to);
        LeqTotal(a.to, b.to);
      }
    }
  }

  /** Reading a missing adjacency list gives the empty one. */
  function Steps(adj: Graph, from: Id): seq<Step> {
    if from in adj then adj[from] else []
  }

  ghost predicate SortedGraph(adj: Graph) {
    forall from :: SortedBy(StepLeq, Steps(adj, from))
  }

  predicate EdgeAllowed(edge: Edge, modes: seq<EdgeMode>) {
    || (SyncMode in modes && edge.kind == Sync && edge.blocking)
    || (AsyncMode in modes && edge.kind == Async)
  }

  /** The allowed steps out of a service among the first `n` edges, in edge ID order. */
  function StepsFrom(ctx: Context, modes: seq<EdgeMode>, from: Id, n: nat): seq<Step>
    requires n <= |ctx.edgeIDs|
  {
    if n == 0 then []
    else
      var edge := ctx.EdgeOf(ctx.edgeIDs[n - 1]);
      StepsFrom(ctx, modes, from, n - 1)
      + if EdgeAllowed(edge, modes) && edge.from == from then [Step(edge.to, ctx.edgeIDs[n - 1])] else []
  }

  function Append(lists: Graph, from: Id, step: Step): (r: Graph)
    ensures forall id :: Steps(r, id) == if id == from then Steps(lists, from) + [step] else Steps(lists, id)
  {
    lists[from := Steps(lists, from) + [step]]
  }

  method CollectSteps(ctx: Context, modes: seq<EdgeMode>) returns (lists: Graph)
    ensures forall from :: Steps(lists, from) == StepsFrom(ctx, modes, from, |ctx.edgeIDs|)
  {
    lists := map[];
    for n := 0 to |ctx.edgeIDs|
      invariant forall from :: Steps(lists, from) == StepsFrom(ctx, modes, from, n)
    {
      var edge := ctx.EdgeOf(ctx.edgeIDs[n]);
      if !EdgeAllowed(edge, modes) {
        continue;
      }
      lists := Append(lists, edge.from, Step(edge.to, ctx.edgeIDs[n]));
    }
  }

  method SortLists(lists: Graph) returns (adj: Graph)
    ensures forall from :: Steps(adj, from) == Sort(StepLeq, Steps(lists, from))
  {
    adj := lists;
    var rest := lists.Keys;
    while rest != {}
      invariant rest <= lists.Keys == adj.Keys
      invariant forall from | from in lists :: adj[from] == if from in rest then lists[from]
          else Sort(StepLeq, lists[from])
      decreases rest
    {
      var from :| from in rest;
      adj := adj[from := Sort(StepLeq, adj[from])];
      rest := rest - {from};
    }
  }

  method BuildEdgeAdjacency(ctx: Context, modes: seq<EdgeMode>) returns (adj: Graph)
    ensures IsAdjacency(ctx, modes, adj)
  {
    var lists := CollectSteps(ctx, modes);
    adj := SortLists(lists);
  }

  /** The step is an allowed edge of the graph out of `from`. */
  predicate IsStep(ctx: Context, modes: seq<EdgeMode>, from: Id, step: Step) {
    && step.edgeID in ctx.edges
    && EdgeAllowed(ctx.edges[step.edgeID], modes)
    && ctx.edges[step.edgeID].from == from
    && ctx.edges[step.edgeID].to == step.to
  }

  lemma {:induction false} StepsFromSound(ctx: Context, modes: seq<EdgeMode>, from: Id, n: nat, step: Step)
    requires ctx.Valid() && n <= |ctx.edgeIDs| && step in StepsFrom(ctx, modes, from, n)
    ensures IsStep(ctx, modes, from, step)
  {
    if step in StepsFrom(ctx, modes, from, n - 1) {
      StepsFromSound(ctx, modes, from, n - 1, step);
    } else {
      assert ctx.edgeIDs[n - 1] in ctx.edges;
    }
  }

  lemma {:induction false} StepsFromComplete(ctx: Context, modes: seq<EdgeMode>, from: Id, n: nat, step: Step, at: nat)
    requires ctx.Valid() && at < n <= |ctx.edgeIDs| && ctx.edgeIDs[at] == step.edgeID && IsStep(ctx, modes, from, step)
    ensures step in StepsFrom(ctx, modes, from, n)
  {
    if at < n - 1 {
      StepsFromComplete(ctx, modes, from, n - 1, step, at);
    } else {
      assert StepsFrom(ctx, modes, from, n) == StepsFrom(ctx, modes, from, n - 1) + [step];
    }
  }

  ghost predicate IsAdjacency(ctx: Context, modes: seq<EdgeMode>, adj: Graph) {
    forall from :: Steps(adj, from) == Sort(StepLeq, StepsFrom(ctx, modes, from, |ctx.edgeIDs|))
  }

  /** The built lists are sorted and hold exactly the allowed edges of the graph. */
  lemma AdjacencyMeaning(ctx: Context, modes: seq<EdgeMode>, adj: Graph)
    requires ctx.Valid() && IsAdjacency(ctx, modes, adj)
    ensures SortedGraph(adj)
    ensures forall from, step :: step in Steps(adj, from) <==> IsStep(ctx, modes, from, step)
  {
    StepOrder();
    var n := |ctx.edgeIDs|;
    forall from
      ensures SortedBy(StepLeq, Steps(adj, from))
      ensures forall step :: step in Steps(adj, from) <==> step in StepsFrom(ctx, modes, from, n)
    {
      SortSorts(StepLeq, StepsFrom(ctx, modes, from, n));
    }
    forall from, step
      ensures step in Steps(adj, from) <==> IsStep(ctx, modes, from, step)
    {
      if step in StepsFrom(ctx, modes, from, n) {
        StepsFromSound(ctx, modes, from, n, step);
      }
      if IsStep(ctx, modes, from, step) {
        var at :| 0 <= at < n && ctx.edgeIDs[at] == step.edgeID;
        StepsFromComplete(ctx, modes, from, n, step, at);
      }
    }
  }

  // ----- the edge a hop uses

  /** The edge of the first of the first `n` steps that leads to `to`. */
  function FirstEdge(steps: seq<Step>, n: nat, to: Id): Option<Id>
    requires n <= |steps|
  {
    if n == 0 then None
    else
      var before := FirstEdge(steps, n - 1, to);
      if before.Some? then before else if steps[n - 1].to == to then Some(steps[n - 1].edgeID) else None
  }

  function HopEdge(adj: Graph, from: Id, to: Id): Option<Id> {
    FirstEdge(Steps(adj, from), |Steps(adj, from)|, to)
  }

  /** In a sorted list the first step to a target carries the least edge ID among all steps to that target. */
  lemma {:induction false} FirstEdgeIsLeast(steps: seq<Step>, n: nat, to: Id)
    requires n <= |steps| && SortedBy(StepLeq, steps)
    ensures FirstEdge(steps, n, to).None? <==> forall i | 0 <= i < n :: steps[i].to != to
    ensures FirstEdge(steps, n, to).Some? ==>
              && Step(to, FirstEdge(steps, n, to).value) in steps[..n]
              && forall i | 0 <= i < n && steps[i].to == to :: Leq(FirstEdge(steps, n, to).value, steps[i].edgeID)
  {
    if n > 0 {
      FirstEdgeIsLeast(steps, n - 1, to);
      assert steps[..n] == steps[..n - 1] + [steps[n - 1]];
      var before := FirstEdge(steps, n - 1, to);
      if before.Some? && steps[n - 1].to == to {
        var i :| 0 <= i < n - 1 && steps[i] == Step(to, before.value);
        assert StepLeq(steps[i], steps[n - 1]);
      } else if steps[n - 1].to == to {
        LeqTotal(steps[n - 1].edgeID, steps[n - 1].edgeID);
      }
    }
  }

  /** The lookup the engine builds from adjacency lists picks, for every pair, the same edge a first-match walk uses. */
  method EdgeLookup(adj: Graph) returns (lookup: map<Id, map<Id, Id>>)
    requires SortedGraph(adj)
    ensures lookup.Keys == adj.Keys
    ensures forall from, to | from in lookup ::
              HopEdge(adj, from, to) == if to in lookup[from] then Some(lookup[from][to]) else None
  {
    lookup := map[];
    var rest := adj.Keys;
    while rest != {}
      invariant rest <= adj.Keys && lookup.Keys == adj.Keys - rest
      invariant forall from, to | from in lookup ::
                  HopEdge(adj, from, to) == if to in lookup[from] then Some(lookup[from][to]) else None
      decreases rest
    {
      var from :| from in rest;
      assert SortedBy(StepLeq, Steps(adj, from));
      var targets := LookupFrom(adj[from]);
      lookup := lookup[from := targets];
      rest := rest - {from};
    }
  }

  method LookupFrom(steps: seq<Step>) returns (targets: map<Id, Id>)
    requires SortedBy(StepLeq, steps)
    ensures forall to :: FirstEdge(steps, |steps|, to) == if to in targets then Some(targets[to]) else None
  {
    targets := map[];
    for n := 0 to |steps|
      invariant forall to :: FirstEdge(steps, n, to) == if to in targets then Some(targets[to]) else None
    {
      var step := steps[n];
      FirstEdgeIsLeast(steps, n, step.to);
      FirstEdgeIsLeast(steps, n + 1, step.to);
      if step.to !in targets || Less(step.edgeID, targets[step.to]) {
        if step.to in targets {
          LeqTotal(step.edgeID, targets[step.to]);
        }
        targets := targets[step.to := step.edgeID];
      }
    }
  }
}
