/** Which edge-aware definitions can be planned, and what is said of those that cannot. */
module Planning {
  import opened Wrappers
  import opened Ids
  import opened Topology
  import opened Predicates
  import opened Adjacency
  import opened TargetPaths
  import opened EdgeAware
  import Sorting

  // ----- the source of a required call

  /** Some simple path leads from the entry to the service. */
  ghost predicate Reaches(adj: Graph, entry: Id, to: Id) {
    exists t :: SimplePath(adj, entry, to, t)
  }

  lemma {:induction false} AbsorbEmpty(paths: seq<Path>, found: seq<Path>)
    ensures |Absorb(paths, found)| >= |paths|
    ensures Absorb([], found) == [] <==> found == []
    decreases |found|
  {
    if found != [] {
      AbsorbEmpty(if HasID(paths, found[0].id) then paths else paths + [found[0]], found[1..]);
      assert !HasID([], found[0].id);
      AbsorbEmpty([found[0]], found[1..]);
      assert [] + [found[0]] == [found[0]];
    }
  }

  lemma SortedEmpty(paths: seq<Path>)
    ensures Sorting.Sort(PathLeq, paths) == [] <==> paths == []
  {
    PathOrder();
    Sorting.SortSorts(PathLeq, paths);
  }

  /** Whatever the services are called, discovery finds something exactly when there is a simple path. */
  lemma FindsExactly(adj: Graph, entry: Id, target: Id, nodes: set<Id>)
    requires Closed(adj, nodes) && entry in nodes
    ensures Discovered(adj, entry, target, nodes) != [] <==> Reaches(adj, entry, target)
  {
    var raw := Raw(adj, target, nodes, entry, {}, [], []);
    AbsorbEmpty([], raw);
    SortedEmpty(Absorb([], raw));
    if raw != [] {
      var p := raw[0];
      FirstOverIn(raw, p);
      RouteFound(adj, entry, target, nodes, p.services);
    }
    if t :| SimplePath(adj, entry, target, t) {
      RouteFound(adj, entry, target, nodes, t);
    }
  }

  lemma RouteFound(adj: Graph, entry: Id, target: Id, nodes: set<Id>, t: seq<Id>)
    requires Closed(adj, nodes) && entry in nodes
    ensures FirstOver(Raw(adj, target, nodes, entry, {}, [], []), t).Some? <==> SimplePath(adj, entry, target, t)
  {
    RawFirst(adj, target, nodes, entry, {}, [], [], t);
    assert [] + t == t;
    if t != [] {
      RouteIsSimplePath(adj, target, {}, t);
    }
  }

  // ----- one required call

  datatype CallFault = Absent | Excluded | Unreachable

  /** What is wrong with a required call, read from the edge: its presence, its kind and flag, its source. */
  ghost predicate Faulty(ctx: Context, def: Definition, adj: Graph, edgeID: Id, fault: CallFault) {
    match fault
    case Absent => edgeID !in ctx.edges
    case Excluded =>
      && edgeID in ctx.edges
      && (AsyncMode !in def.edgeModes || ctx.edges[edgeID].kind.Sync?)
      && (SyncMode !in def.edgeModes || ctx.edges[edgeID].kind.Async? || !ctx.edges[edgeID].blocking)
    case Unreachable =>
      && edgeID in ctx.edges
      && ((AsyncMode in def.edgeModes && ctx.edges[edgeID].kind.Async?)
          || (SyncMode in def.edgeModes && ctx.edges[edgeID].kind.Sync? && ctx.edges[edgeID].blocking))
      && ctx.edges[edgeID].from != def.entryService
      && !Reaches(adj, def.entryService, ctx.edges[edgeID].from)
  }

  function Message(fault: CallFault): string {
    match fault
    case Absent => "required edge is absent from the model"
    case Excluded => "required edge is excluded by edge_modes"
    case Unreachable => "required edge has a source unreachable from the entry service"
  }

  /** The call can be planned. */
  ghost predicate Sound(ctx: Context, def: Definition, adj: Graph, edgeID: Id) {
    forall fault :: !Faulty(ctx, def, adj, edgeID, fault)
  }

  lemma ListedExactly(ctx: Context, def: Definition, adj: Graph, edgeID: Id)
    requires ctx.Valid() && IsAdjacency(ctx, def.edgeModes, adj) && edgeID in ctx.edges
    ensures var steps := Steps(adj, ctx.edges[edgeID].from);
      (exists i | 0 <= i < |steps| :: steps[i].edgeID == edgeID) <==> !Faulty(ctx, def, adj, edgeID, Excluded)
  {
    AdjacencyMeaning(ctx, def.edgeModes, adj);
    var edge := ctx.edges[edgeID];
    var steps, step := Steps(adj, edge.from), Step(edge.to, edgeID);
    if i :| 0 <= i < |steps| && steps[i].edgeID == edgeID {
      assert steps[i] in steps;
      assert IsStep(ctx, def.edgeModes, edge.from, steps[i]);
    }
    if !Faulty(ctx, def, adj, edgeID, Excluded) {
      assert IsStep(ctx, def.edgeModes, edge.from, step);
      assert step in steps;
    }
  }

  /** The fault of a call that is not sound; faults exclude one another. */
  ghost function FaultOf(ctx: Context, def: Definition, adj: Graph, e: Id): CallFault {
    if Faulty(ctx, def, adj, e, Absent) then Absent
    else if Faulty(ctx, def, adj, e, Excluded) then Excluded
    else Unreachable
  }

  lemma FaultIs(ctx: Context, def: Definition, adj: Graph, e: Id, fault: CallFault)
    ensures Faulty(ctx, def, adj, e, fault) <==> !Sound(ctx, def, adj, e) && fault == FaultOf(ctx, def, adj, e)
  {
  }

  lemma SoundIs(ctx: Context, def: Definition, adj: Graph, e: Id)
    requires e in ctx.edges
    ensures Sound(ctx, def, adj, e)
        <==> && !Faulty(ctx, def, adj, e, Excluded)
             && (ctx.edges[e].from == def.entryService || Reaches(adj, def.entryService, ctx.edges[e].from))
  {
    forall fault
      ensures Faulty(ctx, def, adj, e, fault) ==> fault != Absent
    {
    }
    assert Faulty(ctx, def, adj, e, Unreachable)
        <==> && !Faulty(ctx, def, adj, e, Excluded) && ctx.edges[e].from != def.entryService
             && !Reaches(adj, def.entryService, ctx.edges[e].from);
  }

  /** What adding a call answers, from what it looks up. */
  lemma CallCases(ctx: Context, adj: Graph, entry: Id, found: Found, plan: Plan, e: Id)
    requires e in ctx.edges
    ensures var r, steps := WithCall(ctx, adj, entry, found, plan, e), Steps(adj, ctx.edges[e].from);
      var listed := exists i | 0 <= i < |steps| :: steps[i].edgeID == e;
      && (!listed ==> r == Err(Message(Excluded)))
      && (listed && ctx.edges[e].from != entry && found(ctx.edges[e].from) == [] ==> r == Err(Message(Unreachable)))
      && (r.Ok? <==> listed && (ctx.edges[e].from == entry || found(ctx.edges[e].from) != []))
  {
  }

  /** Adding a call fails with the message of its fault, and only then. */
  lemma CallExactly(ctx: Context, def: Definition, adj: Graph, plan: Plan, e: Id)
    requires ctx.Valid() && IsAdjacency(ctx, def.edgeModes, adj) && Closed(adj, ctx.services.Keys)
    requires def.entryService in ctx.services
    ensures var r := WithCall(ctx, adj, def.entryService, Finder(adj, def.entryService, ctx.services.Keys), plan, e);
      && (r.Ok? <==> Sound(ctx, def, adj, e))
      && (r.Err? ==> r == Err(Message(FaultOf(ctx, def, adj, e))))
  {
    var found := Finder(adj, def.entryService, ctx.services.Keys);
    if e in ctx.edges {
      SoundIs(ctx, def, adj, e);
      ListedExactly(ctx, def, adj, e);
      FindsExactly(adj, def.entryService, ctx.edges[e].from, ctx.services.Keys);
      assert found(ctx.edges[e].from) == Discovered(adj, def.entryService, ctx.edges[e].from, ctx.services.Keys);
      CallCases(ctx, adj, def.entryService, found, plan, e);
    } else {
      assert Faulty(ctx, def, adj, e, Absent);
    }
  }

  // ----- all required calls

  /** Adding any call to any plan answers according to `sound` and `message`. */
  ghost predicate Answers(ctx: Context, adj: Graph, entry: Id, found: Found, sound: Id -> bool, message: Id -> string) {
    forall plan, e {:trigger WithCall(ctx, adj, entry, found, plan, e)} ::
      var r := WithCall(ctx, adj, entry, found, plan, e);
      (r.Ok? <==> sound(e)) && (r.Err? ==> r == Err(message(e)))
  }

  /** Adding calls one by one goes on while they are sound. */
  lemma {:induction false} CallsGoOn(ctx: Context, adj: Graph, entry: Id, found: Found, base: Plan, calls: seq<Id>,
      n: nat, sound: Id -> bool, message: Id -> string)
    requires n <= |calls| && Answers(ctx, adj, entry, found, sound, message)
    ensures CallsPlan(ctx, adj, entry, found, base, calls, n).Ok? <==> forall i | 0 <= i < n :: sound(calls[i])
  {
    if n > 0 {
      CallsGoOn(ctx, adj, entry, found, base, calls, n - 1, sound, message);
    }
  }

  /** The first call that is not sound decides the answer. */
  lemma {:induction false} CallsStop(ctx: Context, adj: Graph, entry: Id, found: Found, base: Plan, calls: seq<Id>,
      n: nat, sound: Id -> bool, message: Id -> string, i: nat)
    requires i < n <= |calls| && Answers(ctx, adj, entry, found, sound, message)
    requires !sound(calls[i]) && forall j | 0 <= j < i :: sound(calls[j])
    ensures CallsPlan(ctx, adj, entry, found, base, calls, n) == Err(message(calls[i]))
  {
    if i < n - 1 {
      CallsStop(ctx, adj, entry, found, base, calls, n - 1, sound, message, i);
    } else {
      CallsGoOn(ctx, adj, entry, found, base, calls, i, sound, message);
    }
  }

  /** The i-th call is the first of the calls that cannot be planned, for this reason. */
  ghost predicate FirstFault(ctx: Context, def: Definition, adj: Graph, calls: seq<Id>, i: nat, fault: CallFault) {
    i < |calls| && Faulty(ctx, def, adj, calls[i], fault) && forall j | 0 <= j < i :: Sound(ctx, def, adj, calls[j])
  }

  lemma CallsExactly(ctx: Context, def: Definition, adj: Graph, base: Plan, calls: seq<Id>)
    requires ctx.Valid() && IsAdjacency(ctx, def.edgeModes, adj) && Closed(adj, ctx.services.Keys)
    requires def.entryService in ctx.services
    ensures var found := Finder(adj, def.entryService, ctx.services.Keys);
      var r := CallsPlan(ctx, adj, def.entryService, found, base, calls, |calls|);
      && (r.Ok? <==> forall i | 0 <= i < |calls| :: Sound(ctx, def, adj, calls[i]))
      && forall i: nat, fault | FirstFault(ctx, def, adj, calls, i, fault) :: r == Err(Message(fault))
  {
    var found := Finder(adj, def.entryService, ctx.services.Keys);
    forall plan, e
      ensures var r := WithCall(ctx, adj, def.entryService, found, plan, e);
        (r.Ok? <==> Sound(ctx, def, adj, e)) && (r.Err? ==> r == Err(Message(FaultOf(ctx, def, adj, e))))
    {
      CallExactly(ctx, def, adj, plan, e);
    }
    var sound, message := e => Sound(ctx, def, adj, e), e => Message(FaultOf(ctx, def, adj, e));
    CallsGoOn(ctx, adj, def.entryService, found, base, calls, |calls|, sound, message);
    forall i: nat, fault | FirstFault(ctx, def, adj, calls, i, fault)
      ensures CallsPlan(ctx, adj, def.entryService, found, base, calls, |calls|) == Err(Message(fault))
    {
      FaultIs(ctx, def, adj, calls[i], fault);
      CallsStop(ctx, adj, def.entryService, found, base, calls, |calls|, sound, message, i);
    }
  }

  // ----- the definition itself

  /** The characters Unicode calls white space. */
  ghost predicate WhiteSpace(c: char) {
    c as int in {9, 10, 11, 12, 13, 32, 0x85, 0xA0, 0x1680, 0x2028, 0x2029, 0x202F, 0x205F, 0x3000}
    || 0x2000 <= c as int <= 0x200A
  }

  ghost predicate Named(id: Id) {
    exists i | 0 <= i < |id| :: !WhiteSpace(id[i])
  }

  /** What a definition must have and must not have. */
  ghost predicate WellFormed(def: Definition) {
    && def.kind == Kind.EdgeAware && |def.mandatoryTargets| > 0 && |def.edgeModes| > 0
    && |def.services| == |def.children| == 0 && def.k == 0
    && Named(def.entryService)
    && (forall id | id in def.mandatoryTargets :: Named(id))
    && (forall id | id in def.requiredEdges :: Named(id) && multiset(def.requiredEdges)[id] == 1)
  }

  lemma BlankIs(id: Id)
    ensures Blank(id) <==> !Named(id)
  {
    forall c: char
      ensures IsSpace(c) <==> WhiteSpace(c)
    {
    }
    if !Blank(id) {
      var i :| 0 <= i < |id| && !IsSpace(id[i]);
      assert !WhiteSpace(id[i]);
    }
  }

  lemma NoneBlank(ids: seq<Id>)
    ensures AnyBlank(ids) <==> exists id | id in ids :: !Named(id)
  {
    if i :| 0 <= i < |ids| && Blank(ids[i]) {
      BlankIs(ids[i]);
      assert ids[i] in ids;
    }
    if id :| id in ids && !Named(id) {
      var i :| 0 <= i < |ids| && ids[i] == id;
      BlankIs(ids[i]);
    }
  }

  lemma {:induction false} OnceEach(ids: seq<Id>)
    ensures (forall i, j | 0 <= i < j < |ids| :: ids[i] != ids[j]) <==> forall id | id in ids :: multiset(ids)[id] == 1
  {
    if |ids| > 0 {
      var last, front := ids[|ids| - 1], ids[..|ids| - 1];
      OnceEach(front);
      assert ids == front + [last];
      assert forall id :: multiset(ids)[id] == multiset(front)[id] + if id == last then 1 else 0;
      assert last in front <==> multiset(front)[last] > 0;
    }
  }

  lemma WellFormedIs(def: Definition)
    ensures DefinitionValid(def) <==> WellFormed(def)
  {
    BlankIs(def.entryService);
    NoneBlank(def.mandatoryTargets);
    NoneBlank(def.requiredEdges);
    OnceEach(def.requiredEdges);
  }

  /**
   Planning succeeds exactly when the definition is well-formed, its services are known, and every required call is in
   the graph, selected by the modes, and called by the entry or a service that can be reached from it. Otherwise the
   definition is blamed first, then its services, and then the first faulty call in ID order, by its fault.
   */
  lemma PlanExactly(ctx: Context, def: Definition, adj: Graph)
    requires ctx.Valid() && IsAdjacency(ctx, def.edgeModes, adj) && Closed(adj, ctx.services.Keys)
    ensures var known := def.entryService in ctx.services && forall t | t in def.mandatoryTargets :: t in ctx.services;
      var r, calls := Planned(ctx, def, adj), SortedUnique(def.requiredEdges);
      && (r.Ok? <==> WellFormed(def) && known && forall e | e in def.requiredEdges :: Sound(ctx, def, adj, e))
      && (!WellFormed(def) ==> r == Err("invalid predicate"))
      && (WellFormed(def) && !known ==> r == Err("predicate references unknown service"))
      && (WellFormed(def) && known ==>
            forall i: nat, fault | FirstFault(ctx, def, adj, calls, i, fault) :: r == Err(Message(fault)))
  {
    WellFormedIs(def);
    KnownIs(ctx, def);
    if WellFormed(def) && ServicesKnown(ctx, def) {
      var found := Finder(adj, def.entryService, ctx.services.Keys);
      var targets, calls := SortedUnique(def.mandatoryTargets), SortedUnique(def.requiredEdges);
      CallsExactly(ctx, def, adj, TargetsPlan(found, targets, |targets|), calls);
      SortedUniqueMembers(def.requiredEdges);
      EachSound(ctx, def, adj, def.requiredEdges, calls);
    }
  }

  lemma KnownIs(ctx: Context, def: Definition)
    ensures ServicesKnown(ctx, def)
        <==> def.entryService in ctx.services && forall t | t in def.mandatoryTargets :: t in ctx.services
  {
  }

  lemma EachSound(ctx: Context, def: Definition, adj: Graph, ids: seq<Id>, calls: seq<Id>)
    requires forall id :: id in calls <==> id in ids
    ensures (forall i | 0 <= i < |calls| :: Sound(ctx, def, adj, calls[i]))
        <==> forall e | e in ids :: Sound(ctx, def, adj, e)
  {
    if forall i | 0 <= i < |calls| :: Sound(ctx, def, adj, calls[i]) {
      forall e | e in ids
        ensures Sound(ctx, def, adj, e)
      {
        assert e in calls;
      }
    } else {
      var i :| 0 <= i < |calls| && !Sound(ctx, def, adj, calls[i]);
      assert calls[i] in ids;
    }
  }
}
