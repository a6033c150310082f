/** Legacy journeys: every simple path from the entry that cannot be extended, found by backtracking search. */
module Journeys {
  import opened Wrappers
  import opened Ids
  import opened Sorting
  import opened Topology
  import EdgeAware

  type Neighbours = map<Id, seq<Id>>

  type Journey = seq<Id>

  function Next(adj: Neighbours, from: Id): seq<Id> {
    if from in adj then adj[from] else []
  }

  ghost predicate Closed(adj: Neighbours, nodes: set<Id>) {
    forall from, i | from in nodes && 0 <= i < |Next(adj, from)| :: Next(adj, from)[i] in nodes
  }

  /** The neighbours not yet visited, repetitions included. */
  function Unvisited(next: seq<Id>, visited: set<Id>): seq<Id> {
    if next == [] then []
    else (if next[0] in visited then [] else [next[0]]) + Unvisited(next[1..], visited)
  }

  lemma {:induction false} UnvisitedMembers(next: seq<Id>, visited: set<Id>, id: Id)
    ensures id in Unvisited(next, visited) <==> id in next && id !in visited
  {
    if next != [] {
      UnvisitedMembers(next[1..], visited, id);
    }
  }

  lemma UnvisitedStep(next: seq<Id>, i: nat, visited: set<Id>)
    requires i < |next|
    ensures Unvisited(next[i..], visited)
         == (if next[i] in visited then [] else [next[i]]) + Unvisited(next[i + 1..], visited)
  {
    assert next[i..][0] == next[i] && next[i..][1..] == next[i + 1..];
  }

  // ----- what counts as a journey

  /** `t` avoids `visited`, follows neighbours, repeats nothing, and stops where every neighbour has been visited. */
  ghost predicate Trail(adj: Neighbours, visited: set<Id>, t: Journey)
    decreases |t|
  {
    && t != []
    && t[0] !in visited
    && var seen := visited + {t[0]};
    if Unvisited(Next(adj, t[0]), seen) == [] then |t| == 1
    else |t| > 1 && t[1] in Next(adj, t[0]) && Trail(adj, seen, t[1..])
  }

  /** The usual statement: a simple path from the entry whose end has no neighbour outside the path. */
  ghost predicate MaximalPath(adj: Neighbours, entry: Id, t: Journey) {
    && t != [] && t[0] == entry
    && (forall i | 0 <= i < |t| - 1 :: t[i + 1] in Next(adj, t[i]))
    && (forall i, j | 0 <= i < j < |t| :: t[i] != t[j])
    && (forall id | id in Next(adj, t[|t| - 1]) :: id in t)
  }

  ghost predicate Avoids(t: Journey, visited: set<Id>) {
    forall i | 0 <= i < |t| :: t[i] !in visited
  }

  /** The same with some services already visited before the path starts. */
  ghost predicate MaximalAfter(adj: Neighbours, visited: set<Id>, t: Journey) {
    && t != [] && Avoids(t, visited)
    && (forall i | 0 <= i < |t| - 1 :: t[i + 1] in Next(adj, t[i]))
    && (forall i, j | 0 <= i < j < |t| :: t[i] != t[j])
    && (forall id | id in Next(adj, t[|t| - 1]) :: id in t || id in visited)
  }

  lemma {:induction false} TrailIsMaximal(adj: Neighbours, visited: set<Id>, t: Journey)
    ensures Trail(adj, visited, t) <==> MaximalAfter(adj, visited, t)
    decreases |t|
  {
    if t != [] && t[0] !in visited {
      var seen := visited + {t[0]};
      var free := Unvisited(Next(adj, t[0]), seen);
      if |t| == 1 {
        if free != [] {
          UnvisitedMembers(Next(adj, t[0]), seen, free[0]);
        }
        forall id | id in Next(adj, t[0])
          ensures free == [] ==> id in t || id in visited
        {
          UnvisitedMembers(Next(adj, t[0]), seen, id);
        }
      } else {
        TrailIsMaximal(adj, seen, t[1..]);
        UnvisitedMembers(Next(adj, t[0]), seen, t[1]);
        MaximalTail(adj, visited, t);
      }
    }
  }

  lemma MaximalTail(adj: Neighbours, visited: set<Id>, t: Journey)
    requires |t| > 1 && t[0] !in visited
    ensures MaximalAfter(adj, visited, t) <==> t[1] in Next(adj, t[0]) && MaximalAfter(adj, visited + {t[0]}, t[1..])
  {
    var rest, seen := t[1..], visited + {t[0]};
    assert forall i | 0 <= i < |rest| :: rest[i] == t[i + 1];
    if MaximalAfter(adj, visited, t) {
      forall i | 0 <= i < |rest| - 1
        ensures rest[i + 1] in Next(adj, rest[i])
      {
        assert t[i + 2] in Next(adj, t[i + 1]);
      }
      assert MaximalAfter(adj, seen, rest);
    }
    if t[1] in Next(adj, t[0]) && MaximalAfter(adj, seen, rest) {
      forall i | 0 <= i < |t| - 1
        ensures t[i + 1] in Next(adj, t[i])
      {
        if i > 0 {
          assert rest[i] in Next(adj, rest[i - 1]);
        }
      }
      forall i, j | 0 <= i < j < |t|
        ensures t[i] != t[j]
      {
        assert rest[j - 1] !in seen;
        if i > 0 {
          assert rest[i - 1] != rest[j - 1];
        }
      }
      forall i | 0 <= i < |t|
        ensures t[i] !in visited
      {
        if i > 0 {
          assert rest[i - 1] !in seen;
        }
      }
    }
  }

  // ----- the search as a function of its state

  ghost function Raw(adj: Neighbours, nodes: set<Id>, current: Id, visited: set<Id>, path: Journey): seq<Journey>
    requires Closed(adj, nodes) && current in nodes && current !in visited
    decreases nodes - visited, 0
  {
    var here, seen := path + [current], visited + {current};
    var nexts := Sort(Leq, Unvisited(Next(adj, current), seen));
    NextsInside(adj, nodes, current, seen);
    if nexts == [] then [here] else RawNexts(adj, nodes, nexts, |nexts|, seen, here)
  }

  ghost function RawNexts(adj: Neighbours, nodes: set<Id>, nexts: seq<Id>, n: nat, visited: set<Id>,
      path: Journey): seq<Journey>
    requires Closed(adj, nodes) && n <= |nexts|
    requires forall i | 0 <= i < |nexts| :: nexts[i] in nodes && nexts[i] !in visited
    decreases nodes - visited, n + 1
  {
    if n == 0 then []
    else RawNexts(adj, nodes, nexts, n - 1, visited, path) + Raw(adj, nodes, nexts[n - 1], visited, path)
  }

  lemma NextsInside(adj: Neighbours, nodes: set<Id>, current: Id, seen: set<Id>)
    requires Closed(adj, nodes) && current in nodes
    ensures var nexts := Sort(Leq, Unvisited(Next(adj, current), seen));
      && (forall i | 0 <= i < |nexts| :: nexts[i] in nodes && nexts[i] !in seen)
      && (forall id :: id in nexts <==> id in Next(adj, current) && id !in seen)
      && (nexts == [] <==> Unvisited(Next(adj, current), seen) == [])
  {
    var free := Unvisited(Next(adj, current), seen);
    EdgeAware.IdOrder();
    SortSorts(Leq, free);
    forall id
      ensures id in Sort(Leq, free) <==> id in Next(adj, current) && id !in seen
    {
      UnvisitedMembers(Next(adj, current), seen, id);
    }
    forall i | 0 <= i < |Sort(Leq, free)|
      ensures Sort(Leq, free)[i] in nodes && Sort(Leq, free)[i] !in seen
    {
      assert Sort(Leq, free)[i] in Sort(Leq, free);
    }
  }

  /** What it means for a list to go on from a path and its current service. */
  lemma PrefixExtends(path: Journey, current: Id, sv: Journey)
    ensures var here := path + [current];
      && ((|sv| >= |here| && here == sv[..|here|])
          <==> (|sv| > |path| && path == sv[..|path|] && sv[|path|] == current))
      && (|sv| == |here| && here == sv[..|here|] ==> sv == here && sv[|path|..] == [current])
      && (|sv| > |here| && here == sv[..|here|] ==>
            && |sv[|path|..]| > 1 && sv[|path|..][0] == current && sv[|path|..][1] == sv[|here|]
            && sv[|path|..][1..] == sv[|here|..])
  {
    var here := path + [current];
    if |sv| >= |here| && here == sv[..|here|] {
      assert path == here[..|path|] == sv[..|path|] && sv[|path|] == here[|path|];
    }
    if |sv| > |path| && path == sv[..|path|] && sv[|path|] == current {
      assert sv[..|here|] == sv[..|path|] + [sv[|path|]];
    }
  }

  /** The search finds path + t exactly for the trails t from the current service. */
  lemma {:induction false} RawExact(adj: Neighbours, nodes: set<Id>, current: Id, visited: set<Id>, path: Journey,
      sv: Journey)
    requires Closed(adj, nodes) && current in nodes && current !in visited
    ensures sv in Raw(adj, nodes, current, visited, path)
        <==> |sv| > |path| && path == sv[..|path|] && sv[|path|] == current && Trail(adj, visited, sv[|path|..])
    decreases nodes - visited, 0
  {
    var here, seen := path + [current], visited + {current};
    var nexts := Sort(Leq, Unvisited(Next(adj, current), seen));
    NextsInside(adj, nodes, current, seen);
    PrefixExtends(path, current, sv);
    if nexts != [] {
      RawNextsExact(adj, nodes, nexts, |nexts|, seen, here, sv);
      assert nexts[..|nexts|] == nexts;
    }
  }

  lemma {:induction false} RawNextsExact(adj: Neighbours, nodes: set<Id>, nexts: seq<Id>, n: nat, visited: set<Id>,
      path: Journey, sv: Journey)
    requires Closed(adj, nodes) && n <= |nexts|
    requires forall i | 0 <= i < |nexts| :: nexts[i] in nodes && nexts[i] !in visited
    ensures sv in RawNexts(adj, nodes, nexts, n, visited, path)
        <==> |sv| > |path| && path == sv[..|path|] && sv[|path|] in nexts[..n] && Trail(adj, visited, sv[|path|..])
    decreases nodes - visited, n + 1
  {
    if n > 0 {
      RawNextsExact(adj, nodes, nexts, n - 1, visited, path, sv);
      RawExact(adj, nodes, nexts[n - 1], visited, path, sv);
      assert nexts[..n] == nexts[..n - 1] + [nexts[n - 1]];
    }
  }

  // ----- the engine's search

  class JourneySearch {
    const adj: Neighbours
    ghost const nodes: set<Id>
    var visited: map<Id, bool>
    var path: Journey
    var paths: seq<Journey>

    constructor (adj: Neighbours, ghost nodes: set<Id>)
      ensures this.adj == adj && this.nodes == nodes && visited == map[] && path == [] && paths == []
    {
      this.adj, this.nodes := adj, nodes;
      visited, path, paths := map[], [], [];
    }

    ghost function Marked(): set<Id>
      reads this
    {
      set id | id in visited && visited[id]
    }

    method CollectNexts(current: Id) returns (nexts: seq<Id>)
      ensures nexts == Sort(Leq, Unvisited(Next(adj, current), Marked()))
    {
      nexts := [];
      var next := Next(adj, current);
      for i := 0 to |next|
        invariant nexts + Unvisited(next[i..], Marked()) == Unvisited(next, Marked())
      {
        UnvisitedStep(next, i, Marked());
        if !(next[i] in visited && visited[next[i]]) {
          nexts := nexts + [next[i]];
        }
      }
      assert nexts == Unvisited(next, Marked());
      nexts := Sort(Leq, nexts);
    }

    /** One activation: appends what it finds and hands back the path and the marks as it got them. */
    method Dfs(current: Id)
      requires Closed(adj, nodes) && current in nodes && current !in Marked()
      modifies this
      ensures path == old(path) && Marked() == old(Marked())
      ensures paths == old(paths) + Raw(adj, nodes, current, old(Marked()), old(path))
      decreases nodes - Marked(), 0
    {
      ghost var marks := Marked();
      visited := visited[current := true];
      path := path + [current];
      assert Marked() == marks + {current};
      var nexts := CollectNexts(current);
      NextsInside(adj, nodes, current, Marked());
      if |nexts| == 0 {
        paths := paths + [path];
      } else {
        Visit(nexts);
      }
      path := path[..|path| - 1];
      visited := visited[current := false];
      assert Marked() == marks;
    }

    method Visit(nexts: seq<Id>)
      requires Closed(adj, nodes) && forall i | 0 <= i < |nexts| :: nexts[i] in nodes && nexts[i] !in Marked()
      modifies this
      ensures path == old(path) && Marked() == old(Marked())
      ensures paths == old(paths) + RawNexts(adj, nodes, nexts, |nexts|, old(Marked()), old(path))
      decreases nodes - Marked(), 1
    {
      for n := 0 to |nexts|
        invariant path == old(path) && Marked() == old(Marked())
        invariant paths == old(paths) + RawNexts(adj, nodes, nexts, n, old(Marked()), old(path))
      {
        Dfs(nexts[n]);
      }
    }
  }

  // ----- normalization

  /** Strictly ascending by joined name. */
  ghost predicate Ascending(out: seq<Journey>) {
    forall i, j | 0 <= i < j < |out| :: Less(Join(out[i]), Join(out[j]))
  }

  ghost predicate Named(out: seq<Journey>, key: string) {
    exists j | 0 <= j < |out| :: Join(out[j]) == key
  }

  /** Ascending, drawn from `paths`, with every name of `paths` present. */
  ghost predicate Normalizes(out: seq<Journey>, paths: seq<Journey>) {
    && Ascending(out)
    && (forall i | 0 <= i < |out| :: out[i] in paths)
    && (forall i | 0 <= i < |paths| :: Named(out, Join(paths[i])))
  }

  type ByName = map<string, Journey>

  ghost predicate NamesOf(uniq: ByName, keys: seq<string>, paths: seq<Journey>) {
    && (forall key :: key in keys <==> key in uniq)
    && (forall j, k | 0 <= j < k < |keys| :: keys[j] != keys[k])
    && (forall key | key in uniq :: uniq[key] in paths && Join(uniq[key]) == key)
  }

  method FirstByName(paths: seq<Journey>) returns (uniq: ByName, keys: seq<string>)
    ensures NamesOf(uniq, keys, paths) && forall j | 0 <= j < |paths| :: Join(paths[j]) in uniq
  {
    uniq, keys := map[], [];
    for i := 0 to |paths|
      invariant NamesOf(uniq, keys, paths) && forall j | 0 <= j < i :: Join(paths[j]) in uniq
    {
      var key := Join(paths[i]);
      if key in uniq {
        continue;
      }
      uniq := uniq[key := paths[i]];
      keys := keys + [key];
    }
  }

  method CloneAndNormalizeJourneys(paths: seq<Journey>) returns (out: seq<Journey>)
    ensures Normalizes(out, paths)
  {
    var uniq, keys := FirstByName(paths);
    ghost var listed := keys;
    EdgeAware.IdOrder();
    SortSorts(Leq, keys);
    keys := Sort(Leq, keys);
    SortedDistinct(listed, keys);
    out := CollectByKey(paths, uniq, keys);
    NamedByKeys(out, keys, uniq, paths);
    AscendingByKeys(out, keys);
  }

  method CollectByKey(ghost paths: seq<Journey>, uniq: ByName, keys: seq<string>) returns (out: seq<Journey>)
    requires forall key :: key in keys <==> key in uniq
    requires forall key | key in uniq :: uniq[key] in paths && Join(uniq[key]) == key
    ensures |out| == |keys| && forall j | 0 <= j < |keys| :: out[j] in paths && Join(out[j]) == keys[j]
  {
    out := [];
    for i := 0 to |keys|
      invariant |out| == i
      invariant forall j | 0 <= j < i :: out[j] in paths && Join(out[j]) == keys[j]
    {
      assert keys[i] in keys;
      out := out + [uniq[keys[i]]];
    }
  }

  lemma AscendingByKeys(out: seq<Journey>, keys: seq<string>)
    requires |out| == |keys| && forall j | 0 <= j < |out| :: Join(out[j]) == keys[j]
    requires StrictlyAscending(keys)
    ensures Ascending(out)
  {
  }

  ghost predicate StrictlyAscending(keys: seq<string>) {
    forall j, k | 0 <= j < k < |keys| :: Less(keys[j], keys[k])
  }

  lemma NamedByKeys(out: seq<Journey>, keys: seq<string>, uniq: ByName, paths: seq<Journey>)
    requires |out| == |keys| && forall j | 0 <= j < |out| :: Join(out[j]) == keys[j]
    requires forall key :: key in keys <==> key in uniq
    requires forall j | 0 <= j < |paths| :: Join(paths[j]) in uniq
    ensures forall i | 0 <= i < |paths| :: Named(out, Join(paths[i]))
  {
    forall i | 0 <= i < |paths|
      ensures Named(out, Join(paths[i]))
    {
      var key := Join(paths[i]);
      assert key in keys;
      var j :| 0 <= j < |keys| && keys[j] == key;
      assert Join(out[j]) == key;
    }
  }

  lemma SortedDistinct(listed: seq<string>, keys: seq<string>)
    requires multiset(listed) == multiset(keys) && SortedBy(Leq, keys)
    requires forall j, k | 0 <= j < k < |listed| :: listed[j] != listed[k]
    ensures StrictlyAscending(keys)
  {
    forall j, k | 0 <= j < k < |keys|
      ensures Less(keys[j], keys[k])
    {
      if keys[j] == keys[k] {
        Twice(keys, j, k);
        Once(listed, keys[j]);
        assert false;
      }
    }
  }

  ghost predicate PlainJourneys(paths: seq<Journey>) {
    forall i | 0 <= i < |paths| :: paths[i] != [] && AllPlain(paths[i])
  }

  /** With plain service IDs, names identify journeys, so normalization keeps exactly the given set. */
  lemma NormalizationKeepsSet(out: seq<Journey>, paths: seq<Journey>)
    requires Normalizes(out, paths) && PlainJourneys(paths)
    ensures forall t :: t in out <==> t in paths
  {
    forall t | t in paths
      ensures t in out
    {
      var i :| 0 <= i < |paths| && paths[i] == t;
      assert Named(out, Join(paths[i]));
      var j :| 0 <= j < |out| && Join(out[j]) == Join(t);
      assert out[j] in paths;
      var k :| 0 <= k < |paths| && paths[k] == out[j];
      JoinInjective(out[j], t);
    }
  }

  /** Two ascending lists of the same set are the same list. */
  lemma {:induction false} NormalizedUnique(a: seq<Journey>, b: seq<Journey>)
    requires Ascending(a) && Ascending(b) && forall t :: t in a <==> t in b
    ensures a == b
  {
    assert b != [] ==> b[0] in b;
    if a == [] {
    } else {
      assert a[0] in b;
      SameLeast(a, b);
      RestOfSet(a, b);
      NormalizedUnique(a[1..], b[1..]);
      assert a == [a[0]] + a[1..] && b == [b[0]] + b[1..];
    }
  }

  lemma SameLeast(a: seq<Journey>, b: seq<Journey>)
    requires Ascending(a) && Ascending(b) && a != [] && b != [] && a[0] in b && b[0] in a
    ensures a[0] == b[0]
  {
    var i :| 0 <= i < |b| && b[i] == a[0];
    var j :| 0 <= j < |a| && a[j] == b[0];
    if i > 0 {
      assert Less(Join(b[0]), Join(b[i]));
      assert j > 0 ==> Less(Join(a[0]), Join(a[j]));
      LeqTotal(Join(a[0]), Join(b[0]));
    }
  }

  lemma RestOfSet(a: seq<Journey>, b: seq<Journey>)
    requires Ascending(a) && Ascending(b) && a != [] && b != [] && a[0] == b[0] && forall t :: t in a <==> t in b
    ensures Ascending(a[1..]) && Ascending(b[1..]) && forall t :: t in a[1..] <==> t in b[1..]
  {
    forall t
      ensures t in a[1..] <==> t in b[1..]
    {
      assert t in a <==> t == a[0] || t in a[1..];
      assert t in b <==> t == b[0] || t in b[1..];
      NotAgain(a);
      NotAgain(b);
    }
  }

  lemma NotAgain(a: seq<Journey>)
    requires a != [] && Ascending(a)
    ensures a[0] !in a[1..]
  {
  }

  method DiscoverJourneys(adj: Neighbours, entry: Id, ghost nodes: set<Id>) returns (journeys: seq<Journey>)
    requires Closed(adj, nodes) && entry in nodes
    ensures Normalizes(journeys, Raw(adj, nodes, entry, {}, []))
  {
    var search := new JourneySearch(adj, nodes);
    assert search.Marked() == {};
    search.Dfs(entry);
    assert search.paths == Raw(adj, nodes, entry, {}, []);
    journeys := CloneAndNormalizeJourneys(search.paths);
  }

  lemma RawIsMaximal(adj: Neighbours, entry: Id, nodes: set<Id>, t: Journey)
    requires Closed(adj, nodes) && entry in nodes
    ensures t in Raw(adj, nodes, entry, {}, []) <==> MaximalPath(adj, entry, t)
  {
    RawExact(adj, nodes, entry, {}, [], t);
    assert t[0..] == t;
    TrailIsMaximal(adj, {}, t);
  }

  /** Discovery returns each maximal simple path from the entry once, in ascending name order, and nothing else. */
  lemma JourneysExact(adj: Neighbours, entry: Id, nodes: set<Id>, journeys: seq<Journey>)
    requires Closed(adj, nodes) && entry in nodes && forall id | id in nodes :: Plain(id)
    requires Normalizes(journeys, Raw(adj, nodes, entry, {}, []))
    ensures forall t :: t in journeys <==> MaximalPath(adj, entry, t)
    ensures Ascending(journeys)
  {
    var raw := Raw(adj, nodes, entry, {}, []);
    forall t
      ensures t in raw <==> MaximalPath(adj, entry, t)
    {
      RawIsMaximal(adj, entry, nodes, t);
    }
    forall i | 0 <= i < |raw|
      ensures raw[i] != [] && AllPlain(raw[i])
    {
      assert raw[i] in raw;
      StaysInside(adj, nodes, raw[i]);
    }
    NormalizationKeepsSet(journeys, raw);
  }

  lemma StaysInside(adj: Neighbours, nodes: set<Id>, t: Journey)
    requires Closed(adj, nodes) && t != [] && t[0] in nodes
        && (forall i | 0 <= i < |t| - 1 :: t[i + 1] in Next(adj, t[i]))
    ensures forall i | 0 <= i < |t| :: t[i] in nodes
  {
    for i := 1 to |t|
      invariant forall j | 0 <= j < i :: t[j] in nodes
    {
      assert t[i - 1 + 1] in Next(adj, t[i - 1]);
      var k :| 0 <= k < |Next(adj, t[i - 1])| && Next(adj, t[i - 1])[k] == t[i];
    }
  }

  /** Repeated or reordered neighbours make no difference to the result. */
  lemma JourneysIgnoreRepetition(a: Neighbours, b: Neighbours, entry: Id, nodes: set<Id>, fromA: seq<Journey>,
      fromB: seq<Journey>)
    requires Closed(a, nodes) && Closed(b, nodes) && entry in nodes && forall id | id in nodes :: Plain(id)
    requires forall from, to :: to in Next(a, from) <==> to in Next(b, from)
    requires Normalizes(fromA, Raw(a, nodes, entry, {}, [])) && Normalizes(fromB, Raw(b, nodes, entry, {}, []))
    ensures fromA == fromB
  {
    JourneysExact(a, entry, nodes, fromA);
    JourneysExact(b, entry, nodes, fromB);
    forall t
      ensures t in fromA <==> t in fromB
    {
      assert MaximalPath(a, entry, t) <==> MaximalPath(b, entry, t);
    }
    NormalizedUnique(fromA, fromB);
  }
}
