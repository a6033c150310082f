/** Placing failures so that chosen services are spared: how many can be spared, and an order that spares them. */
module Spares {
  import opened Wrappers
  import opened Ids
  import opened Draws

  /** Entry `i` of a failure population can keep the service up. */
  ghost predicate Keeper(names: seq<Option<Id>>, id: Id, i: nat) {
    i < |names| && names[i] == Some(id)
  }

  ghost predicate Kept(names: seq<Option<Id>>, id: Id) {
    exists i: nat :: Keeper(names, id, i)
  }

  /** Some entry after the first `k` of the order keeps the service up. */
  ghost predicate Survives(names: seq<Option<Id>>, order: seq<nat>, k: nat, id: Id) {
    exists j: nat :: k <= j < |order| && Keeper(names, id, order[j])
  }

  // ----- permutations reach everything

  function Below(n: nat): set<nat> {
    if n == 0 then {} else Below(n - 1) + {n - 1}
  }

  lemma {:induction false} BelowMeans(n: nat)
    ensures |Below(n)| == n && forall i: nat :: i in Below(n) <==> i < n
  {
    if n > 0 {
      BelowMeans(n - 1);
    }
  }

  function Members(s: seq<nat>): set<nat> {
    set x | x in s
  }

  lemma {:induction false} MembersSize(s: seq<nat>, k: nat)
    requires k <= |s| && forall i, j | 0 <= i < j < |s| :: s[i] != s[j]
    ensures |Members(s[..k])| == k
  {
    if k > 0 {
      MembersSize(s, k - 1);
      assert s[..k] == s[..k - 1] + [s[k - 1]];
      assert Members(s[..k]) == Members(s[..k - 1]) + {s[k - 1]};
    }
  }

  lemma {:induction false} SubsetSize(a: set<nat>, b: set<nat>)
    requires a <= b
    ensures |a| <= |b|
  {
    if a != {} {
      var x :| x in a;
      SubsetSize(a - {x}, b - {x});
    }
  }

  lemma PermutationReaches(order: seq<nat>, i: nat)
    requires IsPermutation(order, |order|) && i < |order|
    ensures i in order
  {
    if i !in order {
      var n := |order|;
      BelowMeans(n);
      MembersSize(order, n);
      assert order[..n] == order;
      assert Members(order) <= Below(n) - {i};
      SubsetSize(Members(order), Below(n) - {i});
      assert false;
    }
  }

  // ----- at most |names| - k services survive k failures

  /** The services with a surviving entry from position `k` on are no more than the entries there. */
  lemma {:induction false} SurvivorsFit(names: seq<Option<Id>>, order: seq<nat>, k: nat, services: set<Id>)
    requires k <= |order| && forall id | id in services :: Survives(names, order, k, id)
    ensures k + |services| <= |order|
    decreases |order| - k
  {
    if k == |order| {
      if id :| id in services {
        assert false;
      }
    } else {
      var gone := if order[k] < |names| then names[order[k]] else None;
      var others := set id | id in services && Some(id) != gone;
      forall id | id in others
        ensures Survives(names, order, k + 1, id)
      {
        var j: nat :| k <= j < |order| && Keeper(names, id, order[j]);
        assert k + 1 <= j;
      }
      SurvivorsFit(names, order, k + 1, others);
      if gone.Some? && gone.value in services {
        assert services == others + {gone.value};
      } else {
        assert services == others;
      }
    }
  }

  // ----- and that many can

  ghost predicate SparedBy(names: seq<Option<Id>>, spare: set<nat>, id: Id) {
    exists i: nat :: i in spare && Keeper(names, id, i)
  }

  /** One keeper for each of the services. */
  lemma {:induction false} ChooseKeepers(names: seq<Option<Id>>, services: set<Id>) returns (spare: set<nat>)
    requires forall id | id in services :: Kept(names, id)
    ensures |spare| <= |services| && spare <= Below(|names|)
    ensures forall id | id in services :: SparedBy(names, spare, id)
  {
    spare := {};
    if services != {} {
      var id :| id in services;
      var i: nat :| Keeper(names, id, i);
      var others := ChooseKeepers(names, services - {id});
      BelowMeans(|names|);
      spare := others + {i};
      assert SparedBy(names, spare, id);
      forall other | other in services && other != id
        ensures SparedBy(names, spare, other)
      {
        assert SparedBy(names, others, other);
      }
    }
  }

  /** The first `k` entries of the order are none of the spared ones. */
  ghost predicate Leads(order: seq<nat>, spare: set<nat>, k: int) {
    forall j: nat | j < k && j < |order| :: order[j] !in spare
  }

  lemma Appended(front: seq<nat>, n: nat)
    requires IsPermutation(front, n)
    ensures IsPermutation(front + [n], n + 1) && IsPermutation([n] + front, n + 1)
  {
  }

  lemma SpareLast(front: seq<nat>, n: nat, spare: set<nat>) returns (order: seq<nat>)
    requires n > 0 && n - 1 in spare && |spare| > 0
    requires IsPermutation(front, n - 1) && Leads(front, spare - {n - 1}, n - |spare|)
    ensures IsPermutation(order, n) && Leads(order, spare, n - |spare|)
  {
    order := front + [n - 1];
    Appended(front, n - 1);
    forall j: nat | j < n - |spare| && j < |order|
      ensures order[j] !in spare
    {
      assert j < |front| && order[j] == front[j] && front[j] != n - 1;
    }
  }

  lemma FailFirst(rest: seq<nat>, n: nat, spare: set<nat>) returns (order: seq<nat>)
    requires n > 0 && n - 1 !in spare
    requires IsPermutation(rest, n - 1) && Leads(rest, spare, n - 1 - |spare|)
    ensures IsPermutation(order, n) && Leads(order, spare, n - |spare|)
  {
    order := [n - 1] + rest;
    Appended(rest, n - 1);
    forall j: nat | j < n - |spare| && j < |order|
      ensures order[j] !in spare
    {
      assert j > 0 ==> order[j] == rest[j - 1];
    }
  }

  lemma TopSpare(n: nat, spare: set<nat>)
    requires n > 0 && spare <= Below(n)
    ensures spare - {n - 1} <= Below(n - 1)
    ensures if n - 1 in spare then |spare - {n - 1}| == |spare| - 1 else spare <= Below(n - 1)
  {
    BelowMeans(n);
    BelowMeans(n - 1);
  }

  /** An order that comes to the spared entries last. */
  lemma {:induction false} SparingOrder(n: nat, spare: set<nat>) returns (order: seq<nat>)
    requires spare <= Below(n)
    ensures IsPermutation(order, n) && Leads(order, spare, n - |spare|)
  {
    if n == 0 {
      order := [];
    } else if n - 1 in spare {
      TopSpare(n, spare);
      var front := SparingOrder(n - 1, spare - {n - 1});
      order := SpareLast(front, n, spare);
    } else {
      TopSpare(n, spare);
      var rest := SparingOrder(n - 1, spare);
      order := FailFirst(rest, n, spare);
    }
  }

  /** With room for them, k failures can be placed so that all the services survive. */
  lemma SparingOrderExists(names: seq<Option<Id>>, services: set<Id>, k: nat) returns (order: seq<nat>)
    requires k + |services| <= |names| && forall id | id in services :: Kept(names, id)
    ensures IsPermutation(order, |names|)
    ensures forall id | id in services :: Survives(names, order, k, id)
  {
    var spare := ChooseKeepers(names, services);
    order := SparingOrder(|names|, spare);
    forall id | id in services
      ensures Survives(names, order, k, id)
    {
      var i: nat :| i in spare && Keeper(names, id, i);
      PermutationReaches(order, i);
      var j: nat :| j < |order| && order[j] == i;
    }
  }
}
