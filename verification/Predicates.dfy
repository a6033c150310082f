/** Service predicates: all_of, any_of and k_of_n over services and nested predicates. */
module Predicates {
  import opened Ids

  datatype Kind = AllOf | AnyOf | KOfN | EdgeAware | Unknown

  datatype EdgeMode = SyncMode | AsyncMode

  datatype Definition = Definition(
    kind: Kind,
    services: seq<Id>,
    children: seq<Definition>,
    k: int,
    entryService: Id,
    mandatoryTargets: seq<Id>,
    edgeModes: seq<EdgeMode>,
    requiredEdges: seq<Id>)

  /** The operands of a definition that hold, counted over its first `n` services and first `m` children. */
  function Holding(def: Definition, alive: Id -> bool, n: nat, m: nat): nat
    requires n <= |def.services| && m <= |def.children|
    decreases def, 0, n + m
  {
    if m > 0 then Holding(def, alive, n, m - 1) + if Holds(def.children[m - 1], alive) then 1 else 0
    else if n > 0 then Holding(def, alive, n - 1, m) + if alive(def.services[n - 1]) then 1 else 0
    else 0
  }

  /** The documented meaning: every operand, at least one operand, at least k operands. */
  predicate Holds(def: Definition, alive: Id -> bool)
    decreases def, 1
  {
    match def.kind
    case AllOf =>
      && (forall i | 0 <= i < |def.services| :: alive(def.services[i]))
      && (forall i | 0 <= i < |def.children| :: Holds(def.children[i], alive))
    case AnyOf =>
      || (exists i | 0 <= i < |def.services| :: alive(def.services[i]))
      || (exists i | 0 <= i < |def.children| :: Holds(def.children[i], alive))
    case KOfN => Holding(def, alive, |def.services|, |def.children|) >= def.k
    case EdgeAware => false
    case Unknown => false
  }

  /** The engine's recursive evaluation. */
  method Evaluate(def: Definition, alive: Id -> bool) returns (ok: bool)
    ensures ok == Holds(def, alive)
    decreases def
  {
    match def.kind {
      case AllOf =>
        for i := 0 to |def.services|
          invariant forall j | 0 <= j < i :: alive(def.services[j])
        {
          if !alive(def.services[i]) {
            return false;
          }
        }
        for i := 0 to |def.children|
          invariant forall j | 0 <= j < i :: Holds(def.children[j], alive)
        {
          var child := Evaluate(def.children[i], alive);
          if !child {
            return false;
          }
        }
        return true;
      case AnyOf =>
        for i := 0 to |def.services|
          invariant forall j | 0 <= j < i :: !alive(def.services[j])
        {
          if alive(def.services[i]) {
            return true;
          }
        }
        for i := 0 to |def.children|
          invariant forall j | 0 <= j < i :: !Holds(def.children[j], alive)
        {
          var child := Evaluate(def.children[i], alive);
          if child {
            return true;
          }
        }
        return false;
      case KOfN =>
        var successes := 0;
        for i := 0 to |def.services|
          invariant successes == Holding(def, alive, i, 0)
        {
          if alive(def.services[i]) {
            successes := successes + 1;
          }
        }
        for i := 0 to |def.children|
          invariant successes == Holding(def, alive, |def.services|, i)
        {
          var child := Evaluate(def.children[i], alive);
          if child {
            successes := successes + 1;
          }
        }
        return successes >= def.k;
      case EdgeAware => return false;
      case Unknown => return false;
    }
  }

  lemma {:induction false} HoldingMonotone(def: Definition, fewer: Id -> bool, more: Id -> bool, n: nat, m: nat)
    requires n <= |def.services| && m <= |def.children|
    requires forall id :: fewer(id) ==> more(id)
    ensures Holding(def, fewer, n, m) <= Holding(def, more, n, m)
    decreases def, 0, n + m
  {
    if m > 0 {
      HoldingMonotone(def, fewer, more, n, m - 1);
      HoldsMonotone(def.children[m - 1], fewer, more);
    } else if n > 0 {
      HoldingMonotone(def, fewer, more, n - 1, m);
    }
  }

  /** Bringing services up never makes a predicate fail. */
  lemma {:induction false} HoldsMonotone(def: Definition, fewer: Id -> bool, more: Id -> bool)
    requires forall id :: fewer(id) ==> more(id)
    ensures Holds(def, fewer) ==> Holds(def, more)
    decreases def, 1
  {
    forall i | 0 <= i < |def.children|
      ensures Holds(def.children[i], fewer) ==> Holds(def.children[i], more)
    {
      HoldsMonotone(def.children[i], fewer, more);
    }
    HoldingMonotone(def, fewer, more, |def.services|, |def.children|);
  }

  lemma {:induction false} HoldingBounds(def: Definition, alive: Id -> bool, n: nat, m: nat)
    requires n <= |def.services| && m <= |def.children|
    ensures Holding(def, alive, n, m) <= n + m
    ensures Holding(def, alive, n, m) == n + m
        <==> (forall i | 0 <= i < n :: alive(def.services[i])) && forall i | 0 <= i < m :: Holds(def.children[i], alive)
    ensures Holding(def, alive, n, m) == 0
        <==> (forall i | 0 <= i < n :: !alive(def.services[i]))
             && forall i | 0 <= i < m :: !Holds(def.children[i], alive)
    decreases n + m
  {
    if m > 0 {
      HoldingBounds(def, alive, n, m - 1);
    } else if n > 0 {
      HoldingBounds(def, alive, n - 1, m);
    }
  }

  /** The three operators are one family: any_of is 1-of-n and all_of is n-of-n over the same operands. */
  lemma OperatorsAgree(def: Definition, alive: Id -> bool)
    ensures Holds(def.(kind := AnyOf), alive) <==> Holds(def.(kind := KOfN, k := 1), alive)
    ensures Holds(def.(kind := AllOf), alive)
        <==> Holds(def.(kind := KOfN, k := |def.services| + |def.children|), alive)
  {
    HoldingBounds(def.(kind := KOfN, k := 1), alive, |def.services|, |def.children|);
    HoldingBounds(def.(kind := KOfN, k := |def.services| + |def.children|), alive, |def.services|, |def.children|);
  }

  /** The listed services that are alive and the nested predicates that hold, by position. */
  ghost function AliveAt(def: Definition, alive: Id -> bool, n: nat): set<nat>
    requires n <= |def.services|
  {
    set i: nat | i < n && alive(def.services[i])
  }

  ghost function HoldingAt(def: Definition, alive: Id -> bool, m: nat): set<nat>
    requires m <= |def.children|
  {
    set i: nat | i < m && Holds(def.children[i], alive)
  }

  lemma AliveStep(def: Definition, alive: Id -> bool, n: nat)
    requires n < |def.services|
    ensures |AliveAt(def, alive, n + 1)| == |AliveAt(def, alive, n)| + if alive(def.services[n]) then 1 else 0
  {
    var before := AliveAt(def, alive, n);
    assert n !in before;
    assert AliveAt(def, alive, n + 1) == if alive(def.services[n]) then before + {n} else before;
  }

  lemma HoldingStep(def: Definition, alive: Id -> bool, m: nat)
    requires m < |def.children|
    ensures |HoldingAt(def, alive, m + 1)|
         == |HoldingAt(def, alive, m)| + if Holds(def.children[m], alive) then 1 else 0
  {
    var before := HoldingAt(def, alive, m);
    assert m !in before;
    assert HoldingAt(def, alive, m + 1) == if Holds(def.children[m], alive) then before + {m} else before;
  }

  lemma {:induction false} HoldingCounts(def: Definition, alive: Id -> bool, n: nat, m: nat)
    requires n <= |def.services| && m <= |def.children|
    ensures Holding(def, alive, n, m) == |AliveAt(def, alive, n)| + |HoldingAt(def, alive, m)|
    decreases n + m
  {
    if m > 0 {
      HoldingCounts(def, alive, n, m - 1);
      HoldingStep(def, alive, m - 1);
    } else if n > 0 {
      HoldingCounts(def, alive, n - 1, m);
      AliveStep(def, alive, n - 1);
    }
  }

  /**
   Every kind by its count: all of the listed services and nested predicates, any of them, at least k of them; the other
   kinds are never decided by counting and hold for no liveness.
   */
  lemma HoldsExactly(def: Definition, alive: Id -> bool)
    ensures var count := |AliveAt(def, alive, |def.services|)| + |HoldingAt(def, alive, |def.children|)|;
      Holds(def, alive)
      <==> || (def.kind == AllOf && count == |def.services| + |def.children|)
           || (def.kind == AnyOf && count > 0)
           || (def.kind == KOfN && count >= def.k)
  {
    HoldingCounts(def, alive, |def.services|, |def.children|);
    HoldingBounds(def, alive, |def.services|, |def.children|);
  }
}
