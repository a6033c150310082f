/** What importance reports about a component, how components are ranked, and which ones can never matter. */
module Ranking {
  import opened Wrappers
  import opened Ids
  import opened Sorting
  import opened Topology
  import opened Counting
  import opened Endpoints
  import opened Wilson
  import opened Birnbaum
  import opened Expectation
  import opened LiveStates
  import opened BirnbaumMeaning
  import SlotList = Slots
  import Predicates
  import EdgeAware

  datatype Ranked = Ranked(
    component: Component,
    rank: nat,
    liveProbability: real,
    ifUp: real,
    ifDown: real,
    importance: real,
    confidence: Interval,
    forcedDown: real,
    gain: real)

  function Measure(component: Component, liveProbability: real, count: Count, trials: nat, quantile: Quantile): Ranked
    requires trials > 0 && quantile.z > 0.0
  {
    var confidence := WilsonInterval(count.pivotal, trials, quantile);
    Ranked(component, 0, liveProbability, count.up as real / trials as real, count.down as real / trials as real,
           confidence.estimate, confidence, liveProbability * confidence.estimate,
           (1.0 - liveProbability) * confidence.estimate)
  }

  lemma MeasuredCount(component: Component, liveProbability: real, count: Count, base: nat, trials: nat,
      quantile: Quantile)
    requires trials > 0 && quantile.Valid()
    requires count.pivotal == count.up - count.down && count.down <= base <= count.up <= trials
    ensures var m := Measure(component, liveProbability, count, trials, quantile);
      && m.importance == m.ifUp - m.ifDown
      && m.ifDown <= base as real / trials as real <= m.ifUp
      && m.forcedDown + m.gain == m.importance
      && 0.0 <= m.confidence.lower <= m.importance <= m.confidence.upper <= 1.0
  {
    var n := trials as real;
    QuotientOrder(count.down as real, base as real, n);
    QuotientOrder(base as real, count.up as real, n);
    IntervalContainsEstimate(count.pivotal, trials, quantile);
    QuotientDifference(count.up as real, count.down as real, n);
    Shares(liveProbability, WilsonInterval(count.pivotal, trials, quantile).estimate);
  }

  /**
   What the reported numbers of a component mean: its importance is the availability it decides, the baseline lies
   between the two counterfactual availabilities, and forced-down impact and perfect-component gain share it out by the
   exact probability that sampling leaves the component up.
   */
  lemma MeasureLaws(study: Study, paths: PathIndex, e: nat, c: nat, trials: nat, quantile: Quantile)
    requires Ready(study, paths) && e < |study.endpoints| && c < |study.components| && trials > 0 && quantile.Valid()
    requires Independent(study.profile)
    ensures var q := LiveProbability(study.ctx, study.profile, study.components[c]);
      var m := Measure(study.components[c], q, CountAt(study, paths, e, c, trials), trials, quantile);
      var baseline := CountTrue(Base(study, paths, e), trials) as real / trials as real;
      && m.importance == m.ifUp - m.ifDown
      && m.ifDown <= baseline <= m.ifUp
      && m.forcedDown + m.gain == m.importance
      && 0.0 <= m.confidence.lower <= m.importance <= m.confidence.upper <= 1.0
      && m.liveProbability == Chance(Rates(study.ctx, study.profile),
          IsUpOn(study.ctx, study.profile, study.components[c]))
  {
    var liveProbability := LiveProbability(study.ctx, study.profile, study.components[c]);
    LiveExactly(study, c);
    StudyLaws(study, paths, e, c, trials);
    CountBounded(WhenForced(study, paths, e, c, true), trials);
    MeasuredCount(study.components[c], liveProbability, CountAt(study, paths, e, c, trials),
        CountTrue(Base(study, paths, e), trials),
      trials, quantile);
  }

  /**
   The counterfactual availabilities are the shares of trials won with the component up and down; what forcing it down
   costs is the importance in the share of cases it is up, and perfecting it gains the importance in the other cases.
   */
  lemma MeasureShares(component: Component, q: real, count: Count, trials: nat, quantile: Quantile)
    requires trials > 0 && quantile.z > 0.0
    ensures var m := Measure(component, q, count, trials, quantile);
      && m.component == component && m.liveProbability == q
      && m.ifUp == count.up as real / trials as real && m.ifDown == count.down as real / trials as real
      && m.importance == count.pivotal as real / trials as real
      && m.forcedDown == q * m.importance && m.gain == (1.0 - q) * m.importance
  {
  }

  lemma LiveExactly(study: Study, c: nat)
    requires study.Valid() && Independent(study.profile) && c < |study.components|
    ensures LiveProbability(study.ctx, study.profile, study.components[c])
         == Chance(Rates(study.ctx, study.profile), IsUpOn(study.ctx, study.profile, study.components[c]))
  {
    var spot := SpotOf(study, c);
    SlotList.ValidEntries(study.ctx);
    LiveProbabilityExact(study.ctx, study.profile, spot);
  }

  lemma QuotientDifference(a: real, b: real, n: real)
    requires n > 0.0
    ensures a / n - b / n == (a - b) / n
  {
  }

  lemma Shares(q: real, x: real)
    ensures q * x + (1.0 - q) * x == x
  {
  }

  // ----- ranking

  /** "edge" sorts before "service". */
  predicate KindBefore(a: Kind, b: Kind) {
    a.EdgeKind? && b.ServiceKind?
  }

  /** More important first; ties by kind and then by ID. */
  predicate RankLeq(a: Ranked, b: Ranked) {
    || a.importance > b.importance
    || (a.importance == b.importance
        && (KindBefore(a.component.kind, b.component.kind)
            || (a.component.kind == b.component.kind && Leq(a.component.id, b.component.id))))
  }

  lemma RankOrder()
    ensures TotalPreorder(RankLeq)
  {
    EdgeAware.IdOrder();
    forall a: Ranked, b: Ranked
      ensures RankLeq(a, b) || RankLeq(b, a)
    {
      LeqTotal(a.component.id, b.component.id);
    }
    forall a: Ranked, b: Ranked, c: Ranked | RankLeq(a, b) && RankLeq(b, c)
      ensures RankLeq(a, c)
    {
      if a.component.kind == b.component.kind == c.component.kind && a.importance == b.importance == c.importance {
        LeqTransitive(a.component.id, b.component.id, c.component.id);
      }
    }
  }

  /** How many components are strictly more important. */
  function Better(s: seq<Ranked>, importance: real): nat {
    if s == [] then 0 else (if s[0].importance > importance then 1 else 0) + Better(s[1..], importance)
  }

  lemma {:induction false} BetterSplit(s: seq<Ranked>, i: nat, importance: real)
    requires i <= |s|
    requires forall j | 0 <= j < i :: s[j].importance > importance
    requires forall j | i <= j < |s| :: s[j].importance <= importance
    ensures Better(s, importance) == i
  {
    if s != [] {
      BetterSplit(s[1..], if i > 0 then i - 1 else 0, importance);
    }
  }

  lemma {:induction false} BetterInserted(x: Ranked, s: seq<Ranked>, importance: real)
    ensures Better(Insert(RankLeq, x, s), importance) == Better(s, importance) + if x.importance > importance then 1
        else 0
  {
    if s == [] || RankLeq(x, s[0]) {
      assert ([x] + s)[1..] == s;
    } else {
      BetterInserted(x, s[1..], importance);
      assert ([s[0]] + Insert(RankLeq, x, s[1..]))[1..] == Insert(RankLeq, x, s[1..]);
    }
  }

  lemma {:induction false} BetterSorted(s: seq<Ranked>, importance: real)
    ensures Better(Sort(RankLeq, s), importance) == Better(s, importance)
  {
    if s != [] {
      BetterSorted(s[1..], importance);
      BetterInserted(s[0], Sort(RankLeq, s[1..]), importance);
    }
  }

  /** In a sorted list an element starts a new rank exactly where the importance drops. */
  lemma RankAt(s: seq<Ranked>, i: nat)
    requires SortedBy(RankLeq, s) && i < |s|
    ensures i == 0 || s[i - 1].importance != s[i].importance ==> Better(s, s[i].importance) == i
  {
    if i == 0 || s[i - 1].importance != s[i].importance {
      forall j | 0 <= j < i
        ensures s[j].importance > s[i].importance
      {
        assert RankLeq(s[j], s[i - 1]) || j == i - 1;
        assert RankLeq(s[i - 1], s[i]);
      }
      forall j | i <= j < |s|
        ensures s[j].importance <= s[i].importance
      {
        assert RankLeq(s[i], s[j]) || j == i;
      }
      BetterSplit(s, i, s[i].importance);
    }
  }

  lemma RankStep(s: seq<Ranked>, i: nat)
    requires SortedBy(RankLeq, s) && i < |s|
    ensures Better(s, s[i].importance)
         == if i > 0 && s[i].importance == s[i - 1].importance then Better(s, s[i - 1].importance) else i
  {
    RankAt(s, i);
  }

  function RankedList(s: seq<Ranked>): seq<Ranked> {
    seq(|s|, i requires 0 <= i < |s| => s[i].(rank := Better(s, s[i].importance) + 1))
  }

  method AssignRanks(components: array<Ranked>)
    requires SortedBy(RankLeq, components[..])
    modifies components
    ensures components[..] == RankedList(old(components[..]))
  {
    ghost var s := components[..];
    for i := 0 to components.Length
      invariant forall j | 0 <= j < i :: components[j] == s[j].(rank := Better(s, s[j].importance) + 1)
      invariant forall j | i <= j < components.Length :: components[j] == s[j]
    {
      RankStep(s, i);
      components[i] := components[i].(rank := i + 1);
      if i > 0 && components[i].importance == components[i - 1].importance {
        components[i] := components[i].(rank := components[i - 1].rank);
      }
    }
  }

  /** How many entries a report keeps; zero keeps all. */
  function Kept(topK: int, n: nat): nat {
    if 0 < topK < n then topK else n
  }

  function Reported(measured: seq<Ranked>, topK: int): seq<Ranked> {
    var ranked := RankedList(Sort(RankLeq, measured));
    ranked[..Kept(topK, |ranked|)]
  }

  method RankComponents(measured: seq<Ranked>, topK: int) returns (out: seq<Ranked>)
    ensures out == Reported(measured, topK)
  {
    RankOrder();
    SortSorts(RankLeq, measured);
    var sorted := Sort(RankLeq, measured);
    var components := new Ranked[|sorted|](i requires 0 <= i < |sorted| => sorted[i]);
    assert components[..] == sorted;
    AssignRanks(components);
    out := components[..];
    if 0 < topK < |out| {
      out := out[..topK];
    }
  }

  /**
   The reported list: every rank is one more than the number of strictly more important components among all measured
   ones, equal importance means equal rank, and nothing that was cut off is more important than anything kept.
   */
  lemma RanksMean(measured: seq<Ranked>, topK: int)
    ensures var out := Reported(measured, topK);
      var sorted := Sort(RankLeq, measured);
      && |out| == Kept(topK, |measured|)
      && multiset(sorted) == multiset(measured)
      && (forall i | 0 <= i < |out| :: out[i] == sorted[i].(rank := Better(measured, sorted[i].importance) + 1))
      && (forall i, j | 0 <= i < j < |out| :: out[i].rank <= out[j].rank && out[i].importance >= out[j].importance)
      && (forall i, j | 0 <= i < |out| <= j < |sorted| :: out[i].importance >= sorted[j].importance)
  {
    var sorted := Sort(RankLeq, measured);
    RankOrder();
    SortSorts(RankLeq, measured);
    forall i | 0 <= i < |sorted|
      ensures Better(sorted, sorted[i].importance) == Better(measured, sorted[i].importance)
    {
      BetterSorted(measured, sorted[i].importance);
    }
    forall i, j | 0 <= i < j < |sorted|
      ensures sorted[i].importance >= sorted[j].importance
      ensures Better(sorted, sorted[i].importance) <= Better(sorted, sorted[j].importance)
    {
      assert RankLeq(sorted[i], sorted[j]);
      BetterMonotone(sorted, sorted[i].importance, sorted[j].importance);
    }
  }

  /** A report keeps the first topK entries when there are more and topK is positive, and everything otherwise. */
  lemma ReportLength(measured: seq<Ranked>, topK: int)
    ensures |Reported(measured, topK)| == if topK <= 0 || |measured| <= topK then |measured| else topK
    ensures Reported(measured, topK) <= Reported(measured, 0)
  {
    RankOrder();
    SortSorts(RankLeq, measured);
  }

  /** Before b in a report: more important, or as important and an edge before a service, or of least ID in its kind. */
  ghost predicate ListedBefore(a: Ranked, b: Ranked) {
    && a.importance >= b.importance
    && (a.importance == b.importance ==>
          && (a.component.kind.ServiceKind? ==> b.component.kind.ServiceKind?)
          && (a.component.kind == b.component.kind ==>
                (a.component.id == b.component.id || Less(a.component.id, b.component.id))))
  }

  /** The order of the reported list, ties included. */
  lemma ReportOrder(measured: seq<Ranked>, topK: int, i: nat, j: nat)
    requires i < j < |Reported(measured, topK)|
    ensures ListedBefore(Reported(measured, topK)[i], Reported(measured, topK)[j])
  {
    RankOrder();
    SortSorts(RankLeq, measured);
    var sorted := Sort(RankLeq, measured);
    assert RankLeq(sorted[i], sorted[j]);
    LeqTotal(sorted[i].component.id, sorted[j].component.id);
  }

  lemma {:induction false} BetterMonotone(s: seq<Ranked>, high: real, low: real)
    requires high >= low
    ensures Better(s, high) <= Better(s, low)
  {
    if s != [] {
      BetterMonotone(s[1..], high, low);
    }
  }

  // ----- components that cannot matter

  predicate Mentions(def: Predicates.Definition, id: Id) {
    id in def.services || exists i | 0 <= i < |def.children| :: Mentions(def.children[i], id)
  }

  lemma {:induction false} HoldingReadsMentioned(def: Predicates.Definition, a: Id -> bool, b: Id -> bool, n: nat,
      m: nat)
    requires n <= |def.services| && m <= |def.children|
    requires forall id :: Mentions(def, id) ==> a(id) == b(id)
    ensures Predicates.Holding(def, a, n, m) == Predicates.Holding(def, b, n, m)
    decreases def, 0, n + m
  {
    if m > 0 {
      HoldingReadsMentioned(def, a, b, n, m - 1);
      forall id | Mentions(def.children[m - 1], id)
        ensures a(id) == b(id)
      {
        assert Mentions(def, id);
      }
      HoldsReadsMentioned(def.children[m - 1], a, b);
    } else if n > 0 {
      HoldingReadsMentioned(def, a, b, n - 1, m);
      assert Mentions(def, def.services[n - 1]);
    }
  }

  /** A predicate's value depends only on the services it mentions, at any depth. */
  lemma {:induction false} HoldsReadsMentioned(def: Predicates.Definition, a: Id -> bool, b: Id -> bool)
    requires forall id :: Mentions(def, id) ==> a(id) == b(id)
    ensures Predicates.Holds(def, a) <==> Predicates.Holds(def, b)
    decreases def, 1
  {
    forall i | 0 <= i < |def.children|
      ensures Predicates.Holds(def.children[i], a) <==> Predicates.Holds(def.children[i], b)
    {
      forall id | Mentions(def.children[i], id)
        ensures a(id) == b(id)
      {
        assert Mentions(def, id);
      }
      HoldsReadsMentioned(def.children[i], a, b);
    }
    forall i | 0 <= i < |def.services|
      ensures a(def.services[i]) == b(def.services[i])
    {
      assert Mentions(def, def.services[i]);
    }
    HoldingReadsMentioned(def, a, b, |def.services|, |def.children|);
  }

  predicate OnPath(path: Path, component: Component) {
    match component.kind
    case ServiceKind => component.id in path.services
    case EdgeKind => component.id in path.edgeIDs
  }

  /** The endpoint looks at the component: its predicate mentions the service, or one of its paths uses the part. */
  predicate Touches(endpoint: Endpoint, component: Component) {
    if endpoint.mode.PredicateMode? then component.kind.ServiceKind? && Mentions(endpoint.definition, component.id)
    else exists i | 0 <= i < |endpoint.diagnostic| :: OnPath(endpoint.diagnostic[i], component)
  }

  lemma PathUntouched(path: Path, world: World, component: Component)
    requires !OnPath(path, component)
    ensures PathUp(Forced(world, component, true), path) <==> PathUp(Forced(world, component, false), path)
  {
    assert forall i | 0 <= i < |path.services| :: path.services[i] in path.services;
    assert forall i | 0 <= i < |path.edgeIDs| :: path.edgeIDs[i] in path.edgeIDs;
  }

  lemma UntouchedSameVerdict(ctx: Context, endpoint: Endpoint, world: World, component: Component, viable: map<Content,
      bool>, keys: map<string, Content>)
    requires endpoint.Valid(ctx) && !Touches(endpoint, component)
    ensures ImportanceEndpointSuccess(endpoint, Forced(world, component, true), viable, keys)
        <==> ImportanceEndpointSuccess(endpoint, Forced(world, component, false), viable, keys)
  {
    var up, down := Forced(world, component, true), Forced(world, component, false);
    if endpoint.mode.PredicateMode? {
      HoldsReadsMentioned(endpoint.definition, Liveness(up), Liveness(down));
    } else {
      forall i | 0 <= i < |endpoint.diagnostic|
        ensures PathCounts(endpoint.diagnostic[i], up, viable, keys)
            <==> PathCounts(endpoint.diagnostic[i], down, viable, keys)
      {
        PathUntouched(endpoint.diagnostic[i], world, component);
      }
      if endpoint.mode.EdgeAwareMode? {
        forall key, i | key in endpoint.groups && 0 <= i < |endpoint.groups[key]|
          ensures PathCounts(endpoint.groups[key][i], up, viable, keys)
              <==> PathCounts(endpoint.groups[key][i], down, viable, keys)
        {
          assert endpoint.groups[key][i] in endpoint.diagnostic;
          var j :| 0 <= j < |endpoint.diagnostic| && endpoint.diagnostic[j] == endpoint.groups[key][i];
        }
      }
    }
  }

  lemma UntouchedTrial(study: Study, paths: PathIndex, e: nat, c: nat, t: nat)
    requires Ready(study, paths) && e < |study.endpoints| && c < |study.components|
    requires !Touches(study.endpoints[e], study.components[c])
    ensures ForcedWins(study, paths, e, c, true, t) <==> ForcedWins(study, paths, e, c, false, t)
  {
    assert study.endpoints[e].Valid(study.ctx);
    var frame := FrameAt(study, paths, t);
    UntouchedSameVerdict(study.ctx, study.endpoints[e], WorldAt(study, t), study.components[c], frame.viable,
        frame.keys[e]);
  }

  /**
   A component an endpoint never looks at gets importance zero for it, in every study and after any number of trials.
   */
  lemma UntouchedNeverPivotal(study: Study, paths: PathIndex, e: nat, c: nat, n: nat)
    requires Ready(study, paths) && e < |study.endpoints| && c < |study.components|
    requires !Touches(study.endpoints[e], study.components[c])
    ensures CountAt(study, paths, e, c, n).pivotal == 0
    ensures CountAt(study, paths, e, c, n).up == CountTrue(Base(study, paths, e), n)
        == CountAt(study, paths, e, c, n).down
  {
    var up, down := WhenForced(study, paths, e, c, true), WhenForced(study, paths, e, c, false);
    forall t: nat | t < n
      ensures up(t) <==> down(t)
    {
      UntouchedTrial(study, paths, e, c, t);
    }
    CountMonotone(up, down, n);
    StudyLaws(study, paths, e, c, n);
  }
}
