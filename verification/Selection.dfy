/** Preparing an importance study: which components it toggles, with what live probability, and what it rejects. */
module Selection {
  import opened Wrappers
  import opened Ids
  import opened Draws
  import opened Topology
  import opened Sampling
  import opened Probability
  import opened Endpoints
  import opened Birnbaum
  import opened LiveStates
  import opened BirnbaumMeaning
  import opened Sorting
  import EdgeAware
  import ProfileRun
  import SlotList = Slots

  /** The kinds to toggle, each with its selected IDs; an empty selection means all. */
  datatype Choice = Choice(kinds: seq<Kind>, serviceIDs: seq<Id>, edgeIDs: seq<Id>)

  datatype Candidate = Candidate(component: Component, liveProbability: real)

  function KnownIDs(ctx: Context, kind: Kind): seq<Id> {
    if kind.EdgeKind? then ctx.edgeIDs else ctx.serviceIDs
  }

  function ChosenIDs(choice: Choice, kind: Kind): seq<Id> {
    if kind.EdgeKind? then choice.edgeIDs else choice.serviceIDs
  }

  /** The IDs toggled for a kind. */
  function Toggled(ctx: Context, choice: Choice, kind: Kind): seq<Id> {
    if ChosenIDs(choice, kind) != [] then ChosenIDs(choice, kind) else KnownIDs(ctx, kind)
  }

  predicate KnownChoice(ctx: Context, choice: Choice, kind: Kind) {
    forall i | 0 <= i < |ChosenIDs(choice, kind)| :: ChosenIDs(choice, kind)[i] in KnownIDs(ctx, kind)
  }

  function CandidateFor(ctx: Context, profile: Profile, kind: Kind, id: Id): Candidate {
    Candidate(Component(kind, id), LiveProbability(ctx, profile, Component(kind, id)))
  }

  function CandidatesFor(ctx: Context, profile: Profile, kind: Kind, ids: seq<Id>): seq<Candidate> {
    seq(|ids|, i requires 0 <= i < |ids| => CandidateFor(ctx, profile, kind, ids[i]))
  }

  /** The candidates of the first `n` kinds, in order. */
  function Candidates(ctx: Context, profile: Profile, choice: Choice, n: nat): seq<Candidate>
    requires n <= |choice.kinds|
  {
    if n == 0 then []
    else
      var kind := choice.kinds[n - 1];
      Candidates(ctx, profile, choice, n - 1) + CandidatesFor(ctx, profile, kind, Toggled(ctx, choice, kind))
  }

  lemma CandidatesStep(ctx: Context, profile: Profile, choice: Choice, n: nat)
    requires n < |choice.kinds|
    ensures Candidates(ctx, profile, choice, n + 1)
         == Candidates(ctx, profile, choice, n)
            + CandidatesFor(ctx, profile, choice.kinds[n], Toggled(ctx, choice, choice.kinds[n]))
  {
  }

  method TotalReplicas(svc: Service) returns (replicas: nat)
    ensures replicas == SlotList.ReplicasIn(svc, |svc.replicas|)
  {
    replicas := 0;
    for b := 0 to |svc.replicas|
      invariant replicas == SlotList.ReplicasIn(svc, b)
    {
      replicas := replicas + svc.replicas[b];
    }
  }

  method MeasureCandidate(ctx: Context, profile: Profile, kind: Kind, id: Id) returns (candidate: Candidate)
    ensures candidate == CandidateFor(ctx, profile, kind, id)
  {
    var probability := EdgeLiveProbability(profile, id);
    if kind.ServiceKind? {
      var service := ctx.ServiceOf(id);
      probability := 1.0;
      if service.samplingEligible {
        probability := ServiceLiveProbability(profile, id);
        if profile.mode.IndependentReplica? {
          var replicas := TotalReplicas(service);
          probability := 1.0 - Power(1.0 - probability, replicas);
        }
      }
    }
    return Candidate(Component(kind, id), probability);
  }

  method AllListed(ids: seq<Id>, known: seq<Id>) returns (ok: bool)
    ensures ok <==> forall i | 0 <= i < |ids| :: ids[i] in known
  {
    for i := 0 to |ids|
      invariant forall j | 0 <= j < i :: ids[j] in known
    {
      if ids[i] !in known {
        return false;
      }
    }
    return true;
  }

  method MeasureAll(ctx: Context, profile: Profile, kind: Kind, ids: seq<Id>) returns (out: seq<Candidate>)
    ensures out == CandidatesFor(ctx, profile, kind, ids)
  {
    out := [];
    for i := 0 to |ids|
      invariant |out| == i && forall j | 0 <= j < i :: out[j] == CandidateFor(ctx, profile, kind, ids[j])
    {
      var candidate := MeasureCandidate(ctx, profile, kind, ids[i]);
      out := out + [candidate];
    }
  }

  /** The components of one kind, with their live probabilities; naming an unknown one is an error. */
  method SelectKind(ctx: Context, profile: Profile, choice: Choice, kind: Kind) returns (r: Result<seq<Candidate>>)
    ensures r.Ok? <==> KnownChoice(ctx, choice, kind)
    ensures r.Ok? ==> r.value == CandidatesFor(ctx, profile, kind, Toggled(ctx, choice, kind))
  {
    var known := AllListed(ChosenIDs(choice, kind), KnownIDs(ctx, kind));
    if !known {
      return Err("unknown component");
    }
    var measured := MeasureAll(ctx, profile, kind, Toggled(ctx, choice, kind));
    return Ok(measured);
  }

  /** The requests of the first `n` kinds name known components only. */
  predicate AllKnown(ctx: Context, choice: Choice, n: nat)
    requires n <= |choice.kinds|
  {
    n == 0 || (AllKnown(ctx, choice, n - 1) && KnownChoice(ctx, choice, choice.kinds[n - 1]))
  }

  lemma {:induction false} AllKnownMeans(ctx: Context, choice: Choice, n: nat)
    requires n <= |choice.kinds|
    ensures AllKnown(ctx, choice, n) <==> forall k | 0 <= k < n :: KnownChoice(ctx, choice, choice.kinds[k])
  {
    if n > 0 {
      AllKnownMeans(ctx, choice, n - 1);
    }
  }

  lemma {:induction false} OneUnknown(ctx: Context, choice: Choice, k: nat, n: nat)
    requires k < n <= |choice.kinds| && !KnownChoice(ctx, choice, choice.kinds[k])
    ensures !AllKnown(ctx, choice, n)
  {
    if k < n - 1 {
      OneUnknown(ctx, choice, k, n - 1);
    }
  }

  method SelectKinds(ctx: Context, profile: Profile, choice: Choice) returns (r: Result<seq<Candidate>>)
    ensures r.Ok? <==> AllKnown(ctx, choice, |choice.kinds|)
    ensures r.Ok? ==> r.value == Candidates(ctx, profile, choice, |choice.kinds|)
  {
    var out: seq<Candidate> := [];
    for k := 0 to |choice.kinds|
      invariant AllKnown(ctx, choice, k)
      invariant out == Candidates(ctx, profile, choice, k)
    {
      var selected := SelectKind(ctx, profile, choice, choice.kinds[k]);
      if selected.Err? {
        OneUnknown(ctx, choice, k, |choice.kinds|);
        return Err(selected.error);
      }
      CandidatesStep(ctx, profile, choice, k);
      out := out + selected.value;
    }
    return Ok(out);
  }

  /** Selecting the components of a study, kind by kind. */
  method SelectComponents(ctx: Context, profile: Profile, choice: Choice) returns (r: Result<seq<Candidate>>)
    ensures r.Ok? <==> forall k | 0 <= k < |choice.kinds| :: KnownChoice(ctx, choice, choice.kinds[k])
    ensures r.Ok? ==> r.value == Candidates(ctx, profile, choice, |choice.kinds|)
  {
    r := SelectKinds(ctx, profile, choice);
    AllKnownMeans(ctx, choice, |choice.kinds|);
  }

  /** Selected components are part of the graph and carry the live probability of sampling. */
  lemma {:induction false} CandidatesAreKnown(ctx: Context, profile: Profile, choice: Choice, n: nat)
    requires n <= |choice.kinds| && forall k | 0 <= k < n :: KnownChoice(ctx, choice, choice.kinds[k])
    ensures forall c | 0 <= c < |Candidates(ctx, profile, choice, n)| ::
              var candidate := Candidates(ctx, profile, choice, n)[c];
              && candidate.component.id in KnownIDs(ctx, candidate.component.kind)
              && candidate.liveProbability == LiveProbability(ctx, profile, candidate.component)
  {
    if n > 0 {
      CandidatesAreKnown(ctx, profile, choice, n - 1);
      assert KnownChoice(ctx, choice, choice.kinds[n - 1]);
    }
  }

  /** The IDs a request asks for in a kind: those it names, or everything there is when it names none. */
  ghost predicate AsksFor(ctx: Context, choice: Choice, component: Component) {
    && component.kind in choice.kinds
    && match component.kind
       case ServiceKind => component.id in if |choice.serviceIDs| == 0 then ctx.serviceIDs else choice.serviceIDs
       case EdgeKind => component.id in if |choice.edgeIDs| == 0 then ctx.edgeIDs else choice.edgeIDs
  }

  /** Where the candidates of the n-th kind begin. */
  function Offset(ctx: Context, choice: Choice, n: nat): nat
    requires n <= |choice.kinds|
  {
    if n == 0 then 0 else Offset(ctx, choice, n - 1) + |Toggled(ctx, choice, choice.kinds[n - 1])|
  }

  lemma {:induction false} CandidatesGrow(ctx: Context, profile: Profile, choice: Choice, m: nat, n: nat)
    requires m <= n <= |choice.kinds|
    ensures Candidates(ctx, profile, choice, m) <= Candidates(ctx, profile, choice, n)
  {
    if m < n {
      CandidatesGrow(ctx, profile, choice, m, n - 1);
      CandidatesStep(ctx, profile, choice, n - 1);
    }
  }

  lemma LastSelected(ctx: Context, profile: Profile, choice: Choice, k: nat, i: nat)
    requires k < |choice.kinds| && i < |Toggled(ctx, choice, choice.kinds[k])|
    ensures var candidates, at := Candidates(ctx, profile, choice, k + 1), Offset(ctx, choice, k) + i;
      && at < |candidates|
      && candidates[at].component == Component(choice.kinds[k], Toggled(ctx, choice, choice.kinds[k])[i])
  {
    SelectedLength(ctx, profile, choice, k);
    CandidatesStep(ctx, profile, choice, k);
  }

  /** The candidates stand in the order of the kinds and, within a kind, in the order asked for. */
  lemma SelectedAt(ctx: Context, profile: Profile, choice: Choice, k: nat, i: nat)
    requires k < |choice.kinds| && i < |Toggled(ctx, choice, choice.kinds[k])|
    ensures var candidates, at := Candidates(ctx, profile, choice, |choice.kinds|), Offset(ctx, choice, k) + i;
      && at < |candidates|
      && candidates[at].component == Component(choice.kinds[k], Toggled(ctx, choice, choice.kinds[k])[i])
  {
    LastSelected(ctx, profile, choice, k, i);
    CandidatesGrow(ctx, profile, choice, k + 1, |choice.kinds|);
  }

  lemma {:induction false} SelectedLength(ctx: Context, profile: Profile, choice: Choice, n: nat)
    requires n <= |choice.kinds|
    ensures |Candidates(ctx, profile, choice, n)| == Offset(ctx, choice, n)
  {
    if n > 0 {
      SelectedLength(ctx, profile, choice, n - 1);
    }
  }

  lemma {:induction false} SelectedFrom(ctx: Context, profile: Profile, choice: Choice, n: nat, candidate: Candidate)
    requires n <= |choice.kinds| && candidate in Candidates(ctx, profile, choice, n)
    ensures AsksFor(ctx, choice, candidate.component)
  {
    if candidate in Candidates(ctx, profile, choice, n - 1) {
      SelectedFrom(ctx, profile, choice, n - 1, candidate);
    }
  }

  lemma AskedIsSelected(ctx: Context, profile: Profile, choice: Choice, component: Component)
    requires AsksFor(ctx, choice, component)
    ensures component in ComponentsOf(Candidates(ctx, profile, choice, |choice.kinds|))
  {
    var k: nat :| k < |choice.kinds| && choice.kinds[k] == component.kind;
    var ids := Toggled(ctx, choice, component.kind);
    var i: nat :| i < |ids| && ids[i] == component.id;
    SelectedAt(ctx, profile, choice, k, i);
    var candidates := Candidates(ctx, profile, choice, |choice.kinds|);
    assert ComponentsOf(candidates)[Offset(ctx, choice, k) + i] == component;
  }

  /** A study toggles exactly the components asked for. */
  lemma SelectedExactly(ctx: Context, profile: Profile, choice: Choice, component: Component)
    ensures component in ComponentsOf(Candidates(ctx, profile, choice, |choice.kinds|))
        <==> AsksFor(ctx, choice, component)
  {
    var candidates := Candidates(ctx, profile, choice, |choice.kinds|);
    if component in ComponentsOf(candidates) {
      var c :| 0 <= c < |candidates| && ComponentsOf(candidates)[c] == component;
      SelectedFrom(ctx, profile, choice, |choice.kinds|, candidates[c]);
    }
    if AsksFor(ctx, choice, component) {
      AskedIsSelected(ctx, profile, choice, component);
    }
  }

  // ----- the whole request

  function ComponentsOf(candidates: seq<Candidate>): seq<Component> {
    seq(|candidates|, c requires 0 <= c < |candidates| => candidates[c].component)
  }

  predicate EndpointLeq(a: Endpoint, b: Endpoint) {
    Leq(a.id, b.id)
  }

  function TargetEndpoints(catalog: map<Id, Endpoint>, targets: seq<Id>): seq<Endpoint>
    requires forall t | t in targets :: t in catalog
  {
    seq(|targets|, t requires 0 <= t < |targets| => catalog[targets[t]])
  }

  /**
   What a request must meet: independent states without faults, known overrides, components and targets, and at least
   one component.
   */
  predicate Acceptable(ctx: Context, profile: Profile, choice: Choice, catalog: map<Id, Endpoint>, targets: seq<Id>) {
    && Independent(profile) && ProfileRun.ReliabilityKnown(ctx, profile)
    && (forall k | 0 <= k < |choice.kinds| :: KnownChoice(ctx, choice, choice.kinds[k]))
    && Candidates(ctx, profile, choice, |choice.kinds|) != []
    && forall t | t in targets :: t in catalog
  }

  lemma EndpointOrder()
    ensures TotalPreorder(EndpointLeq)
  {
    EdgeAware.IdOrder();
    forall a: Endpoint, b: Endpoint
      ensures EndpointLeq(a, b) || EndpointLeq(b, a)
    {
      LeqTotal(a.id, b.id);
    }
    forall a: Endpoint, b: Endpoint, c: Endpoint | EndpointLeq(a, b) && EndpointLeq(b, c)
      ensures EndpointLeq(a, c)
    {
      LeqTransitive(a.id, b.id, c.id);
    }
  }

  function StudyOf(ctx: Context, profile: Profile, choice: Choice, catalog: map<Id, Endpoint>, targets: seq<Id>,
      entropy: Entropy, seed: int): Study
    requires forall t | t in targets :: t in catalog
  {
    Study(ctx, profile, Sort(EndpointLeq, TargetEndpoints(catalog, targets)),
          ComponentsOf(Candidates(ctx, profile, choice, |choice.kinds|)), entropy, seed)
  }

  method TargetsKnown(catalog: map<Id, Endpoint>, targets: seq<Id>) returns (known: bool)
    ensures known <==> forall t | t in targets :: t in catalog
  {
    for t := 0 to |targets|
      invariant forall u | 0 <= u < t :: targets[u] in catalog
    {
      if targets[t] !in catalog {
        return false;
      }
    }
    return true;
  }

  /** The study an importance request runs, or an error. */
  method PrepareStudy(ctx: Context, profile: Profile, choice: Choice, catalog: map<Id, Endpoint>, targets: seq<Id>,
      entropy: Entropy, seed: int)
    returns (r: Result<Study>)
    ensures r.Ok? <==> Acceptable(ctx, profile, choice, catalog, targets)
    ensures r.Ok? ==> r.value == StudyOf(ctx, profile, choice, catalog, targets, entropy, seed)
  {
    if !Independent(profile) {
      return Err("importance requires independent_service or independent_replica sampling");
    }
    if !ProfileRun.ReliabilityKnown(ctx, profile) {
      return Err("reliability references unknown service or edge");
    }
    var candidates := SelectComponents(ctx, profile, choice);
    if candidates.Err? {
      return Err(candidates.error);
    }
    if candidates.value == [] {
      return Err("component selection is empty");
    }
    var known := TargetsKnown(catalog, targets);
    if !known {
      return Err("target endpoint is not present in the artifact");
    }
    return Ok(Study(ctx, profile, Sort(EndpointLeq, TargetEndpoints(catalog, targets)), ComponentsOf(candidates.value),
        entropy, seed));
  }

  /** A prepared study is one the laws of importance apply to, on exactly the requested endpoints, in ID order. */
  lemma PreparedIsValid(ctx: Context, profile: Profile, choice: Choice, catalog: map<Id, Endpoint>, targets: seq<Id>,
      entropy: Entropy, seed: int)
    requires ctx.Valid() && Acceptable(ctx, profile, choice, catalog, targets)
        && forall id | id in catalog :: catalog[id].Valid(ctx)
    ensures var study := StudyOf(ctx, profile, choice, catalog, targets, entropy, seed);
      && study.Valid() && Independent(study.profile) && study.components != []
      && SortedBy(EndpointLeq, study.endpoints)
          && multiset(study.endpoints) == multiset(TargetEndpoints(catalog, targets))
  {
    var study := StudyOf(ctx, profile, choice, catalog, targets, entropy, seed);
    EndpointOrder();
    SortSorts(EndpointLeq, TargetEndpoints(catalog, targets));
    CandidatesAreKnown(ctx, profile, choice, |choice.kinds|);
    StudyIsValid(study, catalog, targets);
  }

  lemma StudyIsValid(study: Study, catalog: map<Id, Endpoint>, targets: seq<Id>)
    requires study.ctx.Valid() && Independent(study.profile)
        && forall id | id in catalog :: catalog[id].Valid(study.ctx)
    requires forall t | t in targets :: t in catalog
    requires forall x :: x in study.endpoints <==> x in TargetEndpoints(catalog, targets)
    requires forall c | 0 <= c < |study.components| ::
        study.components[c].id in KnownIDs(study.ctx, study.components[c].kind)
    ensures study.Valid()
  {
    forall e | 0 <= e < |study.endpoints|
      ensures study.endpoints[e].Valid(study.ctx)
    {
      assert study.endpoints[e] in TargetEndpoints(catalog, targets);
    }
  }

  /** Every service and edge that the request names, and that its kinds concern, is part of the graph. */
  ghost predicate NamesParts(ctx: Context, choice: Choice) {
    && (ServiceKind in choice.kinds ==> forall id | id in choice.serviceIDs :: id in ctx.serviceIDs)
    && (EdgeKind in choice.kinds ==> forall id | id in choice.edgeIDs :: id in ctx.edgeIDs)
  }

  lemma ChoiceIs(ctx: Context, choice: Choice, kind: Kind)
    ensures KnownChoice(ctx, choice, kind)
        <==> match kind
             case ServiceKind => forall id | id in choice.serviceIDs :: id in ctx.serviceIDs
             case EdgeKind => forall id | id in choice.edgeIDs :: id in ctx.edgeIDs
  {
    var ids := ChosenIDs(choice, kind);
    if KnownChoice(ctx, choice, kind) {
      forall id | id in ids
        ensures id in KnownIDs(ctx, kind)
      {
        var i :| 0 <= i < |ids| && ids[i] == id;
      }
    } else {
      var i :| 0 <= i < |ids| && ids[i] !in KnownIDs(ctx, kind);
      assert ids[i] in ids;
    }
  }

  lemma NamesAreKnown(ctx: Context, choice: Choice)
    ensures (forall k | 0 <= k < |choice.kinds| :: KnownChoice(ctx, choice, choice.kinds[k]))
        <==> NamesParts(ctx, choice)
  {
    ChoiceIs(ctx, choice, ServiceKind);
    ChoiceIs(ctx, choice, EdgeKind);
    if forall k | 0 <= k < |choice.kinds| :: KnownChoice(ctx, choice, choice.kinds[k]) {
      forall kind | kind in choice.kinds
        ensures KnownChoice(ctx, choice, kind)
      {
        var k :| 0 <= k < |choice.kinds| && choice.kinds[k] == kind;
        assert KnownChoice(ctx, choice, choice.kinds[k]);
      }
    }
    if NamesParts(ctx, choice) {
      forall k | 0 <= k < |choice.kinds|
        ensures KnownChoice(ctx, choice, choice.kinds[k])
      {
        assert choice.kinds[k] in choice.kinds;
      }
    }
  }

  /**
   Which requests are accepted: independent sampling, overrides and names of known parts only, something to toggle, and
   known targets.
   */
  lemma AcceptedExactly(ctx: Context, profile: Profile, choice: Choice, catalog: map<Id, Endpoint>, targets: seq<Id>)
    ensures Acceptable(ctx, profile, choice, catalog, targets)
        <==> && (profile.mode.IndependentReplica? || profile.mode.IndependentService?)
             && profile.serviceLive.Keys <= ctx.services.Keys && profile.edgeLives.Keys <= ctx.edges.Keys
             && NamesParts(ctx, choice)
             && (exists component :: AsksFor(ctx, choice, component))
             && forall t | t in targets :: t in catalog
  {
    NamesAreKnown(ctx, choice);
    var candidates := Candidates(ctx, profile, choice, |choice.kinds|);
    if candidates != [] {
      SelectedFrom(ctx, profile, choice, |choice.kinds|, candidates[0]);
    }
    if component :| AsksFor(ctx, choice, component) {
      SelectedExactly(ctx, profile, choice, component);
    }
    assert ProfileRun.ReliabilityKnown(ctx, profile)
        <==> profile.serviceLive.Keys <= ctx.services.Keys && profile.edgeLives.Keys <= ctx.edges.Keys;
  }

  /** The endpoints of a prepared study are those of the targets, one each, in the order of their IDs. */
  lemma EndpointsExactly(ctx: Context, profile: Profile, choice: Choice, catalog: map<Id, Endpoint>, targets: seq<Id>,
      entropy: Entropy, seed: int)
    requires forall t | t in targets :: t in catalog
    ensures var endpoints := StudyOf(ctx, profile, choice, catalog, targets, entropy, seed).endpoints;
      && |endpoints| == |targets|
      && (forall endpoint :: endpoint in endpoints <==> exists t | t in targets :: catalog[t] == endpoint)
      && forall i, j | 0 <= i < j < |endpoints| :: ByFirstDifference(endpoints[i].id, endpoints[j].id)
  {
    var endpoints, listed := StudyOf(ctx, profile, choice, catalog, targets, entropy, seed).endpoints,
                             TargetEndpoints(catalog, targets);
    EndpointOrder();
    SortSorts(EndpointLeq, listed);
    forall endpoint
      ensures endpoint in endpoints <==> exists t | t in targets :: catalog[t] == endpoint
    {
      TargetListed(catalog, targets, endpoint);
    }
    forall i, j | 0 <= i < j < |endpoints|
      ensures ByFirstDifference(endpoints[i].id, endpoints[j].id)
    {
      assert EndpointLeq(endpoints[i], endpoints[j]);
      LeqExactly(endpoints[i].id, endpoints[j].id);
    }
  }

  lemma TargetListed(catalog: map<Id, Endpoint>, targets: seq<Id>, endpoint: Endpoint)
    requires forall t | t in targets :: t in catalog
    ensures endpoint in TargetEndpoints(catalog, targets) <==> exists t | t in targets :: catalog[t] == endpoint
  {
    if t :| t in targets && catalog[t] == endpoint {
      var i :| 0 <= i < |targets| && targets[i] == t;
      assert TargetEndpoints(catalog, targets)[i] == endpoint;
    }
    if i :| 0 <= i < |targets| && TargetEndpoints(catalog, targets)[i] == endpoint {
      assert targets[i] in targets && catalog[targets[i]] == endpoint;
    }
  }
}
