/** Where the references of a regression rule come from: the baseline's own sweeps and boundaries. */
module References {
  import opened Wrappers
  import opened Ids
  import opened Boundaries
  import opened Sweeps
  import opened Gate
  import opened BoundaryRules
  import opened GateAnalysis
  import opened Replay
  import opened BoundaryCauses

  // ----- the baseline's side of a comparison

  /** The first boundary of the endpoint. */
  ghost predicate FirstBoundary(boundaries: seq<Boundary>, id: Id, b: nat) {
    b < |boundaries| && boundaries[b].endpointID == id && forall a | 0 <= a < b :: boundaries[a].endpointID != id
  }

  /** The baseline's first sweep of the name is sweep r, and it was configured as this one. */
  ghost predicate SameSetup(reports: seq<SweepOutput>, sweep: SweepOutput, r: nat) {
    FirstSweep(reports, sweep.name, r) && reports[r].fingerprint == sweep.fingerprint
  }

  /** The baseline has a sweep of the same setup with a boundary for the endpoint. */
  ghost predicate Comparable(reports: seq<SweepOutput>, sweep: SweepOutput, id: Id) {
    exists r: nat, b: nat :: SameSetup(reports, sweep, r) && FirstBoundary(reports[r].boundaries, id, b)
  }

  /** That boundary is certified up to the axis value. */
  ghost predicate Certifies(reports: seq<SweepOutput>, sweep: SweepOutput, id: Id, axis: real) {
    exists r: nat, b: nat ::
      && SameSetup(reports, sweep, r) && FirstBoundary(reports[r].boundaries, id, b)
      && reports[r].boundaries[b].certified.Some? && reports[r].boundaries[b].certified.value.axis == axis
  }

  lemma CounterpartIs(reports: seq<SweepOutput>, sweep: SweepOutput, boundary: Boundary, axis: real)
    ensures var other := Counterpart(reports, sweep, boundary);
      && (other.Some? <==> Comparable(reports, sweep, boundary.endpointID))
      && (other.Some? && ToleranceOf(other.value) == Some(axis)
          <==> Certifies(reports, sweep, boundary.endpointID, axis))
  {
    var id := boundary.endpointID;
    if r: nat, b: nat :| SameSetup(reports, sweep, r) && FirstBoundary(reports[r].boundaries, id, b) {
      forall q: nat, a: nat | SameSetup(reports, sweep, q) && FirstBoundary(reports[q].boundaries, id, a)
        ensures Counterpart(reports, sweep, boundary) == Some(reports[q].boundaries[a])
      {
        FirstMatchAt(reports, Named(sweep.name), q);
        FirstMatchAt(reports[q].boundaries, ForEndpoint(id), a);
      }
    }
    if Counterpart(reports, sweep, boundary).Some? {
      var r := FirstMatchIndex(reports, Named(sweep.name));
      assert forall q | 0 <= q < r :: !Named(sweep.name)(reports[q]);
      var b := FirstMatchIndex(reports[r].boundaries, ForEndpoint(id));
      assert forall a | 0 <= a < b :: !ForEndpoint(id)(reports[r].boundaries[a]);
      assert SameSetup(reports, sweep, r) && FirstBoundary(reports[r].boundaries, id, b);
    }
  }

  // ----- the references of a live run and of a report

  /** What looking a reference up finds, in any list derived for the baselines' names. */
  lemma LookedUp(derive: Derivation, baselines: Baselines, names: seq<string>, current: seq<SweepOutput>, name: string,
      wanted: string, id: Id)
    requires Listing(names, baselines.Keys) && Found(current, wanted, id).Some?
    ensures var found := Found(current, wanted, id).value;
      ReferenceFor(OfBaselines(derive, names, current, |names|), name, wanted, id)
      == if name in baselines then Some(Refer(derive, name, found.0, found.1)) else None
  {
    assert current[..|current|] == current && names[..|names|] == names;
    FoundIsFirstPair(current, |current|, wanted, id);
    AmongMeans(names, |names|, name);
    LookupBaselines(derive, names, current, |names|, name, wanted, id);
  }

  /** The references were derived for the baselines, by a live run or from a report. */
  ghost predicate Derived(references: seq<Reference>, derive: Derivation, baselines: Baselines,
      current: seq<SweepOutput>) {
    exists names :: DerivedInOrder(references, derive, baselines, current, names)
  }

  lemma SavedAreDerived(diffs: seq<BaselineDiff>, baselines: Baselines, current: seq<SweepOutput>)
    requires exists names :: Stores(diffs, names, baselines, current)
    ensures Derived(FromBaselines(diffs, |diffs|), Saved(baselines), baselines, current)
  {
    var names :| Stores(diffs, names, baselines, current);
    StoredGiveReferences(diffs, names, baselines, current, |diffs|);
    assert DerivedInOrder(FromBaselines(diffs, |diffs|), Saved(baselines), baselines, current, names);
  }

  /**
   The reference a live run finds for a boundary of its own: it exists for every baseline, is compatible exactly when
   the baseline's first sweep of that name was configured alike and has a boundary for the endpoint, carries exactly
   that boundary's certified tolerance, and is explained exactly when it is not compatible.
   */
  lemma LiveReferenceExactly(live: seq<Reference>, baselines: Baselines, current: seq<SweepOutput>, name: string,
      wanted: string, id: Id, axis: real)
    requires Derived(live, Live(baselines), baselines, current) && Found(current, wanted, id).Some?
    ensures var reference, sweep := ReferenceFor(live, name, wanted, id), Found(current, wanted, id).value.0;
      && (reference.Some? <==> name in baselines)
      && (reference.Some? ==>
            && (reference.value.compatible <==> Comparable(baselines[name], sweep, id))
            && (reference.value.explained <==> !Comparable(baselines[name], sweep, id))
            && (reference.value.tolerance == Some(axis) <==> Certifies(baselines[name], sweep, id, axis)))
  {
    var names :| DerivedInOrder(live, Live(baselines), baselines, current, names);
    LookedUp(Live(baselines), baselines, names, current, name, wanted, id);
    if name in baselines {
      var found := Found(current, wanted, id).value;
      CounterpartIs(baselines[name], found.0, found.1, axis);
    }
  }

  /** The one rebuilt from a report is compatible exactly when in addition both sides are certified. */
  lemma SavedReferenceExactly(saved: seq<Reference>, baselines: Baselines, current: seq<SweepOutput>, name: string,
      wanted: string, id: Id, axis: real)
    requires Derived(saved, Saved(baselines), baselines, current) && Found(current, wanted, id).Some?
    ensures var reference := ReferenceFor(saved, name, wanted, id);
      var sweep, boundary := Found(current, wanted, id).value.0, Found(current, wanted, id).value.1;
      && (reference.Some? <==> name in baselines)
      && (reference.Some? ==>
            && (reference.value.compatible
                <==> boundary.certified.Some? && exists c :: Certifies(baselines[name], sweep, id, c))
            && (reference.value.explained <==> !reference.value.compatible)
            && (reference.value.tolerance == Some(axis) <==> Certifies(baselines[name], sweep, id, axis)))
  {
    var names :| DerivedInOrder(saved, Saved(baselines), baselines, current, names);
    LookedUp(Saved(baselines), baselines, names, current, name, wanted, id);
    if name in baselines {
      var found := Found(current, wanted, id).value;
      forall c
        ensures var other := Counterpart(baselines[name], found.0, found.1);
          other.Some? && ToleranceOf(other.value) == Some(c) <==> Certifies(baselines[name], found.0, id, c)
      {
        CounterpartIs(baselines[name], found.0, found.1, c);
      }
    }
  }

  /** The comparison a report stores of a boundary: comparable, with a difference, when both sides are certified. */
  lemma ComparisonExactly(reports: seq<SweepOutput>, sweep: SweepOutput, boundary: Boundary, x: real)
    ensures var diff, id := DiffOf(reports, sweep, boundary), boundary.endpointID;
      && diff.sweep == sweep.name && diff.endpointID == id
      && (diff.current == Some(x) <==> boundary.certified.Some? && boundary.certified.value.axis == x)
      && (diff.reference == Some(x) <==> Certifies(reports, sweep, id, x))
      && (diff.comparable <==> diff.current.Some? && exists c :: Certifies(reports, sweep, id, c))
      && (diff.difference == Some(x)
          <==> diff.current.Some? && exists c :: Certifies(reports, sweep, id, c) && x == diff.current.value - c)
  {
    forall c
      ensures var other := Counterpart(reports, sweep, boundary);
        other.Some? && ToleranceOf(other.value) == Some(c) <==> Certifies(reports, sweep, boundary.endpointID, c)
    {
      CounterpartIs(reports, sweep, boundary, c);
    }
  }

  // ----- the rule on them

  /** Both sides are certified, and this is the current tolerance minus the baseline's. */
  ghost predicate Regresses(rule: BoundaryRule, baselines: Baselines, sweep: SweepOutput, slo: real, d: real) {
    && rule.baseline in baselines
    && exists c, r :: Tolerates(sweep.points, rule.endpointID, slo, c)
                      && Certifies(baselines[rule.baseline], sweep, rule.endpointID, r) && d == c - r
  }

  /** The references come from one of the two derivations. */
  ghost predicate FromEither(references: seq<Reference>, baselines: Baselines, current: seq<SweepOutput>) {
    || Derived(references, Live(baselines), baselines, current)
    || Derived(references, Saved(baselines), baselines, current)
  }

  lemma ReferenceTolerates(rule: BoundaryRule, references: seq<Reference>, baselines: Baselines,
      current: seq<SweepOutput>, r: real)
    requires FromEither(references, baselines, current) && Found(current, rule.sweep, rule.endpointID).Some?
    requires Found(current, rule.sweep, rule.endpointID).value.1.certified.Some?
    ensures BaselineTolerates(references, rule, r)
        <==> && rule.baseline in baselines
             && Certifies(baselines[rule.baseline], Found(current, rule.sweep, rule.endpointID).value.0,
                          rule.endpointID, r)
  {
    ReferenceIs(references, rule, r);
    if Derived(references, Live(baselines), baselines, current) {
      LiveReferenceExactly(references, baselines, current, rule.baseline, rule.sweep, rule.endpointID, r);
      var sweep := Found(current, rule.sweep, rule.endpointID).value.0;
      if rule.baseline in baselines && Certifies(baselines[rule.baseline], sweep, rule.endpointID, r) {
        CertifiesComparable(baselines[rule.baseline], sweep, rule.endpointID, r);
      }
    } else {
      SavedReferenceExactly(references, baselines, current, rule.baseline, rule.sweep, rule.endpointID, r);
    }
  }

  lemma CertifiesComparable(reports: seq<SweepOutput>, sweep: SweepOutput, id: Id, axis: real)
    requires Certifies(reports, sweep, id, axis)
    ensures Comparable(reports, sweep, id)
  {
  }

  /** Where the current side is certified, both views of the baseline's tolerance agree. */
  lemma SameTolerance(rule: BoundaryRule, references: seq<Reference>, baselines: Baselines,
      current: seq<SweepOutput>, s: nat, targets: seq<Target>, t: nat, c: real, r: real)
    requires FromEither(references, baselines, current)
    requires FirstSweep(current, rule.sweep, s) && IsTarget(targets, t, rule.endpointID) && Built(current[s], targets)
    requires Tolerates(current[s].points, rule.endpointID, targets[t].slo, c)
    ensures BaselineTolerates(references, rule, r)
        <==> rule.baseline in baselines && Certifies(baselines[rule.baseline], current[s], rule.endpointID, r)
  {
    FoundIs(current, rule.sweep, s, targets, t);
    ToleranceIs(current[s].points, targets[t], c);
    ReferenceTolerates(rule, references, baselines, current, r);
  }

  lemma DiffersIsRegresses(rule: BoundaryRule, references: seq<Reference>, baselines: Baselines,
      current: seq<SweepOutput>, s: nat, targets: seq<Target>, t: nat, d: real)
    requires FromEither(references, baselines, current)
    requires FirstSweep(current, rule.sweep, s) && IsTarget(targets, t, rule.endpointID) && Built(current[s], targets)
    ensures Differs(rule, current[s].points, targets[t].slo, references, d)
        <==> Regresses(rule, baselines, current[s], targets[t].slo, d)
  {
    if Differs(rule, current[s].points, targets[t].slo, references, d) {
      var c, r :| && Tolerates(current[s].points, rule.endpointID, targets[t].slo, c)
                  && BaselineTolerates(references, rule, r) && d == c - r;
      SameTolerance(rule, references, baselines, current, s, targets, t, c, r);
    }
    if Regresses(rule, baselines, current[s], targets[t].slo, d) {
      var c, r :| && Tolerates(current[s].points, rule.endpointID, targets[t].slo, c)
                  && Certifies(baselines[rule.baseline], current[s], rule.endpointID, r) && d == c - r;
      SameTolerance(rule, references, baselines, current, s, targets, t, c, r);
    }
  }

  /**
   A regression rule whose own part passes, on references of either derivation: it is decided exactly when the baseline
   exists, its first sweep of the name was configured alike, and both sides are certified; the regression is then the
   current tolerance minus the baseline's, and the rule fails exactly when that is below the budget. Every other
   baseline leaves it undecided.
   */
  lemma RegressionExactly(rule: BoundaryRule, current: seq<SweepOutput>, references: seq<Reference>, cfg: GateConfig,
      baselines: Baselines, s: nat, targets: seq<Target>, t: nat)
    requires FromEither(references, baselines, current)
    requires FirstSweep(current, rule.sweep, s) && IsTarget(targets, t, rule.endpointID) && Built(current[s], targets)
    requires OwnPartMet(rule, current[s].points, targets[t].slo) && rule.maxRegression.Some?
    ensures var result := RuleResult(rule, current, references, cfg);
      && (result.cause in {NoCause, Regressed}
          <==> exists d :: Regresses(rule, baselines, current[s], targets[t].slo, d))
      && (result.cause in {NoCompatibleBaseline, BaselineExplains}
          <==> !exists d :: Regresses(rule, baselines, current[s], targets[t].slo, d))
      && (forall d :: result.regression == Some(d) <==> Regresses(rule, baselines, current[s], targets[t].slo, d))
      && (result.cause == Regressed <==> result.regression.Some? && result.regression.value < -rule.maxRegression.value)
  {
    forall d
      ensures Differs(rule, current[s].points, targets[t].slo, references, d)
          <==> Regresses(rule, baselines, current[s], targets[t].slo, d)
      ensures RuleResult(rule, current, references, cfg).regression == Some(d)
          <==> Differs(rule, current[s].points, targets[t].slo, references, d)
    {
      DiffersIsRegresses(rule, references, baselines, current, s, targets, t, d);
      NumbersExactly(rule, current, references, cfg, s, targets, t, d);
    }
    CauseExactly(rule, current, references, cfg, s, targets, t);
  }
}
