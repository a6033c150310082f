/** Replaying the gate from a saved report: two derivations of the baseline references that decide alike. */
module Replay {
  import opened Wrappers
  import opened Ids
  import opened Boundaries
  import opened Sweeps
  import opened Gate
  import opened BoundaryRules
  import opened GateAnalysis
  import Sorting

  /** The sweeps of every baseline report, by baseline name. */
  type Baselines = map<string, seq<SweepOutput>>

  /** A saved comparison of one boundary with a baseline's. */
  datatype BoundaryDiff = BoundaryDiff(
    sweep: string,
    endpointID: Id,
    comparable: bool,
    explained: bool,
    current: Option<real>,
    reference: Option<real>,
    difference: Option<real>)

  datatype BaselineDiff = BaselineDiff(name: string, boundaries: seq<BoundaryDiff>)

  // ----- one reference, derived twice

  function SweepsOf(baselines: Baselines, name: string): seq<SweepOutput> {
    if name in baselines then baselines[name] else []
  }

  /** The baseline's boundary, if its sweep exists, was configured alike and has one for the endpoint. */
  function Counterpart(reference: seq<SweepOutput>, sweep: SweepOutput, boundary: Boundary): Option<Boundary> {
    var other := SweepNamed(reference, sweep.name);
    if other.None? || other.value.fingerprint != sweep.fingerprint then None
    else BoundaryFor(other.value.boundaries, boundary.endpointID)
  }

  /** What a derivation finds out about a boundary and its counterpart in a baseline. */
  datatype Finding = Finding(compatible: bool, explained: bool, tolerance: Option<real>)

  /** A live run: compatible as soon as there is a counterpart, certified or not. */
  function LiveFinding(reference: seq<SweepOutput>, sweep: SweepOutput, boundary: Boundary): Finding {
    var other := Counterpart(reference, sweep, boundary);
    Finding(other.Some?, other.None?, if other.Some? then ToleranceOf(other.value) else None)
  }

  /** The comparison a report stores: comparable only when both sides are certified. */
  function DiffOf(reference: seq<SweepOutput>, sweep: SweepOutput, boundary: Boundary): BoundaryDiff {
    var other := Counterpart(reference, sweep, boundary);
    var current := ToleranceOf(boundary);
    var certified := if other.Some? then ToleranceOf(other.value) else None;
    var comparable := current.Some? && certified.Some?;
    BoundaryDiff(sweep.name, boundary.endpointID, comparable, !comparable, current, certified,
                 if comparable then Some(current.value - certified.value) else None)
  }

  function ReferenceOfDiff(name: string, diff: BoundaryDiff): Reference {
    Reference(name, diff.sweep, diff.endpointID, diff.comparable, diff.explained, diff.reference)
  }

  function SavedFinding(reference: seq<SweepOutput>, sweep: SweepOutput, boundary: Boundary): Finding {
    var diff := DiffOf(reference, sweep, boundary);
    Finding(diff.comparable, diff.explained, diff.reference)
  }

  // ----- the lists of references

  type Derivation = (string, SweepOutput, Boundary) -> Finding

  /** A reference carries the names it is derived for. */
  function Refer(derive: Derivation, name: string, sweep: SweepOutput, boundary: Boundary): Reference {
    var finding := derive(name, sweep, boundary);
    Reference(name, sweep.name, boundary.endpointID, finding.compatible, finding.explained, finding.tolerance)
  }

  function OfBoundaries(derive: Derivation, name: string, sweep: SweepOutput, n: nat): seq<Reference>
    requires n <= |sweep.boundaries|
  {
    seq(n, i requires 0 <= i < n => Refer(derive, name, sweep, sweep.boundaries[i]))
  }

  function OfSweeps(derive: Derivation, name: string, current: seq<SweepOutput>, n: nat): seq<Reference>
    requires n <= |current|
  {
    if n == 0 then []
    else
      OfSweeps(derive, name, current, n - 1)
      + OfBoundaries(derive, name, current[n - 1], |current[n - 1].boundaries|)
  }

  function OfBaselines(derive: Derivation, names: seq<string>, current: seq<SweepOutput>, n: nat): seq<Reference>
    requires n <= |names|
  {
    if n == 0 then []
    else OfBaselines(derive, names, current, n - 1) + OfSweeps(derive, names[n - 1], current, |current|)
  }

  function Live(baselines: Baselines): Derivation {
    (name, sweep, boundary) => LiveFinding(SweepsOf(baselines, name), sweep, boundary)
  }

  function Saved(baselines: Baselines): Derivation {
    (name, sweep, boundary) => SavedFinding(SweepsOf(baselines, name), sweep, boundary)
  }

  method FindSweep(sweeps: seq<SweepOutput>, name: string) returns (sweep: Option<SweepOutput>)
    ensures sweep == SweepNamed(sweeps, name)
  {
    for i := 0 to |sweeps|
      invariant SweepNamed(sweeps, name) == SweepNamed(sweeps[i..], name)
    {
      if sweeps[i].name == name {
        return Some(sweeps[i]);
      }
    }
    return None;
  }

  method FindBoundary(boundaries: seq<Boundary>, id: Id) returns (boundary: Option<Boundary>)
    ensures boundary == BoundaryFor(boundaries, id)
  {
    for i := 0 to |boundaries|
      invariant BoundaryFor(boundaries, id) == BoundaryFor(boundaries[i..], id)
    {
      if boundaries[i].endpointID == id {
        return Some(boundaries[i]);
      }
    }
    return None;
  }

  /** The references are derived for the baselines in name order. */
  ghost predicate DerivedInOrder(references: seq<Reference>, derive: Derivation, baselines: Baselines,
      current: seq<SweepOutput>, names: seq<string>)
  {
    Listing(names, baselines.Keys) && references == OfBaselines(derive, names, current, |names|)
  }

  method ReferencesOf(current: seq<SweepOutput>, baselines: Baselines, names: seq<string>)
      returns (references: seq<Reference>)
    requires forall n | 0 <= n < |names| :: names[n] in baselines
    ensures references == OfBaselines(Live(baselines), names, current, |names|)
  {
    references := [];
    for n := 0 to |names|
      invariant references == OfBaselines(Live(baselines), names, current, n)
    {
      var more := LiveReferences(current, baselines, names[n]);
      references := references + more;
    }
  }

  method SortedNames(baselines: Baselines) returns (names: seq<string>)
    ensures Listing(names, baselines.Keys) && forall n | 0 <= n < |names| :: names[n] in baselines
  {
    names := SortedKeys(baselines.Keys);
    assert forall n | 0 <= n < |names| :: names[n] in names;
  }

  method BuildBoundaryReferences(current: seq<SweepOutput>, baselines: Baselines) returns (references: seq<Reference>)
    ensures exists names :: DerivedInOrder(references, Live(baselines), baselines, current, names)
  {
    var names := SortedNames(baselines);
    references := ReferencesOf(current, baselines, names);
    assert DerivedInOrder(references, Live(baselines), baselines, current, names);
  }

  method LiveReferences(current: seq<SweepOutput>, baselines: Baselines, name: string)
      returns (references: seq<Reference>)
    requires name in baselines
    ensures references == OfSweeps(Live(baselines), name, current, |current|)
  {
    references := [];
    for s := 0 to |current|
      invariant references == OfSweeps(Live(baselines), name, current, s)
    {
      var sweep := current[s];
      var other := FindSweep(baselines[name], sweep.name);
      ghost var before := references;
      for b := 0 to |sweep.boundaries|
        invariant references == before + OfBoundaries(Live(baselines), name, sweep, b)
      {
        var reference := Reference(name, sweep.name, sweep.boundaries[b].endpointID, false, false, None);
        if other.None? || other.value.fingerprint != sweep.fingerprint {
          reference := reference.(explained := true);
        } else {
          var boundary := FindBoundary(other.value.boundaries, sweep.boundaries[b].endpointID);
          if boundary.None? {
            reference := reference.(explained := true);
          } else {
            reference := reference.(compatible := true);
            if boundary.value.certified.Some? {
              reference := reference.(tolerance := Some(boundary.value.certified.value.axis));
            }
          }
        }
        assert reference == Refer(Live(baselines), name, sweep, sweep.boundaries[b]);
        references := references + [reference];
      }
    }
  }

  function DiffsOfSweep(reference: seq<SweepOutput>, sweep: SweepOutput, n: nat): seq<BoundaryDiff>
    requires n <= |sweep.boundaries|
  {
    seq(n, i requires 0 <= i < n => DiffOf(reference, sweep, sweep.boundaries[i]))
  }

  function DiffsOf(reference: seq<SweepOutput>, current: seq<SweepOutput>, n: nat): seq<BoundaryDiff>
    requires n <= |current|
  {
    if n == 0 then []
    else DiffsOf(reference, current, n - 1) + DiffsOfSweep(reference, current[n - 1], |current[n - 1].boundaries|)
  }

  method CompareSweepBoundaries(current: seq<SweepOutput>, reference: seq<SweepOutput>)
      returns (diffs: seq<BoundaryDiff>)
    ensures diffs == DiffsOf(reference, current, |current|)
  {
    diffs := [];
    for s := 0 to |current|
      invariant diffs == DiffsOf(reference, current, s)
    {
      var sweep := current[s];
      var other := FindSweep(reference, sweep.name);
      ghost var before := diffs;
      for b := 0 to |sweep.boundaries|
        invariant diffs == before + DiffsOfSweep(reference, sweep, b)
      {
        var diff := CompareBoundary(reference, sweep, sweep.boundaries[b], other);
        diffs := diffs + [diff];
      }
    }
  }

  method CompareBoundary(ghost reference: seq<SweepOutput>, sweep: SweepOutput, boundary: Boundary,
      other: Option<SweepOutput>)
    returns (diff: BoundaryDiff)
    requires other == SweepNamed(reference, sweep.name)
    ensures diff == DiffOf(reference, sweep, boundary)
  {
    diff := BoundaryDiff(sweep.name, boundary.endpointID, false, true, None, None, None);
    if boundary.certified.Some? {
      diff := diff.(current := Some(boundary.certified.value.axis));
    }
    if other.None? || other.value.fingerprint != sweep.fingerprint {
      return;
    }
    var counterpart := FindBoundary(other.value.boundaries, boundary.endpointID);
    if counterpart.None? {
      return;
    }
    if boundary.certified.None? || counterpart.value.certified.None? {
      if counterpart.value.certified.Some? {
        diff := diff.(reference := Some(counterpart.value.certified.value.axis));
      }
      return;
    }
    var now, then_ := boundary.certified.value.axis, counterpart.value.certified.value.axis;
    diff := diff.(comparable := true, explained := false, reference := Some(then_), difference := Some(now - then_));
  }

  /** What the report stores: one comparison per baseline, in name order. */
  ghost predicate Stores(diffs: seq<BaselineDiff>, names: seq<string>, baselines: Baselines,
      current: seq<SweepOutput>) {
    && Listing(names, baselines.Keys)
    && |diffs| == |names|
    && forall n | 0 <= n < |names| ::
         diffs[n] == BaselineDiff(names[n], DiffsOf(SweepsOf(baselines, names[n]), current, |current|))
  }

  method CompareEach(current: seq<SweepOutput>, baselines: Baselines, names: seq<string>)
      returns (diffs: seq<BaselineDiff>)
    requires forall n | 0 <= n < |names| :: names[n] in baselines
    ensures |diffs| == |names|
    ensures forall n | 0 <= n < |names| ::
              diffs[n] == BaselineDiff(names[n], DiffsOf(SweepsOf(baselines, names[n]), current, |current|))
  {
    diffs := [];
    for n := 0 to |names|
      invariant |diffs| == n
      invariant forall m | 0 <= m < n ::
                  diffs[m] == BaselineDiff(names[m], DiffsOf(SweepsOf(baselines, names[m]), current, |current|))
    {
      var boundaries := CompareSweepBoundaries(current, baselines[names[n]]);
      diffs := diffs + [BaselineDiff(names[n], boundaries)];
    }
  }

  method SetBaselineDiffs(current: seq<SweepOutput>, baselines: Baselines) returns (diffs: seq<BaselineDiff>)
    ensures exists names :: Stores(diffs, names, baselines, current)
  {
    var names := SortedNames(baselines);
    diffs := CompareEach(current, baselines, names);
    assert Stores(diffs, names, baselines, current);
  }

  function FromDiffs(name: string, diffs: seq<BoundaryDiff>, n: nat): seq<Reference>
    requires n <= |diffs|
  {
    seq(n, i requires 0 <= i < n => ReferenceOfDiff(name, diffs[i]))
  }

  lemma FromDiffsConcat(name: string, a: seq<BoundaryDiff>, b: seq<BoundaryDiff>)
    ensures FromDiffs(name, a + b, |a + b|) == FromDiffs(name, a, |a|) + FromDiffs(name, b, |b|)
  {
  }

  lemma SweepDiffsGiveReferences(baselines: Baselines, name: string, sweep: SweepOutput)
    ensures var diffs := DiffsOfSweep(SweepsOf(baselines, name), sweep, |sweep.boundaries|);
      FromDiffs(name, diffs, |diffs|) == OfBoundaries(Saved(baselines), name, sweep, |sweep.boundaries|)
  {
  }

  lemma {:induction false} DiffsGiveReferences(baselines: Baselines, name: string, current: seq<SweepOutput>, n: nat)
    requires n <= |current|
    ensures var diffs := DiffsOf(SweepsOf(baselines, name), current, n);
      FromDiffs(name, diffs, |diffs|) == OfSweeps(Saved(baselines), name, current, n)
  {
    if n > 0 {
      DiffsGiveReferences(baselines, name, current, n - 1);
      SweepDiffsGiveReferences(baselines, name, current[n - 1]);
      FromDiffsConcat(name, DiffsOf(SweepsOf(baselines, name), current, n - 1),
        DiffsOfSweep(SweepsOf(baselines, name), current[n - 1], |current[n - 1].boundaries|));
    }
  }

  /** The references of the first `n` stored baselines. */
  function FromBaselines(diffs: seq<BaselineDiff>, n: nat): seq<Reference>
    requires n <= |diffs|
  {
    if n == 0 then []
    else FromBaselines(diffs, n - 1) + FromDiffs(diffs[n - 1].name, diffs[n - 1].boundaries, |diffs[n - 1].boundaries|)
  }

  method BoundaryReferencesFromReport(diffs: seq<BaselineDiff>) returns (references: seq<Reference>)
    ensures references == FromBaselines(diffs, |diffs|)
  {
    references := [];
    for n := 0 to |diffs|
      invariant references == FromBaselines(diffs, n)
    {
      ghost var before := references;
      for b := 0 to |diffs[n].boundaries|
        invariant references == before + FromDiffs(diffs[n].name, diffs[n].boundaries, b)
      {
        references := references + [ReferenceOfDiff(diffs[n].name, diffs[n].boundaries[b])];
      }
    }
  }

  /** What is rebuilt from the stored comparisons are the references of the saved derivation. */
  lemma {:induction false} StoredGiveReferences(diffs: seq<BaselineDiff>, names: seq<string>, baselines: Baselines,
      current: seq<SweepOutput>, n: nat)
    requires n <= |diffs| == |names|
    requires forall m | 0 <= m < |names| ::
               diffs[m] == BaselineDiff(names[m], DiffsOf(SweepsOf(baselines, names[m]), current, |current|))
    ensures FromBaselines(diffs, n) == OfBaselines(Saved(baselines), names, current, n)
  {
    if n > 0 {
      StoredGiveReferences(diffs, names, baselines, current, n - 1);
      DiffsGiveReferences(baselines, names[n - 1], current, |current|);
    }
  }

  // ----- looking a reference up

  /** The first boundary for the endpoint in a sweep of the name, over all such sweeps. */
  function FirstPair(current: seq<SweepOutput>, n: nat, sweep: string, id: Id): Option<(SweepOutput, Boundary)>
    requires n <= |current|
  {
    if n == 0 then None
    else
      var before := FirstPair(current, n - 1, sweep, id);
      if before.Some? || current[n - 1].name != sweep then before
      else
        var boundary := BoundaryFor(current[n - 1].boundaries, id);
        if boundary.Some? then Some((current[n - 1], boundary.value)) else None
  }

  lemma {:induction false} FirstMatchConcat<T>(a: seq<T>, b: seq<T>, p: T -> bool)
    ensures FirstMatch(a + b, p) == if FirstMatch(a, p).Some? then FirstMatch(a, p) else FirstMatch(b, p)
  {
    if a == [] {
      assert a + b == b;
    } else {
      FirstMatchConcat(a[1..], b, p);
      assert (a + b)[1..] == a[1..] + b;
    }
  }

  lemma LookupConcat(a: seq<Reference>, b: seq<Reference>, baseline: string, wanted: string, id: Id)
    ensures ReferenceFor(a + b, baseline, wanted, id)
         == var first := ReferenceFor(a, baseline, wanted, id);
            if first.Some? then first else ReferenceFor(b, baseline, wanted, id)
  {
    FirstMatchConcat(a, b, ForRule(baseline, wanted, id));
  }

  lemma LookupOne(r: Reference, baseline: string, wanted: string, id: Id)
    ensures ReferenceFor([r], baseline, wanted, id)
         == if r.baseline == baseline && r.sweep == wanted && r.endpointID == id then Some(r) else None
  {
  }

  lemma BoundaryForStep(boundaries: seq<Boundary>, n: nat, id: Id)
    requires n < |boundaries|
    ensures BoundaryFor(boundaries[..n + 1], id)
         == var first := BoundaryFor(boundaries[..n], id);
            if first.Some? then first else if boundaries[n].endpointID == id then Some(boundaries[n]) else None
  {
    assert boundaries[..n + 1] == boundaries[..n] + [boundaries[n]];
    FirstMatchConcat(boundaries[..n], [boundaries[n]], ForEndpoint(id));
  }

  /** The reference derived for a boundary, if there is one. */
  function DerivedAt(derive: Derivation, name: string, sweep: SweepOutput,
      boundary: Option<Boundary>): Option<Reference> {
    if boundary.Some? then Some(Refer(derive, name, sweep, boundary.value)) else None
  }

  lemma {:induction false} LookupBoundaries(derive: Derivation, name: string, sweep: SweepOutput, n: nat,
      baseline: string, wanted: string, id: Id)
    requires n <= |sweep.boundaries|
    ensures ReferenceFor(OfBoundaries(derive, name, sweep, n), baseline, wanted, id)
         == if name == baseline && sweep.name == wanted
            then DerivedAt(derive, name, sweep, BoundaryFor(sweep.boundaries[..n], id)) else None
  {
    if n > 0 {
      LookupBoundaries(derive, name, sweep, n - 1, baseline, wanted, id);
      var r := Refer(derive, name, sweep, sweep.boundaries[n - 1]);
      assert OfBoundaries(derive, name, sweep, n) == OfBoundaries(derive, name, sweep, n - 1) + [r];
      LookupConcat(OfBoundaries(derive, name, sweep, n - 1), [r], baseline, wanted, id);
      LookupOne(r, baseline, wanted, id);
      BoundaryForStep(sweep.boundaries, n - 1, id);
    }
  }

  /** The reference derived for a pair, if there is one. */
  function DerivedFor(derive: Derivation, name: string, pair: Option<(SweepOutput, Boundary)>): Option<Reference> {
    if pair.Some? then Some(Refer(derive, name, pair.value.0, pair.value.1)) else None
  }

  lemma {:induction false} LookupSweeps(derive: Derivation, name: string, current: seq<SweepOutput>, n: nat,
      baseline: string, wanted: string, id: Id)
    requires n <= |current|
    ensures ReferenceFor(OfSweeps(derive, name, current, n), baseline, wanted, id)
         == if name == baseline then DerivedFor(derive, name, FirstPair(current, n, wanted, id)) else None
  {
    if n > 0 {
      LookupSweeps(derive, name, current, n - 1, baseline, wanted, id);
      var sweep := current[n - 1];
      LookupBoundaries(derive, name, sweep, |sweep.boundaries|, baseline, wanted, id);
      assert sweep.boundaries[..|sweep.boundaries|] == sweep.boundaries;
      LookupConcat(OfSweeps(derive, name, current, n - 1), OfBoundaries(derive, name, sweep, |sweep.boundaries|),
        baseline, wanted, id);
    }
  }

  /** The baseline is one of the first `n` names. */
  predicate Among(names: seq<string>, n: nat, baseline: string)
    requires n <= |names|
  {
    n > 0 && (Among(names, n - 1, baseline) || names[n - 1] == baseline)
  }

  lemma {:induction false} AmongMeans(names: seq<string>, n: nat, baseline: string)
    requires n <= |names|
    ensures Among(names, n, baseline) <==> baseline in names[..n]
  {
    if n > 0 {
      AmongMeans(names, n - 1, baseline);
      assert names[..n] == names[..n - 1] + [names[n - 1]];
    }
  }

  lemma BaselinesStep(derive: Derivation, names: seq<string>, current: seq<SweepOutput>, n: nat, baseline: string,
      wanted: string, id: Id)
    requires 0 < n <= |names|
    ensures ReferenceFor(OfBaselines(derive, names, current, n), baseline, wanted, id)
         == var first := ReferenceFor(OfBaselines(derive, names, current, n - 1), baseline, wanted, id);
            if first.Some? then first
            else if names[n - 1] == baseline then
              DerivedFor(derive, baseline, FirstPair(current, |current|, wanted, id))
            else None
  {
    LookupSweeps(derive, names[n - 1], current, |current|, baseline, wanted, id);
    LookupConcat(OfBaselines(derive, names, current, n - 1), OfSweeps(derive, names[n - 1], current, |current|),
      baseline, wanted, id);
  }

  lemma {:induction false} LookupBaselines(derive: Derivation, names: seq<string>, current: seq<SweepOutput>, n: nat,
      baseline: string, wanted: string, id: Id)
    requires n <= |names|
    ensures ReferenceFor(OfBaselines(derive, names, current, n), baseline, wanted, id)
         == if Among(names, n, baseline)
            then DerivedFor(derive, baseline, FirstPair(current, |current|, wanted, id)) else None
  {
    if n > 0 {
      LookupBaselines(derive, names, current, n - 1, baseline, wanted, id);
      BaselinesStep(derive, names, current, n, baseline, wanted, id);
    }
  }

  lemma {:induction false} FoundIsFirstPair(current: seq<SweepOutput>, n: nat, wanted: string, id: Id)
    requires n <= |current| && Found(current[..n], wanted, id).Some?
    ensures FirstPair(current, n, wanted, id) == Found(current[..n], wanted, id)
  {
    if n > 0 {
      assert current[..n] == current[..n - 1] + [current[n - 1]];
      FirstMatchConcat(current[..n - 1], [current[n - 1]], Named(wanted));
      if SweepNamed(current[..n - 1], wanted).Some? {
        FoundIsFirstPair(current, n - 1, wanted, id);
      } else {
        NoPairYet(current, n - 1, wanted, id);
      }
    }
  }

  lemma {:induction false} NoPairYet(current: seq<SweepOutput>, n: nat, wanted: string, id: Id)
    requires n <= |current| && SweepNamed(current[..n], wanted).None?
    ensures FirstPair(current, n, wanted, id).None?
  {
    if n > 0 {
      assert current[..n] == current[..n - 1] + [current[n - 1]];
      FirstMatchConcat(current[..n - 1], [current[n - 1]], Named(wanted));
      NoPairYet(current, n - 1, wanted, id);
    }
  }

  // ----- both derivations decide alike

  /** Everything a report shows of a rule except its reason text. */
  predicate SameOutcome(a: BoundaryResult, b: BoundaryResult) {
    && a.status == b.status && a.tolerance == b.tolerance && a.reference == b.reference && a.regression == b.regression
    && (a.cause == b.cause
        || (a.cause in {NoCompatibleBaseline, BaselineExplains} && b.cause in {NoCompatibleBaseline, BaselineExplains}))
  }

  /** Both derivations see the same regression of a boundary, or none. */
  lemma SameRegression(baselines: Baselines, name: string, sweep: SweepOutput, boundary: Boundary)
    ensures RegressionOf(Some(Refer(Live(baselines), name, sweep, boundary)), ToleranceOf(boundary))
         == RegressionOf(Some(Refer(Saved(baselines), name, sweep, boundary)), ToleranceOf(boundary))
  {
  }

  /** The two lists of references, over any orders of the baseline names. */
  ghost predicate BothDerived(live: seq<Reference>, saved: seq<Reference>, baselines: Baselines,
      current: seq<SweepOutput>) {
    exists liveNames, savedNames :: DerivedFrom(live, saved, baselines, current, liveNames, savedNames)
  }

  ghost predicate DerivedFrom(live: seq<Reference>, saved: seq<Reference>, baselines: Baselines,
      current: seq<SweepOutput>, liveNames: seq<string>, savedNames: seq<string>)
  {
    && live == OfBaselines(Live(baselines), liveNames, current, |liveNames|)
    && saved == OfBaselines(Saved(baselines), savedNames, current, |savedNames|)
    && forall name :: name in liveNames <==> name in savedNames
  }

  lemma ReplaySameRegression(live: seq<Reference>, saved: seq<Reference>, baselines: Baselines,
      current: seq<SweepOutput>, baseline: string, wanted: string, id: Id)
    requires BothDerived(live, saved, baselines, current) && Found(current, wanted, id).Some?
    ensures var tolerance := ToleranceOf(Found(current, wanted, id).value.1);
      RegressionOf(ReferenceFor(live, baseline, wanted, id), tolerance)
      == RegressionOf(ReferenceFor(saved, baseline, wanted, id), tolerance)
  {
    var liveNames, savedNames :| DerivedFrom(live, saved, baselines, current, liveNames, savedNames);
    assert current[..|current|] == current;
    FoundIsFirstPair(current, |current|, wanted, id);
    assert liveNames[..|liveNames|] == liveNames && savedNames[..|savedNames|] == savedNames;
    AmongMeans(liveNames, |liveNames|, baseline);
    AmongMeans(savedNames, |savedNames|, baseline);
    LookupBaselines(Live(baselines), liveNames, current, |liveNames|, baseline, wanted, id);
    LookupBaselines(Saved(baselines), savedNames, current, |savedNames|, baseline, wanted, id);
    var found := Found(current, wanted, id).value;
    SameRegression(baselines, baseline, found.0, found.1);
  }

  lemma SameRegressionSameOutcome(rule: BoundaryRule, current: seq<SweepOutput>, a: seq<Reference>, b: seq<Reference>,
      cfg: GateConfig)
    requires Found(current, rule.sweep, rule.endpointID).Some? ==>
               var tolerance := ToleranceOf(Found(current, rule.sweep, rule.endpointID).value.1);
               RegressionOf(ReferenceFor(a, rule.baseline, rule.sweep, rule.endpointID), tolerance)
               == RegressionOf(ReferenceFor(b, rule.baseline, rule.sweep, rule.endpointID), tolerance)
    ensures SameOutcome(RuleResult(rule, current, a, cfg), RuleResult(rule, current, b, cfg))
  {
  }

  /**
   Replaying a rule on the references rebuilt from a saved report gives the status, tolerance, reference and regression
   of the original run, although the saved derivation also drops counterparts that are not certified on both sides.
   */
  lemma ReplaySameRule(rule: BoundaryRule, current: seq<SweepOutput>, baselines: Baselines, live: seq<Reference>,
      saved: seq<Reference>, cfg: GateConfig)
    requires BothDerived(live, saved, baselines, current)
    ensures SameOutcome(RuleResult(rule, current, live, cfg), RuleResult(rule, current, saved, cfg))
  {
    if Found(current, rule.sweep, rule.endpointID).Some? {
      ReplaySameRegression(live, saved, baselines, current, rule.baseline, rule.sweep, rule.endpointID);
    }
    SameRegressionSameOutcome(rule, current, live, saved, cfg);
  }

  /**
   The whole gate: replaying a saved analysis gives the same decision, the same boundary outcomes and the same failures.
   */
  lemma ReplaySameDecision(outputs: seq<Measured>, current: seq<SweepOutput>, baselines: Baselines,
      live: seq<Reference>, saved: seq<Reference>, cfg: GateConfig, original: Analysis, replayed: Analysis)
    requires BothDerived(live, saved, baselines, current)
    requires Analyzes(outputs, current, live, cfg, original) && Analyzes(outputs, current, saved, cfg, replayed)
    ensures replayed.decision == original.decision && replayed.failedBoundaries == original.failedBoundaries
    ensures |replayed.boundaryResults| == |original.boundaryResults|
    ensures forall i | 0 <= i < |original.boundaryResults| ::
        SameOutcome(original.boundaryResults[i], replayed.boundaryResults[i])
  {
    forall i | 0 <= i < |cfg.boundaryRules|
      ensures SameOutcome(original.boundaryResults[i], replayed.boundaryResults[i])
    {
      ReplaySameRule(cfg.boundaryRules[i], current, baselines, live, saved, cfg);
      ResultsAt(cfg, current, live, |cfg.boundaryRules|, i);
      ResultsAt(cfg, current, saved, |cfg.boundaryRules|, i);
    }
    SameFailures(cfg.boundaryRules, original.boundaryResults, replayed.boundaryResults, |cfg.boundaryRules|);
    SameMerge(VerdictOf(outputs, cfg), original.boundaryResults, replayed.boundaryResults, cfg.mode);
  }

  lemma SameMerge(current: Verdict, a: seq<BoundaryResult>, b: seq<BoundaryResult>, mode: Mode)
    requires |a| == |b| && forall i | 0 <= i < |a| :: a[i].status == b[i].status
    ensures Merged(current, a, mode) == Merged(current, b, mode)
  {
  }

  lemma {:induction false} SameFailures(rules: seq<BoundaryRule>, a: seq<BoundaryResult>, b: seq<BoundaryResult>,
      n: nat)
    requires n <= |rules| && n <= |a| == |b| && forall i | 0 <= i < n :: a[i].status == b[i].status
    ensures FailedRules(rules, a, n) == FailedRules(rules, b, n)
  {
    if n > 0 {
      SameFailures(rules, a, b, n - 1);
    }
  }

  lemma InOrderDerive(live: seq<Reference>, diffs: seq<BaselineDiff>, baselines: Baselines, current: seq<SweepOutput>)
    requires exists names :: DerivedInOrder(live, Live(baselines), baselines, current, names)
    requires exists names :: Stores(diffs, names, baselines, current)
    ensures BothDerived(live, FromBaselines(diffs, |diffs|), baselines, current)
  {
    var liveNames :| DerivedInOrder(live, Live(baselines), baselines, current, liveNames);
    var savedNames :| Stores(diffs, savedNames, baselines, current);
    StoredGiveReferences(diffs, savedNames, baselines, current, |diffs|);
    assert DerivedFrom(live, FromBaselines(diffs, |diffs|), baselines, current, liveNames, savedNames);
  }

  /** The gate command on a saved report, against the analysis that produced the report. */
  method EvaluateReportProfiles(outputs: seq<Measured>, current: seq<SweepOutput>, diffs: seq<BaselineDiff>,
      cfg: GateConfig, ghost baselines: Baselines, ghost live: seq<Reference>, ghost original: Analysis)
    returns (r: Result<Analysis>)
    requires exists names :: Stores(diffs, names, baselines, current)
    requires exists names :: DerivedInOrder(live, Live(baselines), baselines, current, names)
    requires Analyzes(outputs, current, live, cfg, original)
    ensures r.Ok? <==> !cfg.mode.OtherMode?
    ensures r.Ok? ==>
              && r.value.decision == original.decision && r.value.failedBoundaries == original.failedBoundaries
              && |r.value.boundaryResults| == |original.boundaryResults|
              && forall i | 0 <= i < |original.boundaryResults| ::
                  SameOutcome(original.boundaryResults[i], r.value.boundaryResults[i])
  {
    var references := BoundaryReferencesFromReport(diffs);
    r := EvaluateAnalysis(outputs, current, references, cfg);
    if r.Ok? {
      InOrderDerive(live, diffs, baselines, current);
      ReplaySameDecision(outputs, current, baselines, live, references, cfg, original, r.value);
    }
  }
}
