/** A slot sweep that starts at zero failures can rise: the smallest graph, and one trial, on which it does. */
module RisingSweep {
  import opened Wrappers
  import opened Ids
  import opened Draws
  import opened Topology
  import opened Execution
  import opened Sampling
  import opened Nesting
  import opened Endpoints
  import opened ProfileRun
  import opened Counting
  import opened Wilson
  import opened Boundaries
  import opened Sweeps
  import opened SweepCoupling
  import JourneyPaths
  import Predicates
  import TargetPaths
  import SlotList = Slots

  const CALL := Edge("call", "a", "b", Sync, true, None, None)

  const ROUTE := Path("a->b", ["a", "b"], ["call"])

  /** Two services that cannot fail joined by one call, and a third one holding the only slot that can. */
  const GRAPH := Context(
    map["a" := Service("a", false, [1]), "b" := Service("b", false, [1]), "c" := Service("c", true, [1])],
    ["a", "b", "c"],
    map["call" := CALL],
    ["call"])

  const ROUTED := Endpoint("x", JourneyMode, Predicates.Definition(Predicates.AnyOf, [], [], 0, "", [], [], []), map[],
      [ROUTE])

  /** One trial per point, no slot failed and then one, over a call that is up half of the time. */
  const SWEEP := Sweep("slots",
    Profile("base", 1, 0, FixedKReplicaSlots, 0.0, 0, None, Some(0.5), map[], map[], true),
    FailedReplicaSlots, [0.0, 1.0], [Target("x", 0.9)])

  function OneStream(stream: Stream): Entropy {
    Entropy((seed: int) => stream, (seed: int, name: string, index: int) => 1,
        (seed: int, trial: nat, subject: Subject) => 1)
  }

  function SetupAt(i: nat, stream: Stream): Setup
    requires i < 2
  {
    PointSetup(SWEEP, i, 1, GRAPH, [ROUTED], NO_FAULTS, OneStream(stream))
  }

  lemma GraphValid()
    ensures GRAPH.Valid()
  {
    assert forall id :: id in GRAPH.serviceIDs <==> id == "a" || id == "b" || id == "c";
    assert forall id :: id in GRAPH.services <==> id == "a" || id == "b" || id == "c";
    assert forall id :: id in GRAPH.edgeIDs <==> id == "call";
  }

  lemma RouteValid()
    ensures ROUTE.Within(GRAPH) && ROUTED.Valid(GRAPH)
  {
  }

  lemma GraphIsGood()
    ensures GoodEndpoints(GRAPH, [ROUTED])
  {
    GraphValid();
    RouteValid();
  }

  lemma SweepIsValid()
    ensures SWEEP.Valid() && KnownTargets(SWEEP, [ROUTED]) && !StartsCertain(SWEEP, GRAPH, NO_FAULTS)
  {
    assert EdgeLiveProbability(SWEEP.base, GRAPH.edgeIDs[0]) == 0.5;
    assert [ROUTED][0].id == SWEEP.targets[0].endpointID;
  }

  lemma OneSlot()
    ensures Sampling.Slots(GRAPH, 3) == [BucketId("c", 0)]
  {
    var svc := GRAPH.ServiceOf("c");
    assert SlotsOfService(svc, 0) == [];
    assert SlotsOfService(svc, 1) == [BucketId("c", 0)];
    assert Sampling.Slots(GRAPH, 0) == [] && Sampling.Slots(GRAPH, 1) == [] && Sampling.Slots(GRAPH, 2) == [];
  }

  function BucketsLeft(up: bool): map<BucketId, bool> {
    map[BucketId("a", 0) := true, BucketId("b", 0) := true, BucketId("c", 0) := up]
  }

  lemma OneBucketLeft(id: Id, failed: multiset<BucketId>)
    requires id == "a" || id == "b" || id == "c"
    ensures var svc := GRAPH.ServiceOf(id);
      && svc.replicas == [1]
      && SurvivingBuckets(svc, 1, failed) == map[BucketId(id, 0) := failed[BucketId(id, 0)] < 1]
  {
    assert SurvivingBuckets(GRAPH.ServiceOf(id), 0, failed) == map[];
  }

  lemma SlotsLeft(failed: multiset<BucketId>)
    requires failed[BucketId("a", 0)] == 0 && failed[BucketId("b", 0)] == 0
    ensures SurvivingSlots(GRAPH, failed, 3) == BucketsLeft(failed[BucketId("c", 0)] < 1)
  {
    OneBucketLeft("a", failed);
    OneBucketLeft("b", failed);
    OneBucketLeft("c", failed);
    assert SurvivingSlots(GRAPH, failed, 0) == map[];
    assert SurvivingSlots(GRAPH, failed, 1) == map[BucketId("a", 0) := true];
    assert SurvivingSlots(GRAPH, failed, 2) == map[BucketId("a", 0) := true, BucketId("b", 0) := true];
  }

  lemma ServicesUp(failed: multiset<BucketId>)
    requires failed[BucketId("a", 0)] == 0 && failed[BucketId("b", 0)] == 0
    ensures var states := ServiceStates(GRAPH, AfterKills(SurvivingSlots(GRAPH, failed, 3), NO_FAULTS));
      Up(states, "a") && Up(states, "b")
  {
    SlotsLeft(failed);
    var buckets := BucketsLeft(failed[BucketId("c", 0)] < 1);
    assert AfterKills(buckets, NO_FAULTS) == buckets;
    assert Up(buckets, GRAPH.ServiceOf("a").Bucket(0)) && Up(buckets, GRAPH.ServiceOf("b").Bucket(0));
    assert ServiceUp(GRAPH, buckets, "a") && ServiceUp(GRAPH, buckets, "b");
    assert GRAPH.serviceIDs[0] == "a" && GRAPH.serviceIDs[1] == "b";
  }

  /** The profile of a point, written out. */
  function ProfileAt(i: nat): Profile {
    Profile("sweep:slots", 1, 1, FixedKReplicaSlots, 0.0, i, None, Some(0.5), map[], map[], true)
  }

  lemma PointProfileIs(i: nat, stream: Stream)
    requires i < 2
    ensures NormalizeProfile(PointProfile(SWEEP, SWEEP.values[i], 1), 1, i, OneStream(stream)) == Ok(ProfileAt(i))
    ensures SetupAt(i, stream) == Setup(GRAPH, ProfileAt(i), [ROUTED], NO_FAULTS, OneStream(stream))
  {
    assert "sweep:" + SWEEP.name == "sweep:slots";
    assert SWEEP.values[i].Floor == i;
  }

  lemma ProfileFits(i: nat)
    requires i < 2
    ensures Fits(GRAPH, ProfileAt(i)) && CanRun(GRAPH, ProfileAt(i))
  {
    OneSlot();
    assert SlotList.TotalSlots(GRAPH, |GRAPH.serviceIDs|) == 1;
  }

  /** The slots a point fails: none, or the only one there is. */
  function FailedAt(i: nat): multiset<BucketId> {
    if i == 0 then multiset{} else multiset{BucketId("c", 0)}
  }

  /** The first draw is high and all others are 0, and permuting the one slot draws at all. */
  ghost predicate Spiked(stream: Stream) {
    Spikes(stream, 0, 0.9, stream.afterPerm) && stream.afterPerm(0, 1) > 0
  }

  /** Where a point reads its edges. */
  function EdgesFrom(i: nat, stream: Stream): nat {
    if i == 0 then 0 else stream.afterPerm(0, 1)
  }

  lemma StageOfPoint(i: nat, stream: Stream)
    requires i < 2 && Spiked(stream)
    ensures BucketStage(GRAPH, ProfileAt(i), stream, 0)
        == Ok((SurvivingSlots(GRAPH, FailedAt(i), 3), EdgesFrom(i, stream)))
  {
    OneSlot();
    if i == 1 {
      var hit := Hit([BucketId("c", 0)], stream.perm(0, 1), 1);
      assert hit == [BucketId("c", 0)];
    }
  }

  lemma BucketsOfPoint(i: nat, stream: Stream)
    requires i < 2 && Spiked(stream)
    ensures var stage := BucketStage(GRAPH, ProfileAt(i), stream, 0);
      && stage.Ok? && stage.value.1 == EdgesFrom(i, stream)
      && var states := ServiceStates(GRAPH, AfterKills(stage.value.0, NO_FAULTS));
         Up(states, "a") && Up(states, "b")
  {
    StageOfPoint(i, stream);
    ServicesUp(FailedAt(i));
  }

  lemma CallOfPoint(i: nat, stream: Stream)
    requires i < 2 && Spiked(stream)
    ensures Up(EdgeStates(GRAPH, ProfileAt(i), NO_FAULTS, stream, 1, EdgesFrom(i, stream)).0, "call") <==> i == 1
  {
    var at := EdgesFrom(i, stream);
    assert EdgeStates(GRAPH, ProfileAt(i), NO_FAULTS, stream, 0, at) == (map[], at);
  }

  /** The sampled world of either point: both ends of the call are up, and the call is up in the second point only. */
  lemma WorldsOf(i: nat, stream: Stream)
    requires i < 2 && Spiked(stream)
    ensures SetupAt(i, stream).Runnable()
    ensures var world := TrialWorld(SetupAt(i, stream), 0, 0).0;
      Up(world.serviceAlive, "a") && Up(world.serviceAlive, "b") && (Up(world.edgeAlive, "call") <==> i == 1)
  {
    PointProfileIs(i, stream);
    ProfileFits(i);
    assert SetupAt(i, stream).Shaped();
    BucketsOfPoint(i, stream);
    CallOfPoint(i, stream);
  }

  lemma RouteUndisturbed()
    ensures JourneyPaths.Undisturbed(GRAPH, NO_FAULTS, ROUTE)
  {
    assert EdgeErrorRate(GRAPH, NO_FAULTS, "call") == 0.0;
    assert ResolveTimeout(GRAPH.EdgeOf("call").resilience) == 0;
  }

  lemma RouteSucceeds(i: nat, world: World, stream: Stream)
    requires Up(world.serviceAlive, "a") && Up(world.serviceAlive, "b") && (Up(world.edgeAlive, "call") <==> i == 1)
    ensures ServiceRun(GRAPH, NO_FAULTS, ROUTE, world, stream, 0, 0).0 <==> i == 1
  {
    RouteUndisturbed();
    JourneyPaths.UndisturbedIsUp(GRAPH, NO_FAULTS, ROUTE, world, stream);
    assert ROUTE.services[0] == "a" && ROUTE.services[1] == "b" && ROUTE.edgeIDs[0] == "call";
  }

  lemma RouteRuns(i: nat, stream: Stream)
    requires i < 2 && Spiked(stream) && SetupAt(i, stream).Runnable()
    ensures var sampled := TrialWorld(SetupAt(i, stream), 0, 0);
      PathResults(SetupAt(i, stream), sampled.0, 0, [ROUTE], 1, sampled.1).0 == map["a->b" := i == 1]
  {
    var setup := SetupAt(i, stream);
    WorldsOf(i, stream);
    var sampled := TrialWorld(setup, 0, 0);
    RouteSucceeds(i, sampled.0, stream);
    OneResult(setup, sampled.0, stream, sampled.1, i == 1);
  }

  lemma OneResult(setup: Setup, world: World, stream: Stream, pos: nat, ok: bool)
    requires setup.ctx == GRAPH && setup.faults == NO_FAULTS && setup.profile.coupledTrials
    requires setup.entropy.EventStream(setup.profile.seed, 0, PathLabel("a->b")) == stream
    requires ServiceRun(GRAPH, NO_FAULTS, ROUTE, world, stream, 0, 0).0 == ok
    ensures PathResults(setup, world, 0, [ROUTE], 1, pos).0 == map["a->b" := ok]
  {
    assert PathResults(setup, world, 0, [ROUTE], 0, pos) == (map[], pos);
  }

  lemma VerdictIs(setup: Setup, world: World, pos: nat, ok: bool)
    requires setup.Shaped() && setup.endpoints == [ROUTED]
    requires PathResults(setup, world, 0, [ROUTE], 1, pos).0 == map["a->b" := ok]
    ensures Verdicts(setup, world, 0, 1, pos).0 == [ok]
  {
    var results := PathResults(setup, world, 0, [ROUTE], 1, pos).0;
    assert Outcome(ROUTED, world, results) <==> ok by {
      assert "a->b" in results;
    }
    assert Verdicts(setup, world, 0, 0, pos) == ([], pos);
  }

  lemma WinsOnlyLater(i: nat, stream: Stream)
    requires i < 2 && Spiked(stream)
    ensures SetupAt(i, stream).Runnable() && Successes(SetupAt(i, stream), 0, 1) == i
  {
    var setup := SetupAt(i, stream);
    WorldsOf(i, stream);
    RouteRuns(i, stream);
    var sampled := TrialWorld(setup, 0, 0);
    VerdictIs(setup, sampled.0, sampled.1, i == 1);
    assert Cursor(setup, 0) == 0;
    assert Winning(setup, 0)(0) == Wins(setup, 0, 0) == (i == 1);
    assert CountTrue(Winning(setup, 0), 0) == 0;
  }

  /** Both points can be evaluated, so the sweep runs. */
  lemma Evaluated(i: nat, stream: Stream)
    requires i < 2
    ensures PointRuns(SWEEP, i, 1, GRAPH, OneStream(stream))
  {
    PointProfileIs(i, stream);
    ProfileFits(i);
  }

  /**
   Coupled trials do not keep the documented order for slot sweeps that start at 0: here is a valid sweep with a
   non-zero seed whose every run reports a higher availability with one failed slot than with none, and so a
   non-monotonic boundary. The missing permutation at 0 shifts the draw that decides the call,
   whatever permutations cost as long as they draw at all.
   */
  lemma SlotSweepCanRise(quantile: Quantile, after: (nat, nat) -> nat) returns (stream: Stream)
    requires quantile.z > 0.0 && after(0, 1) > 0
    ensures stream.afterPerm == after
    ensures SWEEP.Valid() && GoodEndpoints(GRAPH, [ROUTED]) && KnownTargets(SWEEP, [ROUTED])
        && !StartsCertain(SWEEP, GRAPH, NO_FAULTS)
    ensures forall i | 0 <= i < |SWEEP.values| :: PointRuns(SWEEP, i, 1, GRAPH, OneStream(stream))
    ensures forall points | Curve(SWEEP, 1, GRAPH, [ROUTED], NO_FAULTS, OneStream(stream), quantile, points) ::
              && AvailabilityOf(points[0], "x") == 0.0 && AvailabilityOf(points[1], "x") == 1.0
              && BoundaryOf(points, SWEEP.targets[0]).status.NonMonotonic?
  {
    GraphIsGood();
    SweepIsValid();
    stream := SpikedTape(0, 0.9, after);
    forall i | 0 <= i < |SWEEP.values|
      ensures PointRuns(SWEEP, i, 1, GRAPH, OneStream(stream))
    {
      Evaluated(i, stream);
    }
    forall points | Curve(SWEEP, 1, GRAPH, [ROUTED], NO_FAULTS, OneStream(stream), quantile, points)
      ensures AvailabilityOf(points[0], "x") == 0.0 && AvailabilityOf(points[1], "x") == 1.0
      ensures BoundaryOf(points, SWEEP.targets[0]).status.NonMonotonic?
    {
      RecordedAt(0, stream, quantile, points);
      RecordedAt(1, stream, quantile, points);
      assert points[1 - 1] == points[0];
    }
  }

  lemma RecordedAt(i: nat, stream: Stream, quantile: Quantile, points: seq<Point>)
    requires i < 2 && Spiked(stream) && quantile.z > 0.0
    requires Curve(SWEEP, 1, GRAPH, [ROUTED], NO_FAULTS, OneStream(stream), quantile, points)
    ensures AvailabilityOf(points[i], "x") == i as real
  {
    WinsOnlyLater(i, stream);
    assert IsPoint(SWEEP, i, 1, GRAPH, [ROUTED], NO_FAULTS, OneStream(stream), quantile, points[i]);
    var setup := SetupAt(i, stream);
    assert setup.endpoints[0].id == SWEEP.targets[0].endpointID;
  }
}
