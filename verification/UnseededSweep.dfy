/** A sweep without a seed can rise: the smallest graph on which it does, and the seeds for which it cannot. */
module UnseededSweep {
  import opened Wrappers
  import opened Ids
  import opened Draws
  import opened Topology
  import opened Sampling
  import opened Endpoints
  import opened ProfileRun
  import opened Counting
  import opened Wilson
  import opened Boundaries
  import opened Sweeps
  import opened SweepCoupling
  import Chances
  import Predicates
  import Nesting

  /** One service with one replica that may fail, and an endpoint that needs it. */
  const GRAPH := Context(map["s" := Service("s", true, [1])], ["s"], map[], [])

  const NEEDED := Endpoint("x", PredicateMode, Predicates.Definition(Predicates.AllOf, ["s"], [], 0, "", [], [], []),
      map[], [])

  /** One trial per point; the replica fails with probability 0.1 and then 0.2. */
  const SWEEP := Sweep("replicas",
    Profile("base", 1, 0, IndependentReplica, 0.0, 0, None, None, map[], map[], true),
    ReplicaFailureProbability, [0.1, 0.2], [Target("x", 0.9)])

  function ProfileAt(i: nat, seed: int): Profile
    requires i < 2
  {
    Profile("sweep:replicas", 1, seed, IndependentReplica, SWEEP.values[i], 0, Some(1.0 - SWEEP.values[i]), None, map[],
        map[], true)
  }

  lemma GraphIsGood()
    ensures GoodEndpoints(GRAPH, [NEEDED])
  {
    assert forall id :: id in GRAPH.serviceIDs <==> id == "s";
    assert forall id :: id in GRAPH.services <==> id == "s";
  }

  lemma SweepIsValid()
    ensures SWEEP.Valid() && KnownTargets(SWEEP, [NEEDED]) && StartsCertain(SWEEP, GRAPH, NO_FAULTS)
  {
    assert [NEEDED][0].id == SWEEP.targets[0].endpointID;
  }

  /** Point 0 has its own seed 0, whose draws are all high; point 1 has seed 1, whose draws are all 0. */
  ghost predicate SeedsByPosition(entropy: Entropy) {
    && (forall seed, name, index :: entropy.profileSeed(seed, name, index) == index)
    && (forall seed, trial, subject :: entropy.eventSeed(seed, trial, subject) == seed)
    && Chances.HighFrom(entropy.source(0), 0.95, 0) && Chances.HighFrom(entropy.source(1), 0.0, 0)
  }

  lemma EntropyByPosition() returns (entropy: Entropy)
    ensures SeedsByPosition(entropy)
  {
    var after := (p: nat, m: nat) => p + m;
    var high := Chances.SplicedTape(0, 0.95, [], after);
    var low := Chances.SplicedTape(0, 0.0, [], after);
    entropy := Entropy((seed: int) => if seed == 0 then high else low,
                       (seed: int, name: string, index: int) => index,
                       (seed: int, trial: nat, subject: Subject) => seed);
  }

  function SetupAt(i: nat, entropy: Entropy): Setup
    requires i < 2
  {
    PointSetup(SWEEP, i, 0, GRAPH, [NEEDED], NO_FAULTS, entropy)
  }

  lemma SetupIs(i: nat, entropy: Entropy)
    requires i < 2 && SeedsByPosition(entropy)
    ensures SetupAt(i, entropy) == Setup(GRAPH, ProfileAt(i, i), [NEEDED], NO_FAULTS, entropy)
    ensures NormalizeProfile(PointProfile(SWEEP, SWEEP.values[i], 0), 0, i, entropy) == Ok(ProfileAt(i, i))
    ensures CanRun(GRAPH, ProfileAt(i, i)) && SetupAt(i, entropy).Runnable()
  {
    assert "sweep:" + SWEEP.name == "sweep:replicas";
    ProfileRuns(i, entropy);
  }

  lemma ProfileRuns(i: nat, entropy: Entropy)
    requires i < 2
    ensures CanRun(GRAPH, ProfileAt(i, i)) && Setup(GRAPH, ProfileAt(i, i), [NEEDED], NO_FAULTS, entropy).Runnable()
  {
  }

  lemma BucketOf(profile: Profile, stream: Stream, at: real)
    requires profile.mode.IndependentReplica? && stream.draw(0) == at
    ensures BucketStage(GRAPH, profile, stream, 0)
        == Ok((map[BucketId("s", 0) := at < ServiceLiveProbability(profile, "s")], 1))
  {
    var svc, p := GRAPH.ServiceOf("s"), ServiceLiveProbability(profile, "s");
    assert ReplicaDraws(svc, p, stream, 0, 0) == (map[], 0);
    assert AnyBelow(stream, 0, 1, p) <==> at < p;
    assert ReplicaDraws(svc, p, stream, 1, 0) == (map[BucketId("s", 0) := at < p], 1);
    assert ReplicaBuckets(GRAPH, profile, stream, 0, 0) == (map[], 0);
    assert GRAPH.serviceIDs[0] == "s" && svc.samplingEligible && |svc.replicas| == 1;
    assert map[] + map[BucketId("s", 0) := at < p] == map[BucketId("s", 0) := at < p];
    assert ReplicaBuckets(GRAPH, profile, stream, 1, 0) == (map[BucketId("s", 0) := at < p], 1);
  }

  lemma ServiceOfPoint(i: nat, stream: Stream)
    requires i < 2 && stream.draw(0) == if i == 0 then 0.95 else 0.0
    ensures Fits(GRAPH, ProfileAt(i, i))
    ensures Up(Sample(GRAPH, ProfileAt(i, i), NO_FAULTS, stream, 0).value.0.serviceAlive, "s") <==> i == 1
  {
    var profile := ProfileAt(i, i);
    BucketOf(profile, stream, if i == 0 then 0.95 else 0.0);
    var buckets := map[BucketId("s", 0) := i == 1];
    assert AfterKills(buckets, NO_FAULTS) == buckets;
    assert GRAPH.ServiceOf("s").Bucket(0) == BucketId("s", 0) && |GRAPH.ServiceOf("s").replicas| == 1;
    assert ServiceUp(GRAPH, buckets, "s") <==> i == 1;
    assert GRAPH.serviceIDs[0] == "s";
  }

  lemma WorldOf(i: nat, entropy: Entropy)
    requires i < 2 && SeedsByPosition(entropy) && SetupAt(i, entropy).Runnable()
    ensures Up(TrialWorld(SetupAt(i, entropy), 0, 0).0.serviceAlive, "s") <==> i == 1
  {
    SetupIs(i, entropy);
    ServiceOfPoint(i, entropy.source(i));
  }

  lemma VerdictIs(setup: Setup, world: World, pos: nat)
    requires setup.Shaped() && setup.endpoints == [NEEDED]
    ensures Verdicts(setup, world, 0, 1, pos).0 == [Up(world.serviceAlive, "s")]
  {
    assert Verdicts(setup, world, 0, 0, pos) == ([], pos);
    var results := PathResults(setup, world, 0, [], 0, pos);
    assert Outcome(NEEDED, world, results.0) == Up(world.serviceAlive, "s") by {
      assert NEEDED.definition.services[0] == "s" && Liveness(world)("s") == Up(world.serviceAlive, "s");
    }
    assert Verdicts(setup, world, 0, 1, pos) == ([] + [Outcome(NEEDED, world, results.0)], results.1);
  }

  lemma WinsOnlyLater(i: nat, entropy: Entropy)
    requires i < 2 && SeedsByPosition(entropy)
    ensures SetupAt(i, entropy).Runnable() && Successes(SetupAt(i, entropy), 0, 1) == i
  {
    var setup := SetupAt(i, entropy);
    SetupIs(i, entropy);
    WorldOf(i, entropy);
    var sampled := TrialWorld(setup, 0, 0);
    VerdictIs(setup, sampled.0, sampled.1);
    assert Cursor(setup, 0) == 0;
    assert Winning(setup, 0)(0) == Wins(setup, 0, 0) == (i == 1);
    assert CountTrue(Winning(setup, 0), 0) == 0;
  }

  lemma RecordedAt(i: nat, entropy: Entropy, quantile: Quantile, points: seq<Point>)
    requires i < 2 && SeedsByPosition(entropy) && quantile.z > 0.0
    requires Curve(SWEEP, 0, GRAPH, [NEEDED], NO_FAULTS, entropy, quantile, points)
    ensures AvailabilityOf(points[i], "x") == i as real
  {
    WinsOnlyLater(i, entropy);
    assert IsPoint(SWEEP, i, 0, GRAPH, [NEEDED], NO_FAULTS, entropy, quantile, points[i]);
    var setup := SetupAt(i, entropy);
    assert setup.endpoints[0].id == SWEEP.targets[0].endpointID;
  }

  /**
   Without a seed each point of a sweep gets its own, and the points no longer share their draws: here is a valid
   sweep whose every run without a seed reports a higher availability at the higher failure probability, and so a
   non-monotonic boundary.
   */
  lemma UnseededSweepCanRise(quantile: Quantile) returns (entropy: Entropy)
    requires quantile.z > 0.0
    ensures SWEEP.Valid() && GoodEndpoints(GRAPH, [NEEDED]) && KnownTargets(SWEEP, [NEEDED])
        && StartsCertain(SWEEP, GRAPH, NO_FAULTS)
    ensures forall i | 0 <= i < |SWEEP.values| :: PointRuns(SWEEP, i, 0, GRAPH, entropy)
    ensures forall points | Curve(SWEEP, 0, GRAPH, [NEEDED], NO_FAULTS, entropy, quantile, points) ::
              && AvailabilityOf(points[0], "x") == 0.0 && AvailabilityOf(points[1], "x") == 1.0
              && BoundaryOf(points, SWEEP.targets[0]).status.NonMonotonic?
  {
    GraphIsGood();
    SweepIsValid();
    entropy := EntropyByPosition();
    forall i | 0 <= i < |SWEEP.values|
      ensures PointRuns(SWEEP, i, 0, GRAPH, entropy)
    {
      SetupIs(i, entropy);
    }
    forall points | Curve(SWEEP, 0, GRAPH, [NEEDED], NO_FAULTS, entropy, quantile, points)
      ensures AvailabilityOf(points[0], "x") == 0.0 && AvailabilityOf(points[1], "x") == 1.0
      ensures BoundaryOf(points, SWEEP.targets[0]).status.NonMonotonic?
    {
      RecordedAt(0, entropy, quantile, points);
      RecordedAt(1, entropy, quantile, points);
      assert points[1 - 1] == points[0];
    }
  }

  // ----- the seeds that keep this sweep from rising

  /** Every run of the sweep with this seed reports a non-increasing curve. */
  ghost predicate NeverRises(seed: int, quantile: Quantile)
    requires quantile.z > 0.0
  {
    forall entropy: Entropy, points | Curve(SWEEP, seed, GRAPH, [NEEDED], NO_FAULTS, entropy, quantile, points) ::
      NonIncreasing(points, "x")
  }

  function Recorded(i: nat, quantile: Quantile): Point
    requires i < 2 && quantile.z > 0.0
  {
    Point(SWEEP.values[i], map["x" := i as real], map["x" := WilsonInterval(i, 1, quantile)])
  }

  lemma RecordedCurve(entropy: Entropy, quantile: Quantile) returns (points: seq<Point>)
    requires quantile.z > 0.0 && SeedsByPosition(entropy)
    ensures Curve(SWEEP, 0, GRAPH, [NEEDED], NO_FAULTS, entropy, quantile, points)
  {
    points := [Recorded(0, quantile), Recorded(1, quantile)];
    forall i | 0 <= i < |points|
      ensures IsPoint(SWEEP, i, 0, GRAPH, [NEEDED], NO_FAULTS, entropy, quantile, points[i])
    {
      WinsOnlyLater(i, entropy);
    }
  }

  /** The sweep never rises, on any entropy, exactly when it has a seed. */
  lemma SeedKeepsOrderExactly(seed: int, quantile: Quantile)
    requires quantile.Valid()
    ensures NeverRises(seed, quantile) <==> seed != 0
  {
    if seed == 0 {
      var entropy := EntropyByPosition();
      var points := RecordedCurve(entropy, quantile);
      assert points[1 - 1] == points[0];
      RecordedAt(0, entropy, quantile, points);
      RecordedAt(1, entropy, quantile, points);
      assert !NonIncreasing(points, "x");
    } else {
      GraphIsGood();
      SweepIsValid();
      forall entropy: Entropy, points | Curve(SWEEP, seed, GRAPH, [NEEDED], NO_FAULTS, entropy, quantile, points)
        ensures NonIncreasing(points, "x")
      {
        CurvesNeverRise(SWEEP, seed, GRAPH, [NEEDED], NO_FAULTS, entropy, quantile, points, 0);
      }
    }
  }
}
