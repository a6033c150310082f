/** What an edge's error rate is, in terms of observed and injected rates, and when execution hits an error. */
module ErrorRates {
  import opened Wrappers
  import opened Ids
  import opened Draws
  import opened Topology
  import opened Execution
  import opened Probability
  import opened Timeouts

  /** The observed rate of the edge, if there is one above zero. */
  function ObservedRate(ctx: Context, edgeID: Id): real {
    match ctx.EdgeOf(edgeID).observed
    case Some(Observed(_, Some(rate))) => if rate > 0.0 then rate else 0.0
    case _ => 0.0
  }

  /** The rate injected for the service or edge, if there is one above zero. */
  function InjectedRate(rates: map<Id, real>, id: Id): real {
    if id in rates && rates[id] > 0.0 then rates[id] else 0.0
  }

  /** Two independent causes of an error, one drawn after the other. */
  function TwoCauses(observed: real, injected: real): Tree {
    Draw(observed, Leaf(true), Draw(injected, Leaf(true), Leaf(false)))
  }

  lemma OneOfTwo(o: real, i: real)
    ensures Mix(o, 1.0, Mix(i, 1.0, 0.0)) == 1.0 - (1.0 - o) * (1.0 - i)
  {
    assert Mix(i, 1.0, 0.0) == i;
    assert (1.0 - o) * (1.0 - i) == (1.0 - o) - (1.0 - o) * i;
  }

  lemma ChanceOfTwo(o: real, i: real)
    ensures Prob(TwoCauses(o, i)) == Mix(o, 1.0, Mix(i, 1.0, 0.0))
  {
    assert Prob(Leaf(true)) == 1.0 && Prob(Leaf(false)) == 0.0;
    assert Prob(Draw(i, Leaf(true), Leaf(false))) == Mix(i, 1.0, 0.0);
  }

  /** Of rates within range, the chance of the two is zero exactly when both are. */
  lemma NoneOfTwo(o: real, i: real)
    requires 0.0 <= o <= 1.0 && 0.0 <= i <= 1.0
    ensures Mix(o, 1.0, Mix(i, 1.0, 0.0)) > 0.0 <==> o > 0.0 || i > 0.0
  {
    OneOfTwo(o, i);
    var x, y := 1.0 - o, 1.0 - i;
    assert x * y <= x && x * y <= y by {
      CombinedBounds(x, y);
    }
  }

  /** What the engine reads, with rates that are not set or not above zero taken as zero. */
  lemma RateIs(ctx: Context, faults: Faults, edgeID: Id)
    ensures EdgeErrorRate(ctx, faults, edgeID)
         == 1.0 - (1.0 - ObservedRate(ctx, edgeID)) * (1.0 - InjectedRate(faults.edgeErrorRates, edgeID))
  {
    var edge := ctx.EdgeOf(edgeID);
    var base := if edge.observed.Some? && edge.observed.value.errorRate.Some?
                then edge.observed.value.errorRate.value else 0.0;
    KeptIs(base, RateOf(faults.edgeErrorRates, edgeID));
  }

  lemma KeptIs(base: real, injected: real)
    ensures CombineErrorRates(base, injected)
         == 1.0 - (1.0 - if base > 0.0 then base else 0.0) * (1.0 - if injected > 0.0 then injected else 0.0)
  {
    var x := if base <= 0.0 then 1.0 else 1.0 - base;
    var y := if injected <= 0.0 then 1.0 else 1.0 - injected;
    assert CombineErrorRates(base, injected) == 1.0 - x * y;
  }

  /** The error rate of an edge is the chance that one of its two causes strikes, each drawn for itself. */
  lemma EdgeErrorsCombine(ctx: Context, faults: Faults, edgeID: Id)
    ensures EdgeErrorRate(ctx, faults, edgeID)
         == Prob(TwoCauses(ObservedRate(ctx, edgeID), InjectedRate(faults.edgeErrorRates, edgeID)))
  {
    var o, i := ObservedRate(ctx, edgeID), InjectedRate(faults.edgeErrorRates, edgeID);
    RateIs(ctx, faults, edgeID);
    OneOfTwo(o, i);
    ChanceOfTwo(o, i);
  }

  /** Rates that are not set, or not above zero, change nothing: the other cause alone decides. */
  lemma OneCause(ctx: Context, faults: Faults, edgeID: Id)
    ensures ObservedRate(ctx, edgeID) == 0.0 ==>
              EdgeErrorRate(ctx, faults, edgeID) == InjectedRate(faults.edgeErrorRates, edgeID)
    ensures InjectedRate(faults.edgeErrorRates, edgeID) == 0.0 ==>
              EdgeErrorRate(ctx, faults, edgeID) == ObservedRate(ctx, edgeID)
  {
    RateIs(ctx, faults, edgeID);
  }

  /** When the path's first service fails in a world where everything is up, on a path of one service. */
  lemma BrownoutExactly(ctx: Context, faults: Faults, path: Path, world: World, stream: Stream, pos: nat)
    requires path.Shaped() && |path.services| == 1 && Up(world.serviceAlive, path.services[0])
    ensures var rate := InjectedRate(faults.serviceErrorRates, path.services[0]);
      ServiceRun(ctx, faults, path, world, stream, 0, pos)
      == (rate == 0.0 || stream.draw(pos) >= rate, if rate == 0.0 then pos else pos + 1)
  {
  }

  /** An attempt is hit by an error exactly when its draw is below the chance of the two causes, of which one is set. */
  lemma HitExactly(ctx: Context, faults: Faults, path: Path, stream: Stream, i: nat, pos: nat)
    requires path.Shaped() && i < |path.edgeIDs|
    requires 0.0 <= ObservedRate(ctx, path.edgeIDs[i]) <= 1.0
    requires 0.0 <= InjectedRate(faults.edgeErrorRates, path.edgeIDs[i]) <= 1.0
    ensures var o, j := ObservedRate(ctx, path.edgeIDs[i]), InjectedRate(faults.edgeErrorRates, path.edgeIDs[i]);
      && (AfterError(ctx, faults, path, i, pos) == if o == 0.0 && j == 0.0 then pos else pos + 1)
      && (HitByError(ctx, faults, path, stream, i, pos)
          <==> (o > 0.0 || j > 0.0) && stream.draw(pos) < Prob(TwoCauses(o, j)))
  {
    var o, j := ObservedRate(ctx, path.edgeIDs[i]), InjectedRate(faults.edgeErrorRates, path.edgeIDs[i]);
    EdgeErrorsCombine(ctx, faults, path.edgeIDs[i]);
    ChanceOfTwo(o, j);
    NoneOfTwo(o, j);
  }

  /** Without a fault profile only what was observed counts: nothing is killed, slowed or made to fail. */
  lemma NoFaultsMeans(ctx: Context, edgeID: Id, id: Id)
    ensures NO_FAULTS.hardBucketKill == {} && NO_FAULTS.hardEdgeKill == {}
    ensures EdgeErrorRate(ctx, NO_FAULTS, edgeID) == ObservedRate(ctx, edgeID)
    ensures InjectedRate(NO_FAULTS.serviceErrorRates, id) == 0.0
    ensures Injected(NO_FAULTS.edgeLatencies, edgeID).None? && Injected(NO_FAULTS.serviceLatencies, id).None?
  {
    OneCause(ctx, NO_FAULTS, edgeID);
  }
}
