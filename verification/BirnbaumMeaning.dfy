/**
 What Birnbaum importance estimates, for independent component states: the live probability reported for a component is
 exact, and its importance is at once a difference of availabilities, a derivative and a probability of being pivotal.
 */
module BirnbaumMeaning {
  import opened Wrappers
  import opened Ids
  import opened Draws
  import opened Topology
  import opened Sampling
  import opened Endpoints
  import opened Probability
  import opened Expectation
  import opened LiveStates
  import opened Birnbaum
  import Nesting
  import SlotList = Slots

  /** Where a component stands in the order of sampling. */
  datatype Spot = AtService(i: nat) | AtEdge(j: nat)

  predicate InRange(ctx: Context, spot: Spot) {
    match spot
    case AtService(i) => i < |ctx.serviceIDs|
    case AtEdge(j) => j < |ctx.edgeIDs|
  }

  function ComponentAt(ctx: Context, spot: Spot): Component
    requires InRange(ctx, spot)
  {
    match spot
    case AtService(i) => Component(ServiceKind, ctx.serviceIDs[i])
    case AtEdge(j) => Component(EdgeKind, ctx.edgeIDs[j])
  }

  /** The rates of the draws before, for and after a component. */
  datatype Group = Group(first: seq<real>, own: seq<real>, last: seq<real>)

  function GroupOf(ctx: Context, profile: Profile, spot: Spot): Group
    requires InRange(ctx, spot)
  {
    var n, m := |ctx.serviceIDs|, |ctx.edgeIDs|;
    match spot
    case AtService(i) =>
      Group(ServiceRates(ctx, profile, 0, i), ServiceBlock(ctx, profile, i),
            ServiceRates(ctx, profile, i + 1, n) + EdgeRates(ctx, profile, 0, m))
    case AtEdge(j) =>
      Group(ServiceRates(ctx, profile, 0, n) + EdgeRates(ctx, profile, 0, j),
          [EdgeLiveProbability(profile, ctx.edgeIDs[j])],
            EdgeRates(ctx, profile, j + 1, m))
  }

  lemma GroupSplits(ctx: Context, profile: Profile, spot: Spot)
    requires InRange(ctx, spot)
    ensures var g := GroupOf(ctx, profile, spot); Rates(ctx, profile) == g.first + (g.own + g.last)
  {
    match spot
    case AtService(i) => ServiceGroup(ctx, profile, i);
    case AtEdge(j) => EdgeGroup(ctx, profile, j);
  }

  /** Whether a component's own bits leave it up. */
  ghost function OwnUp(ctx: Context, spot: Spot): Bits -> bool
    requires InRange(ctx, spot)
  {
    match spot
    case AtService(i) => (own: Bits) => !ctx.ServiceOf(ctx.serviceIDs[i]).samplingEligible || AnyTrue(own)
    case AtEdge(j) => (own: Bits) => AnyTrue(own)
  }

  // ----- the reported live probability is exact

  /** The live probability the engine reports for a selected component. */
  function LiveProbability(ctx: Context, profile: Profile, component: Component): real {
    match component.kind
    case EdgeKind => EdgeLiveProbability(profile, component.id)
    case ServiceKind =>
      var svc := ctx.ServiceOf(component.id);
      if !svc.samplingEligible then 1.0
      else
        var p := ServiceLiveProbability(profile, component.id);
        if profile.mode.IndependentReplica? then 1.0 - Power(1.0 - p, SlotList.ReplicasIn(svc, |svc.replicas|)) else p
  }

  lemma OneEvent(p: real)
    ensures Repeat(p, 1) == [p] && Chance([p], AnyTrue) == p
  {
    ChanceOfAny(p, 1);
    assert Repeat(p, 0) == [] && Power(1.0 - p, 0) == 1.0;
  }

  /** The chance that a component's own draws leave it up. */
  lemma OwnChance(ctx: Context, profile: Profile, spot: Spot)
    requires InRange(ctx, spot) && Independent(profile)
    ensures Chance(GroupOf(ctx, profile, spot).own, OwnUp(ctx, spot))
        == LiveProbability(ctx, profile, ComponentAt(ctx, spot))
  {
    var own, event := GroupOf(ctx, profile, spot).own, OwnUp(ctx, spot);
    match spot
    case AtEdge(j) =>
      OneEvent(EdgeLiveProbability(profile, ctx.edgeIDs[j]));
      SameExpect(own, Indicator(event), Indicator(AnyTrue));
    case AtService(i) =>
      var p := ServiceLiveProbability(profile, ctx.serviceIDs[i]);
      if !ctx.ServiceOf(ctx.serviceIDs[i]).samplingEligible {
        ConstantExpect(own, Indicator(event), 1.0);
      } else {
        SameExpect(own, Indicator(event), Indicator(AnyTrue));
        ChanceOfAny(p, DrawsOf(ctx, profile, i));
        OneEvent(p);
      }
  }

  // ----- a component's own bits decide it, and nothing else

  /** The positions of a component's own bits. */
  function From(ctx: Context, profile: Profile, spot: Spot): nat
    requires InRange(ctx, spot)
  {
    |GroupOf(ctx, profile, spot).first|
  }

  function Upto(ctx: Context, profile: Profile, spot: Spot): nat
    requires InRange(ctx, spot)
  {
    From(ctx, profile, spot) + |GroupOf(ctx, profile, spot).own|
  }

  lemma OwnServiceBits(ctx: Context, profile: Profile, i: nat, g: Group, bits: Bits)
    requires SlotList.Entries(ctx) && i < |ctx.serviceIDs| && |bits| == |Rates(ctx, profile)|
    requires g == GroupOf(ctx, profile, AtService(i))
    ensures |g.first| + |g.own| <= |bits|
    ensures Up(LiveWorld(ctx, profile, bits).serviceAlive, ctx.serviceIDs[i])
        <==> OwnUp(ctx, AtService(i))(bits[|g.first|..|g.first| + |g.own|])
  {
    ServiceGroup(ctx, profile, i);
    ServiceAlone(ctx, profile, i, bits);
    assert OwnBits(ctx, profile, i, bits) == bits[|g.first|..|g.first| + |g.own|];
  }

  lemma OneBit(bits: Bits, at: nat)
    requires at < |bits|
    ensures AnyTrue(bits[at..at + 1]) <==> bits[at]
  {
    assert bits[at..at + 1] == [bits[at]];
    assert [bits[at]][0] == bits[at];
  }

  /** An edge's one bit stands where its draw is made. */
  lemma EdgeSpot(ctx: Context, profile: Profile, j: nat)
    requires j < |ctx.edgeIDs|
    ensures From(ctx, profile, AtEdge(j)) == DrawsBefore(ctx, profile, |ctx.serviceIDs|) + j < |Rates(ctx, profile)|
    ensures |GroupOf(ctx, profile, AtEdge(j)).own| == 1
  {
    RateOfEdge(ctx, profile, j);
  }

  lemma OwnEdgeBits(ctx: Context, profile: Profile, j: nat, g: Group, bits: Bits)
    requires Nesting.DistinctEdges(ctx) && j < |ctx.edgeIDs| && |bits| == |Rates(ctx, profile)|
    requires g == GroupOf(ctx, profile, AtEdge(j))
    ensures |g.first| + |g.own| <= |bits|
    ensures Up(LiveWorld(ctx, profile, bits).edgeAlive, ctx.edgeIDs[j])
        <==> OwnUp(ctx, AtEdge(j))(bits[|g.first|..|g.first| + |g.own|])
  {
    EdgeSpot(ctx, profile, j);
    var at := |g.first|;
    OneBit(bits, at);
    EdgeBitAlone(ctx, profile, j, bits, at);
  }

  lemma EdgeBitAlone(ctx: Context, profile: Profile, j: nat, bits: Bits, at: nat)
    requires Nesting.DistinctEdges(ctx) && j < |ctx.edgeIDs| && |bits| == |Rates(ctx, profile)|
    requires at == DrawsBefore(ctx, profile, |ctx.serviceIDs|) + j < |bits|
    ensures Up(LiveWorld(ctx, profile, bits).edgeAlive, ctx.edgeIDs[j]) <==> bits[at]
  {
    EdgeAlone(ctx, profile, j, bits);
  }

  lemma OwnBitsDecide(ctx: Context, profile: Profile, spot: Spot, g: Group, bits: Bits)
    requires SlotList.Entries(ctx) && Nesting.DistinctEdges(ctx)
    requires InRange(ctx, spot) && |bits| == |Rates(ctx, profile)| && g == GroupOf(ctx, profile, spot)
    ensures |g.first| + |g.own| <= |bits|
    ensures IsUp(LiveWorld(ctx, profile, bits), ComponentAt(ctx, spot))
        <==> OwnUp(ctx, spot)(bits[|g.first|..|g.first| + |g.own|])
  {
    match spot
    case AtService(i) => OwnServiceBits(ctx, profile, i, g, bits);
    case AtEdge(j) => OwnEdgeBits(ctx, profile, j, g, bits);
  }

  lemma BlocksApart(ctx: Context, profile: Profile, k: nat, i: nat)
    requires k < i <= |ctx.serviceIDs|
    ensures DrawsBefore(ctx, profile, k) + DrawsOf(ctx, profile, k) <= DrawsBefore(ctx, profile, i)
  {
    ServiceRatesSplit(ctx, profile, 0, k, i);
    ServiceRatesSplit(ctx, profile, k, k + 1, i);
    OneServiceRates(ctx, profile, k);
  }

  /** Changing a component's own bits does not change another service. */
  lemma OtherServiceBit(ctx: Context, profile: Profile, spot: Spot, k: nat, x: Bits, y: Bits)
    requires InRange(ctx, spot) && k < |ctx.serviceIDs| && spot != AtService(k)
    requires |x| == |Rates(ctx, profile)| && SameOutside(x, y, From(ctx, profile, spot), Upto(ctx, profile, spot))
    ensures ServiceBit(ctx, profile, k, x) == ServiceBit(ctx, profile, k, y)
  {
    ServiceGroup(ctx, profile, k);
    match spot {
      case AtService(i) =>
        if k < i {
          BlocksApart(ctx, profile, k, i);
        } else {
          BlocksApart(ctx, profile, i, k);
        }
      case AtEdge(j) => BlocksApart(ctx, profile, k, |ctx.serviceIDs|);
    }
    assert OwnBits(ctx, profile, k, x) == OwnBits(ctx, profile, k, y);
  }

  lemma OtherEdgeBit(ctx: Context, profile: Profile, spot: Spot, k: nat, x: Bits, y: Bits)
    requires InRange(ctx, spot) && k < |ctx.edgeIDs| && spot != AtEdge(k)
    requires |x| == |Rates(ctx, profile)| && SameOutside(x, y, From(ctx, profile, spot), Upto(ctx, profile, spot))
    ensures EdgeBit(ctx, profile, k, x) == EdgeBit(ctx, profile, k, y)
  {
    RateOfEdge(ctx, profile, k);
    if spot.AtService? {
      BlocksApart(ctx, profile, spot.i, |ctx.serviceIDs|);
    }
  }

  lemma OtherServiceSame(ctx: Context, profile: Profile, spot: Spot, x: Bits, y: Bits, id: Id)
    requires InRange(ctx, spot) && SlotList.Entries(ctx) && Component(ServiceKind, id) != ComponentAt(ctx, spot)
    requires |x| == |Rates(ctx, profile)| && SameOutside(x, y, From(ctx, profile, spot), Upto(ctx, profile, spot))
    ensures Up(LiveWorld(ctx, profile, x).serviceAlive, id) == Up(LiveWorld(ctx, profile, y).serviceAlive, id)
  {
    if id in ctx.serviceIDs {
      var k :| 0 <= k < |ctx.serviceIDs| && ctx.serviceIDs[k] == id;
      OtherServiceBit(ctx, profile, spot, k, x, y);
      ServiceAlone(ctx, profile, k, x);
      ServiceAlone(ctx, profile, k, y);
    }
  }

  lemma ServicesForced(ctx: Context, profile: Profile, spot: Spot, up: bool, x: Bits, y: Bits, id: Id)
    requires InRange(ctx, spot) && SlotList.Entries(ctx)
    requires |x| == |Rates(ctx, profile)| && SameOutside(x, y, From(ctx, profile, spot), Upto(ctx, profile, spot))
    ensures Up(Forced(LiveWorld(ctx, profile, x), ComponentAt(ctx, spot), up).serviceAlive, id)
         == Up(Forced(LiveWorld(ctx, profile, y), ComponentAt(ctx, spot), up).serviceAlive, id)
  {
    if Component(ServiceKind, id) != ComponentAt(ctx, spot) {
      OtherServiceSame(ctx, profile, spot, x, y, id);
    }
  }

  lemma EdgesForced(ctx: Context, profile: Profile, spot: Spot, up: bool, x: Bits, y: Bits, id: Id)
    requires InRange(ctx, spot) && Nesting.DistinctEdges(ctx)
    requires |x| == |Rates(ctx, profile)| && SameOutside(x, y, From(ctx, profile, spot), Upto(ctx, profile, spot))
    ensures Up(Forced(LiveWorld(ctx, profile, x), ComponentAt(ctx, spot), up).edgeAlive, id)
         == Up(Forced(LiveWorld(ctx, profile, y), ComponentAt(ctx, spot), up).edgeAlive, id)
  {
    if id in ctx.edgeIDs && Component(EdgeKind, id) != ComponentAt(ctx, spot) {
      var k :| 0 <= k < |ctx.edgeIDs| && ctx.edgeIDs[k] == id;
      OtherEdgeBit(ctx, profile, spot, k, x, y);
      EdgeAlone(ctx, profile, k, x);
      EdgeAlone(ctx, profile, k, y);
    }
  }

  /** Forcing a component makes its own bits irrelevant. */
  lemma ForcedIgnoresOwn(ctx: Context, profile: Profile, spot: Spot, up: bool, x: Bits, y: Bits)
    requires InRange(ctx, spot) && SlotList.Entries(ctx) && Nesting.DistinctEdges(ctx)
    requires |x| == |Rates(ctx, profile)| && SameOutside(x, y, From(ctx, profile, spot), Upto(ctx, profile, spot))
    ensures SameUps(Forced(LiveWorld(ctx, profile, x), ComponentAt(ctx, spot), up),
                    Forced(LiveWorld(ctx, profile, y), ComponentAt(ctx, spot), up))
  {
    forall id
      ensures Up(Forced(LiveWorld(ctx, profile, x), ComponentAt(ctx, spot), up).serviceAlive, id)
           == Up(Forced(LiveWorld(ctx, profile, y), ComponentAt(ctx, spot), up).serviceAlive, id)
      ensures Up(Forced(LiveWorld(ctx, profile, x), ComponentAt(ctx, spot), up).edgeAlive, id)
           == Up(Forced(LiveWorld(ctx, profile, y), ComponentAt(ctx, spot), up).edgeAlive, id)
    {
      ServicesForced(ctx, profile, spot, up, x, y, id);
      EdgesForced(ctx, profile, spot, up, x, y, id);
    }
  }

  // ----- availabilities as probabilities

  /** A study of independent components and the fixed outcomes of its path draws. */
  ghost predicate Sensible(study: Study, frame: Frame, e: nat) {
    && SlotList.Entries(study.ctx) && Nesting.DistinctEdges(study.ctx) && Independent(study.profile)
    && e < |study.endpoints| && |frame.keys| == |study.endpoints|
  }

  ghost predicate WinsOn(study: Study, frame: Frame, e: nat, bits: Bits)
    requires e < |study.endpoints| && |frame.keys| == |study.endpoints|
  {
    |bits| == |Rates(study.ctx, study.profile)| && Wins(study, frame, LiveWorld(study.ctx, study.profile, bits), e)
  }

  ghost predicate ForcedOn(study: Study, frame: Frame, e: nat, component: Component, up: bool, bits: Bits)
    requires e < |study.endpoints| && |frame.keys| == |study.endpoints|
  {
    && |bits| == |Rates(study.ctx, study.profile)|
    && Wins(study, frame, Forced(LiveWorld(study.ctx, study.profile, bits), component, up), e)
  }

  ghost predicate PivotalOn(study: Study, frame: Frame, e: nat, component: Component, bits: Bits)
    requires e < |study.endpoints| && |frame.keys| == |study.endpoints|
  {
    ForcedOn(study, frame, e, component, true, bits) && !ForcedOn(study, frame, e, component, false, bits)
  }

  ghost function Winning(study: Study, frame: Frame, e: nat): Bits -> bool
    requires e < |study.endpoints| && |frame.keys| == |study.endpoints|
  {
    (bits: Bits) => WinsOn(study, frame, e, bits)
  }

  ghost function ForcedWinning(study: Study, frame: Frame, e: nat, component: Component, up: bool): Bits -> bool
    requires e < |study.endpoints| && |frame.keys| == |study.endpoints|
  {
    (bits: Bits) => ForcedOn(study, frame, e, component, up, bits)
  }

  ghost function Pivoting(study: Study, frame: Frame, e: nat, component: Component): Bits -> bool
    requires e < |study.endpoints| && |frame.keys| == |study.endpoints|
  {
    (bits: Bits) => PivotalOn(study, frame, e, component, bits)
  }

  /** The probability that the endpoint succeeds. */
  ghost function R(study: Study, frame: Frame, e: nat): real
    requires e < |study.endpoints| && |frame.keys| == |study.endpoints|
  {
    Chance(Rates(study.ctx, study.profile), Winning(study, frame, e))
  }

  /** The probability that the endpoint succeeds with the component forced. */
  ghost function RForced(study: Study, frame: Frame, e: nat, component: Component, up: bool): real
    requires e < |study.endpoints| && |frame.keys| == |study.endpoints|
  {
    Chance(Rates(study.ctx, study.profile), ForcedWinning(study, frame, e, component, up))
  }

  /** The probability that the component is pivotal. */
  ghost function Importance(study: Study, frame: Frame, e: nat, component: Component): real
    requires e < |study.endpoints| && |frame.keys| == |study.endpoints|
  {
    Chance(Rates(study.ctx, study.profile), Pivoting(study, frame, e, component))
  }

  lemma ForcedIgnores(study: Study, frame: Frame, e: nat, spot: Spot, up: bool, g: Group)
    requires Sensible(study, frame, e) && InRange(study.ctx, spot) && g == GroupOf(study.ctx, study.profile, spot)
    ensures Ignores(Indicator(ForcedWinning(study, frame, e, ComponentAt(study.ctx, spot), up)),
                    |g.first|, |g.first| + |g.own|, |Rates(study.ctx, study.profile)|)
  {
    var ctx, profile, component := study.ctx, study.profile, ComponentAt(study.ctx, spot);
    forall x: Bits, y: Bits | |x| == |Rates(ctx, profile)| && SameOutside(x, y, |g.first|, |g.first| + |g.own|)
      ensures ForcedOn(study, frame, e, component, up, x) == ForcedOn(study, frame, e, component, up, y)
    {
      ForcedIgnoresOwn(ctx, profile, spot, up, x, y);
      var a, b := Forced(LiveWorld(ctx, profile, x), component, up), Forced(LiveWorld(ctx, profile, y), component, up);
      WinsMonotone(study, frame, a, b, e);
      WinsMonotone(study, frame, b, a, e);
    }
  }

  lemma WinsAsForced(study: Study, frame: Frame, e: nat, component: Component, bits: Bits)
    requires e < |study.endpoints| && |frame.keys| == |study.endpoints| && |bits| == |Rates(study.ctx, study.profile)|
    ensures WinsOn(study, frame, e, bits)
        <==> ForcedOn(study, frame, e, component, IsUp(LiveWorld(study.ctx, study.profile, bits), component), bits)
  {
    var world := LiveWorld(study.ctx, study.profile, bits);
    var same := Forced(world, component, IsUp(world, component));
    ForcedSame(world, component);
    WinsMonotone(study, frame, world, same, e);
    WinsMonotone(study, frame, same, world, e);
  }

  lemma OwnDecides(study: Study, frame: Frame, e: nat, spot: Spot, g: Group, bits: Bits)
    requires Sensible(study, frame, e) && InRange(study.ctx, spot) && g == GroupOf(study.ctx, study.profile, spot)
    requires |bits| == |Rates(study.ctx, study.profile)|
    ensures |g.first| + |g.own| <= |bits|
    ensures WinsOn(study, frame, e, bits)
        <==> ForcedOn(study, frame, e, ComponentAt(study.ctx, spot),
                      OwnUp(study.ctx, spot)(bits[|g.first|..|g.first| + |g.own|]), bits)
  {
    OwnBitsDecide(study.ctx, study.profile, spot, g, bits);
    WinsAsForced(study, frame, e, ComponentAt(study.ctx, spot), bits);
  }

  lemma IndicatorsFollow(h: Bits -> bool, u: Bits -> bool, d: Bits -> bool, event: bool, bits: Bits)
    requires h(bits) == if event then u(bits) else d(bits)
    ensures Indicator(h)(bits) == if event then Indicator(u)(bits) else Indicator(d)(bits)
  {
  }

  lemma StateDecides(study: Study, frame: Frame, e: nat, spot: Spot, g: Group)
    requires Sensible(study, frame, e) && InRange(study.ctx, spot) && g == GroupOf(study.ctx, study.profile, spot)
    requires |g.first| + |g.own| <= |Rates(study.ctx, study.profile)|
    ensures var c := ComponentAt(study.ctx, spot);
      Decides(Indicator(Winning(study, frame, e)), OwnUp(study.ctx, spot),
          Indicator(ForcedWinning(study, frame, e, c, true)),
              Indicator(ForcedWinning(study, frame, e, c, false)), |g.first|, |g.own|,
              |Rates(study.ctx, study.profile)|)
  {
    var c, own, n := ComponentAt(study.ctx, spot), OwnUp(study.ctx, spot), |Rates(study.ctx, study.profile)|;
    var h, u, d := Winning(study, frame, e), ForcedWinning(study, frame, e, c, true),
        ForcedWinning(study, frame, e, c, false);
    forall bits: Bits | |bits| == n
      ensures Indicator(h)(bits)
           == if own(bits[|g.first|..|g.first| + |g.own|]) then Indicator(u)(bits) else Indicator(d)(bits)
    {
      OwnDecides(study, frame, e, spot, g, bits);
      IndicatorsFollow(h, u, d, own(bits[|g.first|..|g.first| + |g.own|]), bits);
    }
  }

  lemma MixedByGroup(rates: seq<real>, g: Group, h: Bits -> real, event: Bits -> bool, up: Bits -> real,
      down: Bits -> real)
    requires rates == g.first + (g.own + g.last) && Decides(h, event, up, down, |g.first|, |g.own|, |rates|)
    requires Ignores(up, |g.first|, |g.first| + |g.own|, |rates|)
        && Ignores(down, |g.first|, |g.first| + |g.own|, |rates|)
    ensures Expect(rates, h) == Mix(Chance(g.own, event), Expect(rates, up), Expect(rates, down))
  {
    assert |rates| == |g.first| + |g.own| + |g.last|;
    ConditionedExpect(g.first, g.own, g.last, h, event, up, down);
  }

  /** Total probability over the state of one component. */
  lemma Conditioned(study: Study, frame: Frame, e: nat, spot: Spot)
    requires Sensible(study, frame, e) && InRange(study.ctx, spot)
    ensures var c := ComponentAt(study.ctx, spot);
      R(study, frame, e)
      == Mix(LiveProbability(study.ctx, study.profile, c), RForced(study, frame, e, c, true),
          RForced(study, frame, e, c, false))
  {
    var g, c := GroupOf(study.ctx, study.profile, spot), ComponentAt(study.ctx, spot);
    GroupSplits(study.ctx, study.profile, spot);
    StateDecides(study, frame, e, spot, g);
    ForcedIgnores(study, frame, e, spot, true, g);
    ForcedIgnores(study, frame, e, spot, false, g);
    MixedByGroup(Rates(study.ctx, study.profile), g, Indicator(Winning(study, frame, e)), OwnUp(study.ctx, spot),
                 Indicator(ForcedWinning(study, frame, e, c, true)),
                 Indicator(ForcedWinning(study, frame, e, c, false)));
    OwnChance(study.ctx, study.profile, spot);
  }

  ghost function IsUpOn(ctx: Context, profile: Profile, component: Component): Bits -> bool {
    (bits: Bits) => |bits| == |Rates(ctx, profile)| && IsUp(LiveWorld(ctx, profile, bits), component)
  }

  ghost function Always(value: real): Bits -> real {
    (bits: Bits) => value
  }

  lemma OwnDecidesUp(ctx: Context, profile: Profile, spot: Spot, g: Group)
    requires SlotList.Entries(ctx) && Nesting.DistinctEdges(ctx) && InRange(ctx, spot)
    requires g == GroupOf(ctx, profile, spot) && |g.first| + |g.own| <= |Rates(ctx, profile)|
    ensures Decides(Indicator(IsUpOn(ctx, profile, ComponentAt(ctx, spot))), OwnUp(ctx, spot), Always(1.0), Always(0.0),
                    |g.first|, |g.own|, |Rates(ctx, profile)|)
  {
    forall bits: Bits | |bits| == |Rates(ctx, profile)|
      ensures IsUpOn(ctx, profile, ComponentAt(ctx, spot))(bits)
          <==> OwnUp(ctx, spot)(bits[|g.first|..|g.first| + |g.own|])
    {
      OwnBitsDecide(ctx, profile, spot, g, bits);
    }
  }

  lemma ConstantMix(q: real)
    ensures Mix(q, 1.0, 0.0) == q
  {
  }

  /** The reported live probability is exactly the probability that sampling leaves the component up. */
  lemma LiveProbabilityExact(ctx: Context, profile: Profile, spot: Spot)
    requires SlotList.Entries(ctx) && Nesting.DistinctEdges(ctx) && InRange(ctx, spot) && Independent(profile)
    ensures Chance(Rates(ctx, profile), IsUpOn(ctx, profile, ComponentAt(ctx, spot)))
         == LiveProbability(ctx, profile, ComponentAt(ctx, spot))
  {
    var g, rates := GroupOf(ctx, profile, spot), Rates(ctx, profile);
    GroupSplits(ctx, profile, spot);
    OwnDecidesUp(ctx, profile, spot, g);
    MixedByGroup(rates, g, Indicator(IsUpOn(ctx, profile, ComponentAt(ctx, spot))), OwnUp(ctx, spot), Always(1.0),
        Always(0.0));
    ConstantExpect(rates, Always(1.0), 1.0);
    ConstantExpect(rates, Always(0.0), 0.0);
    OwnChance(ctx, profile, spot);
    ConstantMix(LiveProbability(ctx, profile, ComponentAt(ctx, spot)));
  }

  // ----- the documented identities

  /** A component is pivotal with the probability by which forcing it up helps more than forcing it down. */
  lemma PivotalDifference(study: Study, frame: Frame, e: nat, component: Component)
    requires e < |study.endpoints| && |frame.keys| == |study.endpoints|
    ensures Importance(study, frame, e, component)
         == RForced(study, frame, e, component, true) - RForced(study, frame, e, component, false)
  {
    var up, down := ForcedWinning(study, frame, e, component, true), ForcedWinning(study, frame, e, component, false);
    var pivoting := Pivoting(study, frame, e, component);
    forall bits: Bits
      ensures Indicator(up)(bits) == Indicator(down)(bits) + Indicator(pivoting)(bits)
    {
      if |bits| == |Rates(study.ctx, study.profile)| {
        ForcedOrder(study, frame, e, component, bits);
      }
    }
    AdditiveExpect(Rates(study.ctx, study.profile), Indicator(up), Indicator(down), Indicator(pivoting));
  }

  lemma ForcedOrder(study: Study, frame: Frame, e: nat, component: Component, bits: Bits)
    requires e < |study.endpoints| && |frame.keys| == |study.endpoints|
    ensures ForcedOn(study, frame, e, component, false, bits) ==> ForcedOn(study, frame, e, component, true, bits)
  {
    if |bits| == |Rates(study.ctx, study.profile)| {
      var world := LiveWorld(study.ctx, study.profile, bits);
      ForcedNests(world, component);
      WinsMonotone(study, frame, Forced(world, component, false), Forced(world, component, true), e);
    }
  }

  /** How an availability, a live probability, two counterfactual availabilities and an importance belong together. */
  predicate Belong(r: real, q: real, up: real, down: real, importance: real) {
    && importance == up - down
    && r - down == q * importance
    && up - r == (1.0 - q) * importance
  }

  lemma SharesOfMix(r: real, q: real, up: real, down: real, importance: real)
    requires r == Mix(q, up, down) && importance == up - down
    ensures Belong(r, q, up, down, importance)
  {
    assert q * importance == q * up - q * down;
  }

  /**
   Importance is the difference of the two counterfactual availabilities. What is lost by forcing the component down is
   its live probability's share of it, and what is gained by a perfect component the rest.
   */
  lemma ImportanceIdentities(study: Study, frame: Frame, e: nat, spot: Spot)
    requires Sensible(study, frame, e) && InRange(study.ctx, spot)
    ensures var c := ComponentAt(study.ctx, spot);
      Belong(R(study, frame, e), LiveProbability(study.ctx, study.profile, c), RForced(study, frame, e, c, true),
             RForced(study, frame, e, c, false), Importance(study, frame, e, c))
  {
    var c := ComponentAt(study.ctx, spot);
    Conditioned(study, frame, e, spot);
    PivotalDifference(study, frame, e, c);
    SharesOfMix(R(study, frame, e), LiveProbability(study.ctx, study.profile, c), RForced(study, frame, e, c, true),
                RForced(study, frame, e, c, false), Importance(study, frame, e, c));
  }

  // ----- importance is the slope of availability in the component's live probability

  /** The same profile with another live probability for one service or edge. */
  function WithLive(profile: Profile, component: Component, p: real): Profile {
    match component.kind
    case ServiceKind => profile.(serviceLive := profile.serviceLive[component.id := p])
    case EdgeKind => profile.(edgeLives := profile.edgeLives[component.id := p])
  }

  lemma {:induction false} SameServiceRates(ctx: Context, profile: Profile, other: Profile, a: nat, b: nat)
    requires a <= b <= |ctx.serviceIDs| && other.mode == profile.mode
    requires forall k | a <= k < b ::
               ServiceLiveProbability(other, ctx.serviceIDs[k]) == ServiceLiveProbability(profile, ctx.serviceIDs[k])
    ensures ServiceRates(ctx, other, a, b) == ServiceRates(ctx, profile, a, b)
    decreases b
  {
    if a < b {
      SameServiceRates(ctx, profile, other, a, b - 1);
    }
  }

  lemma {:induction false} SameEdgeRates(ctx: Context, profile: Profile, other: Profile, a: nat, b: nat)
    requires a <= b <= |ctx.edgeIDs|
    requires forall k | a <= k < b ::
               EdgeLiveProbability(other, ctx.edgeIDs[k]) == EdgeLiveProbability(profile, ctx.edgeIDs[k])
    ensures EdgeRates(ctx, other, a, b) == EdgeRates(ctx, profile, a, b)
    decreases b
  {
    if a < b {
      SameEdgeRates(ctx, profile, other, a, b - 1);
    }
  }

  lemma {:induction false} SameDrawsBefore(ctx: Context, profile: Profile, other: Profile, n: nat)
    requires n <= |ctx.serviceIDs| && other.mode == profile.mode
    ensures DrawsBefore(ctx, other, n) == DrawsBefore(ctx, profile, n)
  {
    if n > 0 {
      SameDrawsBefore(ctx, profile, other, n - 1);
    }
  }

  lemma OnlyOwnServiceRates(ctx: Context, profile: Profile, other: Profile, i: nat, p: real)
    requires SlotList.Entries(ctx) && i < |ctx.serviceIDs|
    requires other == profile.(serviceLive := profile.serviceLive[ctx.serviceIDs[i] := p])
    ensures ServiceRates(ctx, other, 0, i) == ServiceRates(ctx, profile, 0, i)
    ensures |ServiceBlock(ctx, other, i)| == |ServiceBlock(ctx, profile, i)|
    ensures ServiceRates(ctx, other, i + 1, |ctx.serviceIDs|) == ServiceRates(ctx, profile, i + 1, |ctx.serviceIDs|)
    ensures EdgeRates(ctx, other, 0, |ctx.edgeIDs|) == EdgeRates(ctx, profile, 0, |ctx.edgeIDs|)
  {
    forall k | 0 <= k < |ctx.serviceIDs| && k != i
      ensures ServiceLiveProbability(other, ctx.serviceIDs[k]) == ServiceLiveProbability(profile, ctx.serviceIDs[k])
    {
      SlotList.EntriesDiffer(ctx, k, i);
    }
    SameServiceRates(ctx, profile, other, 0, i);
    SameServiceRates(ctx, profile, other, i + 1, |ctx.serviceIDs|);
    SameEdgeRates(ctx, profile, other, 0, |ctx.edgeIDs|);
  }

  lemma OnlyOwnEdgeRates(ctx: Context, profile: Profile, other: Profile, j: nat, p: real)
    requires Nesting.DistinctEdges(ctx) && j < |ctx.edgeIDs|
    requires other == profile.(edgeLives := profile.edgeLives[ctx.edgeIDs[j] := p])
    ensures ServiceRates(ctx, other, 0, |ctx.serviceIDs|) == ServiceRates(ctx, profile, 0, |ctx.serviceIDs|)
    ensures EdgeRates(ctx, other, 0, j) == EdgeRates(ctx, profile, 0, j)
    ensures EdgeRates(ctx, other, j + 1, |ctx.edgeIDs|) == EdgeRates(ctx, profile, j + 1, |ctx.edgeIDs|)
  {
    SameServiceRates(ctx, profile, other, 0, |ctx.serviceIDs|);
    SameEdgeRates(ctx, profile, other, 0, j);
    SameEdgeRates(ctx, profile, other, j + 1, |ctx.edgeIDs|);
  }

  /** Changing a component's live probability changes only its own rates. */
  lemma OnlyOwnRates(ctx: Context, profile: Profile, spot: Spot, p: real)
    requires SlotList.Entries(ctx) && Nesting.DistinctEdges(ctx) && InRange(ctx, spot)
    ensures var g := GroupOf(ctx, profile, spot);
      var gNew := GroupOf(ctx, WithLive(profile, ComponentAt(ctx, spot), p), spot);
      gNew.first == g.first && |gNew.own| == |g.own| && gNew.last == g.last
  {
    var other := WithLive(profile, ComponentAt(ctx, spot), p);
    match spot
    case AtService(i) => OnlyOwnServiceRates(ctx, profile, other, i, p);
    case AtEdge(j) => OnlyOwnEdgeRates(ctx, profile, other, j, p);
  }

  lemma SameServiceBit(ctx: Context, profile: Profile, other: Profile, i: nat, bits: Bits)
    requires other.mode == profile.mode && |bits| == |Rates(ctx, profile)| && |bits| == |Rates(ctx, other)|
    requires i < |ctx.serviceIDs|
    ensures ServiceBit(ctx, other, i, bits) == ServiceBit(ctx, profile, i, bits)
  {
    SameDrawsBefore(ctx, profile, other, i);
  }

  lemma SameEdgeBit(ctx: Context, profile: Profile, other: Profile, j: nat, bits: Bits)
    requires other.mode == profile.mode && |bits| == |Rates(ctx, profile)| && |bits| == |Rates(ctx, other)|
    requires j < |ctx.edgeIDs|
    ensures EdgeBit(ctx, other, j, bits) == EdgeBit(ctx, profile, j, bits)
  {
    SameDrawsBefore(ctx, profile, other, |ctx.serviceIDs|);
  }

  ghost predicate SameBits(ctx: Context, profile: Profile, other: Profile, bits: Bits)
    requires |bits| == |Rates(ctx, profile)| && |bits| == |Rates(ctx, other)|
  {
    && (forall i | 0 <= i < |ctx.serviceIDs| :: ServiceBit(ctx, other, i, bits) == ServiceBit(ctx, profile, i, bits))
    && (forall j | 0 <= j < |ctx.edgeIDs| :: EdgeBit(ctx, other, j, bits) == EdgeBit(ctx, profile, j, bits))
  }

  lemma BitsAreSame(ctx: Context, profile: Profile, other: Profile, bits: Bits)
    requires other.mode == profile.mode && |bits| == |Rates(ctx, profile)| && |bits| == |Rates(ctx, other)|
    ensures SameBits(ctx, profile, other, bits)
  {
    forall i | 0 <= i < |ctx.serviceIDs|
      ensures ServiceBit(ctx, other, i, bits) == ServiceBit(ctx, profile, i, bits)
    {
      SameServiceBit(ctx, profile, other, i, bits);
    }
    forall j | 0 <= j < |ctx.edgeIDs|
      ensures EdgeBit(ctx, other, j, bits) == EdgeBit(ctx, profile, j, bits)
    {
      SameEdgeBit(ctx, profile, other, j, bits);
    }
  }

  lemma SameLiveWorld(ctx: Context, profile: Profile, other: Profile, bits: Bits)
    requires other.mode == profile.mode && |bits| == |Rates(ctx, profile)| && |bits| == |Rates(ctx, other)|
    ensures LiveWorld(ctx, other, bits) == LiveWorld(ctx, profile, bits)
  {
    BitsAreSame(ctx, profile, other, bits);
  }

  /** Means over groups of rates that differ only in a middle group the function ignores. */
  lemma SameWhenIgnored(g: Group, gNew: Group, f: Bits -> real, fNew: Bits -> real)
    requires gNew.first == g.first && |gNew.own| == |g.own| && gNew.last == g.last
    requires Ignores(f, |g.first|, |g.first| + |g.own|, |g.first| + |g.own| + |g.last|)
    requires forall bits: Bits | |bits| == |g.first| + |g.own| + |g.last| :: fNew(bits) == f(bits)
    ensures Expect(gNew.first + (gNew.own + gNew.last), fNew) == Expect(g.first + (g.own + g.last), f)
  {
    SameExpect(gNew.first + (gNew.own + gNew.last), fNew, f);
    IgnoredExpect(g.first, g.own, g.last, f);
    IgnoredExpect(g.first, gNew.own, g.last, f);
  }

  lemma SameForced(study: Study, other: Study, frame: Frame, e: nat, spot: Spot, up: bool, p: real)
    requires Sensible(study, frame, e) && InRange(study.ctx, spot)
    requires other == study.(profile := WithLive(study.profile, ComponentAt(study.ctx, spot), p))
    ensures RForced(other, frame, e, ComponentAt(study.ctx, spot), up)
        == RForced(study, frame, e, ComponentAt(study.ctx, spot), up)
  {
    var ctx, c := study.ctx, ComponentAt(study.ctx, spot);
    var g, gNew := GroupOf(ctx, study.profile, spot), GroupOf(ctx, other.profile, spot);
    OnlyOwnRates(ctx, study.profile, spot, p);
    GroupSplits(ctx, study.profile, spot);
    GroupSplits(ctx, other.profile, spot);
    var f, fNew := Indicator(ForcedWinning(study, frame, e, c, up)), Indicator(ForcedWinning(other, frame, e, c, up));
    forall bits: Bits | |bits| == |g.first| + |g.own| + |g.last|
      ensures fNew(bits) == f(bits)
    {
      SameLiveWorld(ctx, study.profile, other.profile, bits);
    }
    ForcedIgnores(study, frame, e, spot, up, g);
    SameWhenIgnored(g, gNew, f, fNew);
  }

  /** The availability moves along a line of the given slope as the live probability moves. */
  predicate OnLine(r: real, rNew: real, q: real, qNew: real, slope: real) {
    rNew - r == (qNew - q) * slope
  }

  lemma SlopeOfMix(r: real, rNew: real, q: real, qNew: real, up: real, down: real, slope: real)
    requires r == Mix(q, up, down) && rNew == Mix(qNew, up, down) && slope == up - down
    ensures OnLine(r, rNew, q, qNew, slope)
  {
    assert (qNew - q) * slope == qNew * up - qNew * down - q * up + q * down;
  }

  /**
   Importance is the slope of availability in the component's live probability: whatever that is changed to, with all
   else kept, availability changes by the importance times the change, and importance itself does not change.
   */
  lemma ImportanceIsSlope(study: Study, frame: Frame, e: nat, spot: Spot, p: real)
    requires Sensible(study, frame, e) && InRange(study.ctx, spot)
    ensures var c := ComponentAt(study.ctx, spot);
      var other := study.(profile := WithLive(study.profile, c, p));
      && OnLine(R(study, frame, e), R(other, frame, e), LiveProbability(study.ctx, study.profile, c),
                LiveProbability(other.ctx, other.profile, c), Importance(study, frame, e, c))
      && Importance(other, frame, e, c) == Importance(study, frame, e, c)
  {
    var c := ComponentAt(study.ctx, spot);
    var other := study.(profile := WithLive(study.profile, c, p));
    SameForced(study, other, frame, e, spot, true, p);
    SameForced(study, other, frame, e, spot, false, p);
    Conditioned(study, frame, e, spot);
    Conditioned(other, frame, e, spot);
    PivotalDifference(study, frame, e, c);
    PivotalDifference(other, frame, e, c);
    SlopeOfMix(R(study, frame, e), R(other, frame, e), LiveProbability(study.ctx, study.profile, c),
               LiveProbability(other.ctx, other.profile, c), RForced(study, frame, e, c, true),
               RForced(study, frame, e, c, false),
               Importance(study, frame, e, c));
  }

  /** Every selected component has its place in the order of sampling. */
  lemma SpotOf(study: Study, c: nat) returns (spot: Spot)
    requires study.Valid() && c < |study.components|
    ensures InRange(study.ctx, spot) && ComponentAt(study.ctx, spot) == study.components[c]
  {
    var component := study.components[c];
    assert study.Known(component);
    if component.kind.ServiceKind? {
      var i: nat :| i < |study.ctx.serviceIDs| && study.ctx.serviceIDs[i] == component.id;
      spot := AtService(i);
    } else {
      var j: nat :| j < |study.ctx.edgeIDs| && study.ctx.edgeIDs[j] == component.id;
      spot := AtEdge(j);
    }
  }

  /** A ready study of independent components is one the identities apply to, in every trial. */
  lemma StudyIsSensible(study: Study, paths: PathIndex, e: nat, trial: nat)
    requires Ready(study, paths) && Independent(study.profile) && e < |study.endpoints|
    ensures Sensible(study, FrameAt(study, paths, trial), e)
  {
    SlotList.ValidEntries(study.ctx);
  }

  /** The identities hold in every trial of a ready study, for each of its endpoints and components. */
  lemma StudyImportance(study: Study, paths: PathIndex, e: nat, c: nat, trial: nat)
    requires Ready(study, paths) && Independent(study.profile) && e < |study.endpoints| && c < |study.components|
    ensures var frame, component := FrameAt(study, paths, trial), study.components[c];
      Belong(R(study, frame, e), LiveProbability(study.ctx, study.profile, component),
             RForced(study, frame, e, component, true), RForced(study, frame, e, component, false),
             Importance(study, frame, e, component))
  {
    var spot := SpotOf(study, c);
    StudyIsSensible(study, paths, e, trial);
    ImportanceIdentities(study, FrameAt(study, paths, trial), e, spot);
  }

  // ----- a study's trials sample exactly these events

  ghost function TrialBits(study: Study, trial: nat): Bits {
    BitsFrom(study.entropy.EventStream(study.seed, trial, StateLabel), 0, Rates(study.ctx, study.profile))
  }

  lemma TrialWorldIsLive(study: Study, trial: nat)
    requires study.ctx.Valid() && Independent(study.profile) && Fits(study.ctx, study.profile)
    ensures SameUps(WorldAt(study, trial), LiveWorld(study.ctx, study.profile, TrialBits(study, trial)))
  {
    SampleIsBits(study.ctx, study.profile, study.entropy.EventStream(study.seed, trial, StateLabel), 0);
  }

  lemma SameForcedVerdict(study: Study, frame: Frame, a: World, b: World, component: Component, up: bool, e: nat)
    requires e < |study.endpoints| && |frame.keys| == |study.endpoints| && SameUps(a, b)
    ensures Wins(study, frame, Forced(a, component, up), e) == Wins(study, frame, Forced(b, component, up), e)
  {
    ForcedAlike(a, b, component, up);
    SameVerdict(study, frame, Forced(a, component, up), Forced(b, component, up), e);
  }

  lemma ForcedAlike(a: World, b: World, component: Component, up: bool)
    requires SameUps(a, b)
    ensures SameUps(Forced(a, component, up), Forced(b, component, up))
  {
    forall id
      ensures Up(Forced(a, component, up).serviceAlive, id) == Up(Forced(b, component, up).serviceAlive, id)
      ensures Up(Forced(a, component, up).edgeAlive, id) == Up(Forced(b, component, up).edgeAlive, id)
    {
      assert Up(a.serviceAlive, id) == Up(b.serviceAlive, id) && Up(a.edgeAlive, id) == Up(b.edgeAlive, id);
    }
  }

  /** What a trial counts for an endpoint and a component are the events whose probabilities are given above. */
  lemma TrialsSampleEvents(study: Study, paths: PathIndex, e: nat, c: nat, up: bool, trial: nat)
    requires Ready(study, paths) && Independent(study.profile) && e < |study.endpoints| && c < |study.components|
    ensures BaseWins(study, paths, e, trial) == WinsOn(study, FrameAt(study, paths, trial), e, TrialBits(study, trial))
    ensures ForcedWins(study, paths, e, c, up, trial)
         == ForcedOn(study, FrameAt(study, paths, trial), e, study.components[c], up, TrialBits(study, trial))
  {
    var frame, live := FrameAt(study, paths, trial), LiveWorld(study.ctx, study.profile, TrialBits(study, trial));
    TrialWorldIsLive(study, trial);
    SameVerdict(study, frame, WorldAt(study, trial), live, e);
    SameForcedVerdict(study, frame, WorldAt(study, trial), live, study.components[c], up, e);
  }

  lemma SameVerdict(study: Study, frame: Frame, a: World, b: World, e: nat)
    requires e < |study.endpoints| && |frame.keys| == |study.endpoints| && SameUps(a, b)
    ensures Wins(study, frame, a, e) == Wins(study, frame, b, e)
  {
    WinsMonotone(study, frame, a, b, e);
    WinsMonotone(study, frame, b, a, e);
  }
}
