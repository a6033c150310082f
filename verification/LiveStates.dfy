/**
 Independent sampling as independent events: which draws decide which service or edge, and with what probability each is
 up.
 */
module LiveStates {
  import opened Wrappers
  import opened Ids
  import opened Draws
  import opened Topology
  import opened Sampling
  import opened Probability
  import opened Expectation
  import Populations
  import Nesting
  import SlotList = Slots

  predicate Independent(profile: Profile) {
    profile.mode.IndependentReplica? || profile.mode.IndependentService?
  }

  // ----- the rates of the draws, in the order they are made

  /** The draws made for service `i`. */
  function DrawsOf(ctx: Context, profile: Profile, i: nat): nat
    requires i < |ctx.serviceIDs|
  {
    var svc := ctx.ServiceOf(ctx.serviceIDs[i]);
    if !svc.samplingEligible then 0
    else if profile.mode.IndependentReplica? then SlotList.ReplicasIn(svc, |svc.replicas|)
    else 1
  }

  function ServiceBlock(ctx: Context, profile: Profile, i: nat): seq<real>
    requires i < |ctx.serviceIDs|
  {
    Repeat(ServiceLiveProbability(profile, ctx.serviceIDs[i]), DrawsOf(ctx, profile, i))
  }

  /** The draws for the services from `a` up to `b`. */
  function ServiceRates(ctx: Context, profile: Profile, a: nat, b: nat): seq<real>
    requires a <= b <= |ctx.serviceIDs|
    decreases b
  {
    if a == b then [] else ServiceRates(ctx, profile, a, b - 1) + ServiceBlock(ctx, profile, b - 1)
  }

  /** The draws for the edges from `a` up to `b`, one for each. */
  function EdgeRates(ctx: Context, profile: Profile, a: nat, b: nat): (rates: seq<real>)
    requires a <= b <= |ctx.edgeIDs|
    ensures |rates| == b - a
    decreases b
  {
    if a == b then [] else EdgeRates(ctx, profile, a, b - 1) + [EdgeLiveProbability(profile, ctx.edgeIDs[b - 1])]
  }

  function Rates(ctx: Context, profile: Profile): seq<real> {
    ServiceRates(ctx, profile, 0, |ctx.serviceIDs|) + EdgeRates(ctx, profile, 0, |ctx.edgeIDs|)
  }

  /** The number of draws made for the services before `i`. */
  function DrawsBefore(ctx: Context, profile: Profile, i: nat): nat
    requires i <= |ctx.serviceIDs|
  {
    |ServiceRates(ctx, profile, 0, i)|
  }

  lemma {:induction false} ServiceRatesSplit(ctx: Context, profile: Profile, a: nat, b: nat, c: nat)
    requires a <= b <= c <= |ctx.serviceIDs|
    ensures ServiceRates(ctx, profile, a, c) == ServiceRates(ctx, profile, a, b) + ServiceRates(ctx, profile, b, c)
    decreases c
  {
    if b < c {
      ServiceRatesSplit(ctx, profile, a, b, c - 1);
    }
  }

  lemma {:induction false} EdgeRatesSplit(ctx: Context, profile: Profile, a: nat, b: nat, c: nat)
    requires a <= b <= c <= |ctx.edgeIDs|
    ensures EdgeRates(ctx, profile, a, c) == EdgeRates(ctx, profile, a, b) + EdgeRates(ctx, profile, b, c)
    decreases c
  {
    if b < c {
      EdgeRatesSplit(ctx, profile, a, b, c - 1);
    }
  }

  lemma OneServiceRates(ctx: Context, profile: Profile, i: nat)
    requires i < |ctx.serviceIDs|
    ensures ServiceRates(ctx, profile, i, i + 1) == ServiceBlock(ctx, profile, i)
  {
    assert ServiceRates(ctx, profile, i, i) == [];
  }

  lemma OneEdgeRate(ctx: Context, profile: Profile, i: nat)
    requires i < |ctx.edgeIDs|
    ensures EdgeRates(ctx, profile, i, i + 1) == [EdgeLiveProbability(profile, ctx.edgeIDs[i])]
  {
    assert EdgeRates(ctx, profile, i, i) == [];
  }

  // ----- the groups of draws that decide one component

  lemma Regrouped(a: seq<real>, b: seq<real>, c: seq<real>, d: seq<real>)
    ensures (a + (b + c)) + d == a + (b + (c + d))
    ensures a + (b + (c + d)) == (a + b) + (c + d)
  {
  }

  lemma ServiceGroup(ctx: Context, profile: Profile, i: nat)
    requires i < |ctx.serviceIDs|
    ensures Rates(ctx, profile)
         == ServiceRates(ctx, profile, 0, i)
            + (ServiceBlock(ctx, profile, i)
               + (ServiceRates(ctx, profile, i + 1, |ctx.serviceIDs|) + EdgeRates(ctx, profile, 0, |ctx.edgeIDs|)))
  {
    ServiceRatesSplit(ctx, profile, 0, i, |ctx.serviceIDs|);
    ServiceRatesSplit(ctx, profile, i, i + 1, |ctx.serviceIDs|);
    OneServiceRates(ctx, profile, i);
    Regrouped(ServiceRates(ctx, profile, 0, i), ServiceBlock(ctx, profile, i),
              ServiceRates(ctx, profile, i + 1, |ctx.serviceIDs|), EdgeRates(ctx, profile, 0, |ctx.edgeIDs|));
  }

  lemma EdgeGroup(ctx: Context, profile: Profile, j: nat)
    requires j < |ctx.edgeIDs|
    ensures Rates(ctx, profile)
         == (ServiceRates(ctx, profile, 0, |ctx.serviceIDs|) + EdgeRates(ctx, profile, 0, j))
            + ([EdgeLiveProbability(profile, ctx.edgeIDs[j])] + EdgeRates(ctx, profile, j + 1, |ctx.edgeIDs|))
  {
    EdgeRatesSplit(ctx, profile, 0, j, |ctx.edgeIDs|);
    EdgeRatesSplit(ctx, profile, j, j + 1, |ctx.edgeIDs|);
    OneEdgeRate(ctx, profile, j);
    Regrouped(ServiceRates(ctx, profile, 0, |ctx.serviceIDs|), EdgeRates(ctx, profile, 0, j),
              [EdgeLiveProbability(profile, ctx.edgeIDs[j])], EdgeRates(ctx, profile, j + 1, |ctx.edgeIDs|));
  }

  // ----- the bits a generator gives, and the world they mean

  /** Which draws from `pos` on fall below their rates. */
  function BitsFrom(stream: Stream, pos: nat, rates: seq<real>): (bits: Bits)
    ensures |bits| == |rates|
  {
    seq(|rates|, k requires 0 <= k < |rates| => stream.draw(pos + k) < rates[k])
  }

  /** The bits of service `i`. */
  function OwnBits(ctx: Context, profile: Profile, i: nat, bits: Bits): (own: Bits)
    requires i < |ctx.serviceIDs| && |bits| == |Rates(ctx, profile)|
    ensures |own| == DrawsOf(ctx, profile, i)
  {
    ServiceGroup(ctx, profile, i);
    bits[DrawsBefore(ctx, profile, i)..DrawsBefore(ctx, profile, i) + DrawsOf(ctx, profile, i)]
  }

  /** Service `i` is up: it cannot fail, or one of its draws falls below its live probability. */
  predicate ServiceBit(ctx: Context, profile: Profile, i: nat, bits: Bits)
    requires i < |ctx.serviceIDs| && |bits| == |Rates(ctx, profile)|
  {
    !ctx.ServiceOf(ctx.serviceIDs[i]).samplingEligible || AnyTrue(OwnBits(ctx, profile, i, bits))
  }

  predicate EdgeBit(ctx: Context, profile: Profile, j: nat, bits: Bits)
    requires j < |ctx.edgeIDs| && |bits| == |Rates(ctx, profile)|
  {
    EdgeGroup(ctx, profile, j);
    bits[DrawsBefore(ctx, profile, |ctx.serviceIDs|) + j]
  }

  // ----- the sampler reads exactly these draws

  /** Some bucket of the service is up. */
  predicate SomeBucketUp(buckets: map<BucketId, bool>, svc: Service, m: nat) {
    exists b: nat | b < m :: Up(buckets, svc.Bucket(b))
  }

  lemma {:induction false} BelowInParts(stream: Stream, pos: nat, a: nat, b: nat, p: real)
    ensures AnyBelow(stream, pos, a + b, p) <==> AnyBelow(stream, pos, a, p) || AnyBelow(stream, pos + a, b, p)
  {
    if AnyBelow(stream, pos, a + b, p) {
      var q: nat :| pos <= q < pos + (a + b) && stream.draw(q) < p;
      assert q < pos + a || pos + a <= q < pos + a + b;
    }
  }

  lemma {:induction false} DrawnBuckets(svc: Service, p: real, stream: Stream, m: nat, pos: nat)
    requires m <= |svc.replicas|
    ensures ReplicaDraws(svc, p, stream, m, pos).1 == pos + SlotList.ReplicasIn(svc, m)
    ensures SomeBucketUp(ReplicaDraws(svc, p, stream, m, pos).0, svc, m)
        <==> AnyBelow(stream, pos, SlotList.ReplicasIn(svc, m), p)
  {
    if m > 0 {
      DrawnBuckets(svc, p, stream, m - 1, pos);
      var before, after := ReplicaDraws(svc, p, stream, m - 1, pos), ReplicaDraws(svc, p, stream, m, pos);
      var up := AnyBelow(stream, before.1, svc.replicas[m - 1], p);
      BelowInParts(stream, pos, SlotList.ReplicasIn(svc, m - 1), svc.replicas[m - 1], p);
      LastBucket(before.0, after.0, svc, m, up);
    }
  }

  lemma LastBucket(before: map<BucketId, bool>, after: map<BucketId, bool>, svc: Service, m: nat, up: bool)
    requires m > 0 && after == before[svc.Bucket(m - 1) := up]
    ensures SomeBucketUp(after, svc, m) <==> SomeBucketUp(before, svc, m - 1) || up
  {
    if SomeBucketUp(before, svc, m - 1) {
      var b: nat :| b < m - 1 && Up(before, svc.Bucket(b));
      assert Up(after, svc.Bucket(b));
    }
    if up {
      assert Up(after, svc.Bucket(m - 1));
    }
  }

  /** What the draws from `pos` on say of service `i`. */
  predicate DrawnUp(ctx: Context, profile: Profile, stream: Stream, i: nat, pos: nat)
    requires i < |ctx.serviceIDs|
  {
    !ctx.ServiceOf(ctx.serviceIDs[i]).samplingEligible
    || AnyBelow(stream, pos, DrawsOf(ctx, profile, i), ServiceLiveProbability(profile, ctx.serviceIDs[i]))
  }

  lemma PartDraws(ctx: Context, profile: Profile, stream: Stream, i: nat, pos: nat)
    requires i < |ctx.serviceIDs| && Independent(profile) && ctx.ServiceOf(ctx.serviceIDs[i]).replicas != []
    ensures var svc, part := ctx.ServiceOf(ctx.serviceIDs[i]), Populations.Part(ctx, profile, stream, i, pos);
      && part.1 == pos + DrawsOf(ctx, profile, i)
      && (SomeBucketUp(part.0, svc, |svc.replicas|) <==> DrawnUp(ctx, profile, stream, i, pos))
  {
    var svc, p := ctx.ServiceOf(ctx.serviceIDs[i]), ServiceLiveProbability(profile, ctx.serviceIDs[i]);
    DrawnBuckets(svc, p, stream, |svc.replicas|, pos);
    AllBuckets(svc, true);
    AllBuckets(svc, stream.draw(pos) < p);
    assert AnyBelow(stream, pos, 1, p) <==> stream.draw(pos) < p;
  }

  lemma AllBuckets(svc: Service, alive: bool)
    requires svc.replicas != []
    ensures SomeBucketUp(BucketsOf(svc, alive), svc, |svc.replicas|) <==> alive
  {
    forall b: nat
      ensures Up(BucketsOf(svc, alive), svc.Bucket(b)) <==> b < |svc.replicas| && alive
    {
      Populations.UniformUp(svc, |svc.replicas|, alive, b);
    }
    if alive {
      assert Up(BucketsOf(svc, alive), svc.Bucket(0));
    }
  }

  /** Sampling the services makes the draws listed for them. */
  lemma {:induction false} StageDraws(ctx: Context, profile: Profile, stream: Stream, n: nat, pos: nat)
    requires n <= |ctx.serviceIDs| && Independent(profile)
    requires forall i | 0 <= i < |ctx.serviceIDs| :: ctx.ServiceOf(ctx.serviceIDs[i]).replicas != []
    ensures Populations.Stage(ctx, profile, stream, n, pos).1 == pos + DrawsBefore(ctx, profile, n)
  {
    if n > 0 {
      StageDraws(ctx, profile, stream, n - 1, pos);
      Populations.StageStep(ctx, profile, stream, n, pos);
      PartDraws(ctx, profile, stream, n - 1, pos + DrawsBefore(ctx, profile, n - 1));
    }
  }

  /** Later services leave the buckets of service `i` as it drew them. */
  lemma {:induction false} StageKeeps(ctx: Context, profile: Profile, stream: Stream, n: nat, pos: nat, i: nat, b: nat)
    requires SlotList.Entries(ctx) && i < n <= |ctx.serviceIDs|
    ensures var svc := ctx.ServiceOf(ctx.serviceIDs[i]);
      Up(Populations.Stage(ctx, profile, stream, n, pos).0, svc.Bucket(b))
      <==> Up(Populations.Part(ctx, profile, stream, i, Populations.Stage(ctx, profile, stream, i, pos).1).0,
          svc.Bucket(b))
  {
    var before := Populations.Stage(ctx, profile, stream, n - 1, pos);
    Populations.StageStep(ctx, profile, stream, n, pos);
    Populations.PartsAreGood(ctx, profile, stream, n - 1, before.1, b);
    if i == n - 1 {
      Populations.StageAt(ctx, profile, stream, n - 1, pos, i, b);
    } else {
      StageKeeps(ctx, profile, stream, n - 1, pos, i, b);
      assert SlotList.Entry(ctx, i) && SlotList.Entry(ctx, n - 1);
      SlotList.EntriesDiffer(ctx, i, n - 1);
    }
  }

  lemma UpAsDrawn(ctx: Context, profile: Profile, stream: Stream, pos: nat, i: nat)
    requires SlotList.Entries(ctx) && i < |ctx.serviceIDs| && Independent(profile)
    requires forall k | 0 <= k < |ctx.serviceIDs| :: ctx.ServiceOf(ctx.serviceIDs[k]).replicas != []
    ensures ServiceUp(ctx, Populations.Stage(ctx, profile, stream, |ctx.serviceIDs|, pos).0, ctx.serviceIDs[i])
        <==> DrawnUp(ctx, profile, stream, i, pos + DrawsBefore(ctx, profile, i))
  {
    var svc, n := ctx.ServiceOf(ctx.serviceIDs[i]), |ctx.serviceIDs|;
    var all := Populations.Stage(ctx, profile, stream, n, pos).0;
    var own := Populations.Part(ctx, profile, stream, i, Populations.Stage(ctx, profile, stream, i, pos).1).0;
    forall b: nat
      ensures Up(all, svc.Bucket(b)) <==> Up(own, svc.Bucket(b))
    {
      StageKeeps(ctx, profile, stream, n, pos, i, b);
    }
    StageDraws(ctx, profile, stream, i, pos);
    PartDraws(ctx, profile, stream, i, pos + DrawsBefore(ctx, profile, i));
  }

  // ----- each bit is the draw of its component

  lemma RateOfService(ctx: Context, profile: Profile, i: nat, t: nat)
    requires i < |ctx.serviceIDs| && t < DrawsOf(ctx, profile, i)
    ensures DrawsBefore(ctx, profile, i) + t < |Rates(ctx, profile)|
    ensures Rates(ctx, profile)[DrawsBefore(ctx, profile, i) + t] == ServiceLiveProbability(profile, ctx.serviceIDs[i])
  {
    ServiceGroup(ctx, profile, i);
    assert ServiceBlock(ctx, profile, i)[t] == ServiceLiveProbability(profile, ctx.serviceIDs[i]);
  }

  lemma RateOfEdge(ctx: Context, profile: Profile, j: nat)
    requires j < |ctx.edgeIDs|
    ensures DrawsBefore(ctx, profile, |ctx.serviceIDs|) + j < |Rates(ctx, profile)|
    ensures Rates(ctx, profile)[DrawsBefore(ctx, profile, |ctx.serviceIDs|) + j]
        == EdgeLiveProbability(profile, ctx.edgeIDs[j])
  {
    EdgeGroup(ctx, profile, j);
  }

  lemma AnyIsBelow(own: Bits, stream: Stream, start: nat, p: real)
    requires forall t | 0 <= t < |own| :: own[t] == (stream.draw(start + t) < p)
    ensures AnyTrue(own) <==> AnyBelow(stream, start, |own|, p)
  {
    if AnyTrue(own) {
      var t :| 0 <= t < |own| && own[t];
      assert stream.draw(start + t) < p;
    }
    if AnyBelow(stream, start, |own|, p) {
      var q: nat :| start <= q < start + |own| && stream.draw(q) < p;
      assert own[q - start];
    }
  }

  lemma OwnBitsDrawn(ctx: Context, profile: Profile, stream: Stream, pos: nat, i: nat, t: nat)
    requires i < |ctx.serviceIDs| && t < DrawsOf(ctx, profile, i)
    ensures OwnBits(ctx, profile, i, BitsFrom(stream, pos, Rates(ctx, profile)))[t]
         == (stream.draw((pos + DrawsBefore(ctx, profile, i)) + t) < ServiceLiveProbability(profile, ctx.serviceIDs[i]))
  {
    RateOfService(ctx, profile, i, t);
    var bits, off := BitsFrom(stream, pos, Rates(ctx, profile)), DrawsBefore(ctx, profile, i);
    ServiceGroup(ctx, profile, i);
    assert OwnBits(ctx, profile, i, bits)[t] == bits[off + t];
    assert (pos + off) + t == pos + (off + t);
  }

  lemma ServiceBitDrawn(ctx: Context, profile: Profile, stream: Stream, pos: nat, i: nat)
    requires i < |ctx.serviceIDs|
    ensures ServiceBit(ctx, profile, i, BitsFrom(stream, pos, Rates(ctx, profile)))
        <==> DrawnUp(ctx, profile, stream, i, pos + DrawsBefore(ctx, profile, i))
  {
    var own := OwnBits(ctx, profile, i, BitsFrom(stream, pos, Rates(ctx, profile)));
    forall t: nat | t < |own|
      ensures own[t] == (stream.draw((pos + DrawsBefore(ctx, profile, i)) + t) < ServiceLiveProbability(profile,
          ctx.serviceIDs[i]))
    {
      OwnBitsDrawn(ctx, profile, stream, pos, i, t);
    }
    AnyIsBelow(own, stream, pos + DrawsBefore(ctx, profile, i), ServiceLiveProbability(profile, ctx.serviceIDs[i]));
  }

  lemma {:induction false} EveryEdgeDraws(ctx: Context, n: nat)
    requires n <= |ctx.edgeIDs|
    ensures Nesting.EdgeDraws(ctx, NO_FAULTS, n) == n
  {
    if n > 0 {
      EveryEdgeDraws(ctx, n - 1);
    }
  }

  lemma EdgeBitDrawn(ctx: Context, profile: Profile, stream: Stream, pos: nat, j: nat)
    requires j < |ctx.edgeIDs| && Nesting.DistinctEdges(ctx)
    ensures var start := pos + DrawsBefore(ctx, profile, |ctx.serviceIDs|);
      Up(EdgeStates(ctx, profile, NO_FAULTS, stream, |ctx.edgeIDs|, start).0, ctx.edgeIDs[j])
      <==> EdgeBit(ctx, profile, j, BitsFrom(stream, pos, Rates(ctx, profile)))
  {
    var off := DrawsBefore(ctx, profile, |ctx.serviceIDs|);
    var at := Nesting.EdgeStateAt(ctx, profile, NO_FAULTS, stream, |ctx.edgeIDs|, pos + off, j);
    EveryEdgeDraws(ctx, j);
    RateOfEdge(ctx, profile, j);
    assert at == pos + (off + j);
  }

  /** The world the bits mean. */
  ghost function LiveWorld(ctx: Context, profile: Profile, bits: Bits): World
    requires |bits| == |Rates(ctx, profile)|
  {
    World(map[],
          map id | id in ctx.serviceIDs ::
            (exists i | 0 <= i < |ctx.serviceIDs| :: ctx.serviceIDs[i] == id && ServiceBit(ctx, profile, i, bits)),
          map id | id in ctx.edgeIDs ::
            (exists j | 0 <= j < |ctx.edgeIDs| :: ctx.edgeIDs[j] == id && EdgeBit(ctx, profile, j, bits)))
  }

  /** The two worlds have the same services and edges up. */
  ghost predicate SameUps(a: World, b: World) {
    NoBetter(a, b) && NoBetter(b, a)
  }

  /** The sampled states, and the position reached, in independent modes without faults. */
  lemma SampleParts(ctx: Context, profile: Profile, stream: Stream, pos: nat)
    requires Independent(profile)
    ensures var stage := Populations.Stage(ctx, profile, stream, |ctx.serviceIDs|, pos);
      var edges := EdgeStates(ctx, profile, NO_FAULTS, stream, |ctx.edgeIDs|, stage.1);
      Sample(ctx, profile, NO_FAULTS, stream, pos)
          == Ok((World(stage.0, ServiceStates(ctx, stage.0), edges.0), edges.1))
  {
    NothingKilled(Populations.Stage(ctx, profile, stream, |ctx.serviceIDs|, pos).0);
  }

  ghost predicate ServicesAreBits(ctx: Context, profile: Profile, buckets: map<BucketId, bool>, bits: Bits)
    requires |bits| == |Rates(ctx, profile)|
  {
    forall i | 0 <= i < |ctx.serviceIDs| :: ServiceUp(ctx, buckets, ctx.serviceIDs[i])
        <==> ServiceBit(ctx, profile, i, bits)
  }

  ghost predicate EdgesAreBits(ctx: Context, profile: Profile, edges: map<Id, bool>, bits: Bits)
    requires |bits| == |Rates(ctx, profile)|
  {
    && edges.Keys == (set j | 0 <= j < |ctx.edgeIDs| :: ctx.edgeIDs[j])
    && forall j | 0 <= j < |ctx.edgeIDs| :: Up(edges, ctx.edgeIDs[j]) <==> EdgeBit(ctx, profile, j, bits)
  }

  lemma StageIsBits(ctx: Context, profile: Profile, stream: Stream, pos: nat)
    requires ctx.Valid() && Independent(profile)
    ensures var stage := Populations.Stage(ctx, profile, stream, |ctx.serviceIDs|, pos);
      && stage.1 == pos + DrawsBefore(ctx, profile, |ctx.serviceIDs|)
      && ServicesAreBits(ctx, profile, stage.0, BitsFrom(stream, pos, Rates(ctx, profile)))
  {
    SlotList.ValidEntries(ctx);
    ServicesHaveBuckets(ctx);
    StageDraws(ctx, profile, stream, |ctx.serviceIDs|, pos);
    forall i | 0 <= i < |ctx.serviceIDs|
      ensures ServiceUp(ctx, Populations.Stage(ctx, profile, stream, |ctx.serviceIDs|, pos).0, ctx.serviceIDs[i])
          <==> ServiceBit(ctx, profile, i, BitsFrom(stream, pos, Rates(ctx, profile)))
    {
      UpAsDrawn(ctx, profile, stream, pos, i);
      ServiceBitDrawn(ctx, profile, stream, pos, i);
    }
  }

  lemma StatesAreEdgeBits(ctx: Context, profile: Profile, stream: Stream, pos: nat)
    requires Nesting.DistinctEdges(ctx)
    ensures var start := pos + DrawsBefore(ctx, profile, |ctx.serviceIDs|);
      var edges := EdgeStates(ctx, profile, NO_FAULTS, stream, |ctx.edgeIDs|, start);
      && edges.1 == pos + |Rates(ctx, profile)|
      && EdgesAreBits(ctx, profile, edges.0, BitsFrom(stream, pos, Rates(ctx, profile)))
  {
    var start := pos + DrawsBefore(ctx, profile, |ctx.serviceIDs|);
    EveryEdgeDraws(ctx, |ctx.edgeIDs|);
    Nesting.EdgeCursor(ctx, profile, NO_FAULTS, stream, |ctx.edgeIDs|, start);
    forall j | 0 <= j < |ctx.edgeIDs|
      ensures Up(EdgeStates(ctx, profile, NO_FAULTS, stream, |ctx.edgeIDs|, start).0, ctx.edgeIDs[j])
          <==> EdgeBit(ctx, profile, j, BitsFrom(stream, pos, Rates(ctx, profile)))
    {
      EdgeBitDrawn(ctx, profile, stream, pos, j);
    }
  }

  /** On every stream the sampled world is the one its bits mean, and sampling makes exactly the listed draws. */
  lemma SampleIsBits(ctx: Context, profile: Profile, stream: Stream, pos: nat)
    requires ctx.Valid() && Independent(profile)
    ensures Sample(ctx, profile, NO_FAULTS, stream, pos).Ok?
    ensures var sample := Sample(ctx, profile, NO_FAULTS, stream, pos).value;
      && sample.1 == pos + |Rates(ctx, profile)|
      && SameUps(sample.0, LiveWorld(ctx, profile, BitsFrom(stream, pos, Rates(ctx, profile))))
  {
    var stage := Populations.Stage(ctx, profile, stream, |ctx.serviceIDs|, pos);
    SlotList.ValidEntries(ctx);
    SampleParts(ctx, profile, stream, pos);
    StageIsBits(ctx, profile, stream, pos);
    StatesAreEdgeBits(ctx, profile, stream, pos);
    StatesAreBits(ctx, profile, stage.0, EdgeStates(ctx, profile, NO_FAULTS, stream, |ctx.edgeIDs|, stage.1).0,
                  BitsFrom(stream, pos, Rates(ctx, profile)));
  }

  lemma ServicesHaveBuckets(ctx: Context)
    requires ctx.Valid()
    ensures forall i | 0 <= i < |ctx.serviceIDs| :: ctx.ServiceOf(ctx.serviceIDs[i]).replicas != []
  {
    forall i | 0 <= i < |ctx.serviceIDs|
      ensures ctx.ServiceOf(ctx.serviceIDs[i]).replicas != []
    {
      assert ctx.serviceIDs[i] in ctx.services;
    }
  }

  lemma NothingKilled(buckets: map<BucketId, bool>)
    ensures AfterKills(buckets, NO_FAULTS) == buckets
  {
  }

  lemma ServiceStateIsBit(ctx: Context, profile: Profile, buckets: map<BucketId, bool>, bits: Bits, id: Id)
    requires SlotList.Entries(ctx) && |bits| == |Rates(ctx, profile)| && ServicesAreBits(ctx, profile, buckets, bits)
    ensures Up(ServiceStates(ctx, buckets), id) <==> Up(LiveWorld(ctx, profile, bits).serviceAlive, id)
  {
    if id in ctx.serviceIDs {
      var i :| 0 <= i < |ctx.serviceIDs| && ctx.serviceIDs[i] == id;
      ServiceAlone(ctx, profile, i, bits);
    }
  }

  lemma EdgeStateIsBit(ctx: Context, profile: Profile, edges: map<Id, bool>, bits: Bits, id: Id)
    requires Nesting.DistinctEdges(ctx) && |bits| == |Rates(ctx, profile)| && EdgesAreBits(ctx, profile, edges, bits)
    ensures Up(edges, id) <==> Up(LiveWorld(ctx, profile, bits).edgeAlive, id)
  {
    if id in ctx.edgeIDs {
      var j :| 0 <= j < |ctx.edgeIDs| && ctx.edgeIDs[j] == id;
      EdgeAlone(ctx, profile, j, bits);
    }
  }

  lemma StatesAreBits(ctx: Context, profile: Profile, buckets: map<BucketId, bool>, edges: map<Id, bool>, bits: Bits)
    requires SlotList.Entries(ctx) && Nesting.DistinctEdges(ctx) && |bits| == |Rates(ctx, profile)|
    requires ServicesAreBits(ctx, profile, buckets, bits) && EdgesAreBits(ctx, profile, edges, bits)
    ensures SameUps(World(buckets, ServiceStates(ctx, buckets), edges), LiveWorld(ctx, profile, bits))
  {
    forall id
      ensures Up(ServiceStates(ctx, buckets), id) <==> Up(LiveWorld(ctx, profile, bits).serviceAlive, id)
      ensures Up(edges, id) <==> Up(LiveWorld(ctx, profile, bits).edgeAlive, id)
    {
      ServiceStateIsBit(ctx, profile, buckets, bits, id);
      EdgeStateIsBit(ctx, profile, edges, bits, id);
    }
  }

  lemma ServiceAlone(ctx: Context, profile: Profile, i: nat, bits: Bits)
    requires SlotList.Entries(ctx) && |bits| == |Rates(ctx, profile)| && i < |ctx.serviceIDs|
    ensures Up(LiveWorld(ctx, profile, bits).serviceAlive, ctx.serviceIDs[i]) <==> ServiceBit(ctx, profile, i, bits)
  {
    if k :| 0 <= k < |ctx.serviceIDs| && ctx.serviceIDs[k] == ctx.serviceIDs[i] && ServiceBit(ctx, profile, k, bits) {
      if k != i {
        SlotList.EntriesDiffer(ctx, k, i);
      }
    }
  }

  lemma EdgeAlone(ctx: Context, profile: Profile, j: nat, bits: Bits)
    requires Nesting.DistinctEdges(ctx) && |bits| == |Rates(ctx, profile)| && j < |ctx.edgeIDs|
    ensures Up(LiveWorld(ctx, profile, bits).edgeAlive, ctx.edgeIDs[j]) <==> EdgeBit(ctx, profile, j, bits)
  {
  }
}
