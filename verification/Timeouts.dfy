/** What a timeout is, in terms of policy fields and latencies, and what it does to a run. */
module Timeouts {
  import opened Wrappers
  import opened Ids
  import opened Draws
  import opened Topology
  import opened Execution

  // ----- latencies, read from the fields

  function FirstPositive(values: seq<real>): Option<real> {
    if values == [] then None else if values[0] > 0.0 then Some(values[0]) else FirstPositive(values[1..])
  }

  /** A latency stands for its first positive percentile, from the highest down. */
  function Typical(latency: Latency): Option<real> {
    FirstPositive([latency.p99, latency.p95, latency.p90, latency.p50])
  }

  function ObservedOn(ctx: Context, edgeID: Id): Option<real> {
    var observed := ctx.EdgeOf(edgeID).observed;
    if observed.Some? && observed.value.latency.Some? then Typical(observed.value.latency.value) else None
  }

  function Injected(latencies: map<Id, Latency>, id: Id): Option<real> {
    if id in latencies then Typical(latencies[id]) else None
  }

  function OrZero(x: Option<real>): real {
    if x.Some? then x.value else 0.0
  }

  /** The hop's own edge has a latency, observed or injected. */
  predicate Timed(ctx: Context, faults: Faults, path: Path, k: nat)
    requires path.Shaped() && k < |path.edgeIDs|
  {
    ObservedOn(ctx, path.edgeIDs[k]).Some? || Injected(faults.edgeLatencies, path.edgeIDs[k]).Some?
  }

  /** Observed and injected latency of the edge and injected latency of the service it reaches. */
  function HopTime(ctx: Context, faults: Faults, path: Path, k: nat): real
    requires path.Shaped() && k < |path.edgeIDs|
  {
    OrZero(ObservedOn(ctx, path.edgeIDs[k])) + OrZero(Injected(faults.edgeLatencies, path.edgeIDs[k]))
    + OrZero(Injected(faults.serviceLatencies, path.services[k + 1]))
  }

  /** The sum over the hops from `i` up to `j`. */
  function Time(ctx: Context, faults: Faults, path: Path, i: nat, j: nat): real
    requires path.Shaped() && i <= j <= |path.edgeIDs|
    decreases j
  {
    if i == j then 0.0 else Time(ctx, faults, path, i, j - 1) + HopTime(ctx, faults, path, j - 1)
  }

  predicate AllTimed(ctx: Context, faults: Faults, path: Path, i: nat)
    requires path.Shaped() && i <= |path.edgeIDs|
  {
    forall k | i <= k < |path.edgeIDs| :: Timed(ctx, faults, path, k)
  }

  /** The policy lets an attempt wait for `t`: its per-try value, or the request value when that is not set. */
  predicate WaitsFor(policy: Option<Policy>, t: int) {
    && policy.Some? && t > 0
    && (policy.value.perTryTimeoutMs == t || (policy.value.perTryTimeoutMs <= 0 && policy.value.requestTimeoutMs == t))
  }

  /** An attempt over hop `i` waits for less than everything from that hop on takes. */
  ghost predicate Slow(ctx: Context, faults: Faults, path: Path, i: nat)
    requires path.Shaped() && i < |path.edgeIDs|
  {
    && AllTimed(ctx, faults, path, i)
    && exists t :: WaitsFor(ctx.EdgeOf(path.edgeIDs[i]).resilience, t)
                   && t as real < Time(ctx, faults, path, i, |path.edgeIDs|)
  }

  // ----- the engine's own arithmetic is that

  lemma FirstOfFour(a: real, b: real, c: real, d: real)
    ensures FirstPositive([a, b, c, d])
         == if a > 0.0 then Some(a) else if b > 0.0 then Some(b) else if c > 0.0 then Some(c)
            else if d > 0.0 then Some(d) else None
  {
    assert [a, b, c, d][1..] == [b, c, d] && [b, c, d][1..] == [c, d] && [c, d][1..] == [d] && [d][1..] == [];
    assert FirstPositive([d]) == if d > 0.0 then Some(d) else None;
    assert FirstPositive([c, d]) == if c > 0.0 then Some(c) else FirstPositive([d]);
    assert FirstPositive([b, c, d]) == if b > 0.0 then Some(b) else FirstPositive([c, d]);
  }

  lemma SummaryIsTypical(latency: Latency)
    ensures SummaryLatency(latency) == Typical(latency)
  {
    FirstOfFour(latency.p99, latency.p95, latency.p90, latency.p50);
  }

  lemma InjectedIsTypical(latencies: map<Id, Latency>, id: Id)
    ensures SummaryLatency(LatencyOf(latencies, id)) == Injected(latencies, id)
  {
    SummaryIsTypical(LatencyOf(latencies, id));
    FirstOfFour(0.0, 0.0, 0.0, 0.0);
  }

  lemma HopLatencyIs(ctx: Context, faults: Faults, path: Path, k: nat)
    requires path.Shaped() && k < |path.edgeIDs|
    ensures HopLatency(ctx, faults, path, k)
         == if Timed(ctx, faults, path, k) then Some(HopTime(ctx, faults, path, k)) else None
  {
    var observed := ctx.EdgeOf(path.edgeIDs[k]).observed;
    if observed.Some? && observed.value.latency.Some? {
      SummaryIsTypical(observed.value.latency.value);
    }
    InjectedIsTypical(faults.edgeLatencies, path.edgeIDs[k]);
    InjectedIsTypical(faults.serviceLatencies, path.services[k + 1]);
  }

  lemma {:induction false} TimeSplits(ctx: Context, faults: Faults, path: Path, i: nat, j: nat)
    requires path.Shaped() && i < j <= |path.edgeIDs|
    ensures Time(ctx, faults, path, i, j) == HopTime(ctx, faults, path, i) + Time(ctx, faults, path, i + 1, j)
    decreases j
  {
    if i + 1 < j {
      TimeSplits(ctx, faults, path, i, j - 1);
    }
  }

  lemma {:induction false} LatencyIsTime(ctx: Context, faults: Faults, path: Path, i: nat)
    requires path.Shaped() && i <= |path.edgeIDs|
    ensures LatencyFrom(ctx, faults, path, i)
         == if AllTimed(ctx, faults, path, i) then Some(Time(ctx, faults, path, i, |path.edgeIDs|)) else None
    decreases |path.edgeIDs| - i
  {
    if i < |path.edgeIDs| {
      LatencyIsTime(ctx, faults, path, i + 1);
      HopLatencyIs(ctx, faults, path, i);
      TimeSplits(ctx, faults, path, i, |path.edgeIDs|);
    }
  }

  lemma LimitIs(policy: Option<Policy>, t: int)
    ensures t > 0 ==> (WaitsFor(policy, t) <==> ResolveTimeout(policy) == t)
    ensures WaitsFor(policy, ResolveTimeout(policy)) <==> ResolveTimeout(policy) > 0
  {
  }

  lemma TimesOutIsSlow(ctx: Context, faults: Faults, path: Path, i: nat)
    requires path.Shaped() && i < |path.edgeIDs|
    ensures TimesOut(ctx, faults, path, i) <==> Slow(ctx, faults, path, i)
  {
    var policy := ctx.EdgeOf(path.edgeIDs[i]).resilience;
    LatencyIsTime(ctx, faults, path, i);
    LimitIs(policy, ResolveTimeout(policy));
    if t :| WaitsFor(policy, t) && t as real < Time(ctx, faults, path, i, |path.edgeIDs|) {
      LimitIs(policy, t);
    }
  }

  // ----- what it does to the attempts over a hop

  /** The attempt whose error draw would be at `pos` is hit by an error. */
  predicate HitByError(ctx: Context, faults: Faults, path: Path, stream: Stream, i: nat, pos: nat)
    requires path.Shaped() && i < |path.edgeIDs|
  {
    var rate := EdgeErrorRate(ctx, faults, path.edgeIDs[i]);
    rate > 0.0 && stream.draw(pos) < rate
  }

  /** Where the generator stands after the error draw, if there is one. */
  function AfterError(ctx: Context, faults: Faults, path: Path, i: nat, pos: nat): nat
    requires path.Shaped() && i < |path.edgeIDs|
  {
    if EdgeErrorRate(ctx, faults, path.edgeIDs[i]) > 0.0 then pos + 1 else pos
  }

  /**
   The law of one attempt: hit by an error or too slow it fails without looking further, otherwise it is the run from
   the next service on; the first success ends the loop.
   */
  lemma AttemptLaw(ctx: Context, faults: Faults, path: Path, world: World, stream: Stream, i: nat, left: nat, pos: nat)
    requires path.Shaped() && i < |path.edgeIDs| && left > 0
    ensures var next := AfterError(ctx, faults, path, i, pos);
      Attempts(ctx, faults, path, world, stream, i, left, pos)
      == if HitByError(ctx, faults, path, stream, i, pos) || Slow(ctx, faults, path, i) then
           Attempts(ctx, faults, path, world, stream, i, left - 1, next)
         else
           var down := ServiceRun(ctx, faults, path, world, stream, i + 1, next);
           if down.0 then down else Attempts(ctx, faults, path, world, stream, i, left - 1, down.1)
  {
    TimesOutIsSlow(ctx, faults, path, i);
  }

  /** When all latencies from the hop on add up to more than it waits for, every attempt over it fails. */
  lemma {:induction false} SlowHopFails(ctx: Context, faults: Faults, path: Path, world: World, stream: Stream, i: nat,
      left: nat, pos: nat, t: int)
    requires path.Shaped() && i < |path.edgeIDs| && AllTimed(ctx, faults, path, i)
    requires WaitsFor(ctx.EdgeOf(path.edgeIDs[i]).resilience, t)
    requires t as real < Time(ctx, faults, path, i, |path.edgeIDs|)
    ensures !Attempts(ctx, faults, path, world, stream, i, left, pos).0
  {
    if left > 0 {
      AttemptLaw(ctx, faults, path, world, stream, i, left, pos);
      SlowHopFails(ctx, faults, path, world, stream, i, left - 1, AfterError(ctx, faults, path, i, pos), t);
    }
  }

  /**
   With a limit t and known latencies: an attempt that no error hits and whose downstream run would succeed, succeeds
   exactly when t is not below the sum of all latencies from that hop on.
   */
  lemma TimeoutExactly(ctx: Context, faults: Faults, path: Path, world: World, stream: Stream, i: nat, left: nat,
      pos: nat, t: int)
    requires path.Shaped() && i < |path.edgeIDs| && left > 0 && AllTimed(ctx, faults, path, i)
    requires WaitsFor(ctx.EdgeOf(path.edgeIDs[i]).resilience, t) && !HitByError(ctx, faults, path, stream, i, pos)
    requires ServiceRun(ctx, faults, path, world, stream, i + 1, AfterError(ctx, faults, path, i, pos)).0
    ensures Attempts(ctx, faults, path, world, stream, i, left, pos).0
        <==> t as real >= Time(ctx, faults, path, i, |path.edgeIDs|)
  {
    if t as real < Time(ctx, faults, path, i, |path.edgeIDs|) {
      SlowHopFails(ctx, faults, path, world, stream, i, left, pos, t);
    } else {
      AttemptLaw(ctx, faults, path, world, stream, i, left, pos);
      OneLimit(ctx.EdgeOf(path.edgeIDs[i]).resilience, t);
    }
  }

  lemma OneLimit(policy: Option<Policy>, t: int)
    requires WaitsFor(policy, t)
    ensures forall u | WaitsFor(policy, u) :: u == t
  {
  }

  /** Where neither value is set, or some hop has no latency, no attempt times out: it is the run downstream. */
  lemma NoLimitNoTimeout(ctx: Context, faults: Faults, path: Path, world: World, stream: Stream, i: nat, left: nat,
      pos: nat)
    requires path.Shaped() && i < |path.edgeIDs| && left > 0 && !HitByError(ctx, faults, path, stream, i, pos)
    requires || ctx.EdgeOf(path.edgeIDs[i]).resilience.None?
             || (&& ctx.EdgeOf(path.edgeIDs[i]).resilience.value.perTryTimeoutMs <= 0
                 && ctx.EdgeOf(path.edgeIDs[i]).resilience.value.requestTimeoutMs <= 0)
             || !AllTimed(ctx, faults, path, i)
    ensures var down := ServiceRun(ctx, faults, path, world, stream, i + 1, AfterError(ctx, faults, path, i, pos));
      Attempts(ctx, faults, path, world, stream, i, left, pos)
      == if down.0 then down else Attempts(ctx, faults, path, world, stream, i, left - 1, down.1)
  {
    AttemptLaw(ctx, faults, path, world, stream, i, left, pos);
  }

  // ----- runs read nothing else of the two timeout fields

  /** The two graphs differ on the path's edges at most in how an equal limit is written down. */
  ghost predicate SameLimits(a: Context, b: Context, path: Path) {
    forall k | 0 <= k < |path.edgeIDs| :: SameLimit(a.EdgeOf(path.edgeIDs[k]), b.EdgeOf(path.edgeIDs[k]))
  }

  ghost predicate SameLimit(a: Edge, b: Edge) {
    && a.observed == b.observed
    && (a.resilience.Some? <==> b.resilience.Some?)
    && (a.resilience.Some? ==>
          && a.resilience.value.retryMax == b.resilience.value.retryMax
          && a.resilience.value.breaker == b.resilience.value.breaker)
    && forall t :: WaitsFor(a.resilience, t) <==> WaitsFor(b.resilience, t)
  }

  lemma {:induction false} SameTime(a: Context, b: Context, faults: Faults, path: Path, i: nat, j: nat)
    requires path.Shaped() && SameLimits(a, b, path) && i <= j <= |path.edgeIDs|
    ensures Time(a, faults, path, i, j) == Time(b, faults, path, i, j)
    decreases j
  {
    if i < j {
      SameTime(a, b, faults, path, i, j - 1);
      assert SameLimit(a.EdgeOf(path.edgeIDs[j - 1]), b.EdgeOf(path.edgeIDs[j - 1]));
    }
  }

  lemma SameSlow(a: Context, b: Context, faults: Faults, path: Path, i: nat)
    requires path.Shaped() && SameLimits(a, b, path) && i < |path.edgeIDs|
    ensures Slow(a, faults, path, i) <==> Slow(b, faults, path, i)
  {
    SameTime(a, b, faults, path, i, |path.edgeIDs|);
    assert SameLimit(a.EdgeOf(path.edgeIDs[i]), b.EdgeOf(path.edgeIDs[i]));
    forall k | i <= k < |path.edgeIDs|
      ensures Timed(a, faults, path, k) == Timed(b, faults, path, k)
    {
      assert SameLimit(a.EdgeOf(path.edgeIDs[k]), b.EdgeOf(path.edgeIDs[k]));
    }
  }

  lemma {:induction false} SameLimitsSameRun(a: Context, b: Context, faults: Faults, path: Path, world: World,
      stream: Stream, i: nat, pos: nat)
    requires path.Shaped() && SameLimits(a, b, path) && i < |path.services|
    ensures ServiceRun(a, faults, path, world, stream, i, pos) == ServiceRun(b, faults, path, world, stream, i, pos)
    decreases |path.services| - i, 1, 0
  {
    if i < |path.edgeIDs| {
      var rate := RateOf(faults.serviceErrorRates, path.services[i]);
      assert SameLimit(a.EdgeOf(path.edgeIDs[i]), b.EdgeOf(path.edgeIDs[i]));
      SameLimitsSameAttempts(a, b, faults, path, world, stream, i,
        EffectiveAttempts(a.EdgeOf(path.edgeIDs[i]).resilience), if rate > 0.0 then pos + 1 else pos);
    }
  }

  lemma {:induction false} SameLimitsSameAttempts(a: Context, b: Context, faults: Faults, path: Path, world: World,
      stream: Stream, i: nat, left: nat, pos: nat)
    requires path.Shaped() && SameLimits(a, b, path) && i < |path.edgeIDs|
    ensures Attempts(a, faults, path, world, stream, i, left, pos)
         == Attempts(b, faults, path, world, stream, i, left, pos)
    decreases |path.services| - i, 0, left
  {
    if left > 0 {
      assert SameLimit(a.EdgeOf(path.edgeIDs[i]), b.EdgeOf(path.edgeIDs[i]));
      assert EdgeErrorRate(a, faults, path.edgeIDs[i]) == EdgeErrorRate(b, faults, path.edgeIDs[i]);
      var next := AfterError(a, faults, path, i, pos);
      SameSlow(a, b, faults, path, i);
      AttemptLaw(a, faults, path, world, stream, i, left, pos);
      AttemptLaw(b, faults, path, world, stream, i, left, pos);
      SameLimitsSameRun(a, b, faults, path, world, stream, i + 1, next);
      SameLimitsSameAttempts(a, b, faults, path, world, stream, i, left - 1, next);
      SameLimitsSameAttempts(a, b, faults, path, world, stream, i, left - 1,
        ServiceRun(a, faults, path, world, stream, i + 1, next).1);
    }
  }

  /** The graph with other timeout values on one edge that has a policy. */
  function WithTimeouts(ctx: Context, edgeID: Id, perTry: int, request: int): Context
    requires edgeID in ctx.edges && ctx.edges[edgeID].resilience.Some?
  {
    var edge := ctx.edges[edgeID];
    var policy := edge.resilience.value.(perTryTimeoutMs := perTry, requestTimeoutMs := request);
    ctx.(edges := ctx.edges[edgeID := edge.(resilience := Some(policy))])
  }

  /** Timeout values that wait for the same time give the same runs. */
  lemma EqualLimitsEqualRuns(ctx: Context, edgeID: Id, perTry: int, request: int, faults: Faults, path: Path,
      world: World, stream: Stream, i: nat, pos: nat)
    requires path.Shaped() && i < |path.services|
    requires edgeID in ctx.edges && ctx.edges[edgeID].resilience.Some?
    requires var other := WithTimeouts(ctx, edgeID, perTry, request).edges[edgeID].resilience;
      forall t :: WaitsFor(ctx.edges[edgeID].resilience, t) <==> WaitsFor(other, t)
    ensures ServiceRun(WithTimeouts(ctx, edgeID, perTry, request), faults, path, world, stream, i, pos)
         == ServiceRun(ctx, faults, path, world, stream, i, pos)
  {
    var other := WithTimeouts(ctx, edgeID, perTry, request);
    forall k | 0 <= k < |path.edgeIDs|
      ensures SameLimit(other.EdgeOf(path.edgeIDs[k]), ctx.EdgeOf(path.edgeIDs[k]))
    {
    }
    SameLimitsSameRun(other, ctx, faults, path, world, stream, i, pos);
  }

  /** Next to a per-try timeout the request timeout is never read. */
  lemma RequestTimeoutIgnored(ctx: Context, edgeID: Id, request: int, faults: Faults, path: Path, world: World,
      stream: Stream, i: nat, pos: nat)
    requires path.Shaped() && i < |path.services|
    requires edgeID in ctx.edges && ctx.edges[edgeID].resilience.Some?
    requires ctx.edges[edgeID].resilience.value.perTryTimeoutMs > 0
    ensures ServiceRun(WithTimeouts(ctx, edgeID, ctx.edges[edgeID].resilience.value.perTryTimeoutMs, request), faults,
              path, world, stream, i, pos)
         == ServiceRun(ctx, faults, path, world, stream, i, pos)
  {
    EqualLimitsEqualRuns(ctx, edgeID, ctx.edges[edgeID].resilience.value.perTryTimeoutMs, request, faults, path, world,
      stream, i, pos);
  }

  /** Without a per-try timeout the request timeout acts as one. */
  lemma RequestTimeoutActsPerTry(ctx: Context, edgeID: Id, request: int, faults: Faults, path: Path, world: World,
      stream: Stream, i: nat, pos: nat)
    requires path.Shaped() && i < |path.services|
    requires edgeID in ctx.edges && ctx.edges[edgeID].resilience.Some?
    requires ctx.edges[edgeID].resilience.value.perTryTimeoutMs <= 0
    requires ctx.edges[edgeID].resilience.value.requestTimeoutMs > 0
    ensures ServiceRun(WithTimeouts(ctx, edgeID, ctx.edges[edgeID].resilience.value.requestTimeoutMs, request), faults,
              path, world, stream, i, pos)
         == ServiceRun(ctx, faults, path, world, stream, i, pos)
  {
    EqualLimitsEqualRuns(ctx, edgeID, ctx.edges[edgeID].resilience.value.requestTimeoutMs, request, faults, path, world,
      stream, i, pos);
  }
}
