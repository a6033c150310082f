/** Executing one path in one world: brownouts, edge errors, timeouts and retries, all on one generator. */
module Execution {
  import opened Wrappers
  import opened Ids
  import opened Draws
  import opened Topology

  // ----- retry and timeout arithmetic

  function EffectiveAttempts(policy: Option<Policy>): (n: nat)
    ensures n >= 1
  {
    var attempts: nat := if policy.Some? && policy.value.retryMax.Some? && policy.value.retryMax.value > 1
                         then policy.value.retryMax.value else 1;
    if policy.Some? && policy.value.breaker.Some? then
      var breaker := policy.value.breaker.value;
      if breaker.enabled == Some(true) && 0 < breaker.maxRequests < attempts then breaker.maxRequests else attempts
    else
      attempts
  }

  predicate BreakerAllows(policy: Policy, m: nat) {
    policy.breaker.Some? && policy.breaker.value.enabled == Some(true) && policy.breaker.value.maxRequests > 0 ==>
      m <= policy.breaker.value.maxRequests
  }

  /** An m-th attempt is made for m = 1, and otherwise when both the retry maximum and an enabled breaker allow it. */
  lemma AttemptAllowed(policy: Option<Policy>, m: nat)
    ensures m <= EffectiveAttempts(policy)
        <==> m <= 1
             || (policy.Some? && policy.value.retryMax.Some? && m <= policy.value.retryMax.value
                 && BreakerAllows(policy.value, m))
  {
  }

  /** Failure rate of two independent causes; non-positive rates are ignored. */
  function CombineErrorRates(base: real, injected: real): (r: real)
    ensures 0.0 <= base <= 1.0 && 0.0 <= injected <= 1.0 ==> base <= r <= 1.0 && injected <= r
  {
    var keepBase := if base <= 0.0 then 1.0 else 1.0 - base;
    var keepInjected := if injected <= 0.0 then 1.0 else 1.0 - injected;
    CombinedBounds(keepBase, keepInjected);
    1.0 - keepBase * keepInjected
  }

  lemma CombinedBounds(x: real, y: real)
    ensures 0.0 <= x <= 1.0 && 0.0 <= y <= 1.0 ==> 0.0 <= x * y && x * y <= x && x * y <= y
  {
    if 0.0 <= x <= 1.0 && 0.0 <= y <= 1.0 {
      assert x * (1.0 - y) >= 0.0 && (1.0 - x) * y >= 0.0;
    }
  }

  function EdgeErrorRate(ctx: Context, faults: Faults, edgeID: Id): real {
    var edge := ctx.EdgeOf(edgeID);
    var base := if edge.observed.Some? && edge.observed.value.errorRate.Some?
                then edge.observed.value.errorRate.value else 0.0;
    CombineErrorRates(base, RateOf(faults.edgeErrorRates, edgeID))
  }

  function ResolveTimeout(policy: Option<Policy>): int {
    if policy.None? then 0
    else if policy.value.perTryTimeoutMs > 0 then policy.value.perTryTimeoutMs
    else if policy.value.requestTimeoutMs > 0 then policy.value.requestTimeoutMs
    else 0
  }

  function SummaryLatency(summary: Latency): Option<real> {
    if summary.p99 > 0.0 then Some(summary.p99)
    else if summary.p95 > 0.0 then Some(summary.p95)
    else if summary.p90 > 0.0 then Some(summary.p90)
    else if summary.p50 > 0.0 then Some(summary.p50)
    else None
  }

  function RepresentativeLatency(observed: Option<Observed>, injected: Latency): Option<real> {
    var base := if observed.Some? && observed.value.latency.Some?
                then SummaryLatency(observed.value.latency.value) else None;
    var extra := SummaryLatency(injected);
    if base.Some? && extra.Some? then Some(base.value + extra.value)
    else if base.Some? then base
    else extra
  }

  /** Latency added by hop `i`: its edge, plus the service it reaches when that one has a latency injected. */
  function HopLatency(ctx: Context, faults: Faults, path: Path, i: nat): Option<real>
    requires path.Shaped() && i < |path.edgeIDs|
  {
    var edge := ctx.EdgeOf(path.edgeIDs[i]);
    var hop := RepresentativeLatency(edge.observed, LatencyOf(faults.edgeLatencies, path.edgeIDs[i]));
    if hop.None? then None
    else
      var service := SummaryLatency(LatencyOf(faults.serviceLatencies, path.services[i + 1]));
      Some(hop.value + if service.Some? then service.value else 0.0)
  }

  /** Total latency from hop `i` to the end of the path, unknown as soon as one hop is unknown. */
  function LatencyFrom(ctx: Context, faults: Faults, path: Path, i: nat): Option<real>
    requires path.Shaped() && i <= |path.edgeIDs|
    decreases |path.edgeIDs| - i
  {
    if i == |path.edgeIDs| then Some(0.0)
    else
      var hop := HopLatency(ctx, faults, path, i);
      var rest := LatencyFrom(ctx, faults, path, i + 1);
      if hop.Some? && rest.Some? then Some(hop.value + rest.value) else None
  }

  method DownstreamLatency(ctx: Context, faults: Faults, path: Path, i: nat) returns (total: Option<real>)
    requires path.Shaped() && i <= |path.edgeIDs|
    ensures total == LatencyFrom(ctx, faults, path, i)
  {
    var sum := 0.0;
    for idx := i to |path.edgeIDs|
      invariant var rest := LatencyFrom(ctx, faults, path, idx);
        LatencyFrom(ctx, faults, path, i) == if rest.Some? then Some(sum + rest.value) else None
    {
      var hop := HopLatency(ctx, faults, path, idx);
      if hop.None? {
        return None;
      }
      sum := sum + hop.value;
    }
    return Some(sum);
  }

  /** None when timeout or latency metadata is missing, otherwise whether the timeout is below the latency. */
  function TimeoutMismatch(ctx: Context, faults: Faults, path: Path, i: nat): Option<bool>
    requires path.Shaped() && i < |path.edgeIDs|
  {
    var timeout := ResolveTimeout(ctx.EdgeOf(path.edgeIDs[i]).resilience);
    if timeout <= 0 then None
    else
      var latency := LatencyFrom(ctx, faults, path, i);
      if latency.None? then None else Some((timeout as real) < latency.value)
  }

  predicate TimesOut(ctx: Context, faults: Faults, path: Path, i: nat)
    requires path.Shaped() && i < |path.edgeIDs|
  {
    TimeoutMismatch(ctx, faults, path, i) == Some(true)
  }

  // ----- what executing from service `i` answers, and where it leaves the generator

  function ServiceRun(ctx: Context, faults: Faults, path: Path, world: World, stream: Stream, i: nat, pos: nat): (bool,
      nat)
    requires path.Shaped() && i < |path.services|
    decreases |path.services| - i, 1, 0
  {
    var rate := RateOf(faults.serviceErrorRates, path.services[i]);
    if !Up(world.serviceAlive, path.services[i]) then (false, pos)
    else if rate > 0.0 && stream.draw(pos) < rate then (false, pos + 1)
    else
      var next := if rate > 0.0 then pos + 1 else pos;
      if i == |path.services| - 1 then (true, next) else EdgeRun(ctx, faults, path, world, stream, i, next)
  }

  function EdgeRun(ctx: Context, faults: Faults, path: Path, world: World, stream: Stream, i: nat, pos: nat): (bool,
      nat)
    requires path.Shaped() && i < |path.edgeIDs|
    decreases |path.services| - i, 0, EffectiveAttempts(ctx.EdgeOf(path.edgeIDs[i]).resilience) + 1
  {
    if !Up(world.edgeAlive, path.edgeIDs[i]) then (false, pos)
    else Attempts(ctx, faults, path, world, stream, i, EffectiveAttempts(ctx.EdgeOf(path.edgeIDs[i]).resilience), pos)
  }

  /** The remaining `left` attempts over edge `i`; the first one whose downstream succeeds ends the loop. */
  function Attempts(ctx: Context, faults: Faults, path: Path, world: World, stream: Stream, i: nat, left: nat, pos: nat)
    : (bool, nat)
    requires path.Shaped() && i < |path.edgeIDs|
    decreases |path.services| - i, 0, left
  {
    if left == 0 then (false, pos)
    else
      var rate := EdgeErrorRate(ctx, faults, path.edgeIDs[i]);
      if rate > 0.0 && stream.draw(pos) < rate then
        Attempts(ctx, faults, path, world, stream, i, left - 1, pos + 1)
      else
        var next := if rate > 0.0 then pos + 1 else pos;
        if TimesOut(ctx, faults, path, i) then
          Attempts(ctx, faults, path, world, stream, i, left - 1, next)
        else
          var down := ServiceRun(ctx, faults, path, world, stream, i + 1, next);
          if down.0 then down else Attempts(ctx, faults, path, world, stream, i, left - 1, down.1)
  }

  /** Whether the path succeeds in the world on a generator that starts afresh. */
  predicate Succeeds(ctx: Context, faults: Faults, path: Path, world: World, stream: Stream)
    requires path.Shaped()
  {
    ServiceRun(ctx, faults, path, world, stream, 0, 0).0
  }

  // ----- the engine's own recursion, consuming the generator

  method ExecutePath(ctx: Context, world: World, faults: Faults, path: Path, rng: Rng) returns (ok: bool)
    requires path.Shaped()
    modifies rng
    ensures (ok, rng.pos) == ServiceRun(ctx, faults, path, world, rng.stream, 0, old(rng.pos))
  {
    ok := ExecuteServiceAt(ctx, world, faults, path, 0, rng);
  }

  method ExecuteServiceAt(ctx: Context, world: World, faults: Faults, path: Path, i: nat, rng: Rng) returns (ok: bool)
    requires path.Shaped() && i < |path.services|
    modifies rng
    ensures (ok, rng.pos) == ServiceRun(ctx, faults, path, world, rng.stream, i, old(rng.pos))
    decreases |path.services| - i, 1
  {
    var serviceID := path.services[i];
    if !Up(world.serviceAlive, serviceID) {
      return false;
    }
    var errorRate := RateOf(faults.serviceErrorRates, serviceID);
    if errorRate > 0.0 {
      var x := rng.Float64();
      if x < errorRate {
        return false;
      }
    }
    if i == |path.services| - 1 {
      return true;
    }
    ok := ExecuteEdgeAt(ctx, world, faults, path, i, rng);
  }

  method ExecuteEdgeAt(ctx: Context, world: World, faults: Faults, path: Path, i: nat, rng: Rng) returns (ok: bool)
    requires path.Shaped() && i < |path.edgeIDs|
    modifies rng
    ensures (ok, rng.pos) == EdgeRun(ctx, faults, path, world, rng.stream, i, old(rng.pos))
    decreases |path.services| - i, 0
  {
    var edgeID := path.edgeIDs[i];
    if !Up(world.edgeAlive, edgeID) {
      return false;
    }
    var attempts := EffectiveAttempts(ctx.EdgeOf(edgeID).resilience);
    for attempt := 0 to attempts
      invariant Attempts(ctx, faults, path, world, rng.stream, i, attempts - attempt, rng.pos)
             == Attempts(ctx, faults, path, world, rng.stream, i, attempts, old(rng.pos))
    {
      var errorRate := EdgeErrorRate(ctx, faults, edgeID);
      if errorRate > 0.0 {
        var x := rng.Float64();
        if x < errorRate {
          continue;
        }
      }
      if TimesOut(ctx, faults, path, i) {
        continue;
      }
      var down := ExecuteServiceAt(ctx, world, faults, path, i + 1, rng);
      if down {
        return true;
      }
    }
    return false;
  }

  // ----- factoring: execution is viability on the tape times liveness of every part

  lemma {:induction false} SuccessNeedsPartsUp(ctx: Context, faults: Faults, path: Path, world: World, stream: Stream,
      i: nat, pos: nat)
    requires path.Shaped() && i < |path.services|
    requires ServiceRun(ctx, faults, path, world, stream, i, pos).0
    ensures forall j | i <= j < |path.services| :: Up(world.serviceAlive, path.services[j])
    ensures forall j | i <= j < |path.edgeIDs| :: Up(world.edgeAlive, path.edgeIDs[j])
    decreases |path.services| - i, 1, 0
  {
    if i < |path.edgeIDs| {
      var rate := RateOf(faults.serviceErrorRates, path.services[i]);
      var next := if rate > 0.0 then pos + 1 else pos;
      AttemptSuccessNeedsPartsUp(ctx, faults, path, world, stream, i,
        EffectiveAttempts(ctx.EdgeOf(path.edgeIDs[i]).resilience), next);
    }
  }

  lemma {:induction false} AttemptSuccessNeedsPartsUp(ctx: Context, faults: Faults, path: Path, world: World,
      stream: Stream, i: nat, left: nat, pos: nat)
    requires path.Shaped() && i < |path.edgeIDs|
    requires Attempts(ctx, faults, path, world, stream, i, left, pos).0
    ensures forall j | i < j < |path.services| :: Up(world.serviceAlive, path.services[j])
    ensures forall j | i < j < |path.edgeIDs| :: Up(world.edgeAlive, path.edgeIDs[j])
    decreases |path.services| - i, 0, left
  {
    var rate := EdgeErrorRate(ctx, faults, path.edgeIDs[i]);
    var next := if rate > 0.0 then pos + 1 else pos;
    if rate > 0.0 && stream.draw(pos) < rate {
      AttemptSuccessNeedsPartsUp(ctx, faults, path, world, stream, i, left - 1, pos + 1);
    } else if TimesOut(ctx, faults, path, i) {
      AttemptSuccessNeedsPartsUp(ctx, faults, path, world, stream, i, left - 1, next);
    } else {
      var down := ServiceRun(ctx, faults, path, world, stream, i + 1, next);
      if down.0 {
        SuccessNeedsPartsUp(ctx, faults, path, world, stream, i + 1, next);
      } else {
        AttemptSuccessNeedsPartsUp(ctx, faults, path, world, stream, i, left - 1, down.1);
      }
    }
  }

  lemma {:induction false} SameRunWhenPartsUp(ctx: Context, faults: Faults, path: Path, a: World, b: World,
      stream: Stream, i: nat, pos: nat)
    requires path.Shaped() && i < |path.services|
    requires PathUp(a, path) && PathUp(b, path)
    ensures ServiceRun(ctx, faults, path, a, stream, i, pos) == ServiceRun(ctx, faults, path, b, stream, i, pos)
    decreases |path.services| - i, 1, 0
  {
    if i < |path.edgeIDs| {
      var rate := RateOf(faults.serviceErrorRates, path.services[i]);
      SameAttemptsWhenPartsUp(ctx, faults, path, a, b, stream, i,
        EffectiveAttempts(ctx.EdgeOf(path.edgeIDs[i]).resilience), if rate > 0.0 then pos + 1 else pos);
    }
  }

  lemma {:induction false} SameAttemptsWhenPartsUp(ctx: Context, faults: Faults, path: Path, a: World, b: World,
      stream: Stream, i: nat, left: nat, pos: nat)
    requires path.Shaped() && i < |path.edgeIDs|
    requires PathUp(a, path) && PathUp(b, path)
    ensures Attempts(ctx, faults, path, a, stream, i, left, pos) == Attempts(ctx, faults, path, b, stream, i, left, pos)
    decreases |path.services| - i, 0, left
  {
    if left > 0 {
      var rate := EdgeErrorRate(ctx, faults, path.edgeIDs[i]);
      var next := if rate > 0.0 then pos + 1 else pos;
      SameAttemptsWhenPartsUp(ctx, faults, path, a, b, stream, i, left - 1, pos + 1);
      SameAttemptsWhenPartsUp(ctx, faults, path, a, b, stream, i, left - 1, next);
      SameRunWhenPartsUp(ctx, faults, path, a, b, stream, i + 1, next);
      SameAttemptsWhenPartsUp(ctx, faults, path, a, b, stream, i, left - 1,
        ServiceRun(ctx, faults, path, a, stream, i + 1, next).1);
    }
  }

  /**
   On any tape, with any retries, brownouts and timeouts, a path succeeds in a world exactly when it is viable (it
   succeeds with everything up) and every service and edge on it is up: retries never rescue a dead part, and the
   different number of draws a dead part causes never changes the verdict. A path may name parts outside the graph, as
   journey overrides can; no sampled world has such a part up.
   */
  lemma ExecutionFactors(ctx: Context, faults: Faults, path: Path, world: World, stream: Stream, pos: nat)
    requires path.Shaped() && (path.Within(ctx) || NoBetter(world, AllUp(ctx)))
    ensures ServiceRun(ctx, faults, path, world, stream, 0, pos).0
        <==> ServiceRun(ctx, faults, path, AllUp(ctx), stream, 0, pos).0 && PathUp(world, path)
  {
    if ServiceRun(ctx, faults, path, world, stream, 0, pos).0 {
      SuccessNeedsPartsUp(ctx, faults, path, world, stream, 0, pos);
    }
    if PathUp(world, path) {
      assert PathUp(AllUp(ctx), path);
      SameRunWhenPartsUp(ctx, faults, path, world, AllUp(ctx), stream, 0, pos);
    }
  }
}
