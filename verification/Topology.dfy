/** The normalized service graph, the fault overlay of a profile, and one trial's sampled world. */
module Topology {
  import opened Wrappers
  import opened Ids

  datatype Latency = Latency(p50: real, p90: real, p95: real, p99: real)

  datatype Breaker = Breaker(enabled: Option<bool>, maxRequests: int)

  /** Retry and timeout policy of an edge; `retryMax` is the retry block's max_attempts. */
  datatype Policy = Policy(requestTimeoutMs: int, perTryTimeoutMs: int, retryMax: Option<int>, breaker: Option<Breaker>)

  datatype Observed = Observed(latency: Option<Latency>, errorRate: Option<real>)

  datatype EdgeKind = Sync | Async

  datatype Edge = Edge(id: Id, from: Id, to: Id, kind: EdgeKind, blocking: bool, resilience: Option<Policy>,
      observed: Option<Observed>)

  /** Buckets are named "service#index" in the source; the pair carries the same information. */
  datatype BucketId = BucketId(service: Id, index: nat)

  datatype Service = Service(id: Id, samplingEligible: bool, replicas: seq<nat>)
  {
    function Bucket(index: nat): BucketId {
      BucketId(id, index)
    }
  }

  datatype Context = Context(services: map<Id, Service>, serviceIDs: seq<Id>, edges: map<Id, Edge>, edgeIDs: seq<Id>)
  {
    /**
     What building the context establishes for a model whose service and edge IDs are distinct. The engine lists the
     IDs in ascending order; nothing below depends on which order it is.
     */
    ghost predicate Valid() {
      && (forall i, j | 0 <= i < j < |serviceIDs| :: serviceIDs[i] != serviceIDs[j])
      && (forall i, j | 0 <= i < j < |edgeIDs| :: edgeIDs[i] != edgeIDs[j])
      && (forall id :: id in serviceIDs <==> id in services)
      && (forall id :: id in edgeIDs <==> id in edges)
      && (forall id | id in services :: services[id].id == id && services[id].replicas != [])
      && (forall id, b | id in services && 0 <= b < |services[id].replicas| :: services[id].replicas[b] > 0)
      && (forall id | id in edges :: edges[id].id == id && edges[id].from in services && edges[id].to in services)
    }

    /** Reading a missing key of the service map gives the zero service, which has no buckets. */
    function ServiceOf(id: Id): Service {
      if id in services then services[id] else Service("", false, [])
    }

    /** Reading a missing key of the edge map gives the zero edge: no policy and no observation. */
    function EdgeOf(edgeID: Id): Edge {
      if edgeID in edges then edges[edgeID] else Edge("", "", "", Sync, false, None, None)
    }
  }

  /** A path by its display ID, its services in order, and the edge used on each hop. */
  datatype Path = Path(id: string, services: seq<Id>, edgeIDs: seq<Id>)
  {
    predicate Shaped() {
      |services| == |edgeIDs| + 1
    }

    predicate Within(ctx: Context) {
      && Shaped()
      && (forall i | 0 <= i < |services| :: services[i] in ctx.services)
      && (forall i | 0 <= i < |edgeIDs| :: edgeIDs[i] in ctx.edges)
    }
  }

  datatype Faults = Faults(
    hardBucketKill: set<BucketId>,
    hardEdgeKill: set<Id>,
    serviceErrorRates: map<Id, real>,
    serviceLatencies: map<Id, Latency>,
    edgeErrorRates: map<Id, real>,
    edgeLatencies: map<Id, Latency>)

  /** The overlay built when no fault profile is configured. */
  const NO_FAULTS: Faults := Faults({}, {}, map[], map[], map[], map[])

  datatype World = World(bucketAlive: map<BucketId, bool>, serviceAlive: map<Id, bool>, edgeAlive: map<Id, bool>)

  /** Reading a missing key of a liveness map gives false. */
  predicate Up<K>(m: map<K, bool>, key: K) {
    key in m && m[key]
  }

  function RateOf(rates: map<Id, real>, key: Id): real {
    if key in rates then rates[key] else 0.0
  }

  function LatencyOf(latencies: map<Id, Latency>, key: Id): Latency {
    if key in latencies then latencies[key] else Latency(0.0, 0.0, 0.0, 0.0)
  }

  /** Every service and every edge of the path is up. */
  predicate PathUp(world: World, path: Path) {
    && (forall i | 0 <= i < |path.services| :: Up(world.serviceAlive, path.services[i]))
    && (forall i | 0 <= i < |path.edgeIDs| :: Up(world.edgeAlive, path.edgeIDs[i]))
  }

  /** `worse` has nothing up that `better` has down. */
  ghost predicate NoBetter(worse: World, better: World) {
    && (forall id :: Up(worse.serviceAlive, id) ==> Up(better.serviceAlive, id))
    && (forall id :: Up(worse.edgeAlive, id) ==> Up(better.edgeAlive, id))
  }

  /** The counterfactual world in which every known service and edge is up. */
  function AllUp(ctx: Context): World {
    World(map[], map id | id in ctx.services :: true, map id | id in ctx.edges :: true)
  }
}
