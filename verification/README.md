# Verified model of the Sheaft resilience engine

This project models the Monte Carlo resilience engine of Sheaft in Dafny and proves what its code and its
documentation promise. The engine takes a typed service graph, samples worlds in which replicas, services and edges are
up or down, executes paths through the graph with retries, brownouts and timeouts, decides endpoints from the path
results, sweeps a stress axis with coupled trials, certifies failure-tolerance boundaries with Wilson intervals, ranks
components by Birnbaum importance, and gates a release on all of it.

`dafny verify dfyconfig.toml` checks everything.

## How it is modelled

Randomness is an arbitrary tape: any function from positions to draws in [0,1), and any permutation for every position
and size. Seeds are arbitrary functions of what they are derived from. Every theorem therefore holds for every random
stream. Probabilities are exact reals. The quantile of the confidence level and the square root are a parameter of which
only `z > 0` and `sqrt(x)^2 = x` are used.

Code that changes state keeps that form: the sampler fills its maps in a class, both depth-first searches push and pop
their stacks and visited marks, the attempt loop consumes the generator, the importance run toggles one shared state in
place and increments counter arrays, ranks are assigned in an array, and the two boundary loops write the fields of a
boundary. Each such method is proved equal to a function of its inputs or its old state, and the theorems are about
those functions. What such a function reads from configuration and graph is stated once more by a theorem over the
fields themselves that names no helper of it: Timeouts, ErrorRates, Reliability, EdgeModes, Planning, Feasibility,
SweepPoints, BoundaryShape, BoundaryCauses, GateMeaning, References and TrialVerdicts hold these.

| files | what they cover |
|---|---|
| Ids, Sorting, Counting, Wrappers, Draws, Topology | identifiers and path names, sorting, counting, tapes and generators, the graph and the sampled world |
| Execution, Timeouts, ErrorRates, Probability, Tries, Amplification | path execution, what timeouts and error rates are, its exact success probability, the mean number of attempts, retry amplification |
| Sampling, Slots, ServiceSets, Nesting, Populations, Spares, Chances | the four sampling modes, conservation of failed slots and services, nesting of coupled samples, when a path can succeed at all |
| Predicates, Adjacency, EdgeModes, TargetPaths, Reachability | service predicates, adjacency lists, edge modes, path discovery, what discovered paths mean |
| EdgeAware, Planning, EdgeAwareMeaning, EdgeAwareEndpoints, ParallelEdges, Endpoints | edge-aware plans, when they exist, their meaning as reachability and as documented, the three endpoint modes, the importance shortcut |
| Journeys, JourneyPaths, Legacy | legacy journeys over the legacy adjacency, their predicate and paths, the legacy sampler |
| ProfileRun, TrialVerdicts, Feasibility, PathRates, Coupling, Sweeps, SweepPoints, SweepCoupling, RisingSweep, UnseededSweep | profile runs and their counters, single trials on their generators, which profiles run, coupled runs, sweeps, their points and their curves |
| Wilson, WilsonScore, Boundaries, BoundaryShape, BoundaryRules, BoundaryCauses | intervals, boundaries, boundary rules and their causes |
| Gate, GateAnalysis, GateMeaning, Replay, References | the gate, its decision and reasons, replaying it from a report, where references come from |
| Selection, Birnbaum, Ranking | selecting components, paired counterfactuals, rankings, components that cannot matter |
| Expectation, LiveStates, BirnbaumMeaning, Reliability | means over independent events, sampling as such events, what importance estimates, which field decides a probability |

## Where the code and its documentation part

Each of these is stated with its exact condition or a concrete input.

- Coupled slot sweeps are documented to preserve nested failures (docs/methodology.md:48). No permutation is drawn for
  zero failed slots, so the edge draws move when the first slot fails. Nesting holds on every tape if and only if the
  surviving edges are certain (`Nesting.NestingExactly`), and `RisingSweep.SlotSweepCanRise` gives a sweep whose
  availability rises from 0 to 1.
- Edge-aware endpoints are documented as reachability through live allowed edges (docs/methodology.md:76). Execution
  only tries the least edge of every hop, so parallel edges make a difference. For one target the two agree in every
  world if and only if no hop of a simple path to it has two allowed edges (`Reachability.ReachabilityAgreesExactly`),
  and for a whole endpoint if and only if no set of services cuts the entry off from something wanted in such a way that
  it is left by parallel edges only (`ParallelEdges.DocumentedExactly`).
- Path amplification looks neither at a timeout nor at a hard kill of the edge it prices
  (`Amplification.FactorIsMeanExactly`, `Amplification.KilledEdgeIsPriced`).
- The success rate reported for a path uses one counter for all endpoints, each of which executes the path again in an
  ordinary run. The reported rate is that of an endpoint for sure if and only if no other endpoint lists a path of the ID
  that can succeed (`PathRates.RateIsOwnExactly`), and it can exceed 1 (`PathRates.RateAboveOne`).
- A sweep seed of 0 gives every point its own seed, and the curve can rise (`SweepCoupling.SharedSeedExactly`,
  `UnseededSweep.SeedKeepsOrderExactly`).
- An any-profile gate without profiles warns or fails with the pass reason as its only reason, and report mode lists
  every profile as failed (`Gate.VerdictExplainedExactly`, `GateAnalysis.DecisionExplainedExactly`,
  `Gate.FailedProfilesExactly`).

## Assumptions

Service, edge and endpoint IDs are distinct (the source does not check this); service IDs contain no "->", do not start
with a NUL and do not start with "required-edge:", so path names and group keys cannot be confused; buckets hold at
least one replica; axis values strictly increase and error rates are probabilities, as configuration and contract
validation guarantee.

## Model

| member | source | states |
|---|---|---|
| Execution.AttemptAllowed | internal/simulation/advanced.go:856-865 | an m-th attempt is made for m = 1, and beyond that if and only if the retry maximum and an enabled breaker with a positive maximum both allow it |
| Execution.CombineErrorRates | internal/simulation/advanced.go:875-884 | for probabilities, the combined failure rate is a probability no smaller than either cause |
| Execution.DownstreamLatency | internal/simulation/advanced.go:762-778 | the loop adds the hop latencies to the end of the path and gives up exactly when some hop is unknown |
| Execution.ExecutePath | internal/simulation/advanced.go:604-606 | executing a path gives the verdict and leaves the generator where the specification of the whole run says; what a timeout and an error rate are is stated by Timeouts.AttemptLaw and ErrorRates.HitExactly |
| Execution.ExecuteServiceAt | internal/simulation/advanced.go:608-620 | a service step consumes the generator as specified: dead services draw nothing, brownouts draw once |
| Execution.ExecuteEdgeAt | internal/simulation/advanced.go:622-642 | the attempt loop is the specified recursion over the remaining attempts, draw for draw, ending at the first success |
| Execution.SuccessNeedsPartsUp | internal/simulation/advanced.go:608-642 | whatever the tape and the retries, a successful run has every service and edge from there on up |
| Execution.SameRunWhenPartsUp | internal/simulation/advanced.go:608-642 | two worlds in which the whole path is up give the same verdict and the same draws |
| Execution.ExecutionFactors | internal/simulation/importance.go:136-143 | on any tape, with any retries, brownouts and timeouts, a path succeeds in a world if and only if it succeeds with everything up and all its parts are up in that world |
| Timeouts.AttemptLaw | internal/simulation/advanced.go:622-642 | an attempt that an error hits or that waits for less than everything from its hop on takes fails without looking further, any other is the run from the next service on, and the first success ends the loop |
| Timeouts.TimeoutExactly | internal/simulation/advanced.go:748-778 | with a limit t and known latencies, an attempt that would otherwise succeed does so if and only if t is not below the sum of observed and injected edge latencies and injected service latencies from that hop on, each the first positive of p99, p95, p90 and p50 |
| Timeouts.NoLimitNoTimeout | internal/simulation/advanced.go:748-758 | without a limit, or with an unknown latency on the way, no attempt times out |
| Timeouts.RequestTimeoutIgnored | internal/simulation/advanced.go:780-791 | next to a per-try timeout, changing the request timeout changes no run |
| Timeouts.RequestTimeoutActsPerTry | internal/simulation/advanced.go:780-791 | without a per-try timeout, runs are those with the request value as the per-try value |
| ErrorRates.EdgeErrorsCombine | internal/simulation/advanced.go:867-884 | the error rate of an edge is the probability that at least one of two independent draws, for the observed and the injected rate, strikes |
| ErrorRates.HitExactly | internal/simulation/advanced.go:622-642 | an attempt draws for an error if and only if one of the two rates is positive, and is hit if and only if the draw is below that probability |
| ErrorRates.NoFaultsMeans | internal/simulation/advanced.go:886-901 | the overlay of no fault profile kills, slows and fails nothing; only observed error rates remain |
| Probability.ServiceTreeRuns | internal/simulation/advanced.go:608-642 | the decision tree of a path runs exactly like path execution, verdict and draws, on every stream |
| Probability.ProbOrElse | internal/simulation/advanced.go:830-838 | trying again on the remaining draws succeeds with probability p + (1-p)q |
| Probability.ClosedForm | internal/simulation/advanced.go:830-838 | for attempt probabilities in [0,1] the clamped closed form is 1-(1-a)^n and is a probability |
| Probability.StaticSuccessIsExact | internal/simulation/advanced.go:671-691 | the static estimate is the exact probability that execution succeeds over independent uniform draws when only hard-killed parts are down |
| Amplification.RetryExpectedAttempts | internal/simulation/advanced.go:840-854 | the loop computes the sum of (1-a)^i over the attempts, or the attempt count when a is not positive |
| Amplification.AttemptsTimesSuccess | internal/simulation/advanced.go:830-854 | expected attempts times the success of one attempt is the success of the loop, for 0 < a <= 1 |
| Amplification.AmplificationBounds | internal/simulation/advanced.go:693-717 | available path amplification lies between 1 and the product of the effective attempts |
| Tries.CountingIsExecution | internal/simulation/advanced.go:622-642 | counting the attempts of the loop leaves its verdict and its draws as they are, and a loop that fails has made all its attempts |
| Tries.EdgeCostIsAttempts | internal/simulation/advanced.go:622-642 | on every stream a decision tree over the draws costs exactly the attempts the run makes over the edge, none over an edge that is down |
| Tries.MeanAttempts | internal/simulation/advanced.go:622-642 | the exact mean of those attempts over independent uniform draws: a sum over the success of one attempt for an edge that is up, 0 for one that is down |
| Amplification.KilledEdgeIsPriced | internal/simulation/advanced.go:693-717 | execution makes no attempt and no draw over a hard-killed edge, yet its factor is at least 1 |
| Amplification.FactorIsMeanExactly | internal/simulation/advanced.go:693-717 | an edge contributes the mean number of attempts execution makes over it if and only if it is not hard-killed and either does not time out, cannot succeed anyway, or has only one attempt |
| Amplification.AmplificationExactly | internal/simulation/advanced.go:693-717 | amplification is reported if and only if every hop has a retry block, and is then the product of the factors of the hops |
| Sampling.SampledState.SampleReplicas | internal/simulation/advanced.go:507-527 | the replica loop fills the bucket map and consumes one draw per replica of every eligible service |
| Sampling.SampledState.SampleServices | internal/simulation/advanced.go:528-537 | one draw per eligible service decides all its buckets |
| Sampling.SampledState.FailServices | internal/simulation/advanced.go:550-555 | exactly the buckets of the selected services are down |
| Sampling.SampledState.FailSlots | internal/simulation/advanced.go:556-579 | a bucket is down exactly when all its slots were selected |
| Sampling.SampledState.KillBuckets | internal/simulation/advanced.go:584-586 | hard kills take exactly the listed buckets down |
| Sampling.SampledState.DeriveServices | internal/simulation/advanced.go:587-596 | a service is up exactly when one of its buckets is |
| Sampling.SampledState.SampleEdges | internal/simulation/advanced.go:597-600 | every edge that is not hard-killed takes one draw, in edge order |
| Sampling.CandidateIDs | internal/simulation/advanced.go:1649-1657 | the population of failure-eligible services, in ID order |
| Sampling.SlotBucketIDs | internal/simulation/advanced.go:1634-1647 | one entry per replica slot of the eligible services, naming its bucket |
| Sampling.SampleAdvancedState | internal/simulation/advanced.go:500-602 | sampling yields the specified world and generator position in all four modes, or the specified error; which probability decides a part is stated by Reliability.ChanceFromFields |
| Sampling.SampleFailsExactly | internal/simulation/advanced.go:538-582 | sampling fails exactly when more failures are asked for than the population holds, or the mode is unsupported |
| Reliability.ChanceFromFields | internal/simulation/simulation.go:703-721 | the chance that sampling leaves a known component up follows from the fields alone: the own value of a service, else the node value, else 1 minus the failure probability, per replica in replica mode; the own value of an edge, else the edge value, else 1 |
| Reliability.ChanceWithOwnValue | internal/simulation/simulation.go:703-721 | giving a component the own value p makes it live with chance p, or 1-(1-p)^n for an eligible service of n replicas in replica mode |
| Reliability.OwnValueDecidesService | internal/simulation/simulation.go:703-711 | on every stream and in every mode a service with its own value is sampled the same whatever the node value, the edge value and the failure probability are |
| Reliability.OwnValueDecidesEdge | internal/simulation/simulation.go:713-721 | the same for an edge with its own value |
| Reliability.GeneralValueForService | internal/simulation/simulation.go:703-711 | a service without its own value is sampled as if the node value, or else 1 minus the failure probability, were its own |
| Reliability.GeneralValueForEdge | internal/simulation/simulation.go:713-721 | an edge without its own value is sampled as if the general value were its own, and without that is up unless hard-killed |
| ServiceSets.ServiceSetConservation | internal/simulation/advanced.go:538-555 | in every trial exactly k services are down before fault overlays, all of them eligible, and none when k is not positive |
| Nesting.EdgeDrawsExactly | internal/simulation/advanced.go:597-600 | sampling edges draws once per edge that is not hard-killed and leaves the killed ones down |
| Slots.SlotConservation | internal/simulation/advanced.go:556-579 | exactly k slots fail, no bucket loses more than it has, ineligible services lose none, and before fault overlays a service is down if and only if all its slots failed |
| Slots.DerivedKFits | internal/simulation/simulation.go:667-683 | a derived k is the least integer covering the requested share of the slots and never exceeds them |
| Slots.TotalSlots | internal/simulation/advanced.go:1621-1632 | the slot total is the length of the slot list |
| Nesting.SampleNests | internal/simulation/advanced.go:500-602 | on one tape, more stress leaves nothing up that less stress took down: buckets and services always, edges when the edge draws line up or no surviving edge is uncertain |
| Nesting.EdgeStateAt | internal/simulation/advanced.go:597-600 | every edge state is decided by one draw of its own, at the position after those of the earlier surviving edges |
| Nesting.UncertainEdgeBreaksNesting | docs/methodology.md:48 | whatever permutations cost, as long as they draw at all, one uncertain edge is enough for a tape on which going from k = 0 to k > 0 brings an edge up |
| Nesting.NestingExactly | docs/methodology.md:48 | for every such cost of permutations, worlds nest on all tapes if and only if both profiles read their edges at the same positions or every surviving edge is certain |
| Predicates.Evaluate | internal/predicates/predicates.go:163-205 | the recursive evaluation with its loops and counter decides the documented meaning of the operators |
| Predicates.HoldsMonotone | internal/predicates/predicates.go:163-205 | bringing services up never makes a predicate fail, at any nesting depth |
| Predicates.OperatorsAgree | docs/methodology.md:73-75 | any_of is 1-of-n and all_of is n-of-n over the same operands |
| Predicates.HoldsExactly | internal/predicates/predicates.go:163-205 | by the number of listed services and nested predicates that are alive and hold: all_of all of them, any_of at least one, k_of_n at least k, every other kind never |
| Endpoints.EndpointSucceeds | internal/simulation/advanced.go:207-229 | the three endpoint modes decide a trial from the world and the path results |
| Endpoints.OutcomeMonotone | internal/simulation/advanced.go:207-229 | a better world and better path results never turn success into failure |
| Endpoints.ExecutedAt | internal/simulation/advanced.go:193-205 | executing the listed paths records, under every listed ID and no other, the result of that very path |
| Endpoints.ImportanceMonotone | internal/simulation/importance.go:214-246 | the importance shortcut is monotone in the world |
| Endpoints.ShortcutIsExecution | internal/simulation/importance.go:214-246 | in every world and endpoint mode the shortcut gives the verdict that executing the paths, each on one fixed tape, would give |
| Adjacency.BuildEdgeAdjacency | internal/simulation/advanced.go:1399-1421 | the adjacency lists are the allowed edges of each service, sorted by target and then by edge ID; which edges are allowed is stated by EdgeModes |
| Adjacency.AdjacencyMeaning | internal/simulation/advanced.go:1399-1421 | the lists are sorted and hold exactly the allowed edges of the graph |
| Adjacency.FirstEdgeIsLeast | internal/simulation/advanced.go:1469-1482 | the first listed step to a target carries the least edge ID among all steps to it |
| Adjacency.EdgeLookup | internal/simulation/advanced.go:1469-1482 | the lookup built from the lists names, for every ordered pair, the edge a first-match walk uses |
| EdgeModes.AsyncSteps | internal/simulation/advanced.go:1443-1451 | with the async mode a step exists if and only if the edge is asynchronous, blocking or not |
| EdgeModes.SyncSteps | internal/simulation/advanced.go:1443-1451 | with the sync mode a step exists if and only if the edge is synchronous and blocking |
| EdgeModes.ModesUnite | internal/simulation/advanced.go:1423-1451 | any list of modes gives the union of the steps of its modes |
| EdgeModes.AsyncBlockingIrrelevant | internal/simulation/advanced.go:1335-1421 | changing the blocking flag of asynchronous edges changes no adjacency and no plan |
| TargetPaths.PathSearch.Dfs | internal/simulation/advanced.go:1492-1519 | one activation of the search appends its finds and hands back the stack and the visited marks as it got them |
| TargetPaths.PathSearch.Emit | internal/simulation/advanced.go:1496-1505 | a path is added unless one of its ID was found before |
| TargetPaths.DiscoverJourneyPathsToTarget | internal/simulation/advanced.go:1484-1526 | the search terminates and returns the discovered paths, sorted by ID |
| TargetPaths.RawFirst | internal/simulation/advanced.go:1492-1519 | whatever edges run in parallel, the first path found over a service sequence is the one with the least edge on every hop, found if and only if the sequence is a simple path to the target |
| TargetPaths.DiscoveryExact | internal/simulation/advanced.go:1484-1526 | discovery returns exactly one path per simple path from entry to target, with the least edge on every hop, in ID order |
| Reachability.DiscoveredMeansReachable | internal/simulation/advanced.go:1484-1526 | some discovered path is completely up if and only if the target is reachable through live services and live least edges |
| Reachability.ReachabilityAgreesExactly | docs/methodology.md:76-78 | the documented reachability, through any live allowed edge, agrees with execution in every world if and only if no hop of a simple path has two allowed edges |
| ParallelEdges.AdjacencyApart | internal/simulation/advanced.go:1399-1421 | in the adjacency of a valid graph every edge ID stands for one ordered pair of services |
| ParallelEdges.MeaningsAgreeExactly | docs/methodology.md:76-78 | for a whole definition with all its targets and required calls, the documented meaning and the one execution checks agree in every world if and only if no set of services with the entry but not all that is wanted is left only by parallel edges |
| ParallelEdges.DocumentedExactly | docs/methodology.md:76-78 | real execution of a planned endpoint with viable paths answers as documented in every world under exactly that condition |
| Ids.JoinInjective | internal/simulation/advanced.go:1497 | joined names identify service sequences when no ID contains the arrow |
| Ids.LeqExactly | internal/simulation/advanced.go:1393-1395 | IDs are ordered by their first difference, a prefix first |
| EdgeAware.BuildEdgeAwarePaths | internal/simulation/advanced.go:1335-1397 | the groups, the list of paths to execute and the error cases are those of the specified construction; what it accepts is stated by Planning.PlanExactly |
| EdgeAware.AddCall | internal/simulation/advanced.go:1361-1391 | a required call adds its own one-hop group and, unless it leaves the entry, the paths to its caller; absent, excluded or unreachable calls are errors |
| EdgeModes.CallExcludedExactly | internal/simulation/advanced.go:1361-1375 | a required call is refused as excluded if and only if neither its kind nor its flag is selected by the modes |
| Planning.PlanExactly | internal/simulation/advanced.go:1335-1397 | planning succeeds if and only if the definition is well-formed, its services are known, and every required call is in the graph, selected by the modes, and made by the entry or a service with a simple path from it; otherwise the first reason in this order, and the first faulty call in ID order, gives the error |
| EdgeAware.SortedUniqueMembers | internal/simulation/advanced.go:1798-1805 | sorting and compacting keeps exactly the given IDs, strictly ascending |
| EdgeAware.EdgeAwareEndpointSuccess | internal/simulation/advanced.go:1567-1584 | an edge-aware endpoint succeeds when every group, and at least one group, has a successful path |
| EdgeAwareMeaning.PlanCoversGroups | internal/simulation/advanced.go:1335-1397 | every path a group waits for is on the executed list under its own ID, the list has distinct IDs and stays within the graph |
| EdgeAwareMeaning.GroupsDemand | internal/simulation/advanced.go:1357-1391 | the evaluated conjunction is: every mandatory target has a successful path, and every required call succeeds itself and has a successful path to its caller |
| EdgeAwareMeaning.EdgeAwareIsReachability | docs/methodology.md:76-78 | when path results are liveness, an edge-aware endpoint succeeds if and only if every mandatory target is reachable and every required call is live with a reachable caller |
| EdgeAwareEndpoints.PlannedIsValid | internal/simulation/advanced.go:1203-1215 | a planned endpoint meets everything running and importance analysis expect of an endpoint |
| EdgeAwareEndpoints.ExecutionIsReachability | docs/methodology.md:76-78 | real execution of a planned endpoint whose paths are all viable decides exactly live reachability with its required calls |
| EdgeAwareEndpoints.ShortcutIsReachability | internal/simulation/importance.go:236-244 | the importance shortcut decides the same graph question |
| Journeys.JourneySearch.Dfs | internal/simulation/simulation.go:468-489 | one activation appends its finds and restores the path and the visited marks |
| Journeys.CloneAndNormalizeJourneys | internal/simulation/simulation.go:495-513 | normalization keeps one journey per name, drawn from the given ones, strictly ascending by name |
| Journeys.DiscoverJourneys | internal/simulation/simulation.go:462-493 | the search terminates and returns its normalized finds |
| Journeys.JourneysExact | internal/simulation/simulation.go:462-493 | discovery returns exactly the simple paths from the entry that cannot be extended, each once, in name order |
| Journeys.JourneysIgnoreRepetition | internal/simulation/simulation.go:472-478 | repeated or reordered neighbours make no difference to the result |
| JourneyPaths.JourneysToPredicate | internal/simulation/simulation.go:532-544 | the predicate is any_of over all_of of the normalized journeys |
| JourneyPaths.ServiceAdjacency | internal/simulation/advanced.go:1453-1467 | the neighbours of a service are its distinct step targets, sorted |
| JourneyPaths.MapJourneyPaths | internal/simulation/advanced.go:1270-1297 | mapping fails exactly when some journey uses a hop without an edge, and otherwise gives one path per normalized journey with the looked-up edges |
| JourneyPaths.MappedExactly | internal/simulation/advanced.go:1270-1297 | a mapped path is named by its services, runs through those of the journey and takes the looked-up edge of every hop |
| JourneyPaths.DiscoverEndpointPaths | internal/simulation/advanced.go:1189-1202 | building the paths of a journey endpoint never fails and yields one executable path per maximal simple path, with distinct IDs |
| JourneyPaths.UndisturbedIsUp | internal/simulation/advanced.go:608-642 | with nothing degraded and nothing timing out, a path succeeds if and only if all its parts are up |
| JourneyPaths.LegacyAdjacency | internal/simulation/simulation.go:402-411 | the legacy lists hold the targets of the blocking synchronous edges with their repetitions, sorted for known services |
| JourneyPaths.SameNeighbours | internal/simulation/simulation.go:402-411 | both engines have the same neighbour sets for one graph, whatever the order of its edges |
| JourneyPaths.SameJourneys | internal/simulation/simulation.go:462-493 | each over its own adjacency, both engines discover the same list of journeys |
| JourneyPaths.LegacyVerdictIsExecution | internal/simulation/simulation.go:402-430 | each engine over its own adjacency: with the edges of the journeys up and nothing degraded or timing out, the legacy journey predicate holds if and only if executing one of the discovered paths succeeds |
| Legacy.ReplicaSlotServiceIDs | internal/simulation/simulation.go:693-701 | one entry per replica slot of the candidates, naming its service |
| Legacy.SampleAlive | internal/simulation/simulation.go:338-391 | the legacy sampler yields the specified liveness and generator position in all four modes, or the specified error |
| Legacy.LegacyAgrees | internal/simulation/simulation.go:338-391 | on one tape and in every mode the legacy sampler and the bucket sampler fail together and otherwise find the same services up, with one bucket per service and no hard kills |
| ProfileRun.ExecuteDiagnostics | internal/simulation/advanced.go:194-205 | every listed path is executed on its generator, recorded under its ID, and counted once per success |
| ProfileRun.RunTrial | internal/simulation/advanced.go:184-231 | one trial adds to every endpoint counter its verdict and to every path counter its hits, and moves the shared generator as specified |
| ProfileRun.RunAdvancedProfile | internal/simulation/advanced.go:156-264 | a run succeeds exactly when its parameters fit, and then reports every endpoint count, availability and path count of the specified trials |
| TrialVerdicts.CoupledTrialExactly | internal/simulation/advanced.go:184-231 | a coupled trial reads nothing but its own events: the state event samples the world and each listed path runs from the first draw of the event of its ID; the endpoint succeeds if and only if those runs meet its mode |
| TrialVerdicts.SharedTrialExactly | internal/simulation/advanced.go:184-231 | otherwise one generator serves sampling and the listed paths of all endpoints in turn, each from where the one before it stopped, trial after trial |
| Feasibility.CanRunExactly | internal/simulation/advanced.go:156-165 | a profile runs if and only if its overrides name known parts, its mode is supported and it asks for no more failures than eligible services, or replica slots, exist, where a share of the slots fits when it is at most all of them |
| Feasibility.ResolvedExactly | internal/simulation/simulation.go:667-683 | an explicit number of failures is kept; only a slot profile without one gets the share of the slots it asks for, rounded up |
| ProfileRun.TotalReplicaSlots | internal/simulation/advanced.go:1621-1632 | the total is the sum of the replicas of the eligible services |
| PathRates.CounterBounded | internal/simulation/advanced.go:200-203 | a path counter never exceeds the trials times the endpoints listing the path |
| Chances.ChanceExactly | internal/simulation/advanced.go:500-642 | some draws make a path succeed in a sampled world if and only if no error rate on it reaches 1, no hop times out, no part is hard-killed, its edges may live, and its services may live or the fixed failures fit elsewhere |
| PathRates.CounterIsSum | internal/simulation/advanced.go:200-203 | in every run, coupled or not, a path counter is the sum over the endpoints of the successes each sees by its own listing, read where the earlier lists left the shared generator |
| PathRates.RateIsOwnExactly | internal/simulation/advanced.go:282-286 | whatever is drawn, the reported rate of an ID is the one a given endpoint measures if and only if no other endpoint lists a path of the ID that can succeed |
| PathRates.PathRateExactly | internal/simulation/advanced.go:282-286 | for one path, that is the case if and only if a single endpoint lists it or the path cannot succeed |
| PathRates.RateReachesListings | internal/simulation/advanced.go:282-286 | a path that can succeed is, on some entropy, reported at a rate equal to the number of endpoints listing it |
| PathRates.RateAboveOne | internal/simulation/advanced.go:282-286 | a concrete ordinary profile, not coupled, whose run reports a success rate of 2 |
| PathRates.CounterIsMultiple | internal/simulation/advanced.go:200-203 | in coupled trials all listings see one execution, so a path counter is the number of listing endpoints times the successes of the path itself |
| Coupling.TrialNests | internal/simulation/advanced.go:184-231 | in every coupled trial an endpoint that succeeds under more stress succeeds under less |
| Coupling.SuccessesNest | internal/simulation/advanced.go:184-231 | over any number of coupled trials the harsher run counts no more successes |
| Sweeps.RunSweep | internal/simulation/sweep.go:25-92 | a sweep succeeds exactly when its targets are known and every point can be evaluated, and then yields the specified points and sorted boundaries |
| Feasibility.PointRunsExactly | internal/simulation/sweep.go:60-73 | a point of a valid sweep runs if and only if the edge reliabilities are probabilities of known edges and, on the slot axis, the same holds for services and the slots exist; replica sweeps run whatever the base says of services |
| SweepPoints.ReplicaPointExactly | internal/simulation/sweep.go:94-109 | at value v of a replica sweep an eligible service of n replicas is up with probability 1-v^n whatever the base says of services, and edges live as the base has them |
| SweepPoints.SlotPointExactly | internal/simulation/sweep.go:110-123 | at value v of a slot sweep exactly v slots of eligible services fail in every trial |
| SweepCoupling.CurvesNeverRise | internal/simulation/sweep.go:94-145 | for every graph, overlay and stream, a sweep with a non-zero seed has non-increasing curves, intervals that contain them, and never a non-monotonic boundary, provided a slot sweep starting at 0 has no uncertain surviving edge |
| SweepCoupling.SharedSeedExactly | internal/simulation/simulation.go:557-559 | all points share one seed under every seed derivation if and only if the seed of the sweep is not 0 |
| UnseededSweep.UnseededSweepCanRise | internal/simulation/simulation.go:557-559 | a concrete valid sweep whose every run with seed 0 reports availability 0 at failure probability 0.1 and 1 at 0.2, hence a non-monotonic boundary |
| UnseededSweep.SeedKeepsOrderExactly | internal/simulation/sweep.go:94-145 | that sweep never rises, on any entropy, if and only if its seed is not 0 |
| RisingSweep.SlotSweepCanRise | docs/methodology.md:48 | for every cost of permutations that draw at all, a concrete valid slot sweep from 0 whose every run reports availability 0 with no failed slot and 1 with one, hence a non-monotonic boundary |
| Wilson.IntervalContainsEstimate | internal/simulation/sweep.go:218-234 | for z > 0, n > 0 and 0 <= s <= n: 0 <= lower <= s/n <= upper <= 1 |
| Wilson.IntervalIncreases | internal/simulation/sweep.go:218-234 | one more success strictly raises both bounds |
| WilsonScore.IntervalIsScoreTest | internal/simulation/sweep.go:218-234 | a proportion x lies in the interval if and only if (e-x)^2 is at most (z^2/n)*x*(1-x) for the estimate e |
| Boundaries.SweepBoundary.Observe | internal/simulation/sweep.go:134-150 | the observation loop finds the last point meeting the SLO before the first violation, that violation, and whether the curve ever rises |
| Boundaries.SweepBoundary.Certify | internal/simulation/sweep.go:181-206 | the certification loop finds the end of the longest certified prefix and what stopped it |
| Boundaries.BuildSweepBoundaries | internal/simulation/sweep.go:125-179 | one boundary per target as specified, sorted by endpoint |
| Boundaries.CertifiedWithinMeeting | internal/simulation/sweep.go:181-206 | certification never reaches beyond the observed crossing |
| Boundaries.CertificationDecidesStatus | internal/simulation/sweep.go:125-206 | certified forces crossed with certified tolerance, last meeting point and bracket start equal; certified_through_end forces not_crossed; below_slo_at_start forces the same status |
| BoundaryShape.BoundaryExactly | internal/simulation/sweep.go:125-216 | where the points stop being certified at n and stop meeting the SLO at m, every field of the boundary in terms of n, m and the points there: each certification and each status if and only if, the two end points, the violating point and the bracket |
| BoundaryShape.BoundariesInOrder | internal/simulation/sweep.go:169-178 | one boundary per target, by endpoint ID, first difference first |
| Birnbaum.Compare | internal/simulation/importance.go:153-160 | forcing a component up and then down gives the two counterfactual verdicts, never down without up |
| Birnbaum.CompareComponent | internal/simulation/importance.go:145-168 | toggling one component for every endpoint never reports non-monotonicity, adds the specified counts and restores the sampled world |
| Birnbaum.RunBirnbaum | internal/simulation/importance.go:118-170 | a whole study never reports non-monotonicity, and its baseline and counters are those the laws speak of |
| Birnbaum.ForcedMonotone | internal/simulation/importance.go:158-160 | success with the component down implies baseline success, which implies success with it up |
| Birnbaum.StudyLaws | internal/simulation/importance.go:130-170 | pivotal = up - down, down <= baseline <= up, and the baseline is the live trials that succeed when up plus the dead trials that succeed when down |
| Birnbaum.VerdictsAreExecution | internal/simulation/importance.go:133-143 | every baseline and counterfactual verdict is what executing the endpoint in that very world would give |
| TrialVerdicts.BaselineExactly | internal/simulation/importance.go:130-148 | the baseline verdict of a trial is that of the world sampled from its state event, with every path run from the first draw of the one event for its services and edges |
| TrialVerdicts.CounterfactualExactly | internal/simulation/importance.go:149-168 | a counterfactual verdict is that of the world in which only the component is forced, with the same draws |
| Selection.SelectComponents | internal/simulation/importance.go:248-285 | selection fails exactly when a named component is unknown, and otherwise lists the chosen components of every kind in order with their live probabilities |
| Selection.PrepareStudy | internal/simulation/importance.go:66-105 | a request is refused exactly when sampling is not independent, an override, component or target is unknown, or no component is selected |
| Selection.AcceptedExactly | internal/simulation/importance.go:66-105 | a request is accepted if and only if sampling is independent, overrides, named components of the requested kinds and targets are known, and something is asked for |
| Selection.SelectedExactly | internal/simulation/importance.go:248-285 | a study toggles exactly the components asked for: of each requested kind those named, or all when none is named |
| Selection.SelectedAt | internal/simulation/importance.go:248-285 | they stand in the order of the kinds and, within a kind, in the order asked for |
| Selection.EndpointsExactly | internal/simulation/importance.go:93-101 | the endpoints of a prepared study are those of the targets, one each, in ID order |
| Selection.PreparedIsValid | internal/simulation/importance.go:66-105 | a prepared study has known components only and exactly the requested endpoints in ID order |
| LiveStates.SampleIsBits | internal/simulation/advanced.go:500-602 | on every stream independent sampling makes exactly one draw per replica or service and per edge, and the world it yields is a function of which draws fall below their rates |
| BirnbaumMeaning.LiveProbabilityExact | internal/simulation/importance.go:264-280 | the reported live probability of a service or edge is exactly the probability that sampling leaves it up |
| BirnbaumMeaning.ImportanceIdentities | docs/component-criticality.md:7-11 | over independent states, the probability of being pivotal is R(up) - R(down), the loss from forcing down is q times it and the gain from a perfect component 1 - q times it, with q the reported live probability |
| BirnbaumMeaning.ImportanceIsSlope | docs/component-criticality.md:9-13 | changing only the live probability of the component changes availability by the importance times the change of q, and leaves the importance as it is |
| BirnbaumMeaning.StudyImportance | docs/component-criticality.md:7-13 | these identities hold in every trial of a study, for each of its endpoints and selected components |
| BirnbaumMeaning.TrialsSampleEvents | internal/simulation/importance.go:130-168 | what a trial counts for an endpoint and a component are those very events on the bits of the stream of the trial |
| Ranking.MeasureLaws | internal/simulation/importance.go:180-186 | importance is the availability a component decides, the baseline lies between the counterfactual availabilities, forced-down impact and gain share the importance by the exact probability that the component is up, and the interval contains it |
| Ranking.AssignRanks | internal/simulation/importance.go:199-204 | the loop gives every component of the sorted list its rank in place and changes nothing else |
| Ranking.RankComponents | internal/simulation/importance.go:188-207 | the reported list is the sorted, ranked and cut list |
| Ranking.RanksMean | internal/simulation/importance.go:188-207 | a rank is one more than the number of strictly more important components, equal importance means equal rank, and nothing cut off is more important than anything kept |
| Ranking.ReportOrder | internal/simulation/importance.go:188-199 | entries stand by importance, ties by kind with edges before services, then by ID |
| Ranking.ReportLength | internal/simulation/importance.go:206-208 | a positive limit below the number of components cuts the list to it, any other keeps all |
| Ranking.HoldsReadsMentioned | internal/predicates/predicates.go:163-205 | a predicate depends only on the services it mentions at any depth |
| Ranking.UntouchedNeverPivotal | internal/simulation/importance.go:145-168 | a component on no path of an endpoint and not mentioned in its predicate gets importance zero for it |
| Gate.EvaluateProfile | internal/gate/gate.go:432-511 | one result per endpoint against its own threshold, failures listed in order, one reason per failed endpoint, aggregate and assertion in that order |
| Gate.CrossProfile | internal/gate/gate.go:357-377 | the cross-profile aggregate is the mean of the weighted aggregates against its threshold |
| Gate.EvaluateProfiles | internal/gate/gate.go:314-430 | the decision is the one given by what passes under the evaluation rule, and only an unsupported mode is an error |
| Gate.VerdictMonotone | internal/gate/gate.go:314-430 | lowering availabilities, aggregates or assertions never moves the verdict towards a pass, under either rule |
| Gate.VerdictExplained | internal/gate/gate.go:426-428 | with at least one profile, a verdict that is not a pass carries a reason of the same status |
| Gate.NoProfilesUnexplained | internal/gate/gate.go:411-428 | without profiles an any-profile gate warns or fails with the pass reason as its only reason |
| Gate.VerdictExplainedExactly | internal/gate/gate.go:411-428 | in warn and fail mode a verdict that is not a pass carries a reason of the same status if and only if there are profiles or the rule asks for all of them |
| Gate.FailedProfilesExactly | internal/gate/gate.go:333-338 | the failed profiles are those that do not pass, and in report mode all of them |
| GateMeaning.ProfileReasonsExactly | internal/gate/gate.go:432-511 | a profile gives a reason for exactly those endpoints that miss their threshold (its own for the profile, else the endpoint threshold, else the global one), for its aggregate if that misses, and for assertions that do not hold |
| GateMeaning.ReasonsExactly | internal/gate/gate.go:347-373 | the reasons over all profiles are those of each profile and, exactly when the mean of the weighted aggregates misses its threshold, one for that |
| BoundaryRules.FindSweepBoundary | internal/gate/gate.go:197-210 | the first sweep of the name and its first boundary for the endpoint; later sweeps of the name are not asked |
| BoundaryRules.FindBoundaryReference | internal/gate/gate.go:221-228 | the first reference for baseline, sweep and endpoint |
| BoundaryRules.EvaluateBoundaryRule | internal/gate/gate.go:120-174 | status, cause, tolerances and regression of a rule are those of the specified evaluation, with a matching reason unless it passes; each cause is stated by BoundaryCauses.CauseExactly |
| BoundaryRules.BoundaryRuleExactly | internal/gate/gate.go:134-172 | a rule passes if and only if the curve does not rise, some point at or past the minimum ends a fully certified prefix and the tolerance is within budget; a pass certifies every evaluated point up to the minimum, and a violated minimum is reported only when that point is confidently below the SLO |
| BoundaryCauses.CauseExactly | internal/gate/gate.go:120-174 | on a built sweep, each cause if and only if its condition on points, references and rule: not monotonic, minimum not evaluated, below minimum (the curve falls, no certified prefix reaches the minimum, and the point there has its upper bound below the SLO), minimum not certified, no usable baseline, regressed, none |
| BoundaryCauses.UnavailableExactly | internal/gate/gate.go:126-129 | a rule is unavailable if and only if no sweep has its name or the first one has no boundary for its endpoint |
| BoundaryCauses.StatusExactly | internal/gate/gate.go:176-187 | a rule without a cause passes, a violated minimum or budget has the status of a failure in the mode of the gate, every other cause that of the action of the rule, else of the default action, else of the mode |
| BoundaryCauses.NumbersExactly | internal/gate/gate.go:130-166 | the reported tolerance is the certified one, and a regression is reported if and only if the own part of the rule passes, a budget is set and both tolerances are certified |
| BoundaryCauses.ViolatedMinimumFails | internal/gate/gate.go:137-149 | a minimum violated beyond doubt always makes a gate in fail mode fail |
| GateAnalysis.MergeBoundaryDecision | internal/gate/gate.go:230-244 | the loop returns the worst of the current decision and the boundary statuses |
| GateAnalysis.RemovePassReasons | internal/gate/gate.go:246-254 | exactly the pass reasons are removed |
| GateAnalysis.EvaluateAnalysis | internal/gate/gate.go:97-118 | the merged analysis is the specified one |
| GateAnalysis.PassExactly | internal/gate/gate.go:97-118 | outside report mode the gate passes if and only if the profiles pass under the rule and every boundary rule passes |
| GateAnalysis.DecisionMonotone | internal/gate/gate.go:97-118 | lowering the measured results never moves the merged decision towards a pass |
| GateAnalysis.DecisionExplained | internal/gate/gate.go:97-118 | with profiles, the all-profiles rule or a deciding boundary, a merged decision that is not a pass carries a reason of the same status |
| GateAnalysis.DecisionExplainedExactly | internal/gate/gate.go:97-118 | and this is so if and only if there are profiles, the rule asks for all of them, or some boundary rule has the status of a failing gate |
| GateMeaning.DecisionExactly | internal/gate/gate.go:97-118 | the decision from the fields: report in report mode; fail if and only if a rule fails or the profiles are not satisfied in fail mode; else warn if and only if a rule warns or they are not satisfied in warn mode; else pass |
| GateMeaning.BoundaryReasonsExactly | internal/gate/gate.go:103-114 | the reasons about boundaries are exactly those of the rules that do not pass, each with its status and the kind of its cause |
| GateMeaning.PassReasonExactly | internal/gate/gate.go:426-428 | the pass reason is given if and only if nothing is missed and every boundary rule passes |
| GateMeaning.FailedBoundariesExactly | internal/gate/gate.go:103-115 | the failed boundaries are exactly the rules that do not pass, in order |
| GateAnalysis.GateOnCoupledSweep | internal/gate/gate.go:138-152 | on a sweep run with a non-zero seed no rule is indeterminate for a rising curve, and a passing minimum means every evaluated point up to it has lower bound and availability at or above the SLO |
| Replay.BuildBoundaryReferences | internal/analyzer/analyzer.go:203-242 | the live references are those derived per baseline, sweep and boundary, in name order |
| Replay.CompareSweepBoundaries | internal/report/report.go:580-620 | the stored comparisons are those of every boundary with its counterpart |
| Replay.SetBaselineDiffs | internal/report/report.go:650-663 | the report stores one list of comparisons per baseline, in name order |
| Replay.BoundaryReferencesFromReport | internal/app/app.go:230-242 | every stored comparison gives one reference, in order |
| Replay.StoredGiveReferences | internal/app/app.go:230-242 | the references rebuilt from a report are those of the saved derivation over the same baselines |
| Replay.LookupBaselines | internal/gate/gate.go:221-228 | a lookup in derived references finds exactly the reference of the first boundary for the endpoint, if the baseline is known |
| References.LiveReferenceExactly | internal/analyzer/analyzer.go:203-242 | over the sweeps of the baseline itself: a reference is compatible if and only if its first sweep of the name has the same fingerprint and a boundary for the endpoint, and carries exactly that certified tolerance |
| References.SavedReferenceExactly | internal/report/report.go:580-620 | the one rebuilt from a report is compatible if and only if in addition both sides are certified |
| References.ComparisonExactly | internal/report/report.go:580-620 | a stored comparison is comparable if and only if the setups match and both sides are certified; its difference is the current tolerance minus that of the baseline |
| References.RegressionExactly | internal/gate/gate.go:155-172 | on references of either derivation, a regression rule whose own part passes is decided if and only if the first sweep of the name in the baseline has the same fingerprint and both sides are certified; the regression is the difference of the tolerances, and every other baseline leaves the rule undecided |
| Replay.ReplaySameRule | internal/gate/gate.go:155-172 | a rule has the same status, tolerance, reference and regression on both derivations of the references |
| Replay.EvaluateReportProfiles | internal/app/app.go:215-228 | replaying the gate from a saved report gives the decision, boundary outcomes and failed boundaries of the original analysis |

## Left out

- SweepCoupling.CurvesNeverRise: for a slot sweep starting at 0 it requires that no surviving edge is uncertain; without that the claim is false, as RisingSweep.SlotSweepCanRise shows.
- ProfileRun.RunAdvancedProfile: reports endpoint counts, availabilities and path counts; weighted aggregates, assertions, fault provenance and the per-path and per-edge advanced metrics other than those of Probability, Amplification and PathRates are not modelled.
- Sweeps.RunSweep: models one sweep, the loop over several sweeps adds nothing; point profiles carry the name of the sweep without the point's index, and derived display fields of a point are omitted; the fingerprint is an opaque token.
- Gate.EvaluateProfiles: the flattened copies of endpoint results and of failed endpoints and assertions over all profiles are omitted; reason messages, thresholds and deltas inside reasons are omitted.
- BoundaryRules.EvaluateBoundaryRule: reason texts are replaced by causes; a baseline's own text and the general one are told apart only by whether one was given.
- Replay.EvaluateReportProfiles: the profiles of the saved report are taken to be those of the original run; writing and reading the report as JSON is not modelled.
- Birnbaum.RunBirnbaum: takes a prepared study.
- Selection.PrepareStudy: the remaining request validation (names, method, confidence level, repeated targets, kinds and IDs, profile ranges) is left to configuration, and the request has no fault profile to reject.
- BirnbaumMeaning.ImportanceIdentities: is stated for every fixed outcome of the path draws of a trial, which sampling does not touch; averaging it over those outcomes adds nothing.
- EdgeAware.BuildEdgeAwarePaths: edge modes are the two values they may have, so the rejection of other texts is not modelled.
- Legacy.SampleAlive: requires a non-negative number of failures, as profile normalization guarantees.
- The fault overlay of a profile is an input: selectors, label matching, blast radius and the merging of fault contracts are not modelled.
- Bucket names of the form service#index are pairs of service and index; building buckets from snapshot records is not modelled.
- The generator of Go's math/rand, seed hashing, fingerprint hashing and the inverse error function are arbitrary parameters.
- Floating-point rounding: all arithmetic is exact.
- The policy gate over a single availability map (gate.go:263-312) is the profile gate without profiles' own thresholds and is omitted.
- Defaulting of blank names, validation of models, predicates, contracts and configurations, and the command line, HTTP service, file watching, metrics and Markdown output.
- The totals over legacy runs (the trial loop of simulation.go:286-336) are not compared with the path engine, which consumes further draws for edges within the same trial.
