# Verification of the palu routing service

The service answers three questions about EVE Online's map: the route from one
system to others over stargates and per-request connections, where to stage a
fleet within bridge range of a target, and what one jump can reach. It keeps its
map in a disk cache that it refreshes while running. This project models those
parts in Dafny and proves what they promise.

| file | models |
|---|---|
| `Walks.dfy` | weighted directed graphs, least cost, and one canonical least-cost walk; no search in it |
| `Search.dfy` | the labels and queue of a Dijkstra search, the loop invariant, and what it implies |
| `Routing.dfy` | `src/routing.rs`: overlay, weights, scratch buffers, single- and multi-target search |
| `Preferences.dfy` | what Shortest, Safest and PreferGates promise, reversal, monotonicity, magnitudes |
| `GraphBuild.dfy` | stargate rows to gate graph, hull rows to catalog |
| `RouteService.dfy`, `RouteProperties.dfy` | `src/services/route.rs`: requests, overlay assembly, fan-out |
| `Trips.dfy`, `StagingTrips.dfy` | what route and staging requests ask for, read off the request: hops, exemptions, best trips |
| `JumpRange.dfy`, `Sorting.dfy` | `src/range.rs`, the radius query, the library sort |
| `Staging.dfy`, `StagingProperties.dfy` | `src/services/blops.rs` |
| `Reach.dfy` | `src/services/range.rs` |
| `Handlers.dfy` | hull and range resolution of `src/handlers/route.rs` |
| `Cache.dfy` | `src/sde/cache.rs` and the loop of `src/tasks.rs` as a transition system |
| `Model.dfy`, `Wrappers.dfy` | domain types, errors, `Option` and `Result` |

How the main argument goes. A request becomes a `Ctx` value (graph, avoided
nodes, overlay, preference) and that becomes a `Net`, a finite map from directed
edges to weights (`Routing.Network`). `Walks.CanonicalPath` walks back from the
target, at each node to the predecessor with the least (distance, index) among
those on a least-cost route. `Routing.ShortestPath` and
`Routing.ShortestPathMulti` are loops over mutable scratch and are proved to
return exactly that path. Everything a caller relies on is then a theorem about
the canonical path or about all walks. The services are methods proved equal to
(or, where the library leaves an order open, allowed by) a specification without
search and without state, and the request-level results are theorems about that
specification. The last word is not the specification's own: `Trips.dfy` states
the answer to a request from the request alone (which systems its references
name, which hops its map, connections and signatures allow, who is exempt from the
avoid list, with every constant written out), and the specification is proved to
give exactly that answer, error by error and field by field.

Where the code and its own words differ, the model follows the code:

- `src/routing.rs:69-70` says an avoided node never appears in a path and an
  avoided source yields no route. The filter is on systems entered, so an avoided
  source starts routes (`AvoidedSourceExample`) and changes none of them
  (`AvoidedSourceIsIgnored`); a route found holds an avoided system exactly when
  its source is one (`AvoidedOnRouteIff`). An avoided target is not reached
  (`AvoidedTargetIsUnreachable`).
- `src/routing.rs:30-32` says a wormhole is taken only when it saves more than 2
  jumps. At least 2 per connection hop is always saved
  (`ConnectionsPayForThemselves`), but on an exact tie the connection may be kept
  (`TieMayKeepConnection`). The sentence holds of the returned route exactly when
  that route keeps to gates or the same request without connections costs more or
  fails (`StrictSavingIff`); it holds whatever the tie-breaking exactly when the
  gates alone cost more or no cheapest route uses a connection
  (`WorthItWhateverTheTieBreakIff`), and in particular on any map without exact
  ties (`NoTieMeansWorthIt`).
- `src/sde/cache.rs:348-356` answers every error of a startup refresh with the
  words that the cached build is being served. The comment at
  `src/sde/cache.rs:284-294` promises it for a failed manifest check or download
  only, and that holds (`EarlyFailureFallsBack`). Pruning precedes parsing, so an
  error after it can find the cached build gone: the fallback finds the cached
  files exactly when none of them was pruned before the error
  (`FallbackFindsFilesIff`), and the service comes up from it exactly when, besides,
  that build parses (`FallbackServesIff`). It fails for any cached build, any other
  build with a complete archive and any file pruned (`StartupFallbackFails`; from
  build 1 to build 2 in `StartupFallbackExample`). The build left current then blocks
  every start until the manifest names another, if it does not parse
  (`UnparsableBuildBlocksStart`, `CurrentBuildStartsIff`); a reload can leave such a
  build current too (`ReloadPromotesUnparsed`).

Parameters stand for what the code gets from elsewhere: the clock (read once per
destination, or once per staging request), the EVE-Scout snapshot, decoded SDE rows, the square root (`sqrt`), and whether the
spatial index counts a point exactly on the sphere (`inclusive`). Route costs are
natural numbers, distances are reals.

## Model

| member | source | states |
|---|---|---|
| Routing.ShortestPath | src/routing.rs:259-315 | Whatever earlier searches left in the scratch and in whatever order neighbours come, the result is the canonical least-cost route, or nothing exactly when the target is unreachable; the counters kept where items are queued and nodes visited end at no more than one push per directed edge plus one, and each node once; the stale-entry branch is dead |
| Routing.ShortestPathMulti | src/routing.rs:340-414 | One canonical entry per reachable target, in target order with repeats, including the early stop and an empty target list; same bounds on the counters |
| Routing.MultiRefinesSingle | src/routing.rs:332-339 | The multi-target answer has an entry for a target exactly when the single search finds it, with the node-for-node same path and its edge count as jumps |
| Routing.ReconstructPath | src/routing.rs:416-428 | Following predecessors back and reversing gives the chain they form; the missing-predecessor mark is never met |
| Routing.RelaxNeighbor | src/routing.rs:297-311 | Examining one neighbour updates label, predecessor and queue, and counts a push, exactly when the new distance is strictly less and the node is unvisited |
| Routing.ExpandNode | src/routing.rs:296-312 | Relaxing all edges out of a visited node restores the loop invariant and queues one item per edge counted |
| Routing.DijkstraScratch.Reset | src/routing.rs:209-216 | Reset clears every label whatever the buffers held, sizes them to the graph and restarts the counters |
| Routing.DijkstraScratch.MarkVisited | src/routing.rs:282-285 | A node is visited only once, and the visit is counted |
| Routing.PopGreatest | src/routing.rs:244-254 | The pop returns a greatest item under the reversed comparison |
| Search.GreatestIsNearest | src/routing.rs:225-254 | Under the reversed comparison the greatest item is the least by (distance, node) |
| Search.VisitKeepsSettled | src/routing.rs:280-294 | The first unvisited item popped carries its node's current label, and visiting it keeps the settling order by (distance, index) |
| Search.RelaxKeepsSettled | src/routing.rs:297-311 | One relaxation keeps every label justified, every earlier edge relaxed, and ties resolved to the earliest predecessor |
| Search.VisitedIsLeast | src/routing.rs:370-371 | A visited node's label is the least cost of any walk to it |
| Search.PrevIsBest | src/routing.rs:303-305 | A visited node's recorded predecessor is the least (distance, index) among all optimal predecessors |
| Search.ExhaustedReachesAll | src/routing.rs:280-314 | When the queue runs dry every reachable node has been visited |
| Walks.CanonicalIsOptimal | src/routing.rs:256-258 | The canonical path is a walk of least total weight between its ends |
| Walks.CanonicalIsSimple | src/routing.rs:416-428 | Distances rise strictly along the canonical path, so no system repeats |
| Walks.DistBound | src/routing.rs:247-249 | Every least cost is at most (n - 1) times the heaviest edge |
| Preferences.LabelsAreBounded | src/routing.rs:302-309 | Every label and every candidate sum formed during a search, tentative ones included, is at most (n - 1) times 1, 3 or 10001 by preference |
| Preferences.SumsBeforeTarget | src/routing.rs:280-309 | While a reachable target is unvisited, no sum formed exceeds its least cost by more than one edge |
| Preferences.SumsAreExactForNearTargets | src/routing.rs:247-249 | On any map, a search for a target of least cost at most 2^24 less the heaviest edge forms no sum above 2^24 |
| Preferences.SumsAreExactEverywhere | src/routing.rs:247-249 | If every reachable system's least cost is at most 2^24 less the heaviest edge, no search, multi-target and exhaustive ones included, forms a sum above 2^24 |
| Preferences.RouteIsCheapest | src/routing.rs:256-315 | A route is found iff one exists over gates and connections whose systems after the first are not avoided; it is such a route, simple, and cheapest |
| Preferences.RouteDependsOnEdgesOnly | src/routing.rs:146-184 | Two contexts that allow the same steps at the same preference return the same route, whatever their edge order, connection order and connection kinds |
| Preferences.AvoidedSourceIsIgnored | src/routing.rs:146-154 | Adding the source to the avoid set changes no result |
| Preferences.AvoidedOnRouteIff | src/routing.rs:69-70 | A route found holds an avoided system iff its source is avoided |
| Preferences.AvoidedSourceExample | src/routing.rs:69-70 | A two-system map where an avoided source starts a route |
| Preferences.AvoidedTargetIsUnreachable | src/routing.rs:146-154 | An avoided target is found only when it is the source |
| Preferences.WeightByPreference | src/routing.rs:156-184 | A route's weight is its jumps, plus 10000 per non-highsec system entered under Safest, or plus 2 per connection hop under PreferGates |
| Preferences.ShortestHasFewestJumps | src/routing.rs:59-60 | Under Shortest no route has fewer jumps than the one returned |
| Preferences.SafestBeatsShortEnough | src/routing.rs:25-28 | On any map, Safest is at least as safe as, and if equally safe no longer than, every route of up to 10000 jumps |
| Preferences.SafestIsLexicographic | src/routing.rs:25-28 | On maps of up to 10001 systems, Safest enters the fewest non-highsec systems of all routes and among those makes the fewest jumps |
| Preferences.SafestStaysInHighsec | src/routing.rs:61-62 | If some route is highsec after its start, and it or the map is no larger than the penalty, the returned one is |
| Preferences.ConnectionsPayForThemselves | src/routing.rs:30-33 | A route with k connection hops is at least 2k jumps shorter than every all-gate route |
| Preferences.WorthwhileConnectionIsTaken | src/routing.rs:30-33 | Under PreferGates, if some route saves more than 2 jumps per connection hop over every all-gate route, the returned route uses a connection |
| Preferences.TieMayKeepConnection | src/routing.rs:303-305 | A concrete map where a connection that saves exactly 2 jumps is kept, against the sentence |
| Preferences.StrictSavingIff | src/routing.rs:30-32 | If the returned route uses connections it saves more than 2 jumps per hop over every all-gate route, exactly unless it uses one and the gates alone cost the same |
| Preferences.WorthItWhateverTheTieBreakIff | src/routing.rs:30-32 | The same of every cheapest route, exactly when the gates alone cost more or no cheapest route uses a connection |
| Preferences.NoTieMeansWorthIt | src/routing.rs:30-32 | Without a route that an all-gate route exceeds by exactly 2 per connection hop, the sentence holds |
| Preferences.ReversalSymmetry | src/routing.rs:94-106 | With neither end avoided, the reverse trip exists too and the least costs differ by exactly the ends' security penalties |
| Preferences.ShortestReversesJumps | tests/hurl/wormhole_chain.hurl:71-90 | Under Shortest the way back has as many jumps |
| Preferences.WideningHelps | src/routing.rs:146-184 | More connections or fewer avoided systems never lose a destination nor raise its least cost |
| Routing.RouteContext.AddConnection | src/routing.rs:94-106 | The mirrored lists stay equal to a symmetric map without self-loops or duplicates; a joined pair keeps its first kind |
| Routing.OverlayKeepsFirstKind | src/routing.rs:91-106 | After any sequence of connections a pair is joined iff one of them joins it, both ways, never to itself, with the kind of the first |
| Routing.RouteContext.OverlayEdgeKind | src/routing.rs:111-115 | Scanning the list finds exactly the overlay's kind for the pair |
| Routing.RouteContext.EdgeWeight | src/routing.rs:158-184 | The weight computed from the lists is the weight of the abstract context |
| Routing.RouteContext.Neighbors | src/routing.rs:146-154 | Exactly the nodes one unavoided step away, in an order nothing depends on |
| GraphBuild.ParseGatePairs | src/sde/parse.rs:50-74 | Ordered pairs without repeats that link exactly the systems some row links in either direction |
| GraphBuild.LinkSystems | src/graph.rs:44-66 | No two edges join one pair, and edges are exactly the pairs of known systems in the input |
| GraphBuild.IndexSystems | src/graph.rs:23-42 | Ids and folded names resolve to the last row that has them; the spatial index holds exactly the K-space systems, once each |
| GraphBuild.BuildGraphData | src/graph.rs:13-82 | The built graph satisfies the invariants the other layers rely on |
| GraphBuild.LoadGraph | src/model.rs:185-192 | With distinct ids, position i and its id name each other, and i and j are joined, once, iff some stargate row links their systems in either direction; the hull catalog and bonus are those of the rows |
| GraphBuild.CatalogFromRaw | src/model.rs:117-150 | Each type and folded name holds its last row, each group its exact minimum base range, a lower bound for every entry |
| RouteService.AssembleAvoidSet | src/services/route.rs:221-239 | The user's systems plus Zarzakh when known and not opted in, or the first unknown system |
| RouteService.AddOverlayConnections | src/services/route.rs:166-183 | The context gains exactly the connections whose use-flag is set, in order |
| RouteService.AddScoutEdges | src/services/route.rs:295-318 | The context gains exactly the live signatures between known systems, in order |
| RouteService.ApplyScoutOverlay | src/services/route.rs:266-293 | A hub's signatures are added iff opted in or the hub is an end of the route |
| RouteService.BuildSteps | src/services/route.rs:336-358 | One labelled step per path node |
| RouteService.ComputeOne | src/services/route.rs:185-219 | One destination's outcome equals its stateless specification |
| RouteService.ComputeGateRoute | src/services/route.rs:49-134 | The response equals a specification without search or shared scratch, each destination at its own reading of the clock |
| RouteProperties.FanOutIsPointwise | src/services/route.rs:99-128 | Entry i is what a request with only destination i, at the time it was routed, would get; one entry per destination, in order |
| RouteProperties.RequestFailsIff | src/services/route.rs:54-60 | The request fails as a whole iff the destination count is out of bounds or a shared system is unknown |
| RouteProperties.ErrorsIgnoreFlags | src/services/route.rs:90-97 | Acceptance and the error do not depend on flags, opt-ins, preference, signatures or clock |
| RouteProperties.DestinationOutcome | src/services/route.rs:185-219 | A destination gets its own error if unknown, unreachable iff no route exists, else a cheapest route |
| RouteProperties.TransitExclusion | src/services/route.rs:83-88 | No interior system of a returned route is in the user's avoid list, nor Zarzakh unless opted in, although the ends are exempt |
| RouteProperties.InteriorNotAvoided | src/services/route.rs:202-205 | The same for path nodes, from the path never repeating |
| RouteProperties.LabelsAreTrue | src/services/route.rs:336-358 | Start, stargate iff a gate, else the connection's kind; the fallback label never stands for a missing edge |
| RouteProperties.PreferGatesCostFromLabels | src/routing.rs:170-184 | Under PreferGates the least cost is one per stargate label plus three per wormhole or bridge label |
| RouteProperties.UserKindWins | src/services/route.rs:207-210 | A pair the user connected keeps the user's kind over any signature on it |
| RouteProperties.ReverseRequest | src/services/route.rs:202-213 | Swapping the ends keeps success, under Shortest the jumps, and costs up to the ends' penalties |
| RouteProperties.LooserRequestHelps | src/services/route.rs:169-183 | Adding connections, flags or signatures, or avoiding less, loses no destination and raises no least cost |
| RouteProperties.LooserRequestKeepsRoutes | src/services/route.rs:298-318 | The same seen in the responses |
| Trips.ResolvesIff | src/services/route.rs:321-334 | A reference resolves exactly to the last system that bears its id or, up to ASCII case, its name, and is unknown exactly when none does |
| Trips.AvoidedIff | src/services/route.rs:221-239 | The avoid set holds exactly the systems the user lists, and Zarzakh unless opted in |
| Trips.UserKindIs | src/services/route.rs:166-183 | A pair carries the kind of the first connection between it whose flag is set |
| Trips.ScoutKindIff | src/services/route.rs:266-318 | Signatures join a pair, as wormholes, iff an unexpired one between the two is listed for a hub that is opted in or an end of the trip |
| Trips.ProblemRealizes | src/services/route.rs:198-210 | The context searched has exactly the hops, labels and forbidden systems the request allows |
| Trips.CanonicalIsBestTrip | src/routing.rs:256-315 | A search over such a context finds a trip iff there is one, and then one of least cost (10000 per unsafe system under Safest, 2 per hop that is no stargate under PreferGates), without repeats and, on up to 10001 systems, lexicographically safest; its steps are shown as they are on the map |
| Trips.RouteAnswersTheRequest | src/services/route.rs:49-134 | For every request the whole response: refused for the number of destinations, else with the first unknown system mentioned, else per destination its own error, the best trip at the request's preference, or unreachable exactly when no trip exists |
| JumpRange.EffectiveLyGrows | src/range.rs:15-23 | More base range or a higher level never shortens the effective range |
| JumpRange.EffectiveLyByLevel | src/range.rs:15-23 | At level 0 the effective range is the base range, and each level adds one bonus of it |
| JumpRange.DistSqAlongAxis | src/range.rs:37-44 | Along each of the three axes the squared distance is the square of the displacement |
| JumpRange.DistSqAddsUp | src/range.rs:37-44 | The squared distance is the sum of those of the three one-axis legs |
| JumpRange.LyAlongAxis | src/range.rs:8-44 | d times 9460700000000000 metres along an axis is d light-years |
| JumpRange.Round2IsNearest | src/services/range.rs:106-110 | The nearest whole hundredth, away from zero on a tie |
| JumpRange.NearInLy | src/range.rs:30-44 | Whoever is nearer than the range in light-years is in the sphere, and no one in it is farther |
| JumpRange.RadiusMatchesLy | src/range.rs:30-44 | The squared-metre radius test agrees with the light-year distance, at the boundary too |
| JumpRange.CloserInLy | src/range.rs:37-44 | Ordering by light-years is ordering by squared distance |
| JumpRange.RadiusQuery | src/services/blops.rs:70-77 | Exactly the K-space systems within the radius, once each |
| Staging.FilterCandidates | src/services/blops.rs:79-87 | Exactly the in-range accepted systems other than the target |
| Staging.ComputeStaging | src/services/blops.rs:48-169 | The result is one the specification allows, errors in the code's check order included |
| StagingProperties.StagingErrorsExactly | src/services/blops.rs:60-107 | No-staging-in-range iff nothing may be staged from; unreachable iff no candidate is reachable; success iff one is |
| StagingProperties.SetupUnknownIff | src/services/blops.rs:60-96 | Before the search a system is reported unknown iff an end is, or the target is allowed, something is in range, and a system of the avoid list or the connections is |
| StagingProperties.ChosenIsBest | src/services/blops.rs:109-137 | The chosen system is least by (jumps, light-years) of all reachable candidates, with its canonical gate path |
| StagingProperties.ChosenIsNearest | src/services/blops.rs:109-124 | Of the reachable candidates as few jumps away, none is nearer to the target in metres, whatever root is used |
| StagingProperties.GateLegExclusion | src/services/blops.rs:93-104 | No step of the gate leg after the start, the staging system included, is in the user's avoid list, nor Zarzakh unless opted in |
| StagingProperties.AlternatesAreNextBest | src/services/blops.rs:139-157 | The alternates are the next best, at most five, and none left out beats them |
| StagingProperties.ZeroJumpsIff | src/services/blops.rs:139-146 | Zero jumps iff the fleet's own system is a candidate; then there are no alternates |
| StagingProperties.ChosenIsInRange | src/services/blops.rs:126-132 | The bridge from the chosen system is within the effective range in light-years |
| StagingProperties.LongerRangeHelps | src/services/blops.rs:70-120 | A longer range keeps staging possible in no more gate jumps |
| StagingTrips.StagingAnswersTheRequest | src/services/blops.rs:48-169 | For every request the whole answer in check order: first unknown end, rejected target, nothing in range, first unknown overlay system, unreachable iff no system in range has a trip, else the picks by fewest jumps of the best trip, then light-years, with up to five alternates, none left out ahead of them, all fields shown |
| StagingTrips.ShortestStagesNearest | src/services/blops.rs:98-123 | Under Shortest the gate jumps are the fewest of all trips to all systems that may be staged from |
| Reach.ComputeReachable | src/services/range.rs:23-79 | The list is exactly the in-range K-space non-highsec systems other than the source, nearest first by full-precision distance |
| Reach.ListsWhereOneCanLand | src/services/range.rs:34-61 | The entries are exactly the lowsec and nullsec systems other than the source inside the sphere, once each, with their own fields and rounded distance |
| Reach.ListedByLy | src/services/range.rs:34-61 | Such a system nearer than the range is listed, and no listed one is beyond it |
| Reach.CountIsCardinality | src/services/range.rs:84-97 | A class is tallied with the number of its entries |
| Reach.BuildTally | src/services/range.rs:84-95 | The tally holds exactly the classes that occur, with their counts |
| Reach.RoundedStaysAscending | src/services/range.rs:64-69 | Rounded distances still ascend and the farthest is their maximum |
| Reach.TalliesSumToCount | src/services/range.rs:81-95 | Only lowsec and nullsec are tallied and they sum to the count |
| Handlers.RouteBlops | src/handlers/route.rs:70-114 | The staging answer at the resolved range, annotated with level, range and defaulting |
| Handlers.HullByRow | src/handlers/route.rs:191-202 | A hull reference resolves to the last catalog row of that type or, up to ASCII case, name, or is unknown when there is none |
| Handlers.BlopsAnswersTheRequest | src/handlers/route.rs:70-114 | For every request: levels outside 1 to 5 refused, unknown hulls refused, else the staging answer at the request's preference for the named row's base range (or the Black Ops minimum) plus one bonus per level, echoing level, range and defaulting; highsec targets refused by name |
| Handlers.BlopsErrorsExactly | src/handlers/route.rs:70-107 | Each error of the endpoint arises exactly under its condition, in the order level, hull, unknown end, target, range, unknown avoided or connected system, reachability |
| Handlers.DefaultIsShortest | src/handlers/route.rs:164-188 | The default range is no longer than any Black Ops hull's at that or a higher level |
| Handlers.WorstHullIsConservative | src/handlers/route.rs:179-186 | If staging succeeds by default it succeeds with every Black Ops hull at that or a higher level, in no more gate jumps |
| Handlers.RangeAndStagingAreDual | src/services/range.rs:1-9 | At one range, a system can be jumped to from s exactly when s may stage for it |
| Cache.StepKeeps | src/sde/cache.rs:413-460 | Every step of install, refresh, restart or crash keeps the protocol invariant, and a current build is only ever replaced by the one being promoted |
| Cache.CurrentIsWhole | src/sde/cache.rs:72-85 | In every state of every run, a build the metadata makes current has its four files completely written |
| Cache.CurrentStays | src/sde/cache.rs:87-95 | Once some build is current, some build is current ever after |
| Cache.PruneOnlySuperseded | src/sde/cache.rs:119-145 | A build's file is removed only while another complete build is current |
| Cache.EarlyFailureFallsBack | src/sde/cache.rs:284-294 | A startup refresh that fails before promotion turns to the cached build and finds its files |
| Cache.FallbackFindsFilesIff | src/sde/cache.rs:348-356 | Wherever a startup refresh towards another build fails, the process turns to the cached build, and its files are all there exactly when no step so far removed one of them |
| Cache.FallbackServesIff | src/sde/cache.rs:348-356 | From such a failure some load of the cached build ends in serving iff nothing of that build was pruned before and it parses |
| Cache.StartupFallbackFails | src/sde/cache.rs:442-460 | For any cached build, other build named, complete archive and file pruned, a parse failure at startup finds the cached build incomplete and the process stops, although the cached build may parse |
| Cache.StartupFallbackExample | src/sde/cache.rs:348-356 | One concrete startup, from build 1 to build 2, that does so |
| Cache.CompleteArchiveIsPromoted | src/sde/cache.rs:226-268 | Undisturbed, extraction leads to promotion iff the archive holds every required file, in any order and with repeats |
| Cache.PromotedIsServed | src/sde/cache.rs:442-460 | A promoted build, if it parses, is served as one snapshot |
| Cache.UnparsableBuildBlocksStart | src/sde/cache.rs:348-356 | After a stop with an unparsable build current, nothing is served through any failures, crashes and restarts until the manifest names another build |
| Cache.CurrentBuildStartsIff | src/sde/cache.rs:320-334 | From a stopped process the current build alone can bring the service up iff it parses |
| Cache.ReloadPromotesUnparsed | src/sde/cache.rs:429-453 | A reload makes a build current before parsing it, keeps serving the old one when parsing fails, and a crash then leaves the new one current |
| Cache.LiveIsCoherent | src/model.rs:208-210 | Systems, gates and hulls being served always come from one build's complete files, each from the file of its own name |
| Cache.LiveChangesOnlyByLoad | src/tasks.rs:39-61 | What is served changes only when the process goes down or a build has been loaded to the end |
| Cache.FailedTickChangesNothing | src/tasks.rs:57-60 | Over any stretch of a run without a crash or a finished load, what is served does not change |
| Cache.UpToDateReloadIsQuiet | src/sde/cache.rs:416-425 | A reload whose manifest names the build being served leaves disk, process and data as they were |
| Cache.UpToDateStartLoads | src/sde/cache.rs:326-334 | A start whose manifest names the cached build loads it without fetching |

## Left out

- HTTP extraction, OpenAPI, JSON shapes and error texts: no invariants; errors are a datatype.
- Handler `route_range`: composes a level check, two lookups and `ComputeReachable`, with nothing new to state.
- Fetching, ZIP decoding, ZIP path checks, JSONL decoding, the hull join of `parse_hull_catalog` and `classify_security`: their results are inputs (rows, archive entries, success or failure).
- EVE-Scout polling and `partition`, configuration, health and `max_size` (accepted but not enforced by the service).
- LabelsAreBounded: f32 rounding is not modelled. Integers up to 2^24 are exact in f32, so all sums are exact where every reachable system's least cost is at most 2^24 less one edge (`SumsAreExactEverywhere`), and otherwise those of a search whose target's least cost is (`SumsAreExactForNearTargets`); beyond that only the bound by map size applies.
- SafestIsLexicographic: stated on maps up to the penalty's own magnitude plus one system, and by `SafestBeatsShortEnough` against routes of that length on any map; a longer highsec detour can cost more than one penalty.
- PopGreatest: stands for the library's binary heap; heap layout is not modelled.
- Neighbors: the library's adjacency order is left open on purpose; only the set of neighbours is promised.
- RadiusQuery: the kd-tree is a list of points filtered one by one, and the boundary convention is a parameter.
- ComputeStaging: the order of candidates equal in both jumps and light-years is left open, because it comes from the kd-tree; sort stability is therefore not stated.
- ComputeReachable: nodes are sorted and then turned into entries, where the source sorts entries with their distances.
- RouteBlops: non-negative base ranges and bonus are assumed by WorstHullIsConservative, not enforced by the code.
- ShortestPath and ShortestPathMulti share `StartSearch`, `ExpandNode`, `RelaxStep` and `RelaxNeighbor`, where the source repeats the setup and the inner loop; `ShortestPathMulti` reconstructs its paths in `CollectSettled`.
- Cache: files are modelled as states on a transition system instead of methods, because a crash may fall between any two steps; power-loss reordering, `sync_all` failure, two processes on one cache and outside changes to the directory are not modelled. Whether a build parses is a parameter where it matters.
