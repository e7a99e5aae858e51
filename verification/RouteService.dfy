/**
 * The gate-routing service, src/services/route.rs: resolve a request, assemble
 * its overlay and avoid set, route every destination over one shared scratch.
 * The clock is a parameter, read once per destination; the EVE-Scout snapshot is a value.
 */
module RouteService {
  import opened Wrappers
  import opened Walks
  import opened Model
  import opened Routing
  import opened Preferences

  const ZARZAKH_SYSTEM_ID: int := 30100000
  const THERA_SYSTEM_ID: int := 31000005
  const TURNUR_SYSTEM_ID: int := 30002086
  const MAX_DESTINATIONS: nat := 1000

  datatype Connection = Connection(kind: EdgeKind, from: SystemRef, to: SystemRef)

  datatype OverlayInputs = OverlayInputs(
    avoid: seq<SystemRef>,
    includeZarzakh: bool,
    useWormholes: bool,
    useBridges: bool,
    connections: seq<Connection>,
    includeThera: bool,
    includeTurnur: bool)

  datatype GateRouteRequest = GateRouteRequest(
    from: SystemRef,
    to: seq<SystemRef>,
    preference: Preference,
    inputs: OverlayInputs)

  datatype Signature = Signature(outSystemId: int, inSystemId: int, expiresAt: int) {
    predicate IsLive(now: int) { expiresAt > now }
  }

  datatype EveScoutSnapshot = EveScoutSnapshot(thera: seq<Signature>, turnur: seq<Signature>)

  datatype RouteStep = RouteStep(system: string, systemId: int, security: real, secClass: SecClass, via: Via)

  datatype Outcome = Route(jumps: nat, path: seq<RouteStep>) | Failure(error: AppError)

  datatype RouteResult = RouteResult(to: SystemRef, outcome: Outcome)

  datatype GateRouteResponse = GateRouteResponse(from: SystemRef, results: seq<RouteResult>)

  // ---------------------------------------------------------------- resolving the header

  function ResolveSystem(graph: GraphData, r: SystemRef): (res: Result<nat, AppError>)
    ensures graph.Valid() && res.Ok? ==> res.value < |graph.systems|
  {
    hide Lower;
    match r
    case ById(id) => if id in graph.idToIdx then Ok(graph.idToIdx[id]) else Err(UnknownSystem(r))
    case ByName(name) =>
      if Lower(name) in graph.nameToIdx then Ok(graph.nameToIdx[Lower(name)]) else Err(UnknownSystem(r))
  }

  /** All of them, or the first error. */
  function ResolveAll(graph: GraphData, refs: seq<SystemRef>): (res: Result<seq<nat>, AppError>)
    ensures res.Ok? <==> forall i :: 0 <= i < |refs| ==> ResolveSystem(graph, refs[i]).Ok?
    ensures res.Ok? ==> |res.value| == |refs| &&
                        forall i :: 0 <= i < |refs| ==> ResolveSystem(graph, refs[i]) == Ok(res.value[i])
    ensures res.Err? ==> exists i :: 0 <= i < |refs| && ResolveSystem(graph, refs[i]) == Err(res.error)
                                     && forall j :: 0 <= j < i ==> ResolveSystem(graph, refs[j]).Ok?
  {
    if refs == [] then Ok([])
    else
      var first := ResolveSystem(graph, refs[0]);
      if first.Err? then Err(first.error)
      else
        var rest := ResolveAll(graph, refs[1..]);
        assert forall i :: 0 < i < |refs| ==> refs[i] == refs[1..][i - 1];
        if rest.Err? then
          assert exists i :: 0 <= i < |refs| && ResolveSystem(graph, refs[i]) == Err(rest.error)
                             && forall j :: 0 <= j < i ==> ResolveSystem(graph, refs[j]).Ok? by {
            var k :| 0 <= k < |refs[1..]| && ResolveSystem(graph, refs[1..][k]) == Err(rest.error)
              && forall j :: 0 <= j < k ==> ResolveSystem(graph, refs[1..][j]).Ok?;
            assert refs[k + 1] == refs[1..][k];
          }
          Err(rest.error)
        else Ok([first.value] + rest.value)
  }

  /** User avoid list, and Zarzakh unless opted in. */
  function AvoidSet(graph: GraphData, inputs: OverlayInputs): Result<set<nat>, AppError> {
    var users :- ResolveAll(graph, inputs.avoid);
    Ok(Nodes(users) + if !inputs.includeZarzakh && ZARZAKH_SYSTEM_ID in graph.idToIdx
                      then {graph.idToIdx[ZARZAKH_SYSTEM_ID]} else {})
  }

  lemma FirstErrorWins(graph: GraphData, refs: seq<SystemRef>, k: nat)
    requires k < |refs| && ResolveSystem(graph, refs[k]).Err?
    requires forall i :: 0 <= i < k ==> ResolveSystem(graph, refs[i]).Ok?
    ensures ResolveAll(graph, refs) == Err(ResolveSystem(graph, refs[k]).error)
  {
  }

  lemma ResolvedNodes(graph: GraphData, refs: seq<SystemRef>, avoid: set<nat>)
    requires forall i :: 0 <= i < |refs| ==> ResolveSystem(graph, refs[i]).Ok?
    requires forall v :: v in avoid <==> exists i :: 0 <= i < |refs| && ResolveSystem(graph, refs[i]) == Ok(v)
    ensures ResolveAll(graph, refs).Ok? && avoid == Nodes(ResolveAll(graph, refs).value)
  {
    hide ResolveSystem;
    var all := ResolveAll(graph, refs).value;
    forall v: nat ensures v in avoid <==> v in all {
      if v in all {
        var i :| 0 <= i < |all| && all[i] == v;
        assert ResolveSystem(graph, refs[i]) == Ok(v);
      }
      if v in avoid {
        var i :| 0 <= i < |refs| && ResolveSystem(graph, refs[i]) == Ok(v);
        assert all[i] == v;
      }
    }
  }

  lemma AvoidSetIs(graph: GraphData, inputs: OverlayInputs, users: set<nat>)
    requires forall i :: 0 <= i < |inputs.avoid| ==> ResolveSystem(graph, inputs.avoid[i]).Ok?
    requires forall v :: v in users <==> exists i :: 0 <= i < |inputs.avoid| && ResolveSystem(graph, inputs.avoid[i]) == Ok(v)
    ensures AvoidSet(graph, inputs) == Ok(users + if !inputs.includeZarzakh && ZARZAKH_SYSTEM_ID in graph.idToIdx
                                                  then {graph.idToIdx[ZARZAKH_SYSTEM_ID]} else {})
  {
    hide ResolveSystem, ResolveAll;
    ResolvedNodes(graph, inputs.avoid, users);
  }

  lemma AvoidSetFails(graph: GraphData, inputs: OverlayInputs, k: nat)
    requires k < |inputs.avoid| && ResolveSystem(graph, inputs.avoid[k]).Err?
    requires forall i :: 0 <= i < k ==> ResolveSystem(graph, inputs.avoid[i]).Ok?
    ensures AvoidSet(graph, inputs) == Err(ResolveSystem(graph, inputs.avoid[k]).error)
  {
    hide ResolveSystem, ResolveAll;
    FirstErrorWins(graph, inputs.avoid, k);
  }

  method AssembleAvoidSet(graph: GraphData, inputs: OverlayInputs) returns (res: Result<set<nat>, AppError>)
    ensures res == AvoidSet(graph, inputs)
  {
    hide ResolveSystem, AvoidSet;
    var avoid := {};
    for k := 0 to |inputs.avoid|
      invariant forall i :: 0 <= i < k ==> ResolveSystem(graph, inputs.avoid[i]).Ok?
      invariant forall v :: v in avoid <==> exists i :: 0 <= i < k && ResolveSystem(graph, inputs.avoid[i]) == Ok(v)
    {
      var v := ResolveSystem(graph, inputs.avoid[k]);
      if v.Err? {
        AvoidSetFails(graph, inputs, k);
        return Err(v.error);
      }
      avoid := avoid + {v.value};
    }
    AvoidSetIs(graph, inputs, avoid);
    assert avoid + {} == avoid;
    if !inputs.includeZarzakh && ZARZAKH_SYSTEM_ID in graph.idToIdx {
      avoid := avoid + {graph.idToIdx[ZARZAKH_SYSTEM_ID]};
    }
    return Ok(avoid);
  }

  function ResolveConnection(graph: GraphData, c: Connection): Result<Link, AppError> {
    var a :- ResolveSystem(graph, c.from);
    var b :- ResolveSystem(graph, c.to);
    Ok(Link(a, b, c.kind))
  }

  /** Every connection, whatever the use-flags, or the first error. */
  function ResolveConnections(graph: GraphData, cs: seq<Connection>): (res: Result<seq<Link>, AppError>)
    ensures res.Ok? <==> forall i :: 0 <= i < |cs| ==> ResolveConnection(graph, cs[i]).Ok?
    ensures res.Ok? ==> |res.value| == |cs| &&
                        forall i :: 0 <= i < |cs| ==> ResolveConnection(graph, cs[i]) == Ok(res.value[i])
  {
    if cs == [] then Ok([])
    else
      assert forall i :: 0 < i < |cs| ==> cs[i] == cs[1..][i - 1];
      var first := ResolveConnection(graph, cs[0]);
      if first.Err? then Err(first.error)
      else
        var rest := ResolveConnections(graph, cs[1..]);
        if rest.Err? then Err(rest.error) else Ok([first.value] + rest.value)
  }

  /** What a request shares between its destinations. `avoid` still includes the ends. */
  datatype Header = Header(from: nat, avoid: set<nat>, links: seq<Link>)

  function HeaderOf(graph: GraphData, req: GateRouteRequest): Result<Header, AppError> {
    if req.to == [] || |req.to| > MAX_DESTINATIONS then Err(InvalidParam)
    else
      var from :- ResolveSystem(graph, req.from);
      var avoid :- AvoidSet(graph, req.inputs);
      var links :- ResolveConnections(graph, req.inputs.connections);
      Ok(Header(from, avoid, links))
  }

  // ---------------------------------------------------------------- the overlay of one destination

  predicate Used(inputs: OverlayInputs, kind: EdgeKind) {
    match kind
    case WormholeEdge => inputs.useWormholes
    case BridgeEdge => inputs.useBridges
  }

  /** The connections whose use-flag is set. */
  function Enabled(inputs: OverlayInputs, links: seq<Link>): (r: seq<Link>)
    ensures forall l :: l in r <==> l in links && Used(inputs, l.kind)
    decreases |links|
  {
    if links == [] then []
    else
      var l := links[|links| - 1];
      assert links == links[..|links| - 1] + [l];
      Enabled(inputs, links[..|links| - 1]) + if Used(inputs, l.kind) then [l] else []
  }

  function SignatureLink(graph: GraphData, s: Signature, now: int): Option<Link> {
    if s.IsLive(now) && s.outSystemId in graph.idToIdx && s.inSystemId in graph.idToIdx
    then Some(Link(graph.idToIdx[s.outSystemId], graph.idToIdx[s.inSystemId], WormholeEdge))
    else None
  }

  /** The live signatures between known systems. */
  function LiveLinks(graph: GraphData, sigs: seq<Signature>, now: int): (r: seq<Link>)
    ensures forall l :: l in r <==> exists s :: s in sigs && SignatureLink(graph, s, now) == Some(l)
    decreases |sigs|
  {
    if sigs == [] then []
    else
      var s := sigs[|sigs| - 1];
      assert sigs == sigs[..|sigs| - 1] + [s];
      var l := SignatureLink(graph, s, now);
      LiveLinks(graph, sigs[..|sigs| - 1], now) + if l.Some? then [l.value] else []
  }

  predicate IsEndpoint(graph: GraphData, hub: int, endpoints: set<nat>) {
    hub in graph.idToIdx && graph.idToIdx[hub] in endpoints
  }

  /** A hub's signatures count when opted in, or when the hub is an end of the route. */
  function ScoutLinks(graph: GraphData, scout: EveScoutSnapshot, inputs: OverlayInputs, endpoints: set<nat>, now: int)
    : seq<Link>
  {
    (if inputs.includeThera || IsEndpoint(graph, THERA_SYSTEM_ID, endpoints)
     then LiveLinks(graph, scout.thera, now) else []) +
    (if inputs.includeTurnur || IsEndpoint(graph, TURNUR_SYSTEM_ID, endpoints)
     then LiveLinks(graph, scout.turnur, now) else [])
  }

  /** User connections first, then signatures. */
  function OverlayLinks(graph: GraphData, scout: EveScoutSnapshot, inputs: OverlayInputs, links: seq<Link>,
                        endpoints: set<nat>, now: int): seq<Link>
  {
    Enabled(inputs, links) + ScoutLinks(graph, scout, inputs, endpoints, now)
  }

  lemma NothingJoined(o: Overlay)
    ensures JoinAll(o, []) == o
  {
  }

  lemma EnabledNothing(inputs: OverlayInputs)
    ensures Enabled(inputs, []) == []
  {
  }

  lemma NothingLive(graph: GraphData, now: int)
    ensures LiveLinks(graph, [], now) == []
  {
  }

  lemma EnabledPush(inputs: OverlayInputs, links: seq<Link>, l: Link)
    ensures Enabled(inputs, links + [l]) == if Used(inputs, l.kind) then Enabled(inputs, links) + [l] else Enabled(inputs, links)
  {
    assert (links + [l])[..|links|] == links;
  }

  lemma LivePush(graph: GraphData, sigs: seq<Signature>, s: Signature, now: int)
    ensures LiveLinks(graph, sigs + [s], now) ==
            if SignatureLink(graph, s, now).Some?
            then LiveLinks(graph, sigs, now) + [SignatureLink(graph, s, now).value] else LiveLinks(graph, sigs, now)
  {
    assert (sigs + [s])[..|sigs|] == sigs;
  }

  method AddOverlayConnections(inputs: OverlayInputs, links: seq<Link>, ctx: RouteContext)
    requires ctx.Valid()
    modifies ctx
    ensures ctx.Valid()
    ensures ctx.View() == old(ctx.View()).(overlay := JoinAll(old(ctx.overlay), Enabled(inputs, links)))
  {
    hide RouteContext.Valid, Joined, JoinAll, Enabled;
    NothingJoined(ctx.overlay);
    EnabledNothing(inputs);
    for k := 0 to |links|
      invariant ctx.Valid()
      invariant ctx.View() == old(ctx.View()).(overlay := JoinAll(old(ctx.overlay), Enabled(inputs, links[..k])))
    {
      var l := links[k];
      EnabledPush(inputs, links[..k], l);
      assert links[..k + 1] == links[..k] + [l];
      if match l.kind case WormholeEdge => inputs.useWormholes case BridgeEdge => inputs.useBridges {
        ctx.AddConnection(l.a, l.b, l.kind);
        JoinOneMore(old(ctx.overlay), Enabled(inputs, links[..k]), l);
      }
    }
    assert links[..|links|] == links;
  }

  method AddScoutEdges(graph: GraphData, ctx: RouteContext, sigs: seq<Signature>, now: int)
    requires ctx.Valid()
    modifies ctx
    ensures ctx.Valid()
    ensures ctx.View() == old(ctx.View()).(overlay := JoinAll(old(ctx.overlay), LiveLinks(graph, sigs, now)))
  {
    hide RouteContext.Valid, Joined, JoinAll, LiveLinks;
    NothingJoined(ctx.overlay);
    NothingLive(graph, now);
    for k := 0 to |sigs|
      invariant ctx.Valid()
      invariant ctx.View() == old(ctx.View()).(overlay := JoinAll(old(ctx.overlay), LiveLinks(graph, sigs[..k], now)))
    {
      var s := sigs[k];
      LivePush(graph, sigs[..k], s, now);
      assert sigs[..k + 1] == sigs[..k] + [s];
      if s.IsLive(now) && s.outSystemId in graph.idToIdx && s.inSystemId in graph.idToIdx {
        var a, b := graph.idToIdx[s.outSystemId], graph.idToIdx[s.inSystemId];
        ctx.AddConnection(a, b, WormholeEdge);
        JoinOneMore(old(ctx.overlay), LiveLinks(graph, sigs[..k], now), Link(a, b, WormholeEdge));
      }
    }
    assert sigs[..|sigs|] == sigs;
  }

  method ApplyScoutOverlay(graph: GraphData, scout: EveScoutSnapshot, inputs: OverlayInputs,
                           endpoints: set<nat>, ctx: RouteContext, now: int)
    requires ctx.Valid()
    modifies ctx
    ensures ctx.Valid()
    ensures ctx.View() ==
            old(ctx.View()).(overlay := JoinAll(old(ctx.overlay), ScoutLinks(graph, scout, inputs, endpoints, now)))
  {
    hide RouteContext.Valid, LiveLinks;
    ghost var thera, turnur: seq<Link> := [], [];
    if inputs.includeThera || IsEndpoint(graph, THERA_SYSTEM_ID, endpoints) {
      AddScoutEdges(graph, ctx, scout.thera, now);
      thera := LiveLinks(graph, scout.thera, now);
    }
    if inputs.includeTurnur || IsEndpoint(graph, TURNUR_SYSTEM_ID, endpoints) {
      AddScoutEdges(graph, ctx, scout.turnur, now);
      turnur := LiveLinks(graph, scout.turnur, now);
    }
    JoinAllConcat(old(ctx.overlay), thera, turnur);
  }

  /** The routing problem of one pair of ends. */
  function ProblemOf(graph: GraphData, scout: EveScoutSnapshot, inputs: OverlayInputs, pref: Preference,
                     avoid: set<nat>, links: seq<Link>, endpoints: set<nat>, now: int): Ctx
  {
    Ctx(graph, avoid, JoinAll(map[], OverlayLinks(graph, scout, inputs, links, endpoints, now)), pref)
  }

  ghost predicate LinksInRange(graph: GraphData, links: seq<Link>) {
    forall l :: l in links ==> l.a < |graph.systems| && l.b < |graph.systems|
  }

  lemma {:induction false} JoinedInRange(graph: GraphData, links: seq<Link>)
    requires LinksInRange(graph, links)
    ensures forall e :: e in JoinAll(map[], links) ==> e.0 < |graph.systems| && e.1 < |graph.systems|
    decreases |links|
  {
    if links != [] {
      assert links[|links| - 1] in links;
      JoinedInRange(graph, links[..|links| - 1]);
    }
  }

  lemma ResolvedInRange(graph: GraphData, cs: seq<Connection>)
    requires graph.Valid() && ResolveConnections(graph, cs).Ok?
    ensures LinksInRange(graph, ResolveConnections(graph, cs).value)
  {
    var links := ResolveConnections(graph, cs).value;
    forall l | l in links
      ensures l.a < |graph.systems| && l.b < |graph.systems|
    {
      var i :| 0 <= i < |links| && links[i] == l;
      assert ResolveConnection(graph, cs[i]) == Ok(l);
    }
  }

  lemma ProblemInBounds(graph: GraphData, scout: EveScoutSnapshot, inputs: OverlayInputs, pref: Preference,
                        avoid: set<nat>, links: seq<Link>, endpoints: set<nat>, now: int)
    requires graph.Valid() && LinksInRange(graph, links)
    ensures ProblemOf(graph, scout, inputs, pref, avoid, links, endpoints, now).InBounds()
    ensures Symmetric(ProblemOf(graph, scout, inputs, pref, avoid, links, endpoints, now).overlay)
  {
    var all := OverlayLinks(graph, scout, inputs, links, endpoints, now);
    forall l | l in all
      ensures l.a < |graph.systems| && l.b < |graph.systems|
    {
      if l !in Enabled(inputs, links) {
        var s :| (s in scout.thera || s in scout.turnur) && SignatureLink(graph, s, now) == Some(l);
      }
    }
    JoinedInRange(graph, all);
    OverlayIsSymmetric(all);
  }

  /** A fresh context holding the user's connections, then the signatures. */
  method PrepareContext(graph: GraphData, scout: EveScoutSnapshot, inputs: OverlayInputs, pref: Preference,
                        avoid: set<nat>, links: seq<Link>, endpoints: set<nat>, now: int) returns (ctx: RouteContext)
    requires graph.Valid() && LinksInRange(graph, links)
    ensures fresh(ctx) && ctx.Valid() && ctx.View().InBounds() && ctx.graph == graph
    ensures ctx.View() == ProblemOf(graph, scout, inputs, pref, avoid, links, endpoints, now)
  {
    hide GraphData.Valid, RouteContext.Valid, ScoutLinks, Enabled;
    ctx := new RouteContext(graph, avoid, pref);
    AddOverlayConnections(inputs, links, ctx);
    ApplyScoutOverlay(graph, scout, inputs, endpoints, ctx, now);
    JoinAllConcat(map[], Enabled(inputs, links), ScoutLinks(graph, scout, inputs, endpoints, now));
    ProblemInBounds(graph, scout, inputs, pref, avoid, links, endpoints, now);
  }

  // ---------------------------------------------------------------- labelled steps

  function StepOf(c: Ctx, path: seq<nat>, i: nat): RouteStep
    requires i < |path| && path[i] < |c.graph.systems|
  {
    var s := c.graph.systems[path[i]];
    RouteStep(s.name, s.id, s.security, s.secClass, if i == 0 then Start else c.Via(path[i - 1], path[i]))
  }

  ghost function StepsOf(c: Ctx, path: seq<nat>): seq<RouteStep>
    requires InMap(c, path)
  {
    seq(|path|, i requires 0 <= i < |path| => StepOf(c, path, i))
  }

  method BuildSteps(ctx: RouteContext, path: seq<nat>) returns (steps: seq<RouteStep>)
    requires ctx.Valid() && InMap(ctx.View(), path)
    ensures steps == StepsOf(ctx.View(), path)
  {
    steps := [];
    for i := 0 to |path|
      invariant |steps| == i && forall k :: 0 <= k < i ==> steps[k] == StepOf(ctx.View(), path, k)
    {
      var s := ctx.graph.systems[path[i]];
      var via := if i == 0 then Start else
                   StepLabel(ctx.graph.HasGate(path[i - 1], path[i]), ctx.OverlayEdgeKind(path[i - 1], path[i]));
      steps := steps + [RouteStep(s.name, s.id, s.security, s.secClass, via)];
    }
  }

  lemma CanonicalInMap(c: Ctx, s: nat, t: nat)
    requires Reachable(Network(c), s, t)
    ensures InMap(c, CanonicalPath(Network(c), s, t))
  {
    CanonicalIsOptimal(Network(c), s, t);
    WalkWeight(c, CanonicalPath(Network(c), s, t));
  }

  // ---------------------------------------------------------------- the answer

  /** The request's routing problem for destination `to`; neither end is avoided. */
  function ProblemFor(graph: GraphData, scout: EveScoutSnapshot, req: GateRouteRequest, now: int, h: Header, to: nat): Ctx {
    ProblemOf(graph, scout, req.inputs, req.preference, h.avoid - {h.from} - {to}, h.links, {h.from, to}, now)
  }

  ghost function OutcomeOf(c: Ctx, s: nat, t: nat): Outcome {
    if Reachable(Network(c), s, t) then
      CanonicalInMap(c, s, t);
      var p := CanonicalPath(Network(c), s, t);
      Route(|p| - 1, StepsOf(c, p))
    else Failure(Unreachable)
  }

  ghost function Answer(graph: GraphData, scout: EveScoutSnapshot, req: GateRouteRequest, now: int, h: Header, toRef: SystemRef)
    : Outcome
  {
    match ResolveSystem(graph, toRef)
    case Err(e) => Failure(e)
    case Ok(to) => OutcomeOf(ProblemFor(graph, scout, req, now, h, to), h.from, to)
  }

  /** The whole response, with no search and no shared state; `clock(i)` is the time read for destination i. */
  ghost function GateRoute(graph: GraphData, scout: EveScoutSnapshot, req: GateRouteRequest, clock: nat -> int)
    : Result<GateRouteResponse, AppError>
  {
    match HeaderOf(graph, req)
    case Err(e) => Err(e)
    case Ok(h) => Ok(GateRouteResponse(req.from, seq(|req.to|, i requires 0 <= i < |req.to| =>
                       RouteResult(req.to[i], Answer(graph, scout, req, clock(i), h, req.to[i])))))
  }

  lemma ResultAt(graph: GraphData, scout: EveScoutSnapshot, req: GateRouteRequest, clock: nat -> int, i: nat)
    requires GateRoute(graph, scout, req, clock).Ok? && i < |req.to|
    ensures HeaderOf(graph, req).Ok? && |GateRoute(graph, scout, req, clock).value.results| == |req.to|
    ensures GateRoute(graph, scout, req, clock).value.results[i] ==
            RouteResult(req.to[i], Answer(graph, scout, req, clock(i), HeaderOf(graph, req).value, req.to[i]))
  {
    hide Answer, HeaderOf;
  }

  method ComputeOne(graph: GraphData, scout: EveScoutSnapshot, req: GateRouteRequest, now: int,
                    sharedAvoid: set<nat>, links: seq<Link>, from: nat, toRef: SystemRef,
                    scratch: DijkstraScratch, ghost h: Header) returns (outcome: Outcome)
    requires graph.Valid() && LinksInRange(graph, links) && from < |graph.systems|
    requires h.from == from && h.links == links && sharedAvoid == h.avoid - {from}
    modifies scratch
    ensures outcome == Answer(graph, scout, req, now, h, toRef)
  {
    hide GraphData.Valid, RouteContext.Valid, Network, ProblemOf, StepsOf, CanonicalPath, Reachable;
    var resolved := ResolveSystem(graph, toRef);
    if resolved.Err? {
      return Failure(resolved.error);
    }
    var to := resolved.value;
    var ctx := PrepareContext(graph, scout, req.inputs, req.preference, sharedAvoid - {to}, links, {from, to}, now);
    ghost var c := ProblemFor(graph, scout, req, now, h, to);
    var path := ShortestPath(ctx, from, to, scratch);
    if path.None? {
      return Failure(Unreachable);
    }
    CanonicalInMap(c, from, to);
    var steps := BuildSteps(ctx, path.value);
    return Route(|path.value| - 1, steps);
  }

  /** All destinations over one scratch, each getting its own answer. */
  method ComputeGateRoute(graph: GraphData, scout: EveScoutSnapshot, req: GateRouteRequest, clock: nat -> int, scratch: DijkstraScratch)
    returns (res: Result<GateRouteResponse, AppError>)
    requires graph.Valid()
    modifies scratch
    ensures res == GateRoute(graph, scout, req, clock)
  {
    hide GraphData.Valid, Answer, AvoidSet, ResolveConnections;
    if req.to == [] {
      return Err(InvalidParam);
    }
    if |req.to| > MAX_DESTINATIONS {
      return Err(InvalidParam);
    }
    var from := ResolveSystem(graph, req.from);
    if from.Err? {
      return Err(from.error);
    }
    var avoid := AssembleAvoidSet(graph, req.inputs);
    if avoid.Err? {
      return Err(avoid.error);
    }
    var sharedAvoid := avoid.value - {from.value};
    var links := ResolveConnections(graph, req.inputs.connections);
    if links.Err? {
      return Err(links.error);
    }
    ResolvedInRange(graph, req.inputs.connections);
    ghost var h := Header(from.value, avoid.value, links.value);
    var results := [];
    for k := 0 to |req.to|
      invariant |results| == k
      invariant forall i :: 0 <= i < k ==>
                  results[i] == RouteResult(req.to[i], Answer(graph, scout, req, clock(i), h, req.to[i]))
    {
      var o := ComputeOne(graph, scout, req, clock(k), sharedAvoid, links.value, from.value, req.to[k], scratch, h);
      results := results + [RouteResult(req.to[k], o)];
    }
    assert HeaderOf(graph, req) == Ok(h);
    assert results == seq(|req.to|, i requires 0 <= i < |req.to| =>
                            RouteResult(req.to[i], Answer(graph, scout, req, clock(i), h, req.to[i])));
    return Ok(GateRouteResponse(req.from, results));
  }
}
