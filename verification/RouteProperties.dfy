/** What a caller of the gate-routing service can rely on, for every request. */
module RouteProperties {
  import opened Wrappers
  import opened Walks
  import opened Model
  import opened Routing
  import opened Preferences
  import opened RouteService
  import GraphBuild

  // ---------------------------------------------------------------- fan-out

  /** One entry per destination, in order, each what a request for it alone, at the time it was routed, would get. */
  lemma FanOutIsPointwise(graph: GraphData, scout: EveScoutSnapshot, req: GateRouteRequest, clock: nat -> int, i: nat)
    requires GateRoute(graph, scout, req, clock).Ok? && i < |req.to|
    ensures var r := GateRoute(graph, scout, req, clock).value;
            && |r.results| == |req.to| && r.results[i].to == req.to[i]
            && GateRoute(graph, scout, req.(to := [req.to[i]]), (_: nat) => clock(i)) ==
               Ok(GateRouteResponse(req.from, [r.results[i]]))
  {
    var one := req.(to := [req.to[i]]);
    var h := HeaderOf(graph, req).value;
    assert HeaderOf(graph, one) == Ok(h);
    assert Answer(graph, scout, one, clock(i), h, req.to[i]) == Answer(graph, scout, req, clock(i), h, req.to[i]) by {
      if ResolveSystem(graph, req.to[i]).Ok? {
        var to := ResolveSystem(graph, req.to[i]).value;
        assert ProblemFor(graph, scout, one, clock(i), h, to) == ProblemFor(graph, scout, req, clock(i), h, to);
      }
    }
    assert GateRoute(graph, scout, one, (_: nat) => clock(i)).value.results == [GateRoute(graph, scout, req, clock).value.results[i]];
  }

  /** A request fails as a whole exactly for its bounds or an unknown system in its shared header. */
  lemma RequestFailsIff(graph: GraphData, scout: EveScoutSnapshot, req: GateRouteRequest, clock: nat -> int)
    ensures GateRoute(graph, scout, req, clock).Err? <==>
            || |req.to| == 0 || |req.to| > 1000
            || ResolveSystem(graph, req.from).Err?
            || (exists i :: 0 <= i < |req.inputs.avoid| && ResolveSystem(graph, req.inputs.avoid[i]).Err?)
            || (exists i :: 0 <= i < |req.inputs.connections| &&
                            (ResolveSystem(graph, req.inputs.connections[i].from).Err? ||
                             ResolveSystem(graph, req.inputs.connections[i].to).Err?))
  {
    hide ResolveSystem, AvoidSet, ResolveConnections, ResolveConnection, Answer;
    AvoidFailsIff(graph, req.inputs);
    ConnectionsFailIff(graph, req.inputs.connections);
  }

  lemma AvoidFailsIff(graph: GraphData, inputs: OverlayInputs)
    ensures AvoidSet(graph, inputs).Err? <==>
            exists i :: 0 <= i < |inputs.avoid| && ResolveSystem(graph, inputs.avoid[i]).Err?
  {
    hide ResolveSystem;
  }

  lemma ConnectionsFailIff(graph: GraphData, cs: seq<Connection>)
    ensures ResolveConnections(graph, cs).Err? <==>
            exists i :: 0 <= i < |cs| && (ResolveSystem(graph, cs[i].from).Err? || ResolveSystem(graph, cs[i].to).Err?)
  {
    hide ResolveSystem;
    assert forall i :: 0 <= i < |cs| ==>
      (ResolveConnection(graph, cs[i]).Err? <==>
       ResolveSystem(graph, cs[i].from).Err? || ResolveSystem(graph, cs[i].to).Err?);
  }

  /** Use-flags, opt-ins, preference, signatures and clock never decide whether a request is accepted. */
  lemma ErrorsIgnoreFlags(graph: GraphData, scout: EveScoutSnapshot, req: GateRouteRequest, clock: nat -> int,
                          scout': EveScoutSnapshot, req': GateRouteRequest, clock': nat -> int)
    requires req.from == req'.from && |req.to| == |req'.to|
    requires req.inputs.avoid == req'.inputs.avoid && req.inputs.connections == req'.inputs.connections
    ensures var r, r' := GateRoute(graph, scout, req, clock), GateRoute(graph, scout', req', clock');
            r.Err? == r'.Err? && (r.Err? ==> r.error == r'.error)
  {
    hide ResolveSystem, AvoidSet, ResolveConnections, Answer;
    AvoidErrorIgnoresZarzakh(graph, req.inputs, req'.inputs);
  }

  lemma AvoidErrorIgnoresZarzakh(graph: GraphData, a: OverlayInputs, b: OverlayInputs)
    requires a.avoid == b.avoid
    ensures AvoidSet(graph, a).Err? == AvoidSet(graph, b).Err?
    ensures AvoidSet(graph, a).Err? ==> AvoidSet(graph, a).error == AvoidSet(graph, b).error
  {
    hide ResolveAll;
  }

  /**
   * What one destination gets: its own error if unknown, `Unreachable` exactly
   * when no route exists, and otherwise a cheapest route of as many jumps as it has steps.
   */
  lemma DestinationOutcome(graph: GraphData, scout: EveScoutSnapshot, req: GateRouteRequest, clock: nat -> int, i: nat)
    requires GateRoute(graph, scout, req, clock).Ok? && i < |req.to|
    ensures var o, to := GateRoute(graph, scout, req, clock).value.results[i].outcome, ResolveSystem(graph, req.to[i]);
            && HeaderOf(graph, req).Ok?
            && (to.Err? ==> o == Failure(to.error))
            && (to.Ok? ==>
                  var h := HeaderOf(graph, req).value;
                  var c := ProblemFor(graph, scout, req, clock(i), h, to.value);
                  if forall q :: !IsRoute(c, h.from, to.value, q) then o == Failure(Unreachable)
                  else
                    o.Route? && exists p :: IsRoute(c, h.from, to.value, p) && InMap(c, p)
                                            && o == Route(|p| - 1, StepsOf(c, p))
                                            && forall q :: IsRoute(c, h.from, to.value, q) ==> RouteWeight(c, p) <= RouteWeight(c, q))
  {
    hide ResolveSystem, AvoidSet, ResolveConnections, ProblemOf, Network, StepsOf, CanonicalPath;
    ResultAt(graph, scout, req, clock, i);
    if ResolveSystem(graph, req.to[i]).Ok? {
      var h, to := HeaderOf(graph, req).value, ResolveSystem(graph, req.to[i]).value;
      RouteIsCheapest(ProblemFor(graph, scout, req, clock(i), h, to), h.from, to);
    }
  }

  // ---------------------------------------------------------------- transit exclusion

  /** Exempting the ends lets nothing the user avoids, nor Zarzakh, into the middle of a route. */
  lemma InteriorNotAvoided(c: Ctx, avoid: set<nat>, s: nat, t: nat, k: nat)
    requires c.avoid == avoid - {s} - {t} && FindRoute(Network(c), s, t).Some?
    requires 0 < k < |FindRoute(Network(c), s, t).value| - 1
    ensures FindRoute(Network(c), s, t).value[k] !in avoid
  {
    RouteIsCheapest(c, s, t);
    var p := FindRoute(Network(c), s, t).value;
    assert StepAt(c, p, k);
    assert p[k] != p[0] && p[k] != p[|p| - 1];
  }

  lemma TransitExclusion(graph: GraphData, scout: EveScoutSnapshot, req: GateRouteRequest, clock: nat -> int, i: nat, k: nat)
    requires graph.Valid() && GraphBuild.DistinctIds(graph.systems)
    requires GateRoute(graph, scout, req, clock).Ok? && i < |req.to|
    requires GateRoute(graph, scout, req, clock).value.results[i].outcome.Route?
    requires 0 < k < |GateRoute(graph, scout, req, clock).value.results[i].outcome.path| - 1
    ensures var id := GateRoute(graph, scout, req, clock).value.results[i].outcome.path[k].systemId;
            && (!req.inputs.includeZarzakh ==> id != ZARZAKH_SYSTEM_ID)
            && forall r :: r in req.inputs.avoid && ResolveSystem(graph, r).Ok? ==>
                 graph.systems[ResolveSystem(graph, r).value].id != id
  {
    hide ResolveSystem, GraphData.Valid, AvoidSet, Network, ScoutLinks, Enabled, Reachable, CanonicalPath;
    ResultAt(graph, scout, req, clock, i);
    var h := HeaderOf(graph, req).value;
    var to := ResolveSystem(graph, req.to[i]).value;
    var c := ProblemFor(graph, scout, req, clock(i), h, to);
    var p := FindRoute(Network(c), h.from, to).value;
    InteriorNotAvoided(c, h.avoid, h.from, to, k);
    CanonicalInMap(c, h.from, to);
    IdNotAvoided(graph, req.inputs, p[k]);
  }

  lemma IdNotAvoided(graph: GraphData, inputs: OverlayInputs, v: nat)
    requires graph.Valid() && GraphBuild.DistinctIds(graph.systems) && v < |graph.systems|
    requires AvoidSet(graph, inputs).Ok? && v !in AvoidSet(graph, inputs).value
    ensures !inputs.includeZarzakh ==> graph.systems[v].id != ZARZAKH_SYSTEM_ID
    ensures forall r :: r in inputs.avoid && ResolveSystem(graph, r).Ok? ==>
              graph.systems[ResolveSystem(graph, r).value].id != graph.systems[v].id
  {
    hide ResolveSystem, GraphData.Valid;
    GraphBuild.DistinctIdsResolve(graph, v);
    forall r | r in inputs.avoid && ResolveSystem(graph, r).Ok?
      ensures graph.systems[ResolveSystem(graph, r).value].id != graph.systems[v].id
    {
      AvoidedIsInSet(graph, inputs, r);
      GraphBuild.DistinctIdsResolve(graph, ResolveSystem(graph, r).value);
    }
  }

  lemma AvoidedIsInSet(graph: GraphData, inputs: OverlayInputs, r: SystemRef)
    requires r in inputs.avoid && AvoidSet(graph, inputs).Ok?
    ensures ResolveSystem(graph, r).Ok? && ResolveSystem(graph, r).value in AvoidSet(graph, inputs).value
  {
    hide ResolveSystem;
    var i :| 0 <= i < |inputs.avoid| && inputs.avoid[i] == r;
    assert ResolveSystem(graph, inputs.avoid[i]) == Ok(ResolveAll(graph, inputs.avoid).value[i]);
  }

  // ---------------------------------------------------------------- labels

  /** Every label after the first tells the truth; the "shouldn't happen" label never does. */
  lemma LabelsAreTrue(c: Ctx, s: nat, t: nat, k: nat)
    requires FindRoute(Network(c), s, t).Some? && k < |FindRoute(Network(c), s, t).value|
    ensures InMap(c, FindRoute(Network(c), s, t).value)
    ensures var p := FindRoute(Network(c), s, t).value;
            var via := StepsOf(c, p)[k].via;
            if k == 0 then via == Start
            else
              var kind := KindAt(c.overlay, p[k - 1], p[k]);
              && (via == Stargate <==> c.graph.HasGate(p[k - 1], p[k]))
              && (via == ViaWormhole <==> !c.graph.HasGate(p[k - 1], p[k]) && kind == Some(WormholeEdge))
              && (via == ViaBridge <==> !c.graph.HasGate(p[k - 1], p[k]) && kind == Some(BridgeEdge))
  {
    hide Network, FindRoute, StepOf, Ctx.Via;
    RouteIsCheapest(c, s, t);
    var p := FindRoute(Network(c), s, t).value;
    if k > 0 {
      assert StepAt(c, p, k);
    }
    LabelAt(c, p, k);
  }

  lemma LabelAt(c: Ctx, p: seq<nat>, k: nat)
    requires InMap(c, p) && k < |p| && (k > 0 ==> StepAt(c, p, k))
    ensures var via := StepOf(c, p, k).via;
            if k == 0 then via == Start
            else
              var gate, kind := c.graph.HasGate(p[k - 1], p[k]), KindAt(c.overlay, p[k - 1], p[k]);
              && (via == Stargate <==> gate)
              && (via == ViaWormhole <==> !gate && kind == Some(WormholeEdge))
              && (via == ViaBridge <==> !gate && kind == Some(BridgeEdge))
  {
  }

  ghost function CountVia(steps: seq<RouteStep>, vias: set<Via>): nat
    decreases |steps|
  {
    if steps == [] then 0
    else CountVia(steps[..|steps| - 1], vias) + if steps[|steps| - 1].via in vias then 1 else 0
  }

  lemma {:induction false} StepsCountOffGate(c: Ctx, p: seq<nat>)
    requires InMap(c, p)
    ensures CountVia(StepsOf(c, p), {ViaWormhole, ViaBridge}) == OffGate(c, p)
    ensures CountVia(StepsOf(c, p), {Stargate}) == |p| - 1 - OffGate(c, p)
    decreases |p|
  {
    var steps := StepsOf(c, p);
    if |p| == 1 {
      assert steps[..0] == [];
    } else {
      StepsCountOffGate(c, Front(p));
      assert steps[..|steps| - 1] == StepsOf(c, Front(p));
    }
  }

  /** Under PreferGates the least cost is read off the labels: 1 per stargate, 3 per connection. */
  lemma PreferGatesCostFromLabels(c: Ctx, s: nat, t: nat)
    requires c.preference == PreferGates && Reachable(Network(c), s, t)
    ensures InMap(c, CanonicalPath(Network(c), s, t))
    ensures var steps := StepsOf(c, CanonicalPath(Network(c), s, t));
            Dist(Network(c), s, t) == CountVia(steps, {Stargate}) + 3 * CountVia(steps, {ViaWormhole, ViaBridge})
  {
    var p := CanonicalPath(Network(c), s, t);
    CanonicalIsOptimal(Network(c), s, t);
    WeightByPreference(c, p);
    WalkWeight(c, p);
    StepsCountOffGate(c, p);
  }

  lemma {:induction false} FirstKindConcat(xs: seq<Link>, ys: seq<Link>, a: nat, b: nat)
    ensures FirstKind(xs + ys, a, b) == if FirstKind(xs, a, b).Some? then FirstKind(xs, a, b) else FirstKind(ys, a, b)
    decreases |ys|
  {
    if ys == [] {
      assert xs + ys == xs;
    } else {
      assert (xs + ys)[..|xs + ys| - 1] == xs + ys[..|ys| - 1];
      FirstKindConcat(xs, ys[..|ys| - 1], a, b);
    }
  }

  /** A pair the user connected keeps the user's kind, whatever signatures also join it. */
  lemma UserKindWins(graph: GraphData, scout: EveScoutSnapshot, req: GateRouteRequest, now: int, h: Header, to: nat,
                     a: nat, b: nat)
    requires FirstKind(Enabled(req.inputs, h.links), a, b).Some?
    ensures KindAt(ProblemFor(graph, scout, req, now, h, to).overlay, a, b) == FirstKind(Enabled(req.inputs, h.links), a, b)
  {
    var users, sigs := Enabled(req.inputs, h.links), ScoutLinks(graph, scout, req.inputs, {h.from, to}, now);
    OverlayAt(users + sigs, a, b);
    FirstKindConcat(users, sigs, a, b);
  }

  // ---------------------------------------------------------------- the trip back

  /** A single-destination request with its ends exchanged. */
  function Swapped(req: GateRouteRequest): GateRouteRequest
    requires |req.to| == 1
  {
    req.(from := req.to[0], to := [req.from])
  }

  /**
   * The swapped request is the same routing problem: it succeeds with the
   * original, under Shortest in as many jumps, and the least costs differ by
   * exactly the security penalties of the two ends (none outside Safest).
   */
  lemma ReverseRequest(graph: GraphData, scout: EveScoutSnapshot, req: GateRouteRequest, clock: nat -> int)
    requires graph.Valid() && |req.to| == 1
    requires GateRoute(graph, scout, req, clock).Ok? && ResolveSystem(graph, req.to[0]).Ok?
    ensures GateRoute(graph, scout, Swapped(req), clock).Ok?
    ensures var there := GateRoute(graph, scout, req, clock).value.results[0].outcome;
            var back := GateRoute(graph, scout, Swapped(req), clock).value.results[0].outcome;
            && there.Route? == back.Route?
            && (there.Route? && req.preference == Shortest ==> there.jumps == back.jumps)
    ensures var h, h' := HeaderOf(graph, req).value, HeaderOf(graph, Swapped(req)).value;
            var c := ProblemFor(graph, scout, req, clock(0), h, h'.from);
            && h'.from == ResolveSystem(graph, req.to[0]).value
            && c == ProblemFor(graph, scout, Swapped(req), clock(0), h', h.from)
            && (Reachable(Network(c), h.from, h'.from) ==>
                  && Reachable(Network(c), h'.from, h.from) && h.from < |graph.systems| && h'.from < |graph.systems|
                  && Dist(Network(c), h'.from, h.from) + Penalty(c, h'.from)
                     == Dist(Network(c), h.from, h'.from) + Penalty(c, h.from))
  {
    hide ResolveSystem, GraphData.Valid, ScoutLinks, Enabled;
    var h := HeaderOf(graph, req).value;
    var to := ResolveSystem(graph, req.to[0]).value;
    var h' := Header(to, h.avoid, h.links);
    assert HeaderOf(graph, Swapped(req)) == Ok(h');
    var c := ProblemFor(graph, scout, req, clock(0), h, to);
    assert {h.from, to} == {to, h.from};
    assert h.avoid - {h.from} - {to} == h.avoid - {to} - {h.from};
    assert ProblemFor(graph, scout, Swapped(req), clock(0), h', h.from) == c;
    OverlayIsSymmetric(OverlayLinks(graph, scout, req.inputs, h.links, {h.from, to}, clock(0)));
    BackAndForth(c, h.from, to);
    if Reachable(Network(c), h.from, to) {
      ReversalSymmetry(c, h.from, to);
    }
  }

  lemma BackAndForth(c: Ctx, s: nat, t: nat)
    requires Undirected(c) && s !in c.avoid && t !in c.avoid
    ensures OutcomeOf(c, s, t).Route? == OutcomeOf(c, t, s).Route?
    ensures OutcomeOf(c, s, t).Route? && c.preference == Shortest ==> OutcomeOf(c, s, t).jumps == OutcomeOf(c, t, s).jumps
  {
    if Reachable(Network(c), s, t) {
      ReversalSymmetry(c, s, t);
    }
    if Reachable(Network(c), t, s) {
      ReversalSymmetry(c, t, s);
    }
    if c.preference == Shortest {
      ShortestReversesJumps(c, s, t);
    }
  }

  // ---------------------------------------------------------------- monotonicity

  /** `b` asks for the same trip with no fewer connections, flags and signatures, and no more avoided. */
  ghost predicate Loosens(a: GateRouteRequest, b: GateRouteRequest) {
    && a.from == b.from && a.preference == b.preference
    && (forall r :: r in b.inputs.avoid ==> r in a.inputs.avoid)
    && (forall c :: c in a.inputs.connections ==> c in b.inputs.connections)
    && (a.inputs.includeZarzakh ==> b.inputs.includeZarzakh)
    && (a.inputs.useWormholes ==> b.inputs.useWormholes) && (a.inputs.useBridges ==> b.inputs.useBridges)
    && (a.inputs.includeThera ==> b.inputs.includeThera) && (a.inputs.includeTurnur ==> b.inputs.includeTurnur)
  }

  ghost predicate MoreSignatures(a: EveScoutSnapshot, b: EveScoutSnapshot) {
    (forall s :: s in a.thera ==> s in b.thera) && (forall s :: s in a.turnur ==> s in b.turnur)
  }

  lemma LooserAvoidSet(graph: GraphData, a: OverlayInputs, b: OverlayInputs)
    requires AvoidSet(graph, a).Ok? && AvoidSet(graph, b).Ok?
    requires (forall r :: r in b.avoid ==> r in a.avoid) && (a.includeZarzakh ==> b.includeZarzakh)
    ensures AvoidSet(graph, b).value <= AvoidSet(graph, a).value
  {
    hide ResolveSystem;
    var bs := ResolveAll(graph, b.avoid).value;
    forall v | v in bs
      ensures v in AvoidSet(graph, a).value
    {
      var i :| 0 <= i < |bs| && bs[i] == v;
      assert ResolveSystem(graph, b.avoid[i]) == Ok(v);
      AvoidedIsInSet(graph, a, b.avoid[i]);
    }
  }

  lemma LooserLinks(graph: GraphData, a: seq<Connection>, b: seq<Connection>, l: Link)
    requires ResolveConnections(graph, a).Ok? && ResolveConnections(graph, b).Ok?
    requires (forall c :: c in a ==> c in b) && l in ResolveConnections(graph, a).value
    ensures l in ResolveConnections(graph, b).value
  {
    hide ResolveConnection;
    var xs := ResolveConnections(graph, a).value;
    var i :| 0 <= i < |xs| && xs[i] == l;
    assert ResolveConnection(graph, a[i]) == Ok(l);
    assert a[i] in b;
    var j :| 0 <= j < |b| && b[j] == a[i];
    assert ResolveConnection(graph, b[j]) == Ok(ResolveConnections(graph, b).value[j]);
  }

  lemma MoreLinksMorePairs(xs: seq<Link>, ys: seq<Link>)
    requires forall l :: l in xs ==> l in ys
    ensures JoinAll(map[], xs).Keys <= JoinAll(map[], ys).Keys
  {
    forall e | e in JoinAll(map[], xs)
      ensures e in JoinAll(map[], ys)
    {
      var a: nat, b: nat := e.0, e.1;
      OverlayKeepsFirstKind(xs, a, b);
      OverlayKeepsFirstKind(ys, a, b);
      assert (a, b) in JoinAll(map[], xs);
      var i :| 0 <= i < |xs| && Joins(xs[i], a, b);
      assert xs[i] in ys;
      var j :| 0 <= j < |ys| && ys[j] == xs[i];
      assert Joins(ys[j], a, b);
      assert (a, b) in JoinAll(map[], ys);
    }
  }

  lemma LooserOverlay(graph: GraphData, scout: EveScoutSnapshot, scout': EveScoutSnapshot,
                      a: GateRouteRequest, b: GateRouteRequest, now: int, ends: set<nat>,
                      xs: seq<Link>, ys: seq<Link>, l: Link)
    requires Loosens(a, b) && MoreSignatures(scout, scout') && forall x :: x in xs ==> x in ys
    requires l in OverlayLinks(graph, scout, a.inputs, xs, ends, now)
    ensures l in OverlayLinks(graph, scout', b.inputs, ys, ends, now)
  {
    hide SignatureLink;
    if l !in Enabled(a.inputs, xs) {
      if l in LiveLinks(graph, scout.thera, now) && (a.inputs.includeThera || IsEndpoint(graph, THERA_SYSTEM_ID, ends)) {
        assert l in LiveLinks(graph, scout'.thera, now);
      } else {
        assert l in LiveLinks(graph, scout.turnur, now);
        assert l in LiveLinks(graph, scout'.turnur, now);
      }
    }
  }

  /**
   * Adding connections, flags or signatures, or avoiding less, never loses a
   * destination nor raises its least cost, under any preference.
   */
  lemma LooserRequestHelps(graph: GraphData, scout: EveScoutSnapshot, scout': EveScoutSnapshot,
                           a: GateRouteRequest, b: GateRouteRequest, now: int, to: nat)
    requires Loosens(a, b) && MoreSignatures(scout, scout')
    requires HeaderOf(graph, a).Ok? && HeaderOf(graph, b).Ok?
    ensures var h, h' := HeaderOf(graph, a).value, HeaderOf(graph, b).value;
            var g, g' := Network(ProblemFor(graph, scout, a, now, h, to)), Network(ProblemFor(graph, scout', b, now, h', to));
            && h.from == h'.from
            && (Reachable(g, h.from, to) ==> Reachable(g', h.from, to) && Dist(g', h.from, to) <= Dist(g, h.from, to))
  {
    hide ResolveSystem, ResolveAll, ResolveConnections, Enabled, ScoutLinks, Network;
    var h, h' := HeaderOf(graph, a).value, HeaderOf(graph, b).value;
    var c, d := ProblemFor(graph, scout, a, now, h, to), ProblemFor(graph, scout', b, now, h', to);
    LooserAvoidSet(graph, a.inputs, b.inputs);
    var ends := {h.from, to};
    var xs := OverlayLinks(graph, scout, a.inputs, h.links, ends, now);
    var ys := OverlayLinks(graph, scout', b.inputs, h'.links, ends, now);
    forall l | l in h.links ensures l in h'.links {
      LooserLinks(graph, a.inputs.connections, b.inputs.connections, l);
    }
    forall l | l in xs ensures l in ys {
      LooserOverlay(graph, scout, scout', a, b, now, ends, h.links, h'.links, l);
    }
    MoreLinksMorePairs(xs, ys);
    assert Widens(c, d);
    if Reachable(Network(c), h.from, to) {
      WideningHelps(c, d, h.from, to);
    }
  }

  /** Seen in the responses: a looser request keeps every route, under Shortest in no more jumps. */
  lemma LooserRequestKeepsRoutes(graph: GraphData, scout: EveScoutSnapshot, scout': EveScoutSnapshot,
                                 a: GateRouteRequest, b: GateRouteRequest, clock: nat -> int, i: nat)
    requires Loosens(a, b) && MoreSignatures(scout, scout') && a.to == b.to && i < |a.to|
    requires GateRoute(graph, scout, a, clock).Ok? && GateRoute(graph, scout', b, clock).Ok?
    requires GateRoute(graph, scout, a, clock).value.results[i].outcome.Route?
    ensures var before := GateRoute(graph, scout, a, clock).value.results[i].outcome;
            var after := GateRoute(graph, scout', b, clock).value.results[i].outcome;
            after.Route? && (a.preference == Shortest ==> after.jumps <= before.jumps)
  {
    hide ResolveSystem, AvoidSet, ResolveConnections, OverlayLinks, JoinAll, Network, StepsOf, CanonicalPath, Loosens, Reachable;
    ResultAt(graph, scout, a, clock, i);
    ResultAt(graph, scout', b, clock, i);
    var h, h' := HeaderOf(graph, a).value, HeaderOf(graph, b).value;
    var to := ResolveSystem(graph, a.to[i]).value;
    LooserRequestHelps(graph, scout, scout', a, b, clock(i), to);
    SamePreference(a, b);
    if a.preference == Shortest {
      JumpsAreDist(ProblemFor(graph, scout, a, clock(i), h, to), h.from, to);
      JumpsAreDist(ProblemFor(graph, scout', b, clock(i), h', to), h.from, to);
    }
  }

  lemma SamePreference(a: GateRouteRequest, b: GateRouteRequest)
    requires Loosens(a, b)
    ensures a.preference == b.preference
  {
  }
}
