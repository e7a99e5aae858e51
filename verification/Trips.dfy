/**
 * What a request asks for, read off the request itself: which systems its
 * references name, which hops its map, connections and signatures allow, and
 * which trip is best. Nothing here mentions the context the service builds or
 * the search it runs; the lemmas at the end tie the two together.
 */
module Trips {
  import opened Wrappers
  import opened Walks
  import opened Model
  import opened Routing
  import opened Preferences
  import opened RouteService
  import RouteProperties

  // ---------------------------------------------------------------- references

  predicate Bears(s: System, r: SystemRef) {
    match r
    case ById(id) => s.id == id
    case ByName(name) => SameName(s.name, name)
  }

  /** `v` is the last system that bears the id or, up to ASCII case, the name. */
  ghost predicate Refers(graph: GraphData, r: SystemRef, v: nat) {
    && v < |graph.systems| && Bears(graph.systems[v], r)
    && forall w :: v < w < |graph.systems| ==> !Bears(graph.systems[w], r)
  }

  ghost predicate Unknown(graph: GraphData, r: SystemRef) {
    forall v :: 0 <= v < |graph.systems| ==> !Bears(graph.systems[v], r)
  }

  /** The systems the shared part of a request mentions, in the order they are resolved. */
  function Mentioned(inputs: OverlayInputs): seq<SystemRef> {
    inputs.avoid + Ends(inputs.connections)
  }

  function Ends(cs: seq<Connection>): seq<SystemRef> {
    if cs == [] then [] else [cs[0].from, cs[0].to] + Ends(cs[1..])
  }

  /** The first of `refs` that no system bears. */
  ghost function FirstUnknown(graph: GraphData, refs: seq<SystemRef>): Option<SystemRef> {
    if refs == [] then None else if Unknown(graph, refs[0]) then Some(refs[0]) else FirstUnknown(graph, refs[1..])
  }

  // ---------------------------------------------------------------- hops

  /** `ends` are the systems whose hub needs no opt-in, `free` those exempt from the avoid list. */
  datatype Terms = Terms(
    graph: GraphData,
    scout: EveScoutSnapshot,
    inputs: OverlayInputs,
    ends: set<nat>,
    free: set<nat>,
    now: int)
  {
    predicate Gate(a: nat, b: nat) { (a, b) in graph.edges || (b, a) in graph.edges }

    /** A connection of a kind the request uses, between two systems, either way round. */
    ghost predicate Connects(c: Connection, a: nat, b: nat) {
      && a != b
      && (c.kind.WormholeEdge? ==> inputs.useWormholes) && (c.kind.BridgeEdge? ==> inputs.useBridges)
      && ((Refers(graph, c.from, a) && Refers(graph, c.to, b)) || (Refers(graph, c.from, b) && Refers(graph, c.to, a)))
    }

    /** The kind of the first of `cs` between `a` and `b`. */
    ghost function FirstConnection(cs: seq<Connection>, a: nat, b: nat): Option<EdgeKind> {
      if cs == [] then None else if Connects(cs[0], a, b) then Some(cs[0].kind) else FirstConnection(cs[1..], a, b)
    }

    ghost function UserKind(a: nat, b: nat): Option<EdgeKind> {
      FirstConnection(inputs.connections, a, b)
    }

    /** The hub's signatures may be used: it is opted in, or an end of the trip. */
    ghost predicate Open(hub: int, optIn: bool) {
      optIn || exists v :: v in ends && Refers(graph, ById(hub), v)
    }

    /** A signature not yet expired, between two systems of the map, either way round. */
    ghost predicate Leads(sig: Signature, a: nat, b: nat) {
      && a != b && sig.expiresAt > now
      && ((Refers(graph, ById(sig.outSystemId), a) && Refers(graph, ById(sig.inSystemId), b))
          || (Refers(graph, ById(sig.outSystemId), b) && Refers(graph, ById(sig.inSystemId), a)))
    }

    /** Thera is system 31000005, Turnur 30002086. */
    ghost predicate ScoutLink(a: nat, b: nat) {
      || (Open(31000005, inputs.includeThera) && exists sig :: sig in scout.thera && Leads(sig, a, b))
      || (Open(30002086, inputs.includeTurnur) && exists sig :: sig in scout.turnur && Leads(sig, a, b))
    }

    ghost predicate Hop(a: nat, b: nat) {
      Gate(a, b) || UserKind(a, b).Some? || ScoutLink(a, b)
    }

    /** In the user's avoid list, or Zarzakh (30100000) unless opted in. */
    ghost predicate Avoided(v: nat) {
      || (exists r :: r in inputs.avoid && Refers(graph, r, v))
      || (!inputs.includeZarzakh && Refers(graph, ById(30100000), v))
    }

    /** What a step over the hop is called; the user's connections outrank signatures, gates outrank both. */
    ghost predicate Labels(a: nat, b: nat, via: Via) {
      if Gate(a, b) then via == Stargate
      else if UserKind(a, b) == Some(BridgeEdge) then via == ViaBridge
      else via == ViaWormhole
    }
  }

  // ---------------------------------------------------------------- trips

  ghost predicate TripStep(w: Terms, p: seq<nat>, i: nat)
    requires 0 < i < |p|
  {
    w.Hop(p[i - 1], p[i]) && (p[i] in w.free || !w.Avoided(p[i]))
  }

  /** A way from `s` to `t` that enters nothing avoided, other than what is exempt. */
  ghost predicate IsTrip(w: Terms, s: nat, t: nat, p: seq<nat>) {
    && p != [] && p[0] == s && Last(p) == t
    && (forall i :: 0 <= i < |p| ==> p[i] < |w.graph.systems|)
    && (forall i :: 0 < i < |p| ==> TripStep(w, p, i))
  }

  ghost predicate HasTrip(w: Terms, s: nat, t: nat) {
    exists p :: IsTrip(w, s, t, p)
  }

  predicate Unsafe(graph: GraphData, v: nat) {
    v < |graph.systems| && graph.systems[v].secClass != Highsec
  }

  /** Systems entered that are not highsec. */
  ghost function UnsafeEntered(graph: GraphData, p: seq<nat>): nat
    decreases |p|
  {
    if |p| <= 1 then 0 else UnsafeEntered(graph, Front(p)) + if Unsafe(graph, Last(p)) then 1 else 0
  }

  /** Hops that are no stargate. */
  ghost function GatelessHops(w: Terms, p: seq<nat>): nat
    decreases |p|
  {
    if |p| <= 1 then 0 else GatelessHops(w, Front(p)) + if w.Gate(p[|p| - 2], Last(p)) then 0 else 1
  }

  /** Jumps, plus 10000 per unsafe system entered, or plus 2 per hop that is no stargate. */
  ghost function TripCost(w: Terms, pref: Preference, p: seq<nat>): int {
    |p| - 1 + match pref
              case Shortest => 0
              case Safest => 10_000 * UnsafeEntered(w.graph, p)
              case PreferGates => 2 * GatelessHops(w, p)
  }

  ghost predicate SaferTrip(graph: GraphData, p: seq<nat>, q: seq<nat>) {
    || UnsafeEntered(graph, p) < UnsafeEntered(graph, q)
    || (UnsafeEntered(graph, p) == UnsafeEntered(graph, q) && |p| <= |q|)
  }

  /**
   * The trip to return: no trip costs less, it repeats no system, and under
   * Safest, on up to 10001 systems, no trip is safer nor as safe and shorter.
   */
  ghost predicate BestTrip(w: Terms, pref: Preference, s: nat, t: nat, p: seq<nat>) {
    && IsTrip(w, s, t, p) && Simple(p)
    && (forall q :: IsTrip(w, s, t, q) ==> TripCost(w, pref, p) <= TripCost(w, pref, q))
    && (pref == Safest && |w.graph.systems| <= 10_001 ==> forall q :: IsTrip(w, s, t, q) ==> SaferTrip(w.graph, p, q))
  }

  /** The steps a response shows for a trip. */
  ghost predicate Shows(w: Terms, p: seq<nat>, steps: seq<RouteStep>) {
    && |steps| == |p| && forall i :: 0 <= i < |p| ==> ShowsAt(w, p, i, steps[i])
  }

  ghost predicate ShowsAt(w: Terms, p: seq<nat>, i: nat, step: RouteStep)
    requires i < |p|
  {
    && p[i] < |w.graph.systems|
    && var s := w.graph.systems[p[i]];
       && step.system == s.name && step.systemId == s.id && step.security == s.security && step.secClass == s.secClass
       && if i == 0 then step.via == Start else w.Labels(p[i - 1], p[i], step.via)
  }

  // ---------------------------------------------------------------- the service resolves what is referred to

  lemma BearsFolded(s: System, name: string)
    ensures Bears(s, ByName(name)) <==> Lower(s.name) == Lower(name)
  {
    FoldsTogetherIff(s.name, name);
  }

  lemma ResolvesName(graph: GraphData, name: string)
    requires graph.Valid()
    ensures Lower(name) in graph.nameToIdx ==> Refers(graph, ByName(name), graph.nameToIdx[Lower(name)])
    ensures Lower(name) !in graph.nameToIdx ==> Unknown(graph, ByName(name))
  {
    hide Lower, SameName, CatalogValid, Bears;
    var r := ByName(name);
    forall v | 0 <= v < |graph.systems|
      ensures Bears(graph.systems[v], r) ==> Lower(name) in graph.nameToIdx && v <= graph.nameToIdx[Lower(name)]
    {
      BearsFolded(graph.systems[v], name);
    }
    if Lower(name) in graph.nameToIdx {
      BearsFolded(graph.systems[graph.nameToIdx[Lower(name)]], name);
    }
  }

  lemma ResolvesIff(graph: GraphData, r: SystemRef)
    requires graph.Valid()
    ensures forall v: nat :: ResolveSystem(graph, r) == Ok(v) <==> Refers(graph, r, v)
    ensures ResolveSystem(graph, r).Err? <==> Unknown(graph, r)
    ensures ResolveSystem(graph, r).Err? ==> ResolveSystem(graph, r) == Err(UnknownSystem(r))
  {
    hide Lower, SameName, CatalogValid;
    if r.ByName? {
      ResolvesName(graph, r.name);
    }
    if ResolveSystem(graph, r).Ok? {
      assert Refers(graph, r, ResolveSystem(graph, r).value);
    }
  }

  /** An id resolves as a reference by id does. */
  lemma IdRefers(graph: GraphData, id: int, v: nat)
    requires graph.Valid()
    ensures id in graph.idToIdx && graph.idToIdx[id] == v <==> Refers(graph, ById(id), v)
  {
    ResolvesIff(graph, ById(id));
  }

  /** How resolving `refs` one after another ends. */
  ghost predicate EndsAs<T>(graph: GraphData, refs: seq<SystemRef>, res: Result<T, AppError>) {
    match FirstUnknown(graph, refs)
    case Some(r) => res == Err(UnknownSystem(r))
    case None => res.Ok?
  }

  lemma {:induction false} FirstUnknownConcat(graph: GraphData, xs: seq<SystemRef>, ys: seq<SystemRef>)
    ensures FirstUnknown(graph, xs + ys) ==
            if FirstUnknown(graph, xs).Some? then FirstUnknown(graph, xs) else FirstUnknown(graph, ys)
  {
    if xs == [] {
      assert xs + ys == ys;
    } else {
      assert (xs + ys)[1..] == xs[1..] + ys;
      FirstUnknownConcat(graph, xs[1..], ys);
    }
  }

  lemma {:induction false} AllEnd(graph: GraphData, refs: seq<SystemRef>)
    requires graph.Valid()
    ensures EndsAs(graph, refs, ResolveAll(graph, refs))
  {
    if refs != [] {
      hide GraphData.Valid, ResolveSystem, Unknown;
      ResolvesIff(graph, refs[0]);
      AllEnd(graph, refs[1..]);
    }
  }

  lemma {:induction false} ConnectionsEnd(graph: GraphData, cs: seq<Connection>)
    requires graph.Valid()
    ensures EndsAs(graph, Ends(cs), ResolveConnections(graph, cs))
  {
    if cs != [] {
      hide GraphData.Valid, ResolveSystem, Unknown;
      ResolvesIff(graph, cs[0].from);
      ResolvesIff(graph, cs[0].to);
      ConnectionsEnd(graph, cs[1..]);
      FirstUnknownConcat(graph, [cs[0].from, cs[0].to], Ends(cs[1..]));
      assert [cs[0].from, cs[0].to][1..] == [cs[0].to];
    }
  }

  // ---------------------------------------------------------------- the service's context allows what the terms allow

  lemma ResolvedIff(graph: GraphData, refs: seq<SystemRef>, v: nat)
    requires graph.Valid() && ResolveAll(graph, refs).Ok?
    ensures v in ResolveAll(graph, refs).value <==> exists r :: r in refs && Refers(graph, r, v)
  {
    hide GraphData.Valid, ResolveSystem, Refers;
    var nodes := ResolveAll(graph, refs).value;
    if v in nodes {
      var i :| 0 <= i < |nodes| && nodes[i] == v;
      ResolvesIff(graph, refs[i]);
    }
    if r :| r in refs && Refers(graph, r, v) {
      ResolvesIff(graph, r);
      var i :| 0 <= i < |refs| && refs[i] == r;
      assert nodes[i] == v;
    }
  }

  lemma AvoidedIff(w: Terms, avoid: set<nat>)
    requires w.graph.Valid() && AvoidSet(w.graph, w.inputs) == Ok(avoid)
    ensures forall v: nat :: v in avoid <==> w.Avoided(v)
  {
    hide GraphData.Valid, ResolveSystem, ResolveAll, Refers;
    forall v: nat
      ensures v in avoid <==> w.Avoided(v)
    {
      IdRefers(w.graph, 30100000, v);
      ResolvedIff(w.graph, w.inputs.avoid, v);
    }
  }

  lemma ConnectsIff(w: Terms, c: Connection, l: Link, a: nat, b: nat)
    requires w.graph.Valid() && ResolveConnection(w.graph, c) == Ok(l)
    ensures l.kind == c.kind && (Used(w.inputs, l.kind) && Joins(l, a, b) <==> w.Connects(c, a, b))
  {
    hide GraphData.Valid, ResolveSystem, Refers;
    ResolvesIff(w.graph, c.from);
    ResolvesIff(w.graph, c.to);
  }

  lemma {:induction false} FirstConnectionPush(w: Terms, cs: seq<Connection>, c: Connection, a: nat, b: nat)
    ensures w.FirstConnection(cs + [c], a, b) ==
            if w.FirstConnection(cs, a, b).Some? then w.FirstConnection(cs, a, b)
            else if w.Connects(c, a, b) then Some(c.kind) else None
  {
    hide Terms.Connects;
    if cs == [] {
      assert (cs + [c])[1..] == [];
    } else {
      assert (cs + [c])[1..] == cs[1..] + [c];
      FirstConnectionPush(w, cs[1..], c, a, b);
    }
  }

  lemma {:induction false} UserKindIs(w: Terms, cs: seq<Connection>, links: seq<Link>, a: nat, b: nat)
    requires w.graph.Valid() && |cs| == |links|
    requires forall i :: 0 <= i < |cs| ==> ResolveConnection(w.graph, cs[i]) == Ok(links[i])
    ensures FirstKind(Enabled(w.inputs, links), a, b) == w.FirstConnection(cs, a, b)
    decreases |cs|
  {
    hide *;
    if cs == [] {
      assert links == [];
      NoUserKind(w, a, b);
    } else {
      var m := |cs| - 1;
      UserKindIs(w, cs[..m], links[..m], a, b);
      UserKindStep(w, cs[..m], cs[m], links[..m], links[m], a, b);
      assert cs[..m] + [cs[m]] == cs;
      assert links[..m] + [links[m]] == links;
    }
  }

  lemma NoUserKind(w: Terms, a: nat, b: nat)
    ensures FirstKind(Enabled(w.inputs, []), a, b) == w.FirstConnection([], a, b)
  {
  }

  lemma UserKindStep(w: Terms, cs: seq<Connection>, c: Connection, links: seq<Link>, l: Link, a: nat, b: nat)
    requires w.graph.Valid() && ResolveConnection(w.graph, c) == Ok(l)
    requires FirstKind(Enabled(w.inputs, links), a, b) == w.FirstConnection(cs, a, b)
    ensures FirstKind(Enabled(w.inputs, links + [l]), a, b) == w.FirstConnection(cs + [c], a, b)
  {
    hide GraphData.Valid, ResolveConnection, Terms.Connects, Joins, Used, Enabled, FirstKind, Terms.FirstConnection;
    ConnectsIff(w, c, l, a, b);
    EnabledPush(w.inputs, links, l);
    FirstKindPush(Enabled(w.inputs, links), l, a, b);
    FirstConnectionPush(w, cs, c, a, b);
  }

  lemma FirstKindPush(links: seq<Link>, l: Link, a: nat, b: nat)
    ensures FirstKind(links + [l], a, b) ==
            if FirstKind(links, a, b).Some? then FirstKind(links, a, b) else if Joins(l, a, b) then Some(l.kind) else None
  {
    assert (links + [l])[..|links|] == links;
  }

  lemma {:induction false} OneKind(links: seq<Link>, a: nat, b: nat)
    requires forall l :: l in links ==> l.kind == WormholeEdge
    ensures FirstKind(links, a, b) == if exists l :: l in links && Joins(l, a, b) then Some(WormholeEdge) else None
    decreases |links|
  {
    if links != [] {
      var front, l := links[..|links| - 1], links[|links| - 1];
      assert links == front + [l];
      OneKind(front, a, b);
    }
  }

  lemma LeadsIff(w: Terms, sigs: seq<Signature>, a: nat, b: nat)
    requires w.graph.Valid()
    ensures (exists l :: l in LiveLinks(w.graph, sigs, w.now) && Joins(l, a, b)) <==> exists s :: s in sigs && w.Leads(s, a, b)
    ensures forall l :: l in LiveLinks(w.graph, sigs, w.now) ==> l.kind == WormholeEdge
  {
    hide GraphData.Valid, Refers;
    forall s | s in sigs
      ensures SignatureLink(w.graph, s, w.now).Some? && Joins(SignatureLink(w.graph, s, w.now).value, a, b) <==> w.Leads(s, a, b)
    {
      SignatureLeads(w, s, a, b);
    }
    if s :| s in sigs && w.Leads(s, a, b) {
      assert SignatureLink(w.graph, s, w.now).value in LiveLinks(w.graph, sigs, w.now);
    }
  }

  lemma SignatureLeads(w: Terms, s: Signature, a: nat, b: nat)
    requires w.graph.Valid()
    ensures SignatureLink(w.graph, s, w.now).Some? && Joins(SignatureLink(w.graph, s, w.now).value, a, b) <==> w.Leads(s, a, b)
  {
    hide GraphData.Valid, Refers;
    IdRefers(w.graph, s.outSystemId, a);
    IdRefers(w.graph, s.inSystemId, b);
    IdRefers(w.graph, s.outSystemId, b);
    IdRefers(w.graph, s.inSystemId, a);
  }

  lemma OpenIff(w: Terms, hub: int, optIn: bool)
    requires w.graph.Valid()
    ensures optIn || IsEndpoint(w.graph, hub, w.ends) <==> w.Open(hub, optIn)
  {
    hide GraphData.Valid, Refers;
    forall v: nat {
      IdRefers(w.graph, hub, v);
    }
  }

  lemma ScoutKindIff(w: Terms, a: nat, b: nat)
    requires w.graph.Valid()
    ensures FirstKind(ScoutLinks(w.graph, w.scout, w.inputs, w.ends, w.now), a, b) ==
            if w.ScoutLink(a, b) then Some(WormholeEdge) else None
  {
    hide GraphData.Valid, Terms.Leads, Terms.Open, IsEndpoint, Joins;
    OpenIff(w, 31000005, w.inputs.includeThera);
    OpenIff(w, 30002086, w.inputs.includeTurnur);
    LeadsIff(w, w.scout.thera, a, b);
    LeadsIff(w, w.scout.turnur, a, b);
    OneKind(ScoutLinks(w.graph, w.scout, w.inputs, w.ends, w.now), a, b);
  }

  /** The context routed over has the hops, labels and forbidden systems of the terms. */
  ghost predicate Realizes(c: Ctx, w: Terms) {
    && c.graph == w.graph
    && (forall a: nat, b: nat :: c.Adjacent(a, b) <==> w.Hop(a, b))
    && (forall a: nat, b: nat :: w.Hop(a, b) ==> w.Labels(a, b, c.Via(a, b)))
    && (forall v: nat :: v in c.avoid <==> v !in w.free && w.Avoided(v))
  }

  lemma HopIff(w: Terms, c: Ctx, links: seq<Link>, a: nat, b: nat)
    requires w.graph.Valid() && ResolveConnections(w.graph, w.inputs.connections) == Ok(links) && c.graph == w.graph
    requires c.overlay == JoinAll(map[], OverlayLinks(w.graph, w.scout, w.inputs, links, w.ends, w.now))
    ensures c.Adjacent(a, b) <==> w.Hop(a, b)
    ensures w.Hop(a, b) ==> w.Labels(a, b, c.Via(a, b))
  {
    hide GraphData.Valid, Terms.ScoutLink, Enabled, ScoutLinks, FirstKind, JoinAll, Terms.FirstConnection, ResolveConnection;
    var users, sigs := Enabled(w.inputs, links), ScoutLinks(w.graph, w.scout, w.inputs, w.ends, w.now);
    OverlayAt(users + sigs, a, b);
    RouteProperties.FirstKindConcat(users, sigs, a, b);
    UserKindIs(w, w.inputs.connections, links, a, b);
    ScoutKindIff(w, a, b);
  }

  lemma ProblemRealizes(w: Terms, pref: Preference, avoid: set<nat>, links: seq<Link>)
    requires w.graph.Valid() && AvoidSet(w.graph, w.inputs) == Ok(avoid)
    requires ResolveConnections(w.graph, w.inputs.connections) == Ok(links)
    ensures Realizes(ProblemOf(w.graph, w.scout, w.inputs, pref, avoid - w.free, links, w.ends, w.now), w)
  {
    hide GraphData.Valid, AvoidSet, ResolveConnection, OverlayLinks, JoinAll, Terms.Hop, Terms.Labels, Terms.Avoided, Ctx.Adjacent, Ctx.Via;
    AvoidedIff(w, avoid);
    var c := ProblemOf(w.graph, w.scout, w.inputs, pref, avoid - w.free, links, w.ends, w.now);
    forall a: nat, b: nat
      ensures c.Adjacent(a, b) <==> w.Hop(a, b)
      ensures w.Hop(a, b) ==> w.Labels(a, b, c.Via(a, b))
    {
      HopIff(w, c, links, a, b);
    }
  }

  lemma TripIsRoute(w: Terms, c: Ctx, s: nat, t: nat, p: seq<nat>)
    requires Realizes(c, w)
    ensures IsTrip(w, s, t, p) <==> IsRoute(c, s, t, p)
  {
    hide Ctx.Adjacent, Terms.Hop, Terms.Labels, Terms.Avoided, Ctx.Via;
    if p != [] && forall i :: 0 <= i < |p| ==> p[i] < |w.graph.systems| {
      forall i | 0 < i < |p|
        ensures TripStep(w, p, i) <==> StepAt(c, p, i)
      {
        assert p[i] in c.avoid <==> p[i] !in w.free && w.Avoided(p[i]);
      }
    }
  }

  lemma {:induction false} TripMeasures(w: Terms, c: Ctx, p: seq<nat>)
    requires Realizes(c, w) && IsWalk(Network(c), p)
    ensures InMap(c, p) && Risk(c, p) == UnsafeEntered(w.graph, p) && OffGate(c, p) == GatelessHops(w, p)
    ensures RouteWeight(c, p) == TripCost(w, c.preference, p)
    decreases |p|
  {
    WeightByPreference(c, p);
    if |p| > 1 {
      TripMeasures(w, c, Front(p));
      assert (p[|p| - 2], Last(p)) in Network(c).cost;
      LabelIsGate(w, c, p[|p| - 2], Last(p));
    }
  }

  lemma LabelIsGate(w: Terms, c: Ctx, a: nat, b: nat)
    requires Realizes(c, w) && c.Adjacent(a, b)
    ensures c.Via(a, b) == Stargate <==> w.Gate(a, b)
  {
  }

  /** A search over the context finds a trip exactly when there is one, and then the best. */
  lemma CanonicalIsBestTrip(w: Terms, c: Ctx, s: nat, t: nat)
    requires Realizes(c, w)
    ensures Reachable(Network(c), s, t) <==> HasTrip(w, s, t)
    ensures Reachable(Network(c), s, t) ==>
              && BestTrip(w, c.preference, s, t, CanonicalPath(Network(c), s, t))
              && InMap(c, CanonicalPath(Network(c), s, t))
              && Shows(w, CanonicalPath(Network(c), s, t), StepsOf(c, CanonicalPath(Network(c), s, t)))
  {
    hide IsTrip, IsRoute, Realizes, Network, Simple, RouteWeight, TripCost, UnsafeEntered, Risk, Shows, StepsOf;
    forall p: seq<nat> {
      TripIsRoute(w, c, s, t, p);
    }
    RouteIsCheapest(c, s, t);
    RoutesAreWalks(c, s, t);
    SameSystems(w, c);
    if Reachable(Network(c), s, t) {
      var p := CanonicalPath(Network(c), s, t);
      TripMeasures(w, c, p);
      forall q | IsTrip(w, s, t, q)
        ensures TripCost(w, c.preference, p) <= TripCost(w, c.preference, q)
        ensures c.preference == Safest && |w.graph.systems| <= 10_001 ==> SaferTrip(w.graph, p, q)
      {
        TripMeasures(w, c, q);
        if c.preference == Safest && |w.graph.systems| <= 10_001 {
          SafestIsLexicographic(c, s, t, q);
        }
      }
      StepsShow(w, c, s, t, p);
    }
  }

  lemma SameSystems(w: Terms, c: Ctx)
    requires Realizes(c, w)
    ensures c.graph == w.graph
  {
  }

  lemma StepsShow(w: Terms, c: Ctx, s: nat, t: nat, p: seq<nat>)
    requires Realizes(c, w) && IsRoute(c, s, t, p)
    ensures InMap(c, p) && Shows(w, p, StepsOf(c, p))
  {
    hide Ctx.Adjacent, Terms.Hop, Terms.Labels, Terms.Avoided, Ctx.Via;
    forall i | 0 <= i < |p|
      ensures ShowsAt(w, p, i, StepsOf(c, p)[i])
    {
      if i > 0 {
        assert StepAt(c, p, i);
      }
    }
  }

  // ---------------------------------------------------------------- what the route service answers

  /** The outcome shows the best trip there is, or says that there is none. */
  ghost predicate IsBestOutcome(w: Terms, pref: Preference, s: nat, t: nat, o: Outcome) {
    if HasTrip(w, s, t) then
      o.Route? && exists p :: BestTrip(w, pref, s, t, p) && o.jumps == |p| - 1 && Shows(w, p, o.path)
    else o == Failure(Unreachable)
  }

  /** The terms of a route between two systems: both ends open their hub and are exempt from the avoid list. */
  function RouteTerms(graph: GraphData, scout: EveScoutSnapshot, inputs: OverlayInputs, s: nat, t: nat, now: int): Terms {
    Terms(graph, scout, inputs, {s, t}, {s, t}, now)
  }

  /**
   * Every request, read off the request: refused for the number of destinations,
   * else for the first unknown system of the shared part, else each destination
   * gets its own error, or the best trip, or `Unreachable` exactly when none exists.
   */
  ghost predicate IsRouteAnswer(graph: GraphData, scout: EveScoutSnapshot, req: GateRouteRequest, clock: nat -> int,
                                res: Result<GateRouteResponse, AppError>)
  {
    if |req.to| == 0 || |req.to| > 1000 then res == Err(InvalidParam)
    else
      match FirstUnknown(graph, [req.from] + Mentioned(req.inputs))
      case Some(r) => res == Err(UnknownSystem(r))
      case None =>
        && res.Ok? && res.value.from == req.from && |res.value.results| == |req.to|
        && forall i :: 0 <= i < |req.to| ==>
             res.value.results[i].to == req.to[i] && IsDestinationAnswer(graph, scout, req, clock(i), req.to[i], res.value.results[i].outcome)
  }

  ghost predicate IsDestinationAnswer(graph: GraphData, scout: EveScoutSnapshot, req: GateRouteRequest, now: int,
                                      to: SystemRef, o: Outcome)
  {
    && (Unknown(graph, to) ==> o == Failure(UnknownSystem(to)))
    && forall s: nat, t: nat :: Refers(graph, req.from, s) && Refers(graph, to, t) ==>
         IsBestOutcome(RouteTerms(graph, scout, req.inputs, s, t, now), req.preference, s, t, o)
  }

  lemma HeaderEnds(graph: GraphData, req: GateRouteRequest)
    requires graph.Valid() && 0 < |req.to| <= 1000
    ensures EndsAs(graph, [req.from] + Mentioned(req.inputs), HeaderOf(graph, req))
  {
    hide GraphData.Valid, ResolveSystem, Unknown, ResolveAll, ResolveConnections;
    ResolvesIff(graph, req.from);
    AllEnd(graph, req.inputs.avoid);
    ConnectionsEnd(graph, req.inputs.connections);
    FirstUnknownConcat(graph, req.inputs.avoid, Ends(req.inputs.connections));
    FirstUnknownConcat(graph, [req.from], Mentioned(req.inputs));
    assert [req.from][1..] == [];
  }

  /** The service's response is the answer the request asks for. */
  lemma RouteAnswersTheRequest(graph: GraphData, scout: EveScoutSnapshot, req: GateRouteRequest, clock: nat -> int)
    requires graph.Valid()
    ensures IsRouteAnswer(graph, scout, req, clock, GateRoute(graph, scout, req, clock))
  {
    hide GraphData.Valid, FirstUnknown, Answer, IsDestinationAnswer;
    if 0 < |req.to| <= 1000 {
      HeaderEnds(graph, req);
      if HeaderOf(graph, req).Ok? {
        var h := HeaderOf(graph, req).value;
        forall i | 0 <= i < |req.to|
          ensures IsDestinationAnswer(graph, scout, req, clock(i), req.to[i], GateRoute(graph, scout, req, clock).value.results[i].outcome)
        {
          DestinationAnswersTheRequest(graph, scout, req, clock(i), h, req.to[i]);
        }
      }
    }
  }

  lemma DestinationAnswersTheRequest(graph: GraphData, scout: EveScoutSnapshot, req: GateRouteRequest, now: int,
                                     h: Header, toRef: SystemRef)
    requires graph.Valid() && HeaderOf(graph, req) == Ok(h)
    ensures IsDestinationAnswer(graph, scout, req, now, toRef, Answer(graph, scout, req, now, h, toRef))
  {
    hide GraphData.Valid, ResolveSystem, Refers, Unknown, AvoidSet, ResolveConnections, ProblemOf, IsBestOutcome, OutcomeOf;
    ResolvesIff(graph, toRef);
    ResolvesIff(graph, req.from);
    if ResolveSystem(graph, toRef).Ok? {
      var to := ResolveSystem(graph, toRef).value;
      var w := RouteTerms(graph, scout, req.inputs, h.from, to, now);
      assert h.avoid - {h.from} - {to} == h.avoid - w.free;
      ProblemRealizes(w, req.preference, h.avoid, h.links);
      OutcomeIsBest(w, ProblemFor(graph, scout, req, now, h, to), h.from, to);
      PreferenceOf(graph, scout, req, now, h, to);
    }
  }

  lemma PreferenceOf(graph: GraphData, scout: EveScoutSnapshot, req: GateRouteRequest, now: int, h: Header, to: nat)
    ensures ProblemFor(graph, scout, req, now, h, to).preference == req.preference
  {
  }

  lemma OutcomeIsBest(w: Terms, c: Ctx, s: nat, t: nat)
    requires Realizes(c, w)
    ensures IsBestOutcome(w, c.preference, s, t, OutcomeOf(c, s, t))
  {
    hide Realizes, HasTrip, BestTrip, Shows, StepsOf, CanonicalPath, Reachable, Network;
    CanonicalIsBestTrip(w, c, s, t);
  }
}
