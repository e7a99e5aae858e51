/**
 * What the routing core promises of a route, stated over systems, gates,
 * connections and preferences rather than over the weighted network.
 */
module Preferences {
  import opened Walks
  import opened Search
  import opened Model
  import opened Routing

  /** Step `i` of `p` is over a gate or a connection, into a system not avoided. */
  ghost predicate StepAt(c: Ctx, p: seq<nat>, i: nat)
    requires 0 < i < |p|
  {
    c.Adjacent(p[i - 1], p[i]) && p[i] !in c.avoid
  }

  ghost predicate IsRoute(c: Ctx, s: nat, t: nat, p: seq<nat>) {
    && p != [] && p[0] == s && Last(p) == t
    && (forall i :: 0 <= i < |p| ==> p[i] < |c.graph.systems|)
    && (forall i :: 0 < i < |p| ==> StepAt(c, p, i))
  }

  ghost predicate InMap(c: Ctx, p: seq<nat>) {
    p != [] && forall i :: 0 <= i < |p| ==> p[i] < |c.graph.systems|
  }

  /** The sum of the edge weights along a route. */
  ghost function RouteWeight(c: Ctx, p: seq<nat>): nat
    requires InMap(c, p)
    decreases |p|
  {
    if |p| == 1 then 0 else RouteWeight(c, Front(p)) + c.Weight(p[|p| - 2], Last(p))
  }

  /** A route is a shorter route and one more step. */
  lemma RouteGrows(c: Ctx, p: seq<nat>)
    requires |p| > 1
    ensures IsRoute(c, p[0], Last(p), p) <==>
            && IsRoute(c, Front(p)[0], Last(Front(p)), Front(p))
            && Last(p) < |c.graph.systems| && StepAt(c, p, |p| - 1)
  {
    hide Ctx.Adjacent;
    var q := Front(p);
    assert forall i :: 0 < i < |q| ==> (StepAt(c, q, i) <==> StepAt(c, p, i));
    if IsRoute(c, p[0], Last(p), p) {
      assert forall i :: 0 < i < |q| ==> StepAt(c, q, i);
    }
    if IsRoute(c, q[0], Last(q), q) && Last(p) < |c.graph.systems| && StepAt(c, p, |p| - 1) {
      forall i | 0 < i < |p| ensures StepAt(c, p, i) {
        assert i < |q| ==> StepAt(c, q, i);
      }
    }
  }

  lemma {:induction false} WalkIsRoute(c: Ctx, p: seq<nat>)
    requires IsWalk(Network(c), p)
    ensures IsRoute(c, p[0], Last(p), p)
    decreases |p|
  {
    if |p| > 1 {
      hide IsRoute, Network, Ctx.Adjacent;
      WalkIsRoute(c, Front(p));
      assert (p[|p| - 2], Last(p)) in Network(c).cost;
      RouteGrows(c, p);
    }
  }

  lemma {:induction false} RouteIsWalk(c: Ctx, p: seq<nat>)
    requires p != [] && IsRoute(c, p[0], Last(p), p)
    ensures IsWalk(Network(c), p)
    decreases |p|
  {
    if |p| > 1 {
      hide IsRoute, Network, Ctx.Adjacent;
      RouteGrows(c, p);
      RouteIsWalk(c, Front(p));
      LastInRange(c, Front(p));
    }
  }

  lemma LastInRange(c: Ctx, p: seq<nat>)
    requires p != [] && IsRoute(c, p[0], Last(p), p)
    ensures Last(p) < |c.graph.systems|
  {
  }

  lemma {:induction false} WalkWeight(c: Ctx, p: seq<nat>)
    requires IsWalk(Network(c), p)
    ensures InMap(c, p) && RouteWeight(c, p) == Cost(Network(c), p)
    decreases |p|
  {
    hide Network, Ctx.Steps, Ctx.Weight;
    if |p| > 1 {
      WalkWeight(c, Front(p));
      assert (p[|p| - 2], Last(p)) in Network(c).cost;
    }
  }

  lemma RoutesAreWalks(c: Ctx, s: nat, t: nat)
    ensures forall p :: IsRoute(c, s, t, p) <==> Between(Network(c), s, t, p)
    ensures forall p :: Between(Network(c), s, t, p) ==>
              InMap(c, p) && RouteWeight(c, p) == Cost(Network(c), p)
  {
    forall p: seq<nat>
      ensures IsRoute(c, s, t, p) <==> Between(Network(c), s, t, p)
    {
      if IsRoute(c, s, t, p) {
        RouteIsWalk(c, p);
      }
      if Between(Network(c), s, t, p) {
        WalkIsRoute(c, p);
      }
    }
    forall p | Between(Network(c), s, t, p) {
      WalkWeight(c, p);
    }
  }

  /** A route is found exactly when one exists; it is the cheapest and repeats no system. */
  lemma RouteIsCheapest(c: Ctx, s: nat, t: nat)
    ensures var r := FindRoute(Network(c), s, t);
            && (r.Some? <==> exists q :: IsRoute(c, s, t, q))
            && (r.Some? ==> IsRoute(c, s, t, r.value) && Simple(r.value)
                            && forall q :: IsRoute(c, s, t, q) ==> RouteWeight(c, r.value) <= RouteWeight(c, q))
  {
    RoutesAreWalks(c, s, t);
    var g := Network(c);
    if q :| IsRoute(c, s, t, q) {
      assert Between(g, s, t, q);
    }
    if Reachable(g, s, t) {
      CanonicalIsOptimal(g, s, t);
      CanonicalIsSimple(g, s, t);
    }
  }

  // ---------------------------------------------------------------- only the edge set matters

  /** The same map to a traveller: edge order, connection order and connection kinds aside. */
  ghost predicate SameEdges(c: Ctx, d: Ctx) {
    && |c.graph.systems| == |d.graph.systems| && c.preference == d.preference
    && (forall v :: 0 <= v < |c.graph.systems| ==> c.graph.systems[v].secClass == d.graph.systems[v].secClass)
    && (forall a: nat, b: nat :: c.Steps(a, b) == d.Steps(a, b))
    && (c.preference.PreferGates? ==> forall a: nat, b: nat :: c.graph.HasGate(a, b) == d.graph.HasGate(a, b))
  }

  lemma RouteDependsOnEdgesOnly(c: Ctx, d: Ctx, s: nat, t: nat)
    requires SameEdges(c, d)
    ensures FindRoute(Network(c), s, t) == FindRoute(Network(d), s, t)
  {
    var g, h := Network(c), Network(d);
    forall e | e in g.cost
      ensures e in h.cost && g.cost[e] == h.cost[e]
    {
      assert c.Steps(e.0, e.1) && d.Steps(e.0, e.1);
    }
    forall e | e in h.cost
      ensures e in g.cost
    {
      assert c.Steps(e.0, e.1);
    }
    assert g.cost == h.cost;
  }

  // ---------------------------------------------------------------- avoided ends

  /**
   * Avoiding the source changes nothing: the filter is on systems entered, and
   * no route re-enters its start. The comment at src/routing.rs:69-70, that an
   * avoided source yields no route, does not describe the code.
   */
  lemma AvoidedSourceIsIgnored(c: Ctx, s: nat, t: nat)
    ensures FindRoute(Network(c), s, t) == FindRoute(Network(c.(avoid := c.avoid + {s})), s, t)
  {
    hide CanonicalPath;
    var d := c.(avoid := c.avoid + {s});
    var g, h := Network(c), Network(d);
    assert forall e :: e in h.cost ==> c.Steps(e.0, e.1) && c.Weight(e.0, e.1) == d.Weight(e.0, e.1);
    assert forall e :: e in g.cost && e.1 != s ==> d.Steps(e.0, e.1);
    SameDistWithoutReturns(g, h, s, t);
    if Reachable(g, s, t) {
      SamePathWithoutReturns(g, h, s, t);
    }
  }

  /**
   * So a route found can hold an avoided system, and does exactly when its
   * source is one: the condition a caller can read off the request.
   */
  lemma AvoidedOnRouteIff(c: Ctx, s: nat, t: nat)
    requires FindRoute(Network(c), s, t).Some?
    ensures var p := FindRoute(Network(c), s, t).value;
            (exists i :: 0 <= i < |p| && p[i] in c.avoid) <==> s in c.avoid
  {
    RouteIsCheapest(c, s, t);
    var p := FindRoute(Network(c), s, t).value;
    assert p[0] == s;
    forall i | 0 < i < |p| ensures p[i] !in c.avoid {
      assert StepAt(c, p, i);
    }
  }

  /** Two systems, one gate, the first avoided: the route to the second is found and starts at the avoided one. */
  lemma AvoidedSourceExample(c: Ctx)
    requires |c.graph.systems| == 2 && c.graph.edges == [(0, 1)] && c.avoid == {0}
    ensures var r := FindRoute(Network(c), 0, 1);
            r.Some? && r.value != [] && r.value[0] in c.avoid
  {
    var q := [0, 1];
    assert StepAt(c, q, 1);
    assert IsRoute(c, 0, 1, q);
    RouteIsCheapest(c, 0, 1);
  }

  /** An avoided target is reached only from itself. */
  lemma AvoidedTargetIsUnreachable(c: Ctx, s: nat, t: nat)
    requires t in c.avoid
    ensures FindRoute(Network(c), s, t).Some? <==> s == t < |c.graph.systems|
  {
    RouteIsCheapest(c, s, t);
    if q :| IsRoute(c, s, t, q) {
      assert |q| == 1 by {
        assert |q| > 1 ==> !StepAt(c, q, |q| - 1);
      }
    }
    if s == t < |c.graph.systems| {
      assert IsRoute(c, s, t, [s]);
    }
  }

  // ---------------------------------------------------------------- weights by preference

  /** Systems entered after the first that are not highsec. */
  ghost function Risk(c: Ctx, p: seq<nat>): nat
    requires InMap(c, p)
    decreases |p|
  {
    if |p| == 1 then 0
    else Risk(c, Front(p)) + if c.graph.systems[Last(p)].secClass != Highsec then 1 else 0
  }

  /** Steps labelled wormhole or bridge. */
  ghost function OffGate(c: Ctx, p: seq<nat>): nat
    requires p != []
    decreases |p|
  {
    if |p| == 1 then 0
    else OffGate(c, Front(p)) + if c.Via(p[|p| - 2], Last(p)) != Stargate then 1 else 0
  }

  lemma StepWeight(c: Ctx, a: nat, b: nat)
    requires c.Adjacent(a, b) && b < |c.graph.systems|
    ensures c.Weight(a, b) == 1 +
                              match c.preference
                              case Shortest => 0
                              case Safest => if c.graph.systems[b].secClass != Highsec then 10_000 else 0
                              case PreferGates => if c.Via(a, b) != Stargate then 2 else 0
  {
  }

  lemma {:induction false} WeightByPreference(c: Ctx, p: seq<nat>)
    requires IsWalk(Network(c), p)
    ensures InMap(c, p)
    ensures RouteWeight(c, p) == |p| - 1 +
                                 match c.preference
                                 case Shortest => 0
                                 case Safest => 10_000 * Risk(c, p)
                                 case PreferGates => 2 * OffGate(c, p)
    decreases |p|
  {
    hide Ctx.Weight, Ctx.Via, Ctx.Adjacent;
    WalkWeight(c, p);
    if |p| > 1 {
      WeightByPreference(c, Front(p));
      assert (p[|p| - 2], Last(p)) in Network(c).cost;
      StepWeight(c, p[|p| - 2], Last(p));
    }
  }

  // ---------------------------------------------------------------- Shortest

  lemma ShortestHasFewestJumps(c: Ctx, s: nat, t: nat, q: seq<nat>)
    requires c.preference == Shortest && IsRoute(c, s, t, q)
    ensures FindRoute(Network(c), s, t).Some? && |FindRoute(Network(c), s, t).value| <= |q|
  {
    RoutesAreWalks(c, s, t);
    RouteIsCheapest(c, s, t);
    WeightByPreference(c, q);
    WeightByPreference(c, FindRoute(Network(c), s, t).value);
  }

  /** Under Shortest the jumps returned are the least cost. */
  lemma JumpsAreDist(c: Ctx, s: nat, t: nat)
    requires c.preference == Shortest && Reachable(Network(c), s, t)
    ensures |CanonicalPath(Network(c), s, t)| - 1 == Dist(Network(c), s, t)
  {
    CanonicalIsOptimal(Network(c), s, t);
    WeightByPreference(c, CanonicalPath(Network(c), s, t));
    WalkWeight(c, CanonicalPath(Network(c), s, t));
  }

  // ---------------------------------------------------------------- Safest

  /** The network whose weights count non-highsec systems. */
  ghost function RiskNet(c: Ctx): (h: Net)
    ensures h.n == |c.graph.systems| && h.cost.Keys == Network(c).cost.Keys
    ensures forall e :: e in h.cost ==>
              e.1 < h.n && h.cost[e] == if c.graph.systems[e.1].secClass != Highsec then 1 else 0
  {
    var g := Network(c);
    Net(g.n, map e | e in g.cost :: if c.graph.systems[e.1].secClass != Highsec then 1 else 0)
  }

  lemma {:induction false} RiskIsCost(c: Ctx, p: seq<nat>)
    requires IsWalk(Network(c), p)
    ensures InMap(c, p) && IsWalk(RiskNet(c), p) && Cost(RiskNet(c), p) == Risk(c, p)
    decreases |p|
  {
    WalkWeight(c, p);
    if |p| > 1 {
      RiskIsCost(c, Front(p));
      assert (p[|p| - 2], Last(p)) in RiskNet(c).cost;
    }
  }

  /** Fewer non-highsec systems, or as many and no more jumps. */
  ghost predicate SaferOrEqual(c: Ctx, p: seq<nat>, q: seq<nat>)
    requires InMap(c, p) && InMap(c, q)
  {
    Risk(c, p) < Risk(c, q) || (Risk(c, p) == Risk(c, q) && |p| <= |q|)
  }

  /** On any map, Safest is at least as safe as every route of up to 10000 jumps. */
  lemma SafestBeatsShortEnough(c: Ctx, s: nat, t: nat, q: seq<nat>)
    requires c.preference == Safest && IsRoute(c, s, t, q) && |q| <= 10_001
    ensures var r := FindRoute(Network(c), s, t);
            r.Some? && InMap(c, r.value) && SaferOrEqual(c, r.value, q)
  {
    RoutesAreWalks(c, s, t);
    RouteIsCheapest(c, s, t);
    var p := FindRoute(Network(c), s, t).value;
    WeightByPreference(c, p);
    WeightByPreference(c, q);
    if |p| == 1 {
      assert p == [s];
    }
  }

  /** Every route has a detour-free one at least as safe, no longer than the map. */
  lemma SaferWithoutDetours(c: Ctx, s: nat, t: nat, q: seq<nat>) returns (x: seq<nat>)
    requires IsRoute(c, s, t, q)
    ensures IsRoute(c, s, t, x) && |x| <= |c.graph.systems| && SaferOrEqual(c, x, q)
  {
    RoutesAreWalks(c, s, t);
    x := Simplify(Network(c), RiskNet(c), q);
    RiskIsCost(c, q);
    RiskIsCost(c, x);
    SimpleIsShort(Network(c), x);
  }

  /**
   * On a map of up to 10001 systems, Safest enters the fewest non-highsec
   * systems of all routes and, among those routes, makes the fewest jumps.
   */
  lemma SafestIsLexicographic(c: Ctx, s: nat, t: nat, q: seq<nat>)
    requires c.preference == Safest && |c.graph.systems| <= 10_001
    requires IsRoute(c, s, t, q)
    ensures var r := FindRoute(Network(c), s, t);
            r.Some? && InMap(c, r.value) && SaferOrEqual(c, r.value, q)
  {
    var x := SaferWithoutDetours(c, s, t, q);
    SafestBeatsShortEnough(c, s, t, x);
  }

  lemma {:induction false} NoRiskMeansHighsec(c: Ctx, p: seq<nat>, i: nat)
    requires InMap(c, p) && Risk(c, p) == 0 && 0 < i < |p|
    ensures c.graph.systems[p[i]].secClass == Highsec
    decreases |p|
  {
    if i < |p| - 1 {
      NoRiskMeansHighsec(c, Front(p), i);
    }
  }

  lemma {:induction false} HighsecMeansNoRisk(c: Ctx, p: seq<nat>)
    requires InMap(c, p) && forall i :: 0 < i < |p| ==> c.graph.systems[p[i]].secClass == Highsec
    ensures Risk(c, p) == 0
    decreases |p|
  {
    if |p| > 1 {
      HighsecMeansNoRisk(c, Front(p));
    }
  }

  /** On any map: if a route stays in highsec after its start for up to 10000 jumps, so does the one returned. */
  lemma SafestStaysInHighsec(c: Ctx, s: nat, t: nat, q: seq<nat>)
    requires c.preference == Safest && (|c.graph.systems| <= 10_001 || |q| <= 10_001)
    requires IsRoute(c, s, t, q) && forall i :: 0 < i < |q| ==> c.graph.systems[q[i]].secClass == Highsec
    ensures var r := FindRoute(Network(c), s, t);
            && r.Some? && InMap(c, r.value)
            && forall i :: 0 < i < |r.value| ==> c.graph.systems[r.value[i]].secClass == Highsec
  {
    HighsecMeansNoRisk(c, q);
    if |q| <= 10_001 {
      SafestBeatsShortEnough(c, s, t, q);
    } else {
      SafestIsLexicographic(c, s, t, q);
    }
    var p := FindRoute(Network(c), s, t).value;
    forall i | 0 < i < |p| {
      NoRiskMeansHighsec(c, p, i);
    }
  }

  // ---------------------------------------------------------------- PreferGates

  /** Every step of `q` is a stargate. */
  ghost predicate AllGates(c: Ctx, q: seq<nat>) {
    forall i :: 0 < i < |q| ==> c.graph.HasGate(q[i - 1], q[i])
  }

  lemma {:induction false} AllGatesIsOnGate(c: Ctx, q: seq<nat>)
    requires q != [] && AllGates(c, q)
    ensures OffGate(c, q) == 0
    decreases |q|
  {
    if |q| > 1 {
      AllGatesIsOnGate(c, Front(q));
    }
  }

  /** A route with k connection hops is at least 2k jumps shorter than every all-gate route. */
  lemma ConnectionsPayForThemselves(c: Ctx, s: nat, t: nat, q: seq<nat>)
    requires c.preference == PreferGates && IsRoute(c, s, t, q) && AllGates(c, q)
    ensures var r := FindRoute(Network(c), s, t);
            r.Some? && r.value != [] && |r.value| + 2 * OffGate(c, r.value) <= |q|
  {
    RoutesAreWalks(c, s, t);
    RouteIsCheapest(c, s, t);
    WeightByPreference(c, q);
    WeightByPreference(c, FindRoute(Network(c), s, t).value);
    AllGatesIsOnGate(c, q);
  }

  /** Gates A - B - C - D and one connection A - D. */
  ghost predicate IsTieExample(c: Ctx) {
    && |c.graph.systems| == 4 && c.preference == PreferGates && c.avoid == {}
    && c.graph.edges == [(0, 1), (1, 2), (2, 3)]
    && c.overlay == map[(0, 3) := WormholeEdge, (3, 0) := WormholeEdge]
  }

  lemma TieEdges(c: Ctx)
    requires IsTieExample(c)
    ensures var g := Network(c);
            && (0, 3) in g.cost && g.cost[(0, 3)] == 3
            && forall e :: e in g.cost ==> e.1 <= e.0 + g.cost[e]
  {
    hide Network;
    var g := Network(c);
    forall e | e in g.cost
      ensures e.1 <= e.0 + g.cost[e]
    {
      assert c.graph.HasGate(e.0, e.1) || e in c.overlay;
    }
  }

  /**
   * Saving exactly the penalty is enough: in the example both ways cost 3, and
   * the connection is kept. The wording "more than 2 jumps" at
   * src/routing.rs:30-32 therefore fails on a tie; StrictSavingIff says exactly
   * when it holds, NoTieMeansWorthIt gives a condition on the map alone.
   */
  lemma TieMayKeepConnection(c: Ctx)
    requires IsTieExample(c)
    ensures FindRoute(Network(c), 0, 3).Some? && FindRoute(Network(c), 0, 3).value == [0, 3] && OffGate(c, [0, 3]) == 1
    ensures IsRoute(c, 0, 3, [0, 1, 2, 3]) && AllGates(c, [0, 1, 2, 3])
    ensures !TakenOnlyIfWorthIt(c, 0, 3, FindRoute(Network(c), 0, 3).value)
  {
    hide *;
    TieRoutes(c);
    TieIsNotWorthIt(c);
    TieEdges(c);
    TieDist(Network(c));
    TieIsCanonical(Network(c));
  }

  lemma TieIsNotWorthIt(c: Ctx)
    requires IsTieExample(c)
    ensures !TakenOnlyIfWorthIt(c, 0, 3, [0, 3])
  {
    hide IsRoute, AllGates, OffGate, IsTieExample;
    TieRoutes(c);
    var q := [0, 1, 2, 3];
    assert IsRoute(c, 0, 3, q) && AllGates(c, q) && |q| == 4;
  }

  lemma TieRoutes(c: Ctx)
    requires IsTieExample(c)
    ensures IsRoute(c, 0, 3, [0, 1, 2, 3]) && AllGates(c, [0, 1, 2, 3]) && OffGate(c, [0, 3]) == 1
  {
    var q := [0, 1, 2, 3];
    assert StepAt(c, q, 1) && StepAt(c, q, 2) && StepAt(c, q, 3);
    assert Front([0, 3]) == [0];
    assert !c.graph.HasGate(0, 3);
  }

  lemma TieDist(g: Net)
    requires WellFormed(g) && (0, 3) in g.cost && g.cost[(0, 3)] == 3
    requires forall e :: e in g.cost ==> e.1 <= e.0 + g.cost[e]
    ensures Reachable(g, 0, 0) && Dist(g, 0, 0) == 0 && Reachable(g, 0, 3) && Dist(g, 0, 3) == 3
  {
    DistOfSource(g, 0);
    assert Between(g, 0, 0, [0]);
    Extend(g, 0, 0, [0], 3);
    assert [0] + [3] == [0, 3];
    DistIsLeast(g, 0, 3, [0, 3]);
    var p := OptimalWalk(g, 0, 3);
    ClimbIsPaidFor(g, p);
  }

  lemma TieIsCanonical(g: Net)
    requires WellFormed(g) && (0, 3) in g.cost && g.cost[(0, 3)] == 3
    requires Reachable(g, 0, 0) && Dist(g, 0, 0) == 0 && Reachable(g, 0, 3) && Dist(g, 0, 3) == 3
    ensures FindRoute(g, 0, 3).Some? && FindRoute(g, 0, 3).value == [0, 3]
  {
    assert OptPred(g, 0, 0, 3);
    assert BestPred(g, 0, 3) == 0;
    assert CanonicalPath(g, 0, 3) == CanonicalPath(g, 0, 0) + [3];
    assert CanonicalPath(g, 0, 0) == [0];
  }

  /** In that example no edge climbs faster than its weight. */
  lemma {:induction false} ClimbIsPaidFor(g: Net, p: seq<nat>)
    requires IsWalk(g, p) && p[0] == 0 && forall e :: e in g.cost ==> e.1 <= e.0 + g.cost[e]
    ensures Last(p) <= Cost(g, p)
    decreases |p|
  {
    if |p| > 1 {
      ClimbIsPaidFor(g, Front(p));
      assert (p[|p| - 2], Last(p)) in g.cost;
    }
  }

  /** The same request without its connections. */
  function WithoutConnections(c: Ctx): Ctx { c.(overlay := map[]) }

  lemma GateRoutes(c: Ctx, s: nat, t: nat, q: seq<nat>)
    ensures IsRoute(WithoutConnections(c), s, t, q) <==> IsRoute(c, s, t, q) && AllGates(c, q)
  {
    var d := WithoutConnections(c);
    if IsRoute(d, s, t, q) {
      forall i | 0 < i < |q| ensures StepAt(c, q, i) && c.graph.HasGate(q[i - 1], q[i]) {
        assert StepAt(d, q, i);
      }
    }
    if IsRoute(c, s, t, q) && AllGates(c, q) {
      forall i | 0 < i < |q| ensures StepAt(d, q, i) {
        assert StepAt(c, q, i);
      }
    }
  }

  /** A route that uses connections beats every all-gate route by more than the penalty each. */
  ghost predicate SavesMoreThanPenalty(c: Ctx, s: nat, t: nat, p: seq<nat>)
    requires p != []
  {
    forall q :: IsRoute(c, s, t, q) && AllGates(c, q) ==> |p| + 2 * OffGate(c, p) < |q|
  }

  /** The sentence at src/routing.rs:30-32: connections are taken only when they save more than the penalty. */
  ghost predicate TakenOnlyIfWorthIt(c: Ctx, s: nat, t: nat, p: seq<nat>)
    requires p != []
  {
    OffGate(c, p) > 0 ==> SavesMoreThanPenalty(c, s, t, p)
  }

  /** Routing without the connections costs no more than routing with them. */
  ghost predicate GatesTie(c: Ctx, s: nat, t: nat) {
    var d := Network(WithoutConnections(c));
    Reachable(d, s, t) && Reachable(Network(c), s, t) && Dist(d, s, t) == Dist(Network(c), s, t)
  }

  /** An all-gate route and its cost with and without connections. */
  lemma GateRouteCosts(c: Ctx, s: nat, t: nat, q: seq<nat>)
    requires c.preference == PreferGates && IsRoute(c, s, t, q) && AllGates(c, q)
    ensures var d := Network(WithoutConnections(c));
            && Reachable(d, s, t) && Dist(d, s, t) <= |q| - 1
            && Reachable(Network(c), s, t) && Dist(Network(c), s, t) <= |q| - 1
  {
    var e := WithoutConnections(c);
    RoutesAreWalks(c, s, t);
    RoutesAreWalks(e, s, t);
    GateRoutes(c, s, t, q);
    AllGatesIsOnGate(c, q);
    AllGatesIsOnGate(e, q);
    WeightByPreference(c, q);
    WeightByPreference(e, q);
    DistIsLeast(Network(c), s, t, q);
    DistIsLeast(Network(e), s, t, q);
  }

  /** When the gates tie, some all-gate route has the least cost in jumps. */
  lemma TyingGateRoute(c: Ctx, s: nat, t: nat) returns (q: seq<nat>)
    requires c.preference == PreferGates && GatesTie(c, s, t)
    ensures IsRoute(c, s, t, q) && AllGates(c, q) && |q| - 1 == Dist(Network(c), s, t)
  {
    var e := WithoutConnections(c);
    RoutesAreWalks(e, s, t);
    q := OptimalWalk(Network(e), s, t);
    GateRoutes(c, s, t, q);
    AllGatesIsOnGate(e, q);
    WeightByPreference(e, q);
  }

  /** Of any cheapest route the sentence holds exactly when it keeps to gates or the gates alone cost more. */
  lemma CheapestWorthItIff(c: Ctx, s: nat, t: nat, p: seq<nat>)
    requires c.preference == PreferGates && Optimal(Network(c), s, t, p)
    ensures p != [] && (TakenOnlyIfWorthIt(c, s, t, p) <==> OffGate(c, p) == 0 || !GatesTie(c, s, t))
  {
    hide Network, IsRoute, AllGates, OffGate;
    DistIsLeast(Network(c), s, t, p);
    WeightByPreference(c, p);
    WalkWeight(c, p);
    forall q | IsRoute(c, s, t, q) && AllGates(c, q)
      ensures Dist(Network(c), s, t) <= |q| - 1 && (Dist(Network(c), s, t) == |q| - 1 ==> GatesTie(c, s, t))
    {
      GateRouteCosts(c, s, t, q);
      WideningHelps(WithoutConnections(c), c, s, t);
    }
    if GatesTie(c, s, t) {
      var q := TyingGateRoute(c, s, t);
    }
  }

  /**
   * The sentence holds of the returned route exactly when the route keeps to
   * gates or the same request without connections costs more (or fails).
   */
  lemma StrictSavingIff(c: Ctx, s: nat, t: nat)
    requires c.preference == PreferGates && FindRoute(Network(c), s, t).Some?
    ensures var p := FindRoute(Network(c), s, t).value;
            p != [] && (TakenOnlyIfWorthIt(c, s, t, p) <==> OffGate(c, p) == 0 || !GatesTie(c, s, t))
  {
    CanonicalIsOptimal(Network(c), s, t);
    CheapestWorthItIff(c, s, t, CanonicalPath(Network(c), s, t));
  }

  /** Some cheapest route uses a connection. */
  ghost predicate ConnectionIsCheapest(c: Ctx, s: nat, t: nat) {
    exists p :: Optimal(Network(c), s, t, p) && OffGate(c, p) > 0
  }

  /**
   * A condition on the request alone: the sentence is safe from tie-breaking,
   * whichever cheapest route is returned, exactly when the gates alone cost
   * more or no cheapest route uses a connection.
   */
  lemma WorthItWhateverTheTieBreakIff(c: Ctx, s: nat, t: nat)
    requires c.preference == PreferGates
    ensures (forall p :: Optimal(Network(c), s, t, p) ==> p != [] && TakenOnlyIfWorthIt(c, s, t, p))
            <==> !(GatesTie(c, s, t) && ConnectionIsCheapest(c, s, t))
  {
    hide Network, Optimal, GatesTie, TakenOnlyIfWorthIt, OffGate;
    forall p | Optimal(Network(c), s, t, p) {
      CheapestWorthItIff(c, s, t, p);
    }
  }

  /** No all-gate route is longer than a route with connections by exactly their penalties. */
  ghost predicate NoExactTie(c: Ctx, s: nat, t: nat) {
    forall p, q :: IsRoute(c, s, t, p) && IsRoute(c, s, t, q) && OffGate(c, p) > 0 && AllGates(c, q) ==>
      |q| != |p| + 2 * OffGate(c, p)
  }

  /** A condition on the map alone under which the sentence always holds. */
  lemma NoTieMeansWorthIt(c: Ctx, s: nat, t: nat)
    requires c.preference == PreferGates && FindRoute(Network(c), s, t).Some? && NoExactTie(c, s, t)
    ensures var p := FindRoute(Network(c), s, t).value;
            p != [] && TakenOnlyIfWorthIt(c, s, t, p)
  {
    RouteIsCheapest(c, s, t);
    var p := FindRoute(Network(c), s, t).value;
    forall q | IsRoute(c, s, t, q) && AllGates(c, q) && OffGate(c, p) > 0
      ensures |p| + 2 * OffGate(c, p) < |q|
    {
      ConnectionsPayForThemselves(c, s, t, q);
    }
  }

  lemma {:induction false} OnGateIsAllGates(c: Ctx, p: seq<nat>)
    requires IsWalk(Network(c), p) && OffGate(c, p) == 0
    ensures AllGates(c, p)
    decreases |p|
  {
    if |p| > 1 {
      OnGateIsAllGates(c, Front(p));
      assert (p[|p| - 2], Last(p)) in Network(c).cost;
      forall i | 0 < i < |p| ensures c.graph.HasGate(p[i - 1], p[i]) {
        if i < |p| - 1 {
          assert Front(p)[i - 1] == p[i - 1] && Front(p)[i] == p[i];
        }
      }
    }
  }

  /** The other half of the promise: where some route's connections save more than their penalties, connections are used. */
  lemma WorthwhileConnectionIsTaken(c: Ctx, s: nat, t: nat, r: seq<nat>)
    requires c.preference == PreferGates && IsRoute(c, s, t, r) && SavesMoreThanPenalty(c, s, t, r)
    ensures var p := FindRoute(Network(c), s, t);
            p.Some? && p.value != [] && OffGate(c, p.value) > 0
  {
    hide Network, AllGates, OffGate, CanonicalPath;
    RoutesAreWalks(c, s, t);
    RouteIsCheapest(c, s, t);
    var p := FindRoute(Network(c), s, t).value;
    WeightByPreference(c, p);
    WeightByPreference(c, r);
    if OffGate(c, p) == 0 {
      OnGateIsAllGates(c, p);
    }
  }

  // ---------------------------------------------------------------- reversal

  ghost function Reverse(p: seq<nat>): (r: seq<nat>)
    ensures |r| == |p|
    decreases |p|
  {
    if p == [] then [] else [Last(p)] + Reverse(Front(p))
  }

  ghost predicate Undirected(c: Ctx) { Symmetric(c.overlay) }

  function Penalty(c: Ctx, v: nat): nat
    requires v < |c.graph.systems|
  {
    SecurityPenalty(c.preference, c.graph.systems[v].secClass)
  }

  lemma {:induction false} ReverseWalk(c: Ctx, p: seq<nat>)
    requires Undirected(c) && IsWalk(Network(c), p) && p[0] !in c.avoid
    ensures Between(Network(c), Last(p), p[0], Reverse(p))
    ensures Last(p) !in c.avoid && p[0] < |c.graph.systems| && Last(p) < |c.graph.systems|
    ensures Cost(Network(c), Reverse(p)) + Penalty(c, Last(p)) == Cost(Network(c), p) + Penalty(c, p[0])
    decreases |p|
  {
    var g := Network(c);
    if |p| == 1 {
      assert Reverse(p) == [p[0]] + Reverse(Front(p)) == [p[0]];
    } else {
      var q, u, v := Front(p), p[|p| - 2], Last(p);
      ReverseWalk(c, q);
      assert (u, v) in g.cost && c.Steps(u, v);
      assert KindAt(c.overlay, u, v) == KindAt(c.overlay, v, u);
      assert c.Steps(v, u);
      Prepend(g, v, Reverse(q));
      assert Last([v] + Reverse(q)) == Last(Reverse(q));
    }
  }

  /** The least costs of a trip and its reverse differ by exactly the ends' security penalties. */
  lemma ReversalSymmetry(c: Ctx, s: nat, t: nat)
    requires Undirected(c) && s !in c.avoid && t !in c.avoid && Reachable(Network(c), s, t)
    ensures Reachable(Network(c), t, s) && s < |c.graph.systems| && t < |c.graph.systems|
    ensures Dist(Network(c), t, s) + Penalty(c, t) == Dist(Network(c), s, t) + Penalty(c, s)
  {
    var g := Network(c);
    var p := OptimalWalk(g, s, t);
    ReverseWalk(c, p);
    DistIsLeast(g, t, s, Reverse(p));
    var q := OptimalWalk(g, t, s);
    ReverseWalk(c, q);
    DistIsLeast(g, s, t, Reverse(q));
  }

  lemma ShortestReversesJumps(c: Ctx, s: nat, t: nat)
    requires Undirected(c) && s !in c.avoid && t !in c.avoid && c.preference == Shortest
    ensures var r, b := FindRoute(Network(c), s, t), FindRoute(Network(c), t, s);
            r.Some? == b.Some? && (r.Some? ==> |r.value| == |b.value|)
  {
    hide Network, Reachable, CanonicalPath;
    if Reachable(Network(c), s, t) {
      ReversalSymmetry(c, s, t);
      JumpsAreDist(c, s, t);
      JumpsAreDist(c, t, s);
    } else if Reachable(Network(c), t, s) {
      ReversalSymmetry(c, t, s);
      assert false;
    }
  }

  // ---------------------------------------------------------------- monotonicity

  /** `d` allows every step `c` does: the same map with more connections or fewer avoided systems. */
  ghost predicate Widens(c: Ctx, d: Ctx) {
    && c.graph == d.graph && c.preference == d.preference
    && d.avoid <= c.avoid && c.overlay.Keys <= d.overlay.Keys
  }

  lemma WiderNetwork(c: Ctx, d: Ctx)
    requires Widens(c, d)
    ensures Extends(Network(c), Network(d))
  {
    var g, h := Network(c), Network(d);
    forall e | e in g.cost
      ensures e in h.cost && h.cost[e] <= g.cost[e]
    {
      assert c.Steps(e.0, e.1);
      assert e in c.overlay ==> e in d.overlay.Keys;
      assert d.Steps(e.0, e.1);
    }
  }

  /** A wider context reaches whatever the narrower did, at no greater cost. */
  lemma WideningHelps(c: Ctx, d: Ctx, s: nat, t: nat)
    requires Widens(c, d) && Reachable(Network(c), s, t)
    ensures Reachable(Network(d), s, t) && Dist(Network(d), s, t) <= Dist(Network(c), s, t)
  {
    WiderNetwork(c, d);
    LargerIsCheaper(Network(c), Network(d), s, t);
  }

  // ---------------------------------------------------------------- magnitude

  /** The heaviest edge of a preference. */
  function HeaviestEdge(pref: Preference): nat {
    match pref
    case Shortest => 1
    case Safest => 10_001
    case PreferGates => 3
  }

  lemma {:induction false} CanonicalIsVisited(g: Net, s: nat, l: Labels, open: set<nat>, v: nat)
    requires Settled(g, s, l, open) && v < g.n && l.visited[v]
    ensures Reachable(g, s, v)
    ensures forall x :: x in CanonicalPath(g, s, v) ==> x < g.n && l.visited[x]
    decreases l.dist[v].value
  {
    VisitedIsLeast(g, s, l, open, v);
    if v != s {
      assert Labelled(g, s, l, v);
      PrevIsBest(g, s, l, open, v);
      CanonicalIsVisited(g, s, l, open, l.prev[v]);
    }
  }

  /** The sum the search forms for an unvisited neighbour is the cost of a simple walk. */
  lemma CandidateBound(g: Net, s: nat, l: Labels, open: set<nat>, u: nat, v: nat, w: nat)
    requires Settled(g, s, l, open) && (u, v) in g.cost && l.visited[u] && !l.visited[v]
    requires forall e :: e in g.cost ==> g.cost[e] <= w
    ensures l.dist[u].Finite? && l.dist[u].value + g.cost[(u, v)] <= (g.n - 1) * w
  {
    hide Labelled, Relaxed, Precedes, IsWalk, Cost, CanonicalPath;
    VisitedIsLeast(g, s, l, open, u);
    CanonicalIsVisited(g, s, l, open, u);
    CanonicalIsOptimal(g, s, u);
    CanonicalIsSimple(g, s, u);
    var p := CanonicalPath(g, s, u);
    Extend(g, s, u, p, v);
    assert v !in p;
    SimpleIsShort(g, p + [v]);
    CostBound(g, p + [v], w);
    ScaleUp(|p|, g.n - 1, w);
  }

  /**
   * Every sum and every label of a search is at most n - 1 times the heaviest
   * edge; while that is at most 2^24 the source's f32 sums are exact.
   */
  lemma LabelsAreBounded(c: Ctx, s: nat, l: Labels, open: set<nat>, v: nat)
    requires Settled(Network(c), s, l, open) && v < |c.graph.systems|
    ensures l.dist[v].Finite? ==> l.dist[v].value <= (|c.graph.systems| - 1) * HeaviestEdge(c.preference)
    ensures forall u :: (u, v) in Network(c).cost && l.visited[u] && !l.visited[v] ==>
              l.dist[u].Finite? &&
              l.dist[u].value + Network(c).cost[(u, v)] <= (|c.graph.systems| - 1) * HeaviestEdge(c.preference)
  {
    hide Relaxed, Precedes, Network;
    var g, w := Network(c), HeaviestEdge(c.preference);
    forall u | (u, v) in g.cost && l.visited[u] && !l.visited[v] {
      CandidateBound(g, s, l, open, u, v, w);
    }
    if l.dist[v].Finite? {
      if l.visited[v] {
        VisitedIsLeast(g, s, l, open, v);
        DistBound(g, s, v, w);
      } else if v != s {
        assert Labelled(g, s, l, v);
      } else {
        ScaleUp(0, g.n - 1, w);
      }
    }
  }

  /** While a reachable target is unvisited, no sum the search forms exceeds its least cost by more than one edge. */
  lemma SumsBeforeTarget(g: Net, s: nat, l: Labels, open: set<nat>, t: nat, u: nat, v: nat, w: nat)
    requires Settled(g, s, l, open) && t < g.n && !l.visited[t] && Reachable(g, s, t)
    requires (u, v) in g.cost && l.visited[u] && forall e :: e in g.cost ==> g.cost[e] <= w
    ensures l.dist[u].Finite? && l.dist[u].value + g.cost[(u, v)] <= Dist(g, s, t) + w
  {
    var q := OptimalWalk(g, s, t);
    FrontierBound(g, s, l, open, q, u);
    if l.dist[t].Finite? {
      assert Precedes(l, u, t);
    }
  }

  /**
   * The largest whole number up to which every whole number is exact in f32, so
   * sums of whole weights at or below it are exact.
   */
  const F32_EXACT: nat := 0x100_0000

  /** On any map, a search for a target of least cost up to 2^24 less one edge forms only exact sums. */
  lemma SumsAreExactForNearTargets(c: Ctx, s: nat, l: Labels, open: set<nat>, t: nat, u: nat, v: nat)
    requires Settled(Network(c), s, l, open) && t < |c.graph.systems| && !l.visited[t] && Reachable(Network(c), s, t)
    requires (u, v) in Network(c).cost && l.visited[u]
    requires Dist(Network(c), s, t) + HeaviestEdge(c.preference) <= F32_EXACT
    ensures l.dist[u].Finite? && l.dist[u].value + Network(c).cost[(u, v)] <= F32_EXACT
  {
    hide Relaxed, Precedes;
    SumsBeforeTarget(Network(c), s, l, open, t, u, v, HeaviestEdge(c.preference));
  }

  /**
   * Where every reachable system is near enough, every sum of every search is
   * exact: to one target or several, reachable or not.
   */
  lemma SumsAreExactEverywhere(c: Ctx, s: nat, l: Labels, open: set<nat>, u: nat, v: nat)
    requires Settled(Network(c), s, l, open) && (u, v) in Network(c).cost && l.visited[u]
    requires forall x :: Reachable(Network(c), s, x) ==> Dist(Network(c), s, x) + HeaviestEdge(c.preference) <= F32_EXACT
    ensures l.dist[u].Finite? && l.dist[u].value + Network(c).cost[(u, v)] <= F32_EXACT
  {
    hide Labelled, Relaxed, Precedes, Reachable;
    VisitedIsLeast(Network(c), s, l, open, u);
  }
}
