/**
 * The staging service, src/services/blops.rs: the in-range system the fleet
 * reaches in the fewest gate jumps, then nearest to the target.
 */
module Staging {
  import opened Wrappers
  import opened Walks
  import opened Model
  import opened Routing
  import opened Preferences
  import opened RouteService
  import opened JumpRange
  import opened Sorting

  const MAX_ALTERNATES: nat := 5

  datatype StagingQuery = StagingQuery(
    from: SystemRef,
    to: SystemRef,
    effectiveLy: real,
    overlay: OverlayInputs,
    preference: Preference)

  datatype SystemInfo = SystemInfo(system: string, systemId: int, security: real, secClass: SecClass)

  datatype Bridge = Bridge(from: SystemInfo, to: SystemInfo, jumpLy: real, inRange: bool)

  datatype Candidate = Candidate(system: SystemInfo, gateJumps: nat, lyToB: real)

  datatype Chosen = Chosen(gateJumps: nat, gatePath: seq<RouteStep>, bridge: Bridge)

  datatype StagingResponse = StagingResponse(
    chosen: Chosen,
    alternates: seq<Candidate>,
    jdcLevel: nat,
    effectiveLy: real,
    defaulted: bool)

  function InfoOf(s: System): SystemInfo {
    SystemInfo(s.name, s.id, s.security, s.secClass)
  }

  /** The caller's security rule: who may be the target, who may be staged from, and the rejection. */
  datatype Rules = Rules(destOk: System -> bool, stageOk: System -> bool, reject: System -> AppError)

  // ---------------------------------------------------------------- specification

  /** In range of the target, not the target, and accepted. */
  predicate IsCandidate(graph: GraphData, to: nat, ly: real, rules: Rules, v: nat)
    requires to < |graph.systems|
  {
    InRange(graph, graph.systems[to].coords, ly, v) && v != to && rules.stageOk(graph.systems[v])
  }

  datatype Setup = Setup(from: nat, to: nat, avoid: set<nat>, links: seq<Link>)

  /** Everything that can fail before the search, in the order it is checked. */
  ghost function SetupOf(graph: GraphData, q: StagingQuery, rules: Rules): Result<Setup, AppError>
    requires graph.Valid()
  {
    var from :- ResolveSystem(graph, q.from);
    var to :- ResolveSystem(graph, q.to);
    if !rules.destOk(graph.systems[to]) then Err(rules.reject(graph.systems[to]))
    else if forall v :: !IsCandidate(graph, to, q.effectiveLy, rules, v) then Err(NoStagingInRange)
    else
      var avoid :- AvoidSet(graph, q.overlay);
      var links :- ResolveConnections(graph, q.overlay.connections);
      Ok(Setup(from, to, avoid, links))
  }

  /** The fleet's own system is not avoided; the target keeps whatever the user said. */
  function StagingProblem(graph: GraphData, scout: EveScoutSnapshot, q: StagingQuery, now: int, s: Setup): Ctx {
    ProblemOf(graph, scout, q.overlay, q.preference, s.avoid - {s.from}, s.links, {s.from, s.to}, now)
  }

  function LyTo(sqrt: real -> real, graph: GraphData, center: Coords, v: nat): real {
    if v < |graph.systems| then LyBetween(sqrt, graph.systems[v].coords, center) else 0.0
  }

  /** Fewest gate jumps, then closest to the target. */
  predicate RankLe(sqrt: real -> real, graph: GraphData, center: Coords, a: SettledTarget, b: SettledTarget) {
    a.jumps < b.jumps ||
    (a.jumps == b.jumps && LyTo(sqrt, graph, center, a.node) <= LyTo(sqrt, graph, center, b.node))
  }

  /** A candidate the fleet can reach, with its route. */
  ghost predicate IsReachedCandidate(c: Ctx, q: StagingQuery, s: Setup, rules: Rules, e: SettledTarget)
    requires s.to < |c.graph.systems|
  {
    && IsCandidate(c.graph, s.to, q.effectiveLy, rules, e.node)
    && Reachable(Network(c), s.from, e.node) && e == SettledFor(Network(c), s.from, e.node)
  }

  /** All reachable candidates, once each, best first. */
  ghost predicate IsRanking(sqrt: real -> real, c: Ctx, q: StagingQuery, s: Setup, rules: Rules, ranked: seq<SettledTarget>)
    requires s.to < |c.graph.systems|
  {
    && NoRepeats(ranked)
    && (forall e :: e in ranked <==> IsReachedCandidate(c, q, s, rules, e))
    && (forall i, j :: 0 <= i < j < |ranked| ==>
          RankLe(sqrt, c.graph, c.graph.systems[s.to].coords, ranked[i], ranked[j]))
  }

  function AlternateOf(sqrt: real -> real, graph: GraphData, center: Coords, e: SettledTarget): Candidate
    requires e.node < |graph.systems|
  {
    Candidate(InfoOf(graph.systems[e.node]), e.jumps, Round2(LyTo(sqrt, graph, center, e.node)))
  }

  /** The response presents the head of the ranking and, if the fleet must move, the next few. */
  ghost predicate Presents(sqrt: real -> real, c: Ctx, q: StagingQuery, s: Setup, ranked: seq<SettledTarget>, r: StagingResponse)
    requires s.to < |c.graph.systems| && ranked != [] && InMap(c, ranked[0].path)
    requires forall e :: e in ranked ==> e.node < |c.graph.systems|
  {
    var star, b := ranked[0], c.graph.systems[s.to];
    && r.chosen == Chosen(star.jumps, StepsOf(c, star.path),
                          Bridge(InfoOf(c.graph.systems[star.node]), InfoOf(b), Round2(LyTo(sqrt, c.graph, b.coords, star.node)), true))
    && |r.alternates| == (if star.jumps == 0 then 0
                          else if |ranked| - 1 < MAX_ALTERNATES then |ranked| - 1 else MAX_ALTERNATES)
    && (forall i :: 0 <= i < |r.alternates| ==>
          r.alternates[i] == AlternateOf(sqrt, c.graph, b.coords, ranked[i + 1]))
    && r.jdcLevel == 0 && r.effectiveLy == q.effectiveLy && !r.defaulted
  }

  lemma ReachedInMap(c: Ctx, q: StagingQuery, s: Setup, rules: Rules, e: SettledTarget)
    requires s.to < |c.graph.systems| && IsReachedCandidate(c, q, s, rules, e)
    ensures e.node < |c.graph.systems| && InMap(c, e.path)
  {
    CanonicalInMap(c, s.from, e.node);
  }

  ghost predicate IsAnswer(sqrt: real -> real, c: Ctx, q: StagingQuery, s: Setup, rules: Rules, res: Result<StagingResponse, AppError>)
    requires s.to < |c.graph.systems|
  {
    if forall e :: !IsReachedCandidate(c, q, s, rules, e) then res == Err(StagingUnreachable)
    else
      res.Ok? && exists ranked: seq<SettledTarget> ::
        && IsRanking(sqrt, c, q, s, rules, ranked) && ranked != [] && InMap(c, ranked[0].path)
        && (forall e :: e in ranked ==> e.node < |c.graph.systems|)
        && Presents(sqrt, c, q, s, ranked, res.value)
  }

  /** What a staging request may answer; ties in rank leave the order of equals open. */
  ghost predicate StagingAnswer(graph: GraphData, scout: EveScoutSnapshot, q: StagingQuery, now: int,
                                sqrt: real -> real, rules: Rules, res: Result<StagingResponse, AppError>)
    requires graph.Valid()
  {
    match SetupOf(graph, q, rules)
    case Err(e) => res == Err(e)
    case Ok(s) => IsAnswer(sqrt, StagingProblem(graph, scout, q, now, s), q, s, rules, res)
  }

  // ---------------------------------------------------------------- the service

  lemma RankIsPreorder(sqrt: real -> real, graph: GraphData, center: Coords)
    ensures TotalPreorder((a: SettledTarget, b: SettledTarget) => RankLe(sqrt, graph, center, a, b))
  {
  }

  lemma {:induction false} SettledOnce(g: Net, s: nat, ts: seq<nat>)
    requires WellFormed(g) && NoRepeats(ts)
    ensures NoRepeats(SettledTargets(g, s, ts))
    ensures forall e :: e in SettledTargets(g, s, ts) <==>
                        e.node in ts && Reachable(g, s, e.node) && e == SettledFor(g, s, e.node)
    decreases |ts|
  {
    hide CanonicalPath, Reachable;
    if ts != [] {
      SettledOnce(g, s, Front(ts));
      assert ts == Front(ts) + [Last(ts)];
      assert Last(ts) !in Front(ts);
    }
  }

  method FilterCandidates(graph: GraphData, to: nat, ly: real, rules: Rules) returns (candidates: seq<nat>)
    requires graph.Valid() && to < |graph.systems|
    ensures NoRepeats(candidates)
    ensures forall v :: v in candidates <==> IsCandidate(graph, to, ly, rules, v)
  {
    hide GraphData.Valid, Within;
    var hits := RadiusQuery(graph, graph.systems[to].coords, ly);
    candidates := [];
    for k := 0 to |hits|
      invariant NoRepeats(candidates)
      invariant forall v :: v in candidates <==> v in hits[..k] && v != to && v < |graph.systems| && rules.stageOk(graph.systems[v])
    {
      var v := hits[k];
      assert v in hits;
      assert hits[..k + 1] == hits[..k] + [v];
      assert v !in hits[..k];
      if v != to && rules.stageOk(graph.systems[v]) {
        candidates := candidates + [v];
      }
    }
    assert hits[..|hits|] == hits;
  }

  method RankSettled(sqrt: real -> real, graph: GraphData, center: Coords, settled: seq<SettledTarget>)
    returns (ranked: seq<SettledTarget>)
    ensures NoRepeats(settled) ==> NoRepeats(ranked)
    ensures |ranked| == |settled| && forall e :: e in ranked <==> e in settled
    ensures forall i, j :: 0 <= i < j < |ranked| ==> RankLe(sqrt, graph, center, ranked[i], ranked[j])
  {
    hide RankLe, TotalPreorder;
    RankIsPreorder(sqrt, graph, center);
    ranked := SortBy((a: SettledTarget, b: SettledTarget) => RankLe(sqrt, graph, center, a, b), settled);
    Reordered(settled, ranked);
  }

  /** Present a ranking: the head is the staging system, the next few are its fallbacks. */
  method Shape(sqrt: real -> real, ctx: RouteContext, q: StagingQuery, ranked: seq<SettledTarget>, ghost s: Setup, to: nat)
    returns (r: StagingResponse)
    requires ctx.Valid() && s.to == to < |ctx.graph.systems| && ranked != [] && InMap(ctx.View(), ranked[0].path)
    requires forall e :: e in ranked ==> e.node < |ctx.graph.systems|
    ensures Presents(sqrt, ctx.View(), q, s, ranked, r)
  {
    hide RouteContext.Valid, LyTo, Round2, StepsOf, InMap;
    var graph := ctx.graph;
    var b := graph.systems[to];
    var star := ranked[0];
    assert star in ranked;
    var gatePath := BuildSteps(ctx, star.path);
    var bridge := Bridge(InfoOf(graph.systems[star.node]), InfoOf(b), Round2(LyTo(sqrt, graph, b.coords, star.node)), true);
    var alternates := [];
    if star.jumps != 0 {
      var n := if |ranked| - 1 < MAX_ALTERNATES then |ranked| - 1 else MAX_ALTERNATES;
      for i := 0 to n
        invariant |alternates| == i
        invariant forall k :: 0 <= k < i ==> alternates[k] == AlternateOf(sqrt, graph, b.coords, ranked[k + 1])
      {
        assert ranked[i + 1] in ranked;
        alternates := alternates + [AlternateOf(sqrt, graph, b.coords, ranked[i + 1])];
      }
    }
    r := StagingResponse(Chosen(star.jumps, gatePath, bridge), alternates, 0, q.effectiveLy, false);
  }

  /** The A-to-star search over the request's overlay. */
  method SettleCandidates(graph: GraphData, scout: EveScoutSnapshot, q: StagingQuery, now: int, from: nat, to: nat,
                          avoid: set<nat>, links: seq<Link>, candidates: seq<nat>, scratch: DijkstraScratch, ghost s: Setup)
    returns (ctx: RouteContext, settled: seq<SettledTarget>)
    requires graph.Valid() && LinksInRange(graph, links) && from < |graph.systems|
    requires s == Setup(from, to, avoid, links) && forall v :: v in candidates ==> v < |graph.systems|
    modifies scratch
    ensures ctx.Valid() && ctx.graph == graph && ctx.View() == StagingProblem(graph, scout, q, now, s)
    ensures settled == SettledTargets(Network(ctx.View()), from, candidates)
  {
    hide GraphData.Valid, RouteContext.Valid, Network, SettledTargets;
    ctx := PrepareContext(graph, scout, q.overlay, q.preference, avoid - {from}, links, {from, to}, now);
    settled := ShortestPathMulti(ctx, from, candidates, scratch);
  }

  method ComputeStaging(graph: GraphData, scout: EveScoutSnapshot, q: StagingQuery, now: int,
                        sqrt: real -> real, rules: Rules, scratch: DijkstraScratch)
    returns (res: Result<StagingResponse, AppError>)
    requires graph.Valid()
    modifies scratch
    ensures StagingAnswer(graph, scout, q, now, sqrt, rules, res)
  {
    hide GraphData.Valid, AvoidSet, ResolveConnections, ResolveSystem, SetupOf, IsCandidate, IsReachedCandidate, IsAnswer, IsRanking,
         RankLe, Presents, StagingProblem, Network, RouteContext.Valid, Reachable, CanonicalPath, InMap, SettledTargets;
    EndsFirst(graph, q, rules);
    var from := ResolveSystem(graph, q.from);
    if from.Err? {
      return Err(from.error);
    }
    var to := ResolveSystem(graph, q.to);
    if to.Err? {
      return Err(to.error);
    }
    var b := graph.systems[to.value];
    if !rules.destOk(b) {
      return Err(rules.reject(b));
    }
    var candidates := FilterCandidates(graph, to.value, q.effectiveLy, rules);
    SetupIs(graph, q, rules, from.value, to.value, candidates);
    if candidates == [] {
      return Err(NoStagingInRange);
    }
    var avoid := AssembleAvoidSet(graph, q.overlay);
    if avoid.Err? {
      return Err(avoid.error);
    }
    var links := ResolveConnections(graph, q.overlay.connections);
    if links.Err? {
      return Err(links.error);
    }
    ResolvedInRange(graph, q.overlay.connections);
    ghost var s := Setup(from.value, to.value, avoid.value, links.value);
    CandidatesInRange(graph, to.value, q.effectiveLy, rules, candidates);
    var ctx, settled := SettleCandidates(graph, scout, q, now, from.value, to.value, avoid.value, links.value, candidates, scratch, s);
    ghost var c := ctx.View();
    SettledOnce(Network(c), from.value, candidates);
    SettledAreReached(c, q, s, rules, candidates, settled);
    if settled == [] {
      NoneAnswers(sqrt, c, q, s, rules);
      return Err(StagingUnreachable);
    }
    assert settled[0] in settled;
    var ranked := RankSettled(sqrt, graph, b.coords, settled);
    RankedInMap(c, q, s, rules, ranked);
    var r := Shape(sqrt, ctx, q, ranked, s, to.value);
    RankingAnswers(sqrt, c, q, s, rules, ranked, r);
    return Ok(r);
  }

  /** An unknown end is reported first, then a target the rules reject. */
  lemma EndsFirst(graph: GraphData, q: StagingQuery, rules: Rules)
    requires graph.Valid()
    ensures var from, to := ResolveSystem(graph, q.from), ResolveSystem(graph, q.to);
            && (from.Err? ==> SetupOf(graph, q, rules) == Err(from.error))
            && (from.Ok? && to.Err? ==> SetupOf(graph, q, rules) == Err(to.error))
            && (from.Ok? && to.Ok? && !rules.destOk(graph.systems[to.value]) ==>
                  SetupOf(graph, q, rules) == Err(rules.reject(graph.systems[to.value])))
  {
    hide GraphData.Valid, ResolveSystem, IsCandidate, AvoidSet, ResolveConnections;
  }

  /** With the ends known and the target accepted: nothing in range, then the overlay's errors. */
  lemma SetupIs(graph: GraphData, q: StagingQuery, rules: Rules, from: nat, to: nat, candidates: seq<nat>)
    requires graph.Valid() && ResolveSystem(graph, q.from) == Ok(from) && ResolveSystem(graph, q.to) == Ok(to)
    requires rules.destOk(graph.systems[to])
    requires forall v :: v in candidates <==> IsCandidate(graph, to, q.effectiveLy, rules, v)
    ensures var avoid, links := AvoidSet(graph, q.overlay), ResolveConnections(graph, q.overlay.connections);
            SetupOf(graph, q, rules) ==
            if candidates == [] then Err(NoStagingInRange)
            else if avoid.Err? then Err(avoid.error)
            else if links.Err? then Err(links.error)
            else Ok(Setup(from, to, avoid.value, links.value))
  {
    hide GraphData.Valid, ResolveSystem, IsCandidate, AvoidSet, ResolveConnections;
    if candidates != [] {
      assert candidates[0] in candidates;
    }
  }

  lemma NoneAnswers(sqrt: real -> real, c: Ctx, q: StagingQuery, s: Setup, rules: Rules)
    requires s.to < |c.graph.systems| && forall e :: !IsReachedCandidate(c, q, s, rules, e)
    ensures IsAnswer(sqrt, c, q, s, rules, Err(StagingUnreachable))
  {
  }

  lemma RankingAnswers(sqrt: real -> real, c: Ctx, q: StagingQuery, s: Setup, rules: Rules,
                       ranked: seq<SettledTarget>, r: StagingResponse)
    requires s.to < |c.graph.systems| && NoRepeats(ranked) && ranked != [] && InMap(c, ranked[0].path)
    requires forall e :: e in ranked <==> IsReachedCandidate(c, q, s, rules, e)
    requires forall e :: e in ranked ==> e.node < |c.graph.systems|
    requires forall i, j :: 0 <= i < j < |ranked| ==>
               RankLe(sqrt, c.graph, c.graph.systems[s.to].coords, ranked[i], ranked[j])
    requires Presents(sqrt, c, q, s, ranked, r)
    ensures IsAnswer(sqrt, c, q, s, rules, Ok(r))
  {
    hide IsReachedCandidate, RankLe, InMap, Presents;
    assert IsRanking(sqrt, c, q, s, rules, ranked);
    assert ranked[0] in ranked;
  }

  lemma RankedInMap(c: Ctx, q: StagingQuery, s: Setup, rules: Rules, ranked: seq<SettledTarget>)
    requires s.to < |c.graph.systems| && ranked != []
    requires forall e :: e in ranked ==> IsReachedCandidate(c, q, s, rules, e)
    ensures InMap(c, ranked[0].path) && forall e :: e in ranked ==> e.node < |c.graph.systems|
  {
    hide IsReachedCandidate, InMap;
    assert ranked[0] in ranked;
    forall e | e in ranked ensures e.node < |c.graph.systems| && InMap(c, e.path) {
      ReachedInMap(c, q, s, rules, e);
    }
  }

  lemma SettledAreReached(c: Ctx, q: StagingQuery, s: Setup, rules: Rules, candidates: seq<nat>, settled: seq<SettledTarget>)
    requires s.to < |c.graph.systems|
    requires forall v :: v in candidates <==> IsCandidate(c.graph, s.to, q.effectiveLy, rules, v)
    requires forall e :: e in settled <==>
                         e.node in candidates && Reachable(Network(c), s.from, e.node) && e == SettledFor(Network(c), s.from, e.node)
    ensures forall e :: e in settled <==> IsReachedCandidate(c, q, s, rules, e)
  {
    hide IsCandidate, Network, Reachable, CanonicalPath;
  }

  lemma CandidatesInRange(graph: GraphData, to: nat, ly: real, rules: Rules, candidates: seq<nat>)
    requires to < |graph.systems| && forall v :: v in candidates ==> IsCandidate(graph, to, ly, rules, v)
    ensures forall v :: v in candidates ==> v < |graph.systems|
  {
  }
}
