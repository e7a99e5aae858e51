/**
 * What a staging request asks for, read off the request: who may be staged
 * from, which of them the fleet has a trip to, and which is chosen. The lemmas
 * tie the service's specification to it.
 */
module StagingTrips {
  import opened Wrappers
  import opened Walks
  import opened Model
  import opened Routing
  import opened Preferences
  import opened RouteService
  import opened JumpRange
  import opened Staging
  import opened StagingProperties
  import opened Trips

  /** A K-space system near the target, not the target, that the rules accept. */
  ghost predicate CanStage(graph: GraphData, b: nat, ly: real, rules: Rules, v: nat) {
    && v < |graph.systems| && b < |graph.systems| && v != b
    && graph.systems[v].secClass != Wormhole && Near(graph, v, graph.systems[b].coords, ly)
    && rules.stageOk(graph.systems[v])
  }

  /** The gate leg: the ends open their hubs, and only the fleet's own system is exempt from the avoid list. */
  function LegTerms(graph: GraphData, scout: EveScoutSnapshot, inputs: OverlayInputs, a: nat, b: nat, now: int): Terms {
    Terms(graph, scout, inputs, {a, b}, {a}, now)
  }

  function LyApart(sqrt: real -> real, graph: GraphData, u: nat, v: nat): real {
    if u < |graph.systems| && v < |graph.systems| then LyBetween(sqrt, graph.systems[u].coords, graph.systems[v].coords) else 0.0
  }

  ghost predicate Describes(graph: GraphData, v: nat, info: SystemInfo) {
    && v < |graph.systems|
    && info.system == graph.systems[v].name && info.systemId == graph.systems[v].id
    && info.security == graph.systems[v].security && info.secClass == graph.systems[v].secClass
  }

  /** A system to stage from and the way there. */
  datatype Pick = Pick(node: nat, path: seq<nat>)

  /** The pick may be staged from, and its way is the best trip there. */
  ghost predicate Stages(w: Terms, pref: Preference, ly: real, rules: Rules, a: nat, b: nat, k: Pick) {
    CanStage(w.graph, b, ly, rules, k.node) && BestTrip(w, pref, a, k.node, k.path)
  }

  /** Fewer jumps, or as many and no farther from the target. */
  ghost predicate NoWorse(sqrt: real -> real, graph: GraphData, b: nat, k: Pick, l: Pick) {
    || |k.path| < |l.path|
    || (|k.path| == |l.path| && LyApart(sqrt, graph, k.node, b) <= LyApart(sqrt, graph, l.node, b))
  }

  /** The system chosen, the way there, and the bridge from it. */
  ghost predicate ShowsChosen(w: Terms, sqrt: real -> real, b: nat, k: Pick, chosen: Chosen) {
    && chosen.gateJumps == |k.path| - 1 && Shows(w, k.path, chosen.gatePath)
    && Describes(w.graph, k.node, chosen.bridge.from) && Describes(w.graph, b, chosen.bridge.to)
    && chosen.bridge.jumpLy == Round2(LyApart(sqrt, w.graph, k.node, b)) && chosen.bridge.inRange
  }

  ghost predicate ShowsAlternate(w: Terms, sqrt: real -> real, b: nat, k: Pick, alt: Candidate) {
    && Describes(w.graph, k.node, alt.system) && alt.gateJumps == |k.path| - 1
    && alt.lyToB == Round2(LyApart(sqrt, w.graph, k.node, b))
  }

  /** Different systems to stage from, best first. */
  ghost predicate BestFirst(w: Terms, pref: Preference, ly: real, sqrt: real -> real, rules: Rules, a: nat, b: nat, picks: seq<Pick>) {
    && (forall i :: 0 <= i < |picks| ==> Stages(w, pref, ly, rules, a, b, picks[i]))
    && (forall i, j :: 0 <= i < j < |picks| ==>
          picks[i].node != picks[j].node && NoWorse(sqrt, w.graph, b, picks[i], picks[j]))
  }

  /** `u` can be reached, and no pick is worse; it is left out because the fleet is in range already or five alternates are enough. */
  ghost predicate LeftOut(w: Terms, pref: Preference, ly: real, sqrt: real -> real, rules: Rules, a: nat, b: nat,
                          picks: seq<Pick>, u: nat)
  {
    exists x: seq<nat> ::
      && Stages(w, pref, ly, rules, a, b, Pick(u, x))
      && (forall i :: 0 <= i < |picks| ==> NoWorse(sqrt, w.graph, b, picks[i], Pick(u, x)))
      && (|picks| == 6 || (picks != [] && |picks[0].path| == 1))
  }

  /** The response shows these picks, and they are the best: whoever else can be reached is left out rightly. */
  ghost predicate ShowsPicks(w: Terms, pref: Preference, ly: real, sqrt: real -> real, rules: Rules, a: nat, b: nat,
                             picks: seq<Pick>, r: StagingResponse)
  {
    && picks != [] && BestFirst(w, pref, ly, sqrt, rules, a, b, picks)
    && ShowsChosen(w, sqrt, b, picks[0], r.chosen)
    && |r.alternates| == |picks| - 1 <= (if |picks[0].path| == 1 then 0 else 5)
    && (forall i :: 0 <= i < |r.alternates| ==> ShowsAlternate(w, sqrt, b, picks[i + 1], r.alternates[i]))
    && (forall u: nat :: CanStage(w.graph, b, ly, rules, u) && HasTrip(w, a, u) ==>
          (exists i :: 0 <= i < |picks| && picks[i].node == u) || LeftOut(w, pref, ly, sqrt, rules, a, b, picks, u))
  }

  /** The best reachable system is chosen; if the fleet must move, the next best, up to five, are the alternates. */
  ghost predicate IsBestStaging(w: Terms, pref: Preference, ly: real, sqrt: real -> real, rules: Rules, a: nat, b: nat,
                                r: StagingResponse)
  {
    exists picks :: ShowsPicks(w, pref, ly, sqrt, rules, a, b, picks, r)
  }

  /** Every staging request between two known systems, in the order things are checked. */
  ghost predicate IsStagingOutcome(graph: GraphData, scout: EveScoutSnapshot, q: StagingQuery, now: int, sqrt: real -> real,
                                   rules: Rules, a: nat, b: nat, res: Result<StagingResponse, AppError>)
    requires b < |graph.systems|
  {
    if !rules.destOk(graph.systems[b]) then res == Err(rules.reject(graph.systems[b]))
    else if forall v :: !CanStage(graph, b, q.effectiveLy, rules, v) then res == Err(NoStagingInRange)
    else
      match FirstUnknown(graph, Mentioned(q.overlay))
      case Some(r) => res == Err(UnknownSystem(r))
      case None =>
        var w := LegTerms(graph, scout, q.overlay, a, b, now);
        if forall v :: CanStage(graph, b, q.effectiveLy, rules, v) ==> !HasTrip(w, a, v) then res == Err(StagingUnreachable)
        else res.Ok? && IsBestStaging(w, q.preference, q.effectiveLy, sqrt, rules, a, b, res.value)
  }

  /** Every staging request. */
  ghost predicate AnswersStaging(graph: GraphData, scout: EveScoutSnapshot, q: StagingQuery, now: int, sqrt: real -> real,
                                 rules: Rules, res: Result<StagingResponse, AppError>)
  {
    match FirstUnknown(graph, [q.from, q.to])
    case Some(r) => res == Err(UnknownSystem(r))
    case None =>
      forall a: nat, b: nat :: Refers(graph, q.from, a) && Refers(graph, q.to, b) ==>
        IsStagingOutcome(graph, scout, q, now, sqrt, rules, a, b, res)
  }

  // ---------------------------------------------------------------- the service's answer is the one asked for

  lemma CandidateCanStage(graph: GraphData, b: nat, ly: real, rules: Rules)
    requires b < |graph.systems|
    ensures forall v: nat :: IsCandidate(graph, b, ly, rules, v) <==> CanStage(graph, b, ly, rules, v)
  {
    hide InRange, Near;
    forall v: nat {
      InRangeIff(graph, graph.systems[b].coords, ly, v);
    }
  }

  function PickOf(e: SettledTarget): Pick { Pick(e.node, e.path) }

  lemma ReachedStages(w: Terms, c: Ctx, q: StagingQuery, s: Setup, rules: Rules, e: SettledTarget)
    requires Realizes(c, w) && c.preference == q.preference && c.graph == w.graph && s.to < |c.graph.systems|
    requires IsReachedCandidate(c, q, s, rules, e)
    ensures Stages(w, q.preference, q.effectiveLy, rules, s.from, s.to, PickOf(e)) && e.jumps == |e.path| - 1
    ensures InMap(c, e.path) && Shows(w, e.path, StepsOf(c, e.path))
  {
    hide Realizes, BestTrip, IsCandidate, CanStage, Shows, StepsOf, CanonicalPath, Reachable, Network;
    CandidateCanStage(w.graph, s.to, q.effectiveLy, rules);
    CanonicalIsBestTrip(w, c, s.from, e.node);
  }

  lemma ReachedIff(w: Terms, c: Ctx, q: StagingQuery, s: Setup, rules: Rules, u: nat)
    requires Realizes(c, w) && c.graph == w.graph && s.to < |c.graph.systems|
    ensures CanStage(w.graph, s.to, q.effectiveLy, rules, u) && HasTrip(w, s.from, u) <==>
            exists e :: IsReachedCandidate(c, q, s, rules, e) && e.node == u
  {
    hide Realizes, BestTrip, HasTrip, IsCandidate, CanStage, Shows, StepsOf, CanonicalPath, Reachable, Network, IsReachedCandidate;
    CandidateCanStage(w.graph, s.to, q.effectiveLy, rules);
    CanonicalIsBestTrip(w, c, s.from, u);
    if CanStage(w.graph, s.to, q.effectiveLy, rules, u) && HasTrip(w, s.from, u) {
      assert IsReachedCandidate(c, q, s, rules, SettledFor(Network(c), s.from, u)) by { SettledIsReached(c, q, s, rules, u); }
    }
    if e :| IsReachedCandidate(c, q, s, rules, e) && e.node == u {
      ReachedIsReachable(c, q, s, rules, e);
    }
  }

  lemma SettledIsReached(c: Ctx, q: StagingQuery, s: Setup, rules: Rules, u: nat)
    requires s.to < |c.graph.systems| && IsCandidate(c.graph, s.to, q.effectiveLy, rules, u) && Reachable(Network(c), s.from, u)
    ensures IsReachedCandidate(c, q, s, rules, SettledFor(Network(c), s.from, u))
  {
  }

  lemma ReachedIsReachable(c: Ctx, q: StagingQuery, s: Setup, rules: Rules, e: SettledTarget)
    requires s.to < |c.graph.systems| && IsReachedCandidate(c, q, s, rules, e)
    ensures IsCandidate(c.graph, s.to, q.effectiveLy, rules, e.node) && Reachable(Network(c), s.from, e.node)
    ensures e == SettledFor(Network(c), s.from, e.node)
  {
  }

  lemma RankedNoWorse(sqrt: real -> real, graph: GraphData, b: nat, x: SettledTarget, y: SettledTarget)
    requires b < |graph.systems| && x.jumps == |x.path| - 1 && y.jumps == |y.path| - 1
    ensures RankLe(sqrt, graph, graph.systems[b].coords, x, y) <==> NoWorse(sqrt, graph, b, PickOf(x), PickOf(y))
  {
  }

  function Picks(ranked: seq<SettledTarget>): seq<Pick> {
    seq(|ranked|, i requires 0 <= i < |ranked| => PickOf(ranked[i]))
  }

  lemma SameNode(c: Ctx, q: StagingQuery, s: Setup, rules: Rules, e: SettledTarget, f: SettledTarget)
    requires s.to < |c.graph.systems| && e.node == f.node
    requires IsReachedCandidate(c, q, s, rules, e) && IsReachedCandidate(c, q, s, rules, f)
    ensures e == f
  {
  }

  lemma RankingIsBestFirst(w: Terms, c: Ctx, q: StagingQuery, s: Setup, rules: Rules, sqrt: real -> real, ranked: seq<SettledTarget>)
    requires Realizes(c, w) && c.preference == q.preference && c.graph == w.graph && s.to < |c.graph.systems|
    requires IsRanking(sqrt, c, q, s, rules, ranked)
    ensures BestFirst(w, q.preference, q.effectiveLy, sqrt, rules, s.from, s.to, Picks(ranked))
  {
    hide Realizes, RankLe, IsReachedCandidate, Stages, NoWorse, StepsOf, Shows;
    forall i | 0 <= i < |ranked|
      ensures Stages(w, q.preference, q.effectiveLy, rules, s.from, s.to, PickOf(ranked[i])) && ranked[i].jumps == |ranked[i].path| - 1
    {
      assert ranked[i] in ranked;
      ReachedStages(w, c, q, s, rules, ranked[i]);
    }
    forall i, j | 0 <= i < j < |ranked|
      ensures ranked[i].node != ranked[j].node && NoWorse(sqrt, w.graph, s.to, PickOf(ranked[i]), PickOf(ranked[j]))
    {
      assert ranked[i] in ranked && ranked[j] in ranked;
      if ranked[i].node == ranked[j].node {
        SameNode(c, q, s, rules, ranked[i], ranked[j]);
      }
      RankedNoWorse(sqrt, w.graph, s.to, ranked[i], ranked[j]);
    }
  }

  lemma PresentationShows(w: Terms, c: Ctx, q: StagingQuery, s: Setup, rules: Rules, sqrt: real -> real,
                          ranked: seq<SettledTarget>, r: StagingResponse)
    requires Realizes(c, w) && c.preference == q.preference && c.graph == w.graph && s.to < |c.graph.systems|
    requires IsRanking(sqrt, c, q, s, rules, ranked) && ranked != [] && InMap(c, ranked[0].path)
    requires forall e :: e in ranked ==> e.node < |c.graph.systems|
    requires Presents(sqrt, c, q, s, ranked, r)
    ensures |ranked[0].path| - 1 == ranked[0].jumps
    ensures |r.alternates| == if |ranked[0].path| == 1 then 0 else if |ranked| - 1 < 5 then |ranked| - 1 else 5
    ensures ShowsChosen(w, sqrt, s.to, PickOf(ranked[0]), r.chosen)
    ensures forall i :: 0 <= i < |r.alternates| ==> ShowsAlternate(w, sqrt, s.to, PickOf(ranked[i + 1]), r.alternates[i])
  {
    hide Realizes, RankLe, IsReachedCandidate, Stages, StepsOf, Shows;
    assert ranked[0] in ranked;
    ReachedStages(w, c, q, s, rules, ranked[0]);
    forall i | 0 <= i < |r.alternates|
      ensures ShowsAlternate(w, sqrt, s.to, PickOf(ranked[i + 1]), r.alternates[i])
    {
      assert ranked[i + 1] in ranked;
      ReachedStages(w, c, q, s, rules, ranked[i + 1]);
    }
  }

  lemma OthersLeftOut(w: Terms, c: Ctx, q: StagingQuery, s: Setup, rules: Rules, sqrt: real -> real,
                      ranked: seq<SettledTarget>, n: nat, u: nat)
    requires Realizes(c, w) && c.graph == w.graph && s.to < |c.graph.systems|
    requires IsRanking(sqrt, c, q, s, rules, ranked) && 0 < n <= |ranked|
    requires BestFirst(w, q.preference, q.effectiveLy, sqrt, rules, s.from, s.to, Picks(ranked))
    requires n == |ranked| || n == 6 || |ranked[0].path| == 1
    requires CanStage(w.graph, s.to, q.effectiveLy, rules, u) && HasTrip(w, s.from, u)
    ensures (exists i :: 0 <= i < n && Picks(ranked)[i].node == u)
            || LeftOut(w, q.preference, q.effectiveLy, sqrt, rules, s.from, s.to, Picks(ranked)[..n], u)
  {
    hide Realizes, CanStage, HasTrip, RankLe, IsReachedCandidate, Stages, NoWorse;
    ReachedIff(w, c, q, s, rules, u);
    var e :| IsReachedCandidate(c, q, s, rules, e) && e.node == u;
    assert e in ranked;
    var k :| 0 <= k < |ranked| && ranked[k] == e;
    if k < n {
      assert Picks(ranked)[k].node == u;
    } else {
      assert Picks(ranked)[k] == Pick(u, e.path);
    }
  }

  /** What the response presents of a ranking is the best staging. */
  lemma RankingIsBest(w: Terms, c: Ctx, q: StagingQuery, s: Setup, rules: Rules, sqrt: real -> real,
                      ranked: seq<SettledTarget>, r: StagingResponse)
    requires Realizes(c, w) && c.preference == q.preference && c.graph == w.graph && s.to < |c.graph.systems|
    requires IsRanking(sqrt, c, q, s, rules, ranked) && ranked != [] && InMap(c, ranked[0].path)
    requires forall e :: e in ranked ==> e.node < |c.graph.systems|
    requires Presents(sqrt, c, q, s, ranked, r)
    ensures IsBestStaging(w, q.preference, q.effectiveLy, sqrt, rules, s.from, s.to, r)
  {
    hide Realizes, InMap, CanStage, HasTrip, IsRanking, Presents, Stages, NoWorse, ShowsChosen, ShowsAlternate, LeftOut;
    var n, all := |r.alternates| + 1, Picks(ranked);
    RankingIsBestFirst(w, c, q, s, rules, sqrt, ranked);
    PresentationShows(w, c, q, s, rules, sqrt, ranked, r);
    var picks := all[..n];
    forall u: nat | CanStage(w.graph, s.to, q.effectiveLy, rules, u) && HasTrip(w, s.from, u)
      ensures (exists i :: 0 <= i < |picks| && picks[i].node == u)
              || LeftOut(w, q.preference, q.effectiveLy, sqrt, rules, s.from, s.to, picks, u)
    {
      OthersLeftOut(w, c, q, s, rules, sqrt, ranked, n, u);
      if i :| 0 <= i < n && all[i].node == u {
        assert picks[i].node == u;
      }
    }
    assert BestFirst(w, q.preference, q.effectiveLy, sqrt, rules, s.from, s.to, picks);
    assert forall i :: 0 <= i < |r.alternates| ==> ShowsAlternate(w, sqrt, s.to, picks[i + 1], r.alternates[i]);
    assert ShowsPicks(w, q.preference, q.effectiveLy, sqrt, rules, s.from, s.to, picks, r);
  }

  lemma SetupByTerms(graph: GraphData, q: StagingQuery, rules: Rules, a: nat, b: nat)
    requires graph.Valid() && Refers(graph, q.from, a) && Refers(graph, q.to, b)
    ensures var setup := SetupOf(graph, q, rules);
            if !rules.destOk(graph.systems[b]) then setup == Err(rules.reject(graph.systems[b]))
            else if forall v :: !CanStage(graph, b, q.effectiveLy, rules, v) then setup == Err(NoStagingInRange)
            else
              match FirstUnknown(graph, Mentioned(q.overlay))
              case Some(r) => setup == Err(UnknownSystem(r))
              case None => setup.Ok? && setup.value.from == a && setup.value.to == b
                           && AvoidSet(graph, q.overlay) == Ok(setup.value.avoid)
                           && ResolveConnections(graph, q.overlay.connections) == Ok(setup.value.links)
  {
    hide GraphData.Valid, ResolveSystem, ResolveAll, ResolveConnections, Refers, Unknown, IsCandidate, CanStage;
    ResolvesIff(graph, q.from);
    ResolvesIff(graph, q.to);
    RefersInMap(graph, q.to, b);
    CandidateCanStage(graph, b, q.effectiveLy, rules);
    AllEnd(graph, q.overlay.avoid);
    ConnectionsEnd(graph, q.overlay.connections);
    FirstUnknownConcat(graph, q.overlay.avoid, Ends(q.overlay.connections));
  }

  lemma RefersInMap(graph: GraphData, r: SystemRef, v: nat)
    requires Refers(graph, r, v)
    ensures v < |graph.systems|
  {
  }

  /** Between two known systems the service decides as the request asks. */
  lemma StagingOutcomeIsRight(graph: GraphData, scout: EveScoutSnapshot, q: StagingQuery, now: int, sqrt: real -> real,
                              rules: Rules, a: nat, b: nat, res: Result<StagingResponse, AppError>)
    requires graph.Valid() && StagingAnswer(graph, scout, q, now, sqrt, rules, res)
    requires Refers(graph, q.from, a) && Refers(graph, q.to, b)
    ensures b < |graph.systems| && IsStagingOutcome(graph, scout, q, now, sqrt, rules, a, b, res)
  {
    hide GraphData.Valid, SetupOf, Refers, FirstUnknown, CanStage, HasTrip, IsReachedCandidate, AvoidSet, ResolveConnections,
         ProblemOf, IsRanking, Presents, IsBestStaging, Realizes, InMap;
    SetupByTerms(graph, q, rules, a, b);
    RefersInMap(graph, q.to, b);
    if SetupOf(graph, q, rules).Ok? {
      var s, w := SetupOf(graph, q, rules).value, LegTerms(graph, scout, q.overlay, a, b, now);
      var c := StagingProblem(graph, scout, q, now, s);
      ProblemRealizes(w, q.preference, s.avoid, s.links);
      ProblemKeeps(graph, scout, q, now, s);
      forall u: nat {
        ReachedIff(w, c, q, s, rules, u);
      }
      if e :| IsReachedCandidate(c, q, s, rules, e) {
        ReachedIff(w, c, q, s, rules, e.node);
        var s', c', ranked := RankingOf(graph, scout, q, now, sqrt, rules, res);
        RankingIsBest(w, c, q, s, rules, sqrt, ranked, res.value);
      }
    }
  }

  lemma FirstOfTwo(graph: GraphData, x: SystemRef, y: SystemRef)
    ensures FirstUnknown(graph, [x, y]) == if Unknown(graph, x) then Some(x) else if Unknown(graph, y) then Some(y) else None
  {
    hide Unknown;
    assert [x, y][1..] == [y] && [y][1..] == [];
    assert FirstUnknown(graph, [y]) == if Unknown(graph, y) then Some(y) else None;
  }

  lemma ProblemKeeps(graph: GraphData, scout: EveScoutSnapshot, q: StagingQuery, now: int, s: Setup)
    ensures StagingProblem(graph, scout, q, now, s).graph == graph
    ensures StagingProblem(graph, scout, q, now, s).preference == q.preference
  {
  }

  /** The service's answer to any staging request is the one the request asks for. */
  lemma StagingAnswersTheRequest(graph: GraphData, scout: EveScoutSnapshot, q: StagingQuery, now: int, sqrt: real -> real,
                                 rules: Rules, res: Result<StagingResponse, AppError>)
    requires graph.Valid() && StagingAnswer(graph, scout, q, now, sqrt, rules, res)
    ensures AnswersStaging(graph, scout, q, now, sqrt, rules, res)
  {
    hide GraphData.Valid, ResolveSystem, Unknown, FirstUnknown, Refers, SetupOf, IsStagingOutcome, IsAnswer;
    ResolvesIff(graph, q.from);
    ResolvesIff(graph, q.to);
    FirstOfTwo(graph, q.from, q.to);
    EndsFirst(graph, q, rules);
    forall a: nat, b: nat | Refers(graph, q.from, a) && Refers(graph, q.to, b)
      ensures b < |graph.systems| && IsStagingOutcome(graph, scout, q, now, sqrt, rules, a, b, res)
    {
      StagingOutcomeIsRight(graph, scout, q, now, sqrt, rules, a, b, res);
    }
  }

  /** What a staging answer promises is about the systems chosen and nothing else in the response. */
  lemma OnlyChoicesMatter(w: Terms, pref: Preference, ly: real, sqrt: real -> real, rules: Rules, a: nat, b: nat,
                          r: StagingResponse, r': StagingResponse)
    requires IsBestStaging(w, pref, ly, sqrt, rules, a, b, r) && r.chosen == r'.chosen && r.alternates == r'.alternates
    ensures IsBestStaging(w, pref, ly, sqrt, rules, a, b, r')
  {
    hide BestFirst, ShowsChosen, ShowsAlternate, LeftOut, CanStage, HasTrip;
    var picks :| ShowsPicks(w, pref, ly, sqrt, rules, a, b, picks, r);
    assert ShowsPicks(w, pref, ly, sqrt, rules, a, b, picks, r');
  }

  lemma AnswersAlike(graph: GraphData, scout: EveScoutSnapshot, q: StagingQuery, now: int, sqrt: real -> real,
                     rules: Rules, r: StagingResponse, r': StagingResponse)
    requires AnswersStaging(graph, scout, q, now, sqrt, rules, Ok(r)) && r.chosen == r'.chosen && r.alternates == r'.alternates
    ensures AnswersStaging(graph, scout, q, now, sqrt, rules, Ok(r'))
  {
    hide Refers, IsBestStaging, CanStage, HasTrip, FirstUnknown;
    forall a: nat, b: nat | Refers(graph, q.from, a) && Refers(graph, q.to, b)
      ensures b < |graph.systems| && IsStagingOutcome(graph, scout, q, now, sqrt, rules, a, b, Ok(r'))
    {
      RefersInMap(graph, q.to, b);
      assert IsStagingOutcome(graph, scout, q, now, sqrt, rules, a, b, Ok(r));
      var w := LegTerms(graph, scout, q.overlay, a, b, now);
      if IsBestStaging(w, q.preference, q.effectiveLy, sqrt, rules, a, b, r) {
        OnlyChoicesMatter(w, q.preference, q.effectiveLy, sqrt, rules, a, b, r, r');
      }
    }
  }

  /** Under Shortest the gate jumps are the fewest of all trips to all systems that may be staged from. */
  lemma ShortestStagesNearest(w: Terms, ly: real, sqrt: real -> real, rules: Rules, a: nat, b: nat, r: StagingResponse,
                              u: nat, q: seq<nat>)
    requires IsBestStaging(w, Shortest, ly, sqrt, rules, a, b, r)
    requires CanStage(w.graph, b, ly, rules, u) && IsTrip(w, a, u, q)
    ensures r.chosen.gateJumps <= |q| - 1
  {
    hide CanStage, IsTrip;
    assert HasTrip(w, a, u);
  }
}
