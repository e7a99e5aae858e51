/** What a caller of the staging service can rely on, for every request. */
module StagingProperties {
  import opened Wrappers
  import opened Walks
  import opened Model
  import opened Routing
  import opened Preferences
  import opened RouteService
  import opened JumpRange
  import opened Sorting
  import opened Staging
  import RouteProperties
  import GraphBuild

  /** Both ends are known and the target allowed, but nothing in range may be staged from. */
  ghost predicate NothingInRange(graph: GraphData, q: StagingQuery, rules: Rules)
    requires graph.Valid()
  {
    var from, to := ResolveSystem(graph, q.from), ResolveSystem(graph, q.to);
    && from.Ok? && to.Ok? && rules.destOk(graph.systems[to.value])
    && forall v :: !IsCandidate(graph, to.value, q.effectiveLy, rules, v)
  }

  /** Whether the search has a reachable candidate. */
  ghost predicate SomeReached(graph: GraphData, scout: EveScoutSnapshot, q: StagingQuery, now: int, rules: Rules, s: Setup)
    requires s.to < |graph.systems|
  {
    exists e :: IsReachedCandidate(StagingProblem(graph, scout, q, now, s), q, s, rules, e)
  }

  /** Each failure arises exactly when it should. */
  lemma StagingErrorsExactly(graph: GraphData, scout: EveScoutSnapshot, q: StagingQuery, now: int,
                             sqrt: real -> real, rules: Rules, res: Result<StagingResponse, AppError>)
    requires graph.Valid() && StagingAnswer(graph, scout, q, now, sqrt, rules, res)
    requires forall b :: rules.reject(b).CynoTargetHighsec?
    ensures res == Err(NoStagingInRange) <==> NothingInRange(graph, q, rules)
    ensures SetupOf(graph, q, rules).Err? ==> res == Err(SetupOf(graph, q, rules).error)
    ensures SetupOf(graph, q, rules).Ok? ==>
              var s := SetupOf(graph, q, rules).value;
              && s.to < |graph.systems|
              && (res == Err(StagingUnreachable) <==> !SomeReached(graph, scout, q, now, rules, s))
              && (res.Ok? <==> SomeReached(graph, scout, q, now, rules, s))
  {
    hide GraphData.Valid, SetupOf, IsReachedCandidate, IsRanking, Presents, InMap, NothingInRange;
    SetupErrors(graph, q, rules);
    if SetupOf(graph, q, rules).Ok? {
      SetupInRange(graph, q, rules);
    }
  }

  lemma SetupErrors(graph: GraphData, q: StagingQuery, rules: Rules)
    requires graph.Valid() && forall b :: rules.reject(b).CynoTargetHighsec?
    ensures SetupOf(graph, q, rules) == Err(NoStagingInRange) <==> NothingInRange(graph, q, rules)
  {
    hide GraphData.Valid, IsCandidate, AvoidSet, ResolveConnections;
    AvoidErrors(graph, q.overlay);
    ConnectionErrors(graph, q.overlay.connections);
  }

  /** The kinds of failure before the search, and when the target is refused. */
  lemma SetupErrorKinds(graph: GraphData, q: StagingQuery, rules: Rules)
    requires graph.Valid() && SetupOf(graph, q, rules).Err? && forall b :: rules.reject(b).CynoTargetHighsec?
    ensures var e := SetupOf(graph, q, rules).error;
            var from, to := ResolveSystem(graph, q.from), ResolveSystem(graph, q.to);
            && (e.UnknownSystem? || e.CynoTargetHighsec? || e.NoStagingInRange?)
            && (e.CynoTargetHighsec? <==> from.Ok? && to.Ok? && !rules.destOk(graph.systems[to.value]))
  {
    hide GraphData.Valid, IsCandidate, AvoidSet, ResolveConnections;
    AvoidErrors(graph, q.overlay);
    ConnectionErrors(graph, q.overlay.connections);
  }

  /** Every system the overlay names is known. */
  ghost predicate OverlayKnown(graph: GraphData, inputs: OverlayInputs) {
    && (forall i :: 0 <= i < |inputs.avoid| ==> ResolveSystem(graph, inputs.avoid[i]).Ok?)
    && (forall i :: 0 <= i < |inputs.connections| ==>
          ResolveSystem(graph, inputs.connections[i].from).Ok? && ResolveSystem(graph, inputs.connections[i].to).Ok?)
  }

  lemma SetupAccepts(graph: GraphData, q: StagingQuery, rules: Rules)
    requires graph.Valid() && SetupOf(graph, q, rules).Ok?
    ensures var from, to := ResolveSystem(graph, q.from), ResolveSystem(graph, q.to);
            from.Ok? && to.Ok? && rules.destOk(graph.systems[to.value])
  {
    hide GraphData.Valid, IsCandidate, AvoidSet, ResolveConnections;
  }

  /** An unknown end is reported first; an unknown overlay system only once something may be staged from. */
  lemma SetupUnknownIff(graph: GraphData, q: StagingQuery, rules: Rules)
    requires graph.Valid() && forall b :: rules.reject(b).CynoTargetHighsec?
    ensures SetupOf(graph, q, rules).Err? && SetupOf(graph, q, rules).error.UnknownSystem? <==>
            var from, to := ResolveSystem(graph, q.from), ResolveSystem(graph, q.to);
            || from.Err? || to.Err?
            || (rules.destOk(graph.systems[to.value]) && !NothingInRange(graph, q, rules) && !OverlayKnown(graph, q.overlay))
  {
    hide GraphData.Valid, IsCandidate, AvoidSet, ResolveConnections, Lower;
    AvoidErrors(graph, q.overlay);
    ConnectionErrors(graph, q.overlay.connections);
    RouteProperties.AvoidFailsIff(graph, q.overlay);
    RouteProperties.ConnectionsFailIff(graph, q.overlay.connections);
  }

  lemma AvoidErrors(graph: GraphData, inputs: OverlayInputs)
    ensures AvoidSet(graph, inputs).Err? ==> AvoidSet(graph, inputs).error.UnknownSystem?
  {
  }

  lemma {:induction false} ConnectionErrors(graph: GraphData, cs: seq<Connection>)
    ensures ResolveConnections(graph, cs).Err? ==> ResolveConnections(graph, cs).error.UnknownSystem?
  {
    if cs != [] {
      ConnectionErrors(graph, cs[1..]);
    }
  }

  /** The ranking behind a successful response. */
  lemma RankingOf(graph: GraphData, scout: EveScoutSnapshot, q: StagingQuery, now: int,
                  sqrt: real -> real, rules: Rules, res: Result<StagingResponse, AppError>)
    returns (s: Setup, c: Ctx, ranked: seq<SettledTarget>)
    requires graph.Valid() && StagingAnswer(graph, scout, q, now, sqrt, rules, res) && res.Ok?
    ensures SetupOf(graph, q, rules) == Ok(s) && c == StagingProblem(graph, scout, q, now, s) && s.to < |graph.systems|
    ensures IsRanking(sqrt, c, q, s, rules, ranked) && ranked != [] && InMap(c, ranked[0].path)
    ensures forall e :: e in ranked ==> e.node < |graph.systems|
    ensures Presents(sqrt, c, q, s, ranked, res.value)
  {
    hide GraphData.Valid, IsCandidate, IsReachedCandidate, IsRanking, Presents, InMap;
    s := SetupOf(graph, q, rules).value;
    c := StagingProblem(graph, scout, q, now, s);
    ranked :| IsRanking(sqrt, c, q, s, rules, ranked) && ranked != [] && InMap(c, ranked[0].path)
      && (forall e :: e in ranked ==> e.node < |c.graph.systems|)
      && Presents(sqrt, c, q, s, ranked, res.value);
  }

  /** The chosen system is least by (gate jumps, light-years) of all reachable candidates. */
  lemma ChosenIsBest(graph: GraphData, scout: EveScoutSnapshot, q: StagingQuery, now: int,
                     sqrt: real -> real, rules: Rules, res: Result<StagingResponse, AppError>)
    returns (s: Setup, c: Ctx, star: SettledTarget)
    requires graph.Valid() && StagingAnswer(graph, scout, q, now, sqrt, rules, res) && res.Ok?
    ensures SetupOf(graph, q, rules) == Ok(s) && c == StagingProblem(graph, scout, q, now, s) && s.to < |graph.systems|
    ensures IsReachedCandidate(c, q, s, rules, star) && star.node < |graph.systems| && InMap(c, star.path)
    ensures res.value.chosen.gateJumps == star.jumps && res.value.chosen.gatePath == StepsOf(c, star.path)
    ensures res.value.chosen.bridge.from == InfoOf(graph.systems[star.node])
    ensures forall e :: IsReachedCandidate(c, q, s, rules, e) ==>
              RankLe(sqrt, graph, graph.systems[s.to].coords, star, e)
  {
    hide GraphData.Valid, SetupOf, IsReachedCandidate, RankLe, InMap, StepsOf;
    var ranked;
    s, c, ranked := RankingOf(graph, scout, q, now, sqrt, rules, res);
    star := ranked[0];
    assert star in ranked;
    forall e | IsReachedCandidate(c, q, s, rules, e)
      ensures RankLe(sqrt, graph, graph.systems[s.to].coords, star, e)
    {
      HeadIsLeast(sqrt, graph, graph.systems[s.to].coords, ranked, e);
    }
  }

  /** What the response states about the bridge is so: the chosen system is within the range asked for. */
  lemma ChosenIsInRange(graph: GraphData, scout: EveScoutSnapshot, q: StagingQuery, now: int,
                        sqrt: real -> real, rules: Rules, res: Result<StagingResponse, AppError>)
    returns (s: Setup, star: nat)
    requires graph.Valid() && StagingAnswer(graph, scout, q, now, sqrt, rules, res) && res.Ok?
    requires IsSqrt(sqrt) && q.effectiveLy >= 0.0
    ensures SetupOf(graph, q, rules) == Ok(s) && s.to < |graph.systems| && star < |graph.systems| && star != s.to
    ensures res.value.chosen.bridge.from == InfoOf(graph.systems[star]) && res.value.chosen.bridge.inRange
    ensures LyBetween(sqrt, graph.systems[star].coords, graph.systems[s.to].coords) <= q.effectiveLy
  {
    hide GraphData.Valid, SetupOf, RankLe, InMap, StepsOf, LyBetween, RadiusM2;
    var c, ranked;
    s, c, ranked := RankingOf(graph, scout, q, now, sqrt, rules, res);
    star := ranked[0].node;
    assert ranked[0] in ranked;
    assert IsReachedCandidate(c, q, s, rules, ranked[0]);
    RadiusMatchesLy(sqrt, graph.systems[star].coords, graph.systems[s.to].coords, q.effectiveLy);
  }

  lemma HeadIsLeast(sqrt: real -> real, graph: GraphData, center: Coords, ranked: seq<SettledTarget>, e: SettledTarget)
    requires e in ranked
    requires forall i, j :: 0 <= i < j < |ranked| ==> RankLe(sqrt, graph, center, ranked[i], ranked[j])
    ensures RankLe(sqrt, graph, center, ranked[0], e)
  {
    var k :| 0 <= k < |ranked| && ranked[k] == e;
    if k == 0 {
      RankReflexive(sqrt, graph, center, e);
    }
  }

  /** The alternates are the next best after the chosen system, at most five, and none left out beats them. */
  lemma AlternatesAreNextBest(graph: GraphData, scout: EveScoutSnapshot, q: StagingQuery, now: int,
                              sqrt: real -> real, rules: Rules, res: Result<StagingResponse, AppError>)
    returns (s: Setup, c: Ctx, star: SettledTarget, next: seq<SettledTarget>)
    requires graph.Valid() && StagingAnswer(graph, scout, q, now, sqrt, rules, res) && res.Ok?
    ensures SetupOf(graph, q, rules) == Ok(s) && c == StagingProblem(graph, scout, q, now, s) && s.to < |graph.systems|
    ensures star.jumps == res.value.chosen.gateJumps && IsReachedCandidate(c, q, s, rules, star)
    ensures NoRepeats([star] + next) && |next| == |res.value.alternates| <= 5
    ensures forall i :: 0 <= i < |next| ==>
              && IsReachedCandidate(c, q, s, rules, next[i]) && next[i].node < |graph.systems|
              && res.value.alternates[i] == AlternateOf(sqrt, graph, graph.systems[s.to].coords, next[i])
    ensures forall i, j :: 0 <= i < j < |next| ==> RankLe(sqrt, graph, graph.systems[s.to].coords, next[i], next[j])
    ensures star.jumps > 0 ==>
              forall e :: IsReachedCandidate(c, q, s, rules, e) && e != star && e !in next ==>
                |next| == 5 &&
                forall i :: 0 <= i < |next| ==> RankLe(sqrt, graph, graph.systems[s.to].coords, next[i], e)
  {
    hide GraphData.Valid, SetupOf, StagingAnswer, IsReachedCandidate, RankLe, InMap, StepsOf, AlternateOf;
    var ranked;
    s, c, ranked := RankingOf(graph, scout, q, now, sqrt, rules, res);
    star := ranked[0];
    var n := |res.value.alternates|;
    next := ranked[1..n + 1];
    assert [star] + next == ranked[..n + 1];
    assert star in ranked;
    assert forall i :: 0 <= i < n ==> next[i] == ranked[i + 1] && next[i] in ranked;
    if star.jumps > 0 {
      forall e | IsReachedCandidate(c, q, s, rules, e) && e != star && e !in next
        ensures n == MAX_ALTERNATES
        ensures forall i :: 0 <= i < n ==> RankLe(sqrt, graph, graph.systems[s.to].coords, next[i], e)
      {
        LeftOutIsWorse(sqrt, c, q, s, rules, ranked, next, e);
      }
    }
  }

  lemma LeftOutIsWorse(sqrt: real -> real, c: Ctx, q: StagingQuery, s: Setup, rules: Rules,
                       ranked: seq<SettledTarget>, next: seq<SettledTarget>, e: SettledTarget)
    requires s.to < |c.graph.systems| && IsRanking(sqrt, c, q, s, rules, ranked)
    requires |next| < |ranked| && next == ranked[1..|next| + 1]
    requires IsReachedCandidate(c, q, s, rules, e) && e != ranked[0] && e !in next
    ensures |next| + 1 < |ranked|
    ensures forall i :: 0 <= i < |next| ==> RankLe(sqrt, c.graph, c.graph.systems[s.to].coords, next[i], e)
  {
    hide IsReachedCandidate, RankLe;
    forall j | 0 < j <= |next|
      ensures ranked[j] in next
    {
      assert ranked[j] == next[j - 1];
    }
    assert e in ranked;
    var k :| 0 <= k < |ranked| && ranked[k] == e;
  }

  /** Light-years rank as metres do, so the ranking does not depend on how the root is taken. */
  lemma RankIsByDistance(sqrt: real -> real, graph: GraphData, center: Coords, a: SettledTarget, b: SettledTarget)
    requires IsSqrt(sqrt) && a.node < |graph.systems| && b.node < |graph.systems|
    ensures RankLe(sqrt, graph, center, a, b) <==>
            || a.jumps < b.jumps
            || (a.jumps == b.jumps &&
                DistSq(graph.systems[a.node].coords, center) <= DistSq(graph.systems[b.node].coords, center))
  {
    hide IsSqrt, LyBetween, DistSq;
    CloserInLy(sqrt, graph.systems[a.node].coords, graph.systems[b.node].coords, center);
  }

  /** Of the reachable candidates as few jumps away, none is nearer to the target than the chosen one. */
  lemma ChosenIsNearest(graph: GraphData, scout: EveScoutSnapshot, q: StagingQuery, now: int,
                        sqrt: real -> real, rules: Rules, res: Result<StagingResponse, AppError>)
    returns (s: Setup, c: Ctx, star: SettledTarget)
    requires graph.Valid() && StagingAnswer(graph, scout, q, now, sqrt, rules, res) && res.Ok? && IsSqrt(sqrt)
    ensures SetupOf(graph, q, rules) == Ok(s) && c == StagingProblem(graph, scout, q, now, s) && s.to < |graph.systems|
    ensures IsReachedCandidate(c, q, s, rules, star) && star.node < |graph.systems|
    ensures res.value.chosen.gateJumps == star.jumps
    ensures res.value.chosen.bridge.from == InfoOf(graph.systems[star.node])
    ensures forall e :: IsReachedCandidate(c, q, s, rules, e) && e.node < |graph.systems| ==>
              && star.jumps <= e.jumps
              && (star.jumps == e.jumps ==> DistSq(graph.systems[star.node].coords, graph.systems[s.to].coords)
                                            <= DistSq(graph.systems[e.node].coords, graph.systems[s.to].coords))
  {
    hide GraphData.Valid, SetupOf, IsReachedCandidate, RankLe, InMap, StepsOf, IsSqrt, DistSq;
    s, c, star := ChosenIsBest(graph, scout, q, now, sqrt, rules, res);
    forall e | IsReachedCandidate(c, q, s, rules, e) && e.node < |graph.systems|
      ensures star.jumps <= e.jumps
      ensures star.jumps == e.jumps ==> DistSq(graph.systems[star.node].coords, graph.systems[s.to].coords)
                                        <= DistSq(graph.systems[e.node].coords, graph.systems[s.to].coords)
    {
      RankIsByDistance(sqrt, graph, graph.systems[s.to].coords, star, e);
    }
  }

  /** No system after the first on a candidate's route was avoided; the fleet's own never recurs. */
  lemma GateLegNotAvoided(c: Ctx, avoid: set<nat>, from: nat, t: nat, k: nat)
    requires c.avoid == avoid - {from} && Reachable(Network(c), from, t)
    requires 0 < k < |CanonicalPath(Network(c), from, t)|
    ensures CanonicalPath(Network(c), from, t)[k] !in avoid
  {
    RouteIsCheapest(c, from, t);
    var p := FindRoute(Network(c), from, t).value;
    assert StepAt(c, p, k);
    assert p[k] != p[0];
  }

  /** No step of the gate leg, the staging system included, is in the user's avoid list, nor Zarzakh unless opted in. */
  lemma GateLegExclusion(graph: GraphData, scout: EveScoutSnapshot, q: StagingQuery, now: int,
                         sqrt: real -> real, rules: Rules, res: Result<StagingResponse, AppError>, k: nat)
    requires graph.Valid() && GraphBuild.DistinctIds(graph.systems)
    requires StagingAnswer(graph, scout, q, now, sqrt, rules, res) && res.Ok? && 0 < k < |res.value.chosen.gatePath|
    ensures var id := res.value.chosen.gatePath[k].systemId;
            && (!q.overlay.includeZarzakh ==> id != ZARZAKH_SYSTEM_ID)
            && forall r :: r in q.overlay.avoid && ResolveSystem(graph, r).Ok? ==>
                 graph.systems[ResolveSystem(graph, r).value].id != id
  {
    hide GraphData.Valid, SetupOf, RankLe, IsCandidate, StagingAnswer, AvoidSet, ResolveSystem, Network, Reachable, CanonicalPath;
    var s, c, star := ChosenIsBest(graph, scout, q, now, sqrt, rules, res);
    assert IsReachedCandidate(c, q, s, rules, star);
    GateLegNotAvoided(c, s.avoid, s.from, star.node, k);
    SetupAvoids(graph, q, rules);
    RouteProperties.IdNotAvoided(graph, q.overlay, star.path[k]);
  }

  lemma SetupAvoids(graph: GraphData, q: StagingQuery, rules: Rules)
    requires graph.Valid() && SetupOf(graph, q, rules).Ok?
    ensures AvoidSet(graph, q.overlay) == Ok(SetupOf(graph, q, rules).value.avoid)
  {
    hide GraphData.Valid, IsCandidate, AvoidSet, ResolveConnections, ResolveSystem;
  }

  lemma RankReflexive(sqrt: real -> real, graph: GraphData, center: Coords, e: SettledTarget)
    ensures RankLe(sqrt, graph, center, e, e)
  {
  }

  /** No gate jumps means exactly that the fleet is already in bridge range; then there are no fallbacks. */
  lemma ZeroJumpsIff(graph: GraphData, scout: EveScoutSnapshot, q: StagingQuery, now: int,
                     sqrt: real -> real, rules: Rules, res: Result<StagingResponse, AppError>)
    requires graph.Valid() && StagingAnswer(graph, scout, q, now, sqrt, rules, res) && res.Ok?
    ensures SetupOf(graph, q, rules).Ok?
    ensures var s := SetupOf(graph, q, rules).value;
            && s.from < |graph.systems| && s.to < |graph.systems|
            && (res.value.chosen.gateJumps == 0 <==> IsCandidate(graph, s.to, q.effectiveLy, rules, s.from))
            && (res.value.chosen.gateJumps == 0 ==>
                  res.value.alternates == [] && res.value.chosen.bridge.from == InfoOf(graph.systems[s.from]))
  {
    hide GraphData.Valid, IsCandidate, RankLe, StepsOf, Network;
    var s, c, ranked := RankingOf(graph, scout, q, now, sqrt, rules, res);
    var star, g := ranked[0], Network(c);
    assert star in ranked;
    assert s.from < |graph.systems| by { SetupInRange(graph, q, rules); }
    assert IsReachedCandidate(c, q, s, rules, star);
    if star.jumps == 0 {
      assert CanonicalPath(g, s.from, star.node)[0] == s.from;
      assert star.node == s.from;
    }
    if IsCandidate(graph, s.to, q.effectiveLy, rules, s.from) {
      DistOfSource(g, s.from);
      var home := SettledFor(g, s.from, s.from);
      assert CanonicalPath(g, s.from, s.from) == [s.from];
      assert IsReachedCandidate(c, q, s, rules, home);
      assert home in ranked;
      var k :| 0 <= k < |ranked| && ranked[k] == home;
      if k > 0 {
        FewerJumps(sqrt, graph, graph.systems[s.to].coords, star, home);
      }
    }
  }

  lemma FewerJumps(sqrt: real -> real, graph: GraphData, center: Coords, a: SettledTarget, b: SettledTarget)
    requires RankLe(sqrt, graph, center, a, b)
    ensures a.jumps <= b.jumps
  {
  }

  lemma SetupInRange(graph: GraphData, q: StagingQuery, rules: Rules)
    requires graph.Valid() && SetupOf(graph, q, rules).Ok?
    ensures SetupOf(graph, q, rules).value.from < |graph.systems| && SetupOf(graph, q, rules).value.to < |graph.systems|
  {
    hide GraphData.Valid, IsCandidate;
  }

  /** A longer range keeps staging possible, in no more gate jumps. */
  lemma LongerRangeHelps(graph: GraphData, scout: EveScoutSnapshot, q: StagingQuery, ly: real, now: int,
                         sqrt: real -> real, rules: Rules,
                         res: Result<StagingResponse, AppError>, res': Result<StagingResponse, AppError>)
    requires graph.Valid() && 0.0 <= q.effectiveLy <= ly
    requires StagingAnswer(graph, scout, q, now, sqrt, rules, res) && res.Ok?
    requires StagingAnswer(graph, scout, q.(effectiveLy := ly), now, sqrt, rules, res')
    ensures res'.Ok? && res'.value.chosen.gateJumps <= res.value.chosen.gateJumps
  {
    hide GraphData.Valid, IsCandidate, RankLe, StepsOf, Network, Reachable, CanonicalPath, InMap;
    var q' := q.(effectiveLy := ly);
    var s, c, ranked := RankingOf(graph, scout, q, now, sqrt, rules, res);
    var star := ranked[0];
    assert star in ranked;
    forall v | IsCandidate(graph, s.to, q.effectiveLy, rules, v)
      ensures IsCandidate(graph, s.to, ly, rules, v)
    {
      CandidateGrows(graph, s.to, q.effectiveLy, ly, rules, v);
    }
    assert IsReachedCandidate(c, q, s, rules, star);
    assert SetupOf(graph, q', rules) == Ok(s);
    assert c == StagingProblem(graph, scout, q', now, s);
    assert IsReachedCandidate(c, q', s, rules, star);
    var _, _, ranked' := RankingOf(graph, scout, q', now, sqrt, rules, res');
    assert star in ranked';
    var k :| 0 <= k < |ranked'| && ranked'[k] == star;
    if k > 0 {
      FewerJumps(sqrt, graph, graph.systems[s.to].coords, ranked'[0], star);
    }
  }

  lemma CandidateGrows(graph: GraphData, to: nat, a: real, b: real, rules: Rules, v: nat)
    requires to < |graph.systems| && 0.0 <= a <= b && IsCandidate(graph, to, a, rules, v)
    ensures IsCandidate(graph, to, b, rules, v)
  {
    InRangeGrows(graph, graph.systems[to].coords, a, b, v);
  }
}
