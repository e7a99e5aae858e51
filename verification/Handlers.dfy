/** The blops handler of src/handlers/route.rs: ranges from hulls and levels, and the default hull. */
module Handlers {
  import opened Wrappers
  import opened Model
  import opened Routing
  import opened RouteService
  import opened JumpRange
  import opened Staging
  import opened StagingProperties
  import opened Reach
  import GraphBuild
  import StagingTrips

  const BLOPS_GROUP_ID: int := 898

  datatype BlopsRequest = BlopsRequest(
    from: SystemRef,
    to: SystemRef,
    ship: Option<ShipRef>,
    jdcLevel: nat,
    overlay: OverlayInputs,
    preference: Preference)

  predicate ValidJdcLevel(level: nat) { 1 <= level <= 5 }

  function ResolveHull(graph: GraphData, r: ShipRef): Result<HullEntry, AppError> {
    match r
    case ShipById(id) => if id in graph.hulls.byTypeId then Ok(graph.hulls.byTypeId[id]) else Err(UnknownHull(Some(r)))
    case ShipByName(name) =>
      if Lower(name) in graph.hulls.byName then Ok(graph.hulls.byName[Lower(name)]) else Err(UnknownHull(Some(r)))
  }

  /** The effective range, and whether the worst hull was assumed. */
  function ResolveEffectiveLy(graph: GraphData, ship: Option<ShipRef>, jdcLevel: nat): Result<(real, bool), AppError> {
    if !ValidJdcLevel(jdcLevel) then Err(InvalidParam)
    else
      var bonus := graph.hulls.bonusPerLevel;
      match ship
      case Some(r) =>
        var entry :- ResolveHull(graph, r);
        Ok((EffectiveLy(entry.baseLy, bonus, jdcLevel), false))
      case None =>
        if BLOPS_GROUP_ID in graph.hulls.minBaseLyByGroup
        then Ok((EffectiveLy(graph.hulls.minBaseLyByGroup[BLOPS_GROUP_ID], bonus, jdcLevel), true))
        else Err(UnknownHull(None))
  }

  /** A cyno cannot be lit in highsec; any K-space system may be staged from. */
  function BlopsRules(): Rules {
    Rules((b: System) => b.secClass != Highsec, (_: System) => true, (b: System) => CynoTargetHighsec(b.name))
  }

  function QueryOf(req: BlopsRequest, ly: real): StagingQuery {
    StagingQuery(req.from, req.to, ly, req.overlay, req.preference)
  }

  function Annotated(r: StagingResponse, jdcLevel: nat, ly: real, defaulted: bool): StagingResponse {
    r.(jdcLevel := jdcLevel, effectiveLy := ly, defaulted := defaulted)
  }

  ghost predicate BlopsAnswer(graph: GraphData, scout: EveScoutSnapshot, req: BlopsRequest, now: int,
                              sqrt: real -> real, res: Result<StagingResponse, AppError>)
    requires graph.Valid()
  {
    match ResolveEffectiveLy(graph, req.ship, req.jdcLevel)
    case Err(e) => res == Err(e)
    case Ok((ly, defaulted)) =>
      exists inner: Result<StagingResponse, AppError> ::
        && StagingAnswer(graph, scout, QueryOf(req, ly), now, sqrt, BlopsRules(), inner)
        && res == if inner.Ok? then Ok(Annotated(inner.value, req.jdcLevel, ly, defaulted)) else inner
  }

  method RouteBlops(graph: GraphData, scout: EveScoutSnapshot, req: BlopsRequest, now: int,
                    sqrt: real -> real, scratch: DijkstraScratch)
    returns (res: Result<StagingResponse, AppError>)
    requires graph.Valid()
    modifies scratch
    ensures BlopsAnswer(graph, scout, req, now, sqrt, res)
  {
    hide GraphData.Valid, StagingAnswer, ResolveHull, EffectiveLy;
    var range := ResolveEffectiveLy(graph, req.ship, req.jdcLevel);
    if range.Err? {
      return Err(range.error);
    }
    var ly, defaulted := range.value.0, range.value.1;
    var inner := ComputeStaging(graph, scout, QueryOf(req, ly), now, sqrt, BlopsRules(), scratch);
    if inner.Err? {
      return inner;
    }
    return Ok(Annotated(inner.value, req.jdcLevel, ly, defaulted));
  }

  /** The level is valid and the hull, named or assumed, is in the catalog. */
  predicate HullKnown(graph: GraphData, req: BlopsRequest) {
    match req.ship
    case Some(r) => ResolveHull(graph, r).Ok?
    case None => BLOPS_GROUP_ID in graph.hulls.minBaseLyByGroup
  }

  /**
   * Each error of the endpoint arises exactly when it should: a bad level before
   * an unknown hull, both before anything about the map, a highsec target before
   * any search, and the two staging failures only for a request that passed all that.
   */
  lemma BlopsErrorsExactly(graph: GraphData, scout: EveScoutSnapshot, req: BlopsRequest, now: int,
                           sqrt: real -> real, res: Result<StagingResponse, AppError>)
    requires graph.Valid() && BlopsAnswer(graph, scout, req, now, sqrt, res)
    ensures res == Err(InvalidParam) <==> !(1 <= req.jdcLevel <= 5)
    ensures res.Err? && res.error.UnknownHull? <==> 1 <= req.jdcLevel <= 5 && !HullKnown(graph, req)
    ensures res.Err? && res.error.CynoTargetHighsec? <==>
            var from, to := ResolveSystem(graph, req.from), ResolveSystem(graph, req.to);
            && 1 <= req.jdcLevel <= 5 && HullKnown(graph, req)
            && from.Ok? && to.Ok? && graph.systems[to.value].secClass == Highsec
    ensures res.Err? && res.error.UnknownSystem? <==>
            var range := ResolveEffectiveLy(graph, req.ship, req.jdcLevel);
            range.Ok? && SystemUnknown(graph, QueryOf(req, range.value.0))
    ensures res == Err(NoStagingInRange) <==>
            var range := ResolveEffectiveLy(graph, req.ship, req.jdcLevel);
            range.Ok? && NothingInRange(graph, QueryOf(req, range.value.0), BlopsRules())
    ensures res == Err(StagingUnreachable) <==>
            var range := ResolveEffectiveLy(graph, req.ship, req.jdcLevel);
            range.Ok? && BoxedIn(graph, scout, QueryOf(req, range.value.0), now)
  {
    hide GraphData.Valid, StagingAnswer, SetupOf, NothingInRange, BoxedIn, SystemUnknown, ResolveSystem, ResolveHull, EffectiveLy;
    var range := ResolveEffectiveLy(graph, req.ship, req.jdcLevel);
    if range.Ok? {
      var q := QueryOf(req, range.value.0);
      var inner: Result<StagingResponse, AppError> :|
        StagingAnswer(graph, scout, q, now, sqrt, BlopsRules(), inner)
        && res == if inner.Ok? then Ok(Annotated(inner.value, req.jdcLevel, range.value.0, range.value.1)) else inner;
      StagingFailures(graph, scout, q, now, sqrt, inner);
    } else {
      RangeErrors(graph, req);
    }
  }

  lemma RangeErrors(graph: GraphData, req: BlopsRequest)
    ensures var range := ResolveEffectiveLy(graph, req.ship, req.jdcLevel);
            && (range.Err? <==> !ValidJdcLevel(req.jdcLevel) || !HullKnown(graph, req))
            && (range.Err? ==> if ValidJdcLevel(req.jdcLevel) then range.error.UnknownHull? else range.error == InvalidParam)
  {
  }

  /** An end is unknown or, with the target allowed and something in range, a system of the overlay is. */
  ghost predicate SystemUnknown(graph: GraphData, q: StagingQuery)
    requires graph.Valid()
  {
    var from, to := ResolveSystem(graph, q.from), ResolveSystem(graph, q.to);
    || from.Err? || to.Err?
    || (graph.systems[to.value].secClass != Highsec && !NothingInRange(graph, q, BlopsRules())
        && !OverlayKnown(graph, q.overlay))
  }

  /** Staging could start, but no candidate can be reached. */
  ghost predicate BoxedIn(graph: GraphData, scout: EveScoutSnapshot, q: StagingQuery, now: int)
    requires graph.Valid()
  {
    && SetupOf(graph, q, BlopsRules()).Ok?
    && var s := SetupOf(graph, q, BlopsRules()).value;
       s.to < |graph.systems| && !SomeReached(graph, scout, q, now, BlopsRules(), s)
  }

  /** The staging service's own errors, under the black-ops rules. */
  lemma StagingFailures(graph: GraphData, scout: EveScoutSnapshot, q: StagingQuery, now: int,
                        sqrt: real -> real, res: Result<StagingResponse, AppError>)
    requires graph.Valid() && StagingAnswer(graph, scout, q, now, sqrt, BlopsRules(), res)
    ensures res.Err? ==> !res.error.InvalidParam? && !res.error.UnknownHull?
    ensures res.Err? && res.error.CynoTargetHighsec? <==>
            var from, to := ResolveSystem(graph, q.from), ResolveSystem(graph, q.to);
            from.Ok? && to.Ok? && graph.systems[to.value].secClass == Highsec
    ensures res.Err? && res.error.UnknownSystem? <==> SystemUnknown(graph, q)
    ensures res == Err(NoStagingInRange) <==> NothingInRange(graph, q, BlopsRules())
    ensures res == Err(StagingUnreachable) <==> BoxedIn(graph, scout, q, now)
  {
    hide GraphData.Valid, StagingAnswer, SetupOf, NothingInRange, OverlayKnown, SomeReached, ResolveSystem;
    SetupUnknownIff(graph, q, BlopsRules());
    StagingErrorsExactly(graph, scout, q, now, sqrt, BlopsRules(), res);
    if SetupOf(graph, q, BlopsRules()).Err? {
      SetupErrorKinds(graph, q, BlopsRules());
    } else {
      SetupAccepts(graph, q, BlopsRules());
    }
  }

  /** The default range is no longer than that of any Black Ops hull at that or a higher level. */
  lemma DefaultIsShortest(graph: GraphData, level: nat, ship: ShipRef, level': nat)
    requires graph.Valid() && graph.hulls.bonusPerLevel >= 0.0
    requires BLOPS_GROUP_ID in graph.hulls.minBaseLyByGroup && graph.hulls.minBaseLyByGroup[BLOPS_GROUP_ID] >= 0.0
    requires ResolveHull(graph, ship).Ok? && ResolveHull(graph, ship).value.groupId == BLOPS_GROUP_ID
    requires ValidJdcLevel(level) && ValidJdcLevel(level') && level <= level'
    ensures var d, h := ResolveEffectiveLy(graph, None, level), ResolveEffectiveLy(graph, Some(ship), level');
            d.Ok? && h.Ok? && 0.0 <= d.value.0 <= h.value.0
  {
    var entry := ResolveHull(graph, ship).value;
    assert AboveMinimum(graph.hulls, entry);
    EffectiveLyGrows(graph.hulls.minBaseLyByGroup[BLOPS_GROUP_ID], entry.baseLy, graph.hulls.bonusPerLevel, level, level');
  }

  /**
   * If staging succeeds with no hull named, it succeeds with every Black Ops hull
   * of the catalog at that or any higher level, in no more gate jumps.
   */
  lemma WorstHullIsConservative(graph: GraphData, scout: EveScoutSnapshot, req: BlopsRequest, ship: ShipRef, level': nat,
                                now: int, sqrt: real -> real,
                                res: Result<StagingResponse, AppError>, res': Result<StagingResponse, AppError>)
    requires graph.Valid() && graph.hulls.bonusPerLevel >= 0.0
    requires BLOPS_GROUP_ID in graph.hulls.minBaseLyByGroup ==> graph.hulls.minBaseLyByGroup[BLOPS_GROUP_ID] >= 0.0
    requires req.ship.None? && BlopsAnswer(graph, scout, req, now, sqrt, res) && res.Ok?
    requires ResolveHull(graph, ship).Ok? && ResolveHull(graph, ship).value.groupId == BLOPS_GROUP_ID
    requires ValidJdcLevel(level') && req.jdcLevel <= level'
    requires BlopsAnswer(graph, scout, req.(ship := Some(ship), jdcLevel := level'), now, sqrt, res')
    ensures res'.Ok? && res'.value.chosen.gateJumps <= res.value.chosen.gateJumps
    ensures res.value.defaulted && !res'.value.defaulted && res'.value.jdcLevel == level'
  {
    hide GraphData.Valid, StagingAnswer, ResolveHull, EffectiveLy;
    DefaultIsShortest(graph, req.jdcLevel, ship, level');
    var ly := ResolveEffectiveLy(graph, None, req.jdcLevel).value.0;
    var ly' := ResolveEffectiveLy(graph, Some(ship), level').value.0;
    var q, q' := QueryOf(req, ly), QueryOf(req, ly).(effectiveLy := ly');
    assert QueryOf(req.(ship := Some(ship), jdcLevel := level'), ly') == q';
    var inner: Result<StagingResponse, AppError> :|
      StagingAnswer(graph, scout, q, now, sqrt, BlopsRules(), inner)
      && res == if inner.Ok? then Ok(Annotated(inner.value, req.jdcLevel, ly, true)) else inner;
    var inner': Result<StagingResponse, AppError> :|
      StagingAnswer(graph, scout, q', now, sqrt, BlopsRules(), inner')
      && res' == if inner'.Ok? then Ok(Annotated(inner'.value, level', ly', false)) else inner';
    LongerRangeHelps(graph, scout, q, ly', now, sqrt, BlopsRules(), inner, inner');
  }

  /** At one range, a system can be jumped to from `s` exactly when `s` may stage for it. */
  lemma RangeAndStagingAreDual(graph: GraphData, s: nat, b: nat, ly: real)
    requires s < |graph.systems| && b < |graph.systems| && s != b
    requires !graph.systems[s].IsWormhole() && !graph.systems[b].IsWormhole()
    requires graph.systems[b].secClass != Highsec
    ensures IsLandable(graph, s, ly, b) <==> IsCandidate(graph, b, ly, BlopsRules(), s)
  {
    DistSqSymmetric(graph.systems[s].coords, graph.systems[b].coords);
  }

  // ---------------------------------------------------------------- the answer, read off the request and the hull rows

  predicate BearsHull(h: RawHull, r: ShipRef) {
    match r
    case ShipById(id) => h.typeId == id
    case ShipByName(name) => SameName(h.name, name)
  }

  /** Row `i` is the last that bears the type or, up to ASCII case, the name. */
  ghost predicate NamesHull(rows: seq<RawHull>, r: ShipRef, i: nat) {
    && i < |rows| && BearsHull(rows[i], r)
    && forall j :: i < j < |rows| ==> !BearsHull(rows[j], r)
  }

  ghost predicate NoHull(rows: seq<RawHull>, r: ShipRef) {
    forall i :: 0 <= i < |rows| ==> !BearsHull(rows[i], r)
  }

  /** The base range, and one bonus of it per level. */
  function RangeAt(base: real, bonus: real, level: nat): real {
    base + base * bonus * (level as real)
  }

  /** The staging answer for the hull's range at the request's level, echoing both. */
  ghost predicate AnswersAtRange(graph: GraphData, scout: EveScoutSnapshot, req: BlopsRequest, now: int, sqrt: real -> real,
                                 base: real, defaulted: bool, res: Result<StagingResponse, AppError>)
  {
    var ly := RangeAt(base, graph.hulls.bonusPerLevel, req.jdcLevel);
    && StagingTrips.AnswersStaging(graph, scout, StagingQuery(req.from, req.to, ly, req.overlay, req.preference), now, sqrt, BlopsRules(), res)
    && (res.Ok? ==> res.value.jdcLevel == req.jdcLevel && res.value.effectiveLy == ly && res.value.defaulted == defaulted)
  }

  /** Every staging request of the endpoint; group 898 is Black Ops. */
  ghost predicate IsBlopsAnswer(graph: GraphData, rows: seq<RawHull>, scout: EveScoutSnapshot, req: BlopsRequest, now: int,
                                sqrt: real -> real, res: Result<StagingResponse, AppError>)
  {
    if !(1 <= req.jdcLevel <= 5) then res == Err(InvalidParam)
    else
      match req.ship
      case Some(r) =>
        && (NoHull(rows, r) ==> res == Err(UnknownHull(Some(r))))
        && forall i: nat :: NamesHull(rows, r, i) ==> AnswersAtRange(graph, scout, req, now, sqrt, rows[i].baseLy, false, res)
      case None =>
        && ((forall h :: h in rows ==> h.groupId != 898) ==> res == Err(UnknownHull(None)))
        && forall base :: GraphBuild.IsGroupMinimum(rows, 898, base) ==>
             AnswersAtRange(graph, scout, req, now, sqrt, base, true, res)
  }

  lemma BearsHullFolded(h: RawHull, name: string)
    ensures BearsHull(h, ShipByName(name)) <==> Lower(h.name) == Lower(name)
  {
    FoldsTogetherIff(h.name, name);
  }

  lemma HullByType(graph: GraphData, rows: seq<RawHull>, id: int)
    requires GraphBuild.ByTypeMatches(graph.hulls.byTypeId, rows)
    ensures NoHull(rows, ShipById(id)) ==> id !in graph.hulls.byTypeId
    ensures forall i: nat :: NamesHull(rows, ShipById(id), i) ==>
              id in graph.hulls.byTypeId && graph.hulls.byTypeId[id] == HullEntry(rows[i].name, rows[i].typeId, rows[i].baseLy, rows[i].groupId)
  {
    if id in graph.hulls.byTypeId {
      var h :| h in rows && GraphBuild.EntryOf(h) == graph.hulls.byTypeId[id];
    }
    forall i: nat | NamesHull(rows, ShipById(id), i) ensures GraphBuild.LastOfType(rows, i) {}
  }

  lemma HullByName(graph: GraphData, rows: seq<RawHull>, name: string)
    requires GraphBuild.ByNameMatches(graph.hulls.byName, rows)
    ensures NoHull(rows, ShipByName(name)) ==> Lower(name) !in graph.hulls.byName
    ensures forall i: nat :: NamesHull(rows, ShipByName(name), i) ==>
              && Lower(name) in graph.hulls.byName
              && graph.hulls.byName[Lower(name)] == HullEntry(rows[i].name, rows[i].typeId, rows[i].baseLy, rows[i].groupId)
  {
    hide Lower, SameName, BearsHull;
    forall i | 0 <= i < |rows|
      ensures BearsHull(rows[i], ShipByName(name)) <==> Lower(rows[i].name) == Lower(name)
    {
      BearsHullFolded(rows[i], name);
    }
    if Lower(name) in graph.hulls.byName {
      var h :| h in rows && GraphBuild.EntryOf(h) == graph.hulls.byName[Lower(name)];
    }
    forall i: nat | NamesHull(rows, ShipByName(name), i) ensures GraphBuild.LastOfName(rows, i) {}
  }

  /** A hull reference resolves to the row it names. */
  lemma HullByRow(graph: GraphData, rows: seq<RawHull>, r: ShipRef)
    requires GraphBuild.CatalogMatches(graph.hulls, rows)
    ensures NoHull(rows, r) ==> ResolveHull(graph, r) == Err(UnknownHull(Some(r)))
    ensures forall i: nat :: NamesHull(rows, r, i) ==>
              ResolveHull(graph, r) == Ok(HullEntry(rows[i].name, rows[i].typeId, rows[i].baseLy, rows[i].groupId))
  {
    hide Lower, NoHull, NamesHull, GraphBuild.ByTypeMatches, GraphBuild.ByNameMatches, GraphBuild.MinimaMatch;
    match r
    case ShipById(id) => HullByType(graph, rows, id);
    case ShipByName(name) => HullByName(graph, rows, name);
  }

  lemma RangeIsByLevel(base: real, bonus: real, level: nat)
    ensures EffectiveLy(base, bonus, level) == RangeAt(base, bonus, level)
    decreases level
  {
    EffectiveLyByLevel(base, bonus, level);
    if level > 0 {
      RangeIsByLevel(base, bonus, level - 1);
      EffectiveLyByLevel(base, bonus, level - 1);
      Distributes(base * bonus, (level - 1) as real, 1.0);
    }
  }

  /** Echoing the level and range touches nothing the staging answer is about. */
  lemma AnnotationKeeps(graph: GraphData, scout: EveScoutSnapshot, q: StagingQuery, now: int, sqrt: real -> real, rules: Rules,
                        inner: Result<StagingResponse, AppError>, level: nat, ly: real, defaulted: bool)
    requires graph.Valid() && StagingAnswer(graph, scout, q, now, sqrt, rules, inner)
    ensures StagingTrips.AnswersStaging(graph, scout, q, now, sqrt, rules,
                                        if inner.Ok? then Ok(Annotated(inner.value, level, ly, defaulted)) else inner)
  {
    hide GraphData.Valid, StagingAnswer, StagingTrips.AnswersStaging;
    StagingTrips.StagingAnswersTheRequest(graph, scout, q, now, sqrt, rules, inner);
    if inner.Ok? {
      StagingTrips.AnswersAlike(graph, scout, q, now, sqrt, rules, inner.value, Annotated(inner.value, level, ly, defaulted));
    }
  }

  lemma AtResolvedRange(graph: GraphData, scout: EveScoutSnapshot, req: BlopsRequest, now: int, sqrt: real -> real,
                        base: real, defaulted: bool, res: Result<StagingResponse, AppError>)
    requires graph.Valid() && BlopsAnswer(graph, scout, req, now, sqrt, res)
    requires ResolveEffectiveLy(graph, req.ship, req.jdcLevel) ==
             Ok((EffectiveLy(base, graph.hulls.bonusPerLevel, req.jdcLevel), defaulted))
    ensures AnswersAtRange(graph, scout, req, now, sqrt, base, defaulted, res)
  {
    hide GraphData.Valid, StagingAnswer, StagingTrips.AnswersStaging, ResolveEffectiveLy, EffectiveLy, RangeAt;
    var ly := EffectiveLy(base, graph.hulls.bonusPerLevel, req.jdcLevel);
    RangeIsByLevel(base, graph.hulls.bonusPerLevel, req.jdcLevel);
    var inner: Result<StagingResponse, AppError> :|
      StagingAnswer(graph, scout, QueryOf(req, ly), now, sqrt, BlopsRules(), inner)
      && res == if inner.Ok? then Ok(Annotated(inner.value, req.jdcLevel, ly, defaulted)) else inner;
    AnnotationKeeps(graph, scout, QueryOf(req, ly), now, sqrt, BlopsRules(), inner, req.jdcLevel, ly, defaulted);
  }

  /** The endpoint answers what the request and the hull rows ask for, by the cyno rule. */
  lemma BlopsAnswersTheRequest(graph: GraphData, rows: seq<RawHull>, scout: EveScoutSnapshot, req: BlopsRequest, now: int,
                               sqrt: real -> real, res: Result<StagingResponse, AppError>)
    requires graph.Valid() && GraphBuild.CatalogMatches(graph.hulls, rows)
    requires BlopsAnswer(graph, scout, req, now, sqrt, res)
    ensures IsBlopsAnswer(graph, rows, scout, req, now, sqrt, res)
    ensures forall s: System :: BlopsRules().stageOk(s) && (BlopsRules().destOk(s) <==> s.secClass != Highsec)
    ensures forall s: System :: BlopsRules().reject(s) == CynoTargetHighsec(s.name)
  {
    hide GraphData.Valid, StagingAnswer, AnswersAtRange, ResolveHull, EffectiveLy, NoHull, NamesHull,
         GraphBuild.ByTypeMatches, GraphBuild.ByNameMatches;
    match req.ship
    case Some(r) =>
      HullByRow(graph, rows, r);
      forall i: nat | NamesHull(rows, r, i) && 1 <= req.jdcLevel <= 5
        ensures i < |rows| && AnswersAtRange(graph, scout, req, now, sqrt, rows[i].baseLy, false, res)
      {
        RowInRange(rows, r, i);
        AtResolvedRange(graph, scout, req, now, sqrt, rows[i].baseLy, false, res);
      }
    case None =>
      forall base | GraphBuild.IsGroupMinimum(rows, 898, base) && 1 <= req.jdcLevel <= 5
        ensures AnswersAtRange(graph, scout, req, now, sqrt, base, true, res)
      {
        GroupMinimumIs(graph.hulls.minBaseLyByGroup, rows, 898, base);
        AtResolvedRange(graph, scout, req, now, sqrt, base, true, res);
      }
  }

  lemma RowInRange(rows: seq<RawHull>, r: ShipRef, i: nat)
    requires NamesHull(rows, r, i)
    ensures i < |rows|
  {
  }

  lemma GroupMinimumIs(m: map<int, real>, rows: seq<RawHull>, group: int, low: real)
    requires GraphBuild.MinimaMatch(m, rows) && GraphBuild.IsGroupMinimum(rows, group, low)
    ensures group in m && m[group] == low
  {
    var h :| h in rows && h.groupId == group && h.baseLy == low;
    assert GraphBuild.IsGroupMinimum(rows, group, m[group]);
  }
}
