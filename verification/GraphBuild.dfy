/**
 * From decoded SDE rows to the in-memory graph: parse_gate_pairs of
 * src/sde/parse.rs, HullCatalog::from_raw of src/model.rs and
 * build_graph_data of src/graph.rs.
 */
module GraphBuild {
  import opened Model
  import opened Sorting

  /** Some row links the two systems, in either direction. */
  ghost predicate Linked(rows: seq<(int, int)>, a: int, b: int) {
    (a, b) in rows || (b, a) in rows
  }

  /** Collapse the two directed halves of each link into one ordered pair. */
  method ParseGatePairs(rows: seq<(int, int)>) returns (pairs: seq<(int, int)>)
    ensures NoRepeats(pairs)
    ensures forall p :: p in pairs ==> p.0 <= p.1
    ensures forall a, b :: Linked(pairs, a, b) <==> Linked(rows, a, b)
  {
    var seen: set<(int, int)> := {};
    pairs := [];
    for k := 0 to |rows|
      invariant NoRepeats(pairs) && forall p :: p in pairs <==> p in seen
      invariant forall p :: p in pairs ==> p.0 <= p.1
      invariant forall a, b :: a <= b ==> ((a, b) in seen <==> Linked(rows[..k], a, b))
    {
      var a, b := rows[k].0, rows[k].1;
      assert rows[..k + 1] == rows[..k] + [rows[k]];
      var key := if a <= b then (a, b) else (b, a);
      if key !in seen {
        seen := seen + {key};
        pairs := pairs + [key];
      }
    }
    assert rows[..|rows|] == rows;
    forall a, b
      ensures Linked(pairs, a, b) <==> Linked(rows, a, b)
    {
      if a <= b {
        assert (a, b) in seen <==> Linked(rows, a, b);
        assert (b, a) in pairs ==> a == b;
      } else {
        assert (b, a) in seen <==> Linked(rows, b, a);
      }
    }
  }

  function EntryOf(h: RawHull): HullEntry {
    HullEntry(h.name, h.typeId, h.baseLy, h.groupId)
  }

  /** `low` is the least base range of the group in `hulls`. */
  ghost predicate IsGroupMinimum(hulls: seq<RawHull>, group: int, low: real) {
    && (forall h :: h in hulls && h.groupId == group ==> low <= h.baseLy)
    && (exists h :: h in hulls && h.groupId == group && h.baseLy == low)
  }

  ghost predicate FromRow(hulls: seq<RawHull>, e: HullEntry) {
    exists h :: h in hulls && EntryOf(h) == e
  }

  /** No later row has the same type. */
  ghost predicate LastOfType(hulls: seq<RawHull>, i: nat)
    requires i < |hulls|
  {
    forall j :: i < j < |hulls| ==> hulls[j].typeId != hulls[i].typeId
  }

  ghost predicate LastOfName(hulls: seq<RawHull>, i: nat)
    requires i < |hulls|
  {
    forall j :: i < j < |hulls| ==> Lower(hulls[j].name) != Lower(hulls[i].name)
  }

  /** Every row's type is present, and holds the last row of that type. */
  ghost predicate ByTypeMatches(m: map<int, HullEntry>, hulls: seq<RawHull>) {
    && (forall i :: 0 <= i < |hulls| ==> hulls[i].typeId in m)
    && (forall i :: 0 <= i < |hulls| && LastOfType(hulls, i) ==> m[hulls[i].typeId] == EntryOf(hulls[i]))
    && (forall t :: t in m ==> m[t].typeId == t && FromRow(hulls, m[t]))
  }

  ghost predicate ByNameMatches(m: map<string, HullEntry>, hulls: seq<RawHull>) {
    && (forall i :: 0 <= i < |hulls| ==> Lower(hulls[i].name) in m)
    && (forall i :: 0 <= i < |hulls| && LastOfName(hulls, i) ==> m[Lower(hulls[i].name)] == EntryOf(hulls[i]))
    && (forall n :: n in m ==> Lower(m[n].name) == n && FromRow(hulls, m[n]))
  }

  ghost predicate MinimaMatch(m: map<int, real>, hulls: seq<RawHull>) {
    && (forall h :: h in hulls ==> h.groupId in m)
    && (forall g :: g in m ==> IsGroupMinimum(hulls, g, m[g]))
  }

  /** The catalog agrees with the rows. */
  ghost predicate CatalogMatches(c: HullCatalog, hulls: seq<RawHull>) {
    ByTypeMatches(c.byTypeId, hulls) && ByNameMatches(c.byName, hulls) && MinimaMatch(c.minBaseLyByGroup, hulls)
  }

  lemma FromMoreRows(hulls: seq<RawHull>, h: RawHull, e: HullEntry)
    requires FromRow(hulls, e) || e == EntryOf(h)
    ensures FromRow(hulls + [h], e)
  {
    if FromRow(hulls, e) {
      var x :| x in hulls && EntryOf(x) == e;
      assert x in hulls + [h];
    } else {
      assert h in hulls + [h];
    }
  }

  lemma ByTypeStep(m: map<int, HullEntry>, hulls: seq<RawHull>, h: RawHull)
    requires ByTypeMatches(m, hulls)
    ensures ByTypeMatches(m[h.typeId := EntryOf(h)], hulls + [h])
  {
    hide FromRow, Lower;
    var all, n := hulls + [h], m[h.typeId := EntryOf(h)];
    forall t | t in n ensures FromRow(all, n[t]) {
      FromMoreRows(hulls, h, n[t]);
    }
    forall i | 0 <= i < |all| && LastOfType(all, i)
      ensures n[all[i].typeId] == EntryOf(all[i])
    {
      if i < |hulls| {
        assert all[|hulls|] == h;
        assert LastOfType(hulls, i) by {
          assert forall j :: i < j < |hulls| ==> all[j] == hulls[j];
        }
      }
    }
  }

  lemma ByNameStep(m: map<string, HullEntry>, hulls: seq<RawHull>, h: RawHull)
    requires ByNameMatches(m, hulls)
    ensures ByNameMatches(m[Lower(h.name) := EntryOf(h)], hulls + [h])
  {
    hide FromRow, Lower;
    var all, n := hulls + [h], m[Lower(h.name) := EntryOf(h)];
    forall t | t in n ensures FromRow(all, n[t]) {
      FromMoreRows(hulls, h, n[t]);
    }
    forall i | 0 <= i < |all| && LastOfName(all, i)
      ensures n[Lower(all[i].name)] == EntryOf(all[i])
    {
      if i < |hulls| {
        assert all[|hulls|] == h;
        assert LastOfName(hulls, i) by {
          assert forall j :: i < j < |hulls| ==> all[j] == hulls[j];
        }
      }
    }
  }

  lemma MinimaStep(m: map<int, real>, hulls: seq<RawHull>, h: RawHull, low: real)
    requires MinimaMatch(m, hulls)
    requires low == if h.groupId in m && m[h.groupId] <= h.baseLy then m[h.groupId] else h.baseLy
    ensures MinimaMatch(m[h.groupId := low], hulls + [h])
  {
    var all, n := hulls + [h], m[h.groupId := low];
    forall g | g in n ensures IsGroupMinimum(all, g, n[g]) {
      if g in m {
        assert IsGroupMinimum(hulls, g, m[g]);
        var x :| x in hulls && x.groupId == g && x.baseLy == m[g];
        assert x in all;
      }
      assert h in all;
    }
  }

  lemma MatchingIsValid(c: HullCatalog, hulls: seq<RawHull>)
    requires CatalogMatches(c, hulls)
    ensures CatalogValid(c)
  {
    hide Lower, MinimaMatch, FromRow, AboveMinimum, LastOfType, LastOfName, EntryOf;
    forall t | t in c.byTypeId ensures AboveMinimum(c, c.byTypeId[t]) {
      EntryAboveMinimum(c, hulls, c.byTypeId[t]);
    }
    forall n | n in c.byName ensures AboveMinimum(c, c.byName[n]) {
      EntryAboveMinimum(c, hulls, c.byName[n]);
    }
  }

  lemma EntryAboveMinimum(c: HullCatalog, hulls: seq<RawHull>, e: HullEntry)
    requires MinimaMatch(c.minBaseLyByGroup, hulls) && FromRow(hulls, e)
    ensures AboveMinimum(c, e)
  {
    var h :| h in hulls && EntryOf(h) == e;
    assert IsGroupMinimum(hulls, h.groupId, c.minBaseLyByGroup[h.groupId]);
  }

  method CatalogFromRaw(raw: RawHullCatalog) returns (c: HullCatalog)
    ensures CatalogMatches(c, raw.hulls) && CatalogValid(c)
    ensures c.bonusPerLevel == if raw.jdcBonusPerLevel.Some? then raw.jdcBonusPerLevel.value else 0.0
  {
    hide Lower, ByTypeMatches, ByNameMatches, MinimaMatch, CatalogValid;
    var hulls := raw.hulls;
    var byName: map<string, HullEntry>, byTypeId: map<int, HullEntry>, minBase: map<int, real> := map[], map[], map[];
    EmptyMatches();
    for k := 0 to |hulls|
      invariant ByTypeMatches(byTypeId, hulls[..k]) && ByNameMatches(byName, hulls[..k])
      invariant MinimaMatch(minBase, hulls[..k])
    {
      var h := hulls[k];
      assert hulls[..k + 1] == hulls[..k] + [h];
      var entry := HullEntry(h.name, h.typeId, h.baseLy, h.groupId);
      ByNameStep(byName, hulls[..k], h);
      byName := byName[Lower(h.name) := entry];
      ByTypeStep(byTypeId, hulls[..k], h);
      byTypeId := byTypeId[h.typeId := entry];
      var low := h.baseLy;
      if h.groupId in minBase {
        low := minBase[h.groupId];
        if h.baseLy < low {
          low := h.baseLy;
        }
      }
      MinimaStep(minBase, hulls[..k], h, low);
      minBase := minBase[h.groupId := low];
    }
    assert hulls[..|hulls|] == hulls;
    c := HullCatalog(byName, byTypeId, minBase, if raw.jdcBonusPerLevel.Some? then raw.jdcBonusPerLevel.value else 0.0);
    MatchingIsValid(c, hulls);
  }

  lemma EmptyMatches()
    ensures ByTypeMatches(map[], []) && ByNameMatches(map[], []) && MinimaMatch(map[], [])
  {
  }

  // ---------------------------------------------------------------- the graph

  /** Ids of the first `k` systems resolve to the last row that has them. */
  ghost predicate IdsMatch(systems: seq<System>, k: nat, ids: map<int, nat>)
    requires k <= |systems|
  {
    && (forall i :: 0 <= i < k ==> systems[i].id in ids && i <= ids[systems[i].id])
    && (forall x :: x in ids ==> ids[x] < k && systems[ids[x]].id == x)
  }

  /** Folded names resolve to the last row that has them. */
  ghost predicate NamesMatch(systems: seq<System>, k: nat, names: map<string, nat>)
    requires k <= |systems|
  {
    && (forall i :: 0 <= i < k ==> Lower(systems[i].name) in names && i <= names[Lower(systems[i].name)])
    && (forall x :: x in names ==> names[x] < k && Lower(systems[names[x]].name) == x)
  }

  /** The spatial index holds exactly the K-space systems, once each. */
  ghost predicate ItemsMatch(systems: seq<System>, k: nat, items: seq<(Coords, nat)>)
    requires k <= |systems|
  {
    && (forall i :: 0 <= i < |items| ==>
          items[i].1 < k && !systems[items[i].1].IsWormhole() && systems[items[i].1].coords == items[i].0)
    && (forall i, j :: 0 <= i < j < |items| ==> items[i].1 != items[j].1)
    && (forall v :: 0 <= v < k && !systems[v].IsWormhole() ==> (systems[v].coords, v) in items)
  }

  /** The nodes `i` and `j` are what some pair of system ids resolves to. */
  ghost predicate Paired(ids: map<int, nat>, pairs: seq<(int, int)>, i: nat, j: nat) {
    exists p :: p in pairs && p.0 in ids && p.1 in ids &&
      ((ids[p.0] == i && ids[p.1] == j) || (ids[p.0] == j && ids[p.1] == i))
  }

  lemma PairedInRange(systems: seq<System>, ids: map<int, nat>, pairs: seq<(int, int)>, i: nat, j: nat)
    requires IdsMatch(systems, |systems|, ids) && Paired(ids, pairs, i, j)
    ensures i < |systems| && j < |systems|
  {
    var p :| p in pairs && p.0 in ids && p.1 in ids &&
      ((ids[p.0] == i && ids[p.1] == j) || (ids[p.0] == j && ids[p.1] == i));
    var a: int, b: int := p.0, p.1;
    assert a in ids && b in ids;
  }

  lemma PairedPush(ids: map<int, nat>, pairs: seq<(int, int)>, p: (int, int), i: nat, j: nat)
    ensures Paired(ids, pairs + [p], i, j) <==>
            || Paired(ids, pairs, i, j)
            || (p.0 in ids && p.1 in ids &&
                ((ids[p.0] == i && ids[p.1] == j) || (ids[p.0] == j && ids[p.1] == i)))
  {
    assert p in pairs + [p];
    if Paired(ids, pairs, i, j) {
      var q :| q in pairs && q.0 in ids && q.1 in ids &&
        ((ids[q.0] == i && ids[q.1] == j) || (ids[q.0] == j && ids[q.1] == i));
      assert q in pairs + [p];
    }
  }

  function Key(a: nat, b: nat): (nat, nat) {
    if a <= b then (a, b) else (b, a)
  }

  lemma NothingIndexed(systems: seq<System>)
    ensures IdsMatch(systems, 0, map[]) && NamesMatch(systems, 0, map[]) && ItemsMatch(systems, 0, [])
  {
  }

  lemma IdsStep(systems: seq<System>, k: nat, ids: map<int, nat>)
    requires k < |systems| && IdsMatch(systems, k, ids)
    ensures IdsMatch(systems, k + 1, ids[systems[k].id := k])
  {
  }

  lemma NamesStep(systems: seq<System>, k: nat, names: map<string, nat>)
    requires k < |systems| && NamesMatch(systems, k, names)
    ensures NamesMatch(systems, k + 1, names[Lower(systems[k].name) := k])
  {
    hide Lower;
  }

  lemma ItemsStep(systems: seq<System>, k: nat, items: seq<(Coords, nat)>)
    requires k < |systems| && ItemsMatch(systems, k, items)
    ensures ItemsMatch(systems, k + 1, if systems[k].IsWormhole() then items else items + [(systems[k].coords, k)])
  {
    if !systems[k].IsWormhole() {
      var more := items + [(systems[k].coords, k)];
      assert more[|items|] == (systems[k].coords, k);
      forall i | 0 <= i < |more|
        ensures more[i].1 <= k && !systems[more[i].1].IsWormhole() && systems[more[i].1].coords == more[i].0
        ensures i < |items| ==> more[i].1 < k
      {
        assert i < |items| ==> more[i] == items[i];
      }
      forall v | 0 <= v < k + 1 && !systems[v].IsWormhole()
        ensures (systems[v].coords, v) in more
      {
        if v < k {
          assert (systems[v].coords, v) in items;
        }
      }
    }
  }

  /** The node pass: ids, names and the K-space points. */
  method IndexSystems(systems: seq<System>)
    returns (ids: map<int, nat>, names: map<string, nat>, items: seq<(Coords, nat)>)
    ensures IdsMatch(systems, |systems|, ids) && NamesMatch(systems, |systems|, names)
    ensures ItemsMatch(systems, |systems|, items)
  {
    hide Lower, IdsMatch, NamesMatch, ItemsMatch;
    ids, names, items := map[], map[], [];
    NothingIndexed(systems);
    for k := 0 to |systems|
      invariant IdsMatch(systems, k, ids) && NamesMatch(systems, k, names) && ItemsMatch(systems, k, items)
    {
      IdsStep(systems, k, ids);
      NamesStep(systems, k, names);
      ItemsStep(systems, k, items);
      ids := ids[systems[k].id := k];
      names := names[Lower(systems[k].name) := k];
      if !systems[k].IsWormhole() {
        items := items + [(systems[k].coords, k)];
      }
    }
  }

  lemma NothingPaired(ids: map<int, nat>)
    ensures forall i: nat, j: nat :: !Paired(ids, [], i, j)
  {
  }

  /** The edge pass: one undirected edge per pair of known systems. */
  method LinkSystems(ids: map<int, nat>, pairs: seq<(int, int)>) returns (edges: seq<(nat, nat)>)
    ensures forall i, j :: 0 <= i < j < |edges| ==> !SamePair(edges[i], edges[j])
    ensures forall i: nat, j: nat :: ((i, j) in edges || (j, i) in edges) <==> Paired(ids, pairs, i, j)
  {
    hide Paired;
    var edgeSeen: set<(nat, nat)> := {};
    edges := [];
    NothingPaired(ids);
    for k := 0 to |pairs|
      invariant forall i, j :: 0 <= i < j < |edges| ==> !SamePair(edges[i], edges[j])
      invariant forall e :: e in edges ==> Key(e.0, e.1) in edgeSeen
      invariant forall e :: e in edgeSeen ==> e in edges || (e.1, e.0) in edges
      invariant forall i: nat, j: nat :: Key(i, j) in edgeSeen <==> Paired(ids, pairs[..k], i, j)
    {
      var p := pairs[k];
      assert pairs[..k + 1] == pairs[..k] + [p];
      forall i: nat, j: nat {
        PairedPush(ids, pairs[..k], p, i, j);
      }
      if p.0 in ids && p.1 in ids {
        var a, b := ids[p.0], ids[p.1];
        var key := if a <= b then (a, b) else (b, a);
        if key !in edgeSeen {
          edgeSeen := edgeSeen + {key};
          edges := edges + [(a, b)];
        }
      }
    }
    assert pairs[..|pairs|] == pairs;
    forall i: nat, j: nat
      ensures ((i, j) in edges || (j, i) in edges) <==> Paired(ids, pairs, i, j)
    {
      assert Key(i, j) == Key(j, i);
      assert Key(i, j) in edgeSeen <==> Paired(ids, pairs, i, j);
    }
  }

  /** `inclusive` is the spatial index library's convention at the boundary. */
  method BuildGraphData(raw: RawSdeData, buildNumber: nat, inclusive: bool) returns (g: GraphData)
    requires |raw.systems| <= MAX_SYSTEMS
    ensures g.Valid() && g.systems == raw.systems && g.buildNumber == buildNumber && g.spatial.inclusive == inclusive
    ensures IdsMatch(g.systems, |g.systems|, g.idToIdx) && NamesMatch(g.systems, |g.systems|, g.nameToIdx)
    ensures ItemsMatch(g.systems, |g.systems|, g.spatial.items)
    ensures forall i: nat, j: nat :: g.HasGate(i, j) <==> Paired(g.idToIdx, raw.gatePairs, i, j)
    ensures CatalogMatches(g.hulls, raw.hulls.hulls)
    ensures g.hulls.bonusPerLevel == if raw.hulls.jdcBonusPerLevel.Some? then raw.hulls.jdcBonusPerLevel.value else 0.0
  {
    hide Lower, GraphData.Valid, GraphData.HasGate, CatalogMatches, CatalogValid, IdsMatch, NamesMatch, ItemsMatch, Paired;
    var ids, names, items := IndexSystems(raw.systems);
    var edges := LinkSystems(ids, raw.gatePairs);
    var hulls := CatalogFromRaw(raw.hulls);
    g := GraphData(raw.systems, ids, names, edges, SpatialIndex(items, inclusive), hulls, buildNumber);
    GatesAreEdges(g);
    BuiltIsValid(g, raw.gatePairs);
  }

  lemma GatesAreEdges(g: GraphData)
    ensures forall i: nat, j: nat :: g.HasGate(i, j) <==> (i, j) in g.edges || (j, i) in g.edges
  {
  }

  lemma EdgesInMap(g: GraphData, pairs: seq<(int, int)>)
    requires IdsMatch(g.systems, |g.systems|, g.idToIdx)
    requires forall i: nat, j: nat :: ((i, j) in g.edges || (j, i) in g.edges) <==> Paired(g.idToIdx, pairs, i, j)
    ensures forall e :: e in g.edges ==> e.0 < |g.systems| && e.1 < |g.systems|
  {
    hide IdsMatch, Paired;
    forall e | e in g.edges
      ensures e.0 < |g.systems| && e.1 < |g.systems|
    {
      assert (e.0, e.1) in g.edges;
      assert Paired(g.idToIdx, pairs, e.0, e.1);
      PairedInRange(g.systems, g.idToIdx, pairs, e.0, e.1);
    }
  }

  lemma ItemsIndex(g: GraphData)
    requires ItemsMatch(g.systems, |g.systems|, g.spatial.items)
    ensures forall i :: 0 <= i < |g.spatial.items| ==> g.IndexesKSpace(g.spatial.items[i])
  {
  }

  lemma BuiltIsValid(g: GraphData, pairs: seq<(int, int)>)
    requires |g.systems| <= MAX_SYSTEMS && CatalogValid(g.hulls)
    requires IdsMatch(g.systems, |g.systems|, g.idToIdx) && NamesMatch(g.systems, |g.systems|, g.nameToIdx)
    requires ItemsMatch(g.systems, |g.systems|, g.spatial.items)
    requires forall i, j :: 0 <= i < j < |g.edges| ==> !SamePair(g.edges[i], g.edges[j])
    requires forall i: nat, j: nat :: ((i, j) in g.edges || (j, i) in g.edges) <==> Paired(g.idToIdx, pairs, i, j)
    ensures g.Valid()
  {
    hide Lower, CatalogValid, SamePair, Paired, GraphData.IndexesKSpace;
    EdgesInMap(g, pairs);
    ItemsIndex(g);
  }

  ghost predicate DistinctIds(systems: seq<System>) {
    forall i, j :: 0 <= i < j < |systems| ==> systems[i].id != systems[j].id
  }

  /** With distinct ids, resolving an id is finding its row. */
  lemma DistinctIdsResolve(g: GraphData, i: nat)
    requires g.Valid() && DistinctIds(g.systems) && i < |g.systems|
    ensures g.systems[i].id in g.idToIdx && g.idToIdx[g.systems[i].id] == i
  {
  }

  /**
   * Parse, then build: the gate graph is the symmetric closure of the stargate
   * rows, with exactly one edge per linked pair whatever their order and repetition.
   */
  method LoadGraph(systems: seq<System>, rows: seq<(int, int)>, hulls: RawHullCatalog, build: nat, inclusive: bool)
    returns (g: GraphData)
    requires |systems| <= MAX_SYSTEMS
    ensures g.Valid() && g.systems == systems && g.buildNumber == build && g.spatial.inclusive == inclusive
    ensures CatalogMatches(g.hulls, hulls.hulls)
    ensures g.hulls.bonusPerLevel == if hulls.jdcBonusPerLevel.Some? then hulls.jdcBonusPerLevel.value else 0.0
    ensures DistinctIds(systems) ==>
              && (forall i :: 0 <= i < |systems| ==> systems[i].id in g.idToIdx && g.idToIdx[systems[i].id] == i)
              && (forall i, j :: 0 <= i < |systems| && 0 <= j < |systems| ==>
                    (g.HasGate(i, j) <==> Linked(rows, systems[i].id, systems[j].id)))
  {
    hide CatalogMatches;
    var pairs := ParseGatePairs(rows);
    g := BuildGraphData(RawSdeData(systems, pairs, hulls), build, inclusive);
    if DistinctIds(systems) {
      forall i: nat | i < |systems| {
        DistinctIdsResolve(g, i);
      }
      forall i: nat, j: nat | i < |systems| && j < |systems|
        ensures g.HasGate(i, j) <==> Linked(rows, systems[i].id, systems[j].id)
      {
        ClosureAt(g, pairs, i, j);
      }
    }
  }

  lemma ClosureAt(g: GraphData, pairs: seq<(int, int)>, i: nat, j: nat)
    requires g.Valid() && DistinctIds(g.systems) && i < |g.systems| && j < |g.systems|
    ensures Paired(g.idToIdx, pairs, i, j) <==> Linked(pairs, g.systems[i].id, g.systems[j].id)
  {
    DistinctIdsResolve(g, i);
    DistinctIdsResolve(g, j);
    var a, b := g.systems[i].id, g.systems[j].id;
    if Linked(pairs, a, b) {
      var p := if (a, b) in pairs then (a, b) else (b, a);
      assert p in pairs;
      assert Paired(g.idToIdx, pairs, i, j);
    }
    if Paired(g.idToIdx, pairs, i, j) {
      var p :| p in pairs && p.0 in g.idToIdx && p.1 in g.idToIdx &&
        ((g.idToIdx[p.0] == i && g.idToIdx[p.1] == j) || (g.idToIdx[p.0] == j && g.idToIdx[p.1] == i));
      assert g.systems[g.idToIdx[p.0]].id == p.0 && g.systems[g.idToIdx[p.1]].id == p.1;
      assert p == (p.0, p.1);
    }
  }
}
