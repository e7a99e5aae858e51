/** Domain types of src/model.rs, the request errors of src/error.rs, and name folding. */
module Model {
  import opened Wrappers

  /** Node indices are 32-bit and the graph library keeps the last one for itself. */
  const MAX_SYSTEMS: nat := 0xFFFF_FFFF

  datatype SecClass = Highsec | Lowsec | Nullsec | Wormhole

  /** Metres. */
  datatype Coords = Coords(x: real, y: real, z: real)

  datatype System = System(
    id: int,
    name: string,
    security: real,
    secClass: SecClass,
    coords: Coords,
    regionId: int,
    constellationId: int)
  {
    predicate IsWormhole() { secClass.Wormhole? }
  }

  datatype RawHull = RawHull(typeId: int, name: string, groupId: int, baseLy: real)

  datatype RawHullCatalog = RawHullCatalog(hulls: seq<RawHull>, jdcBonusPerLevel: Option<real>)

  datatype HullEntry = HullEntry(name: string, typeId: int, baseLy: real, groupId: int)

  datatype HullCatalog = HullCatalog(
    byName: map<string, HullEntry>,
    byTypeId: map<int, HullEntry>,
    minBaseLyByGroup: map<int, real>,
    bonusPerLevel: real)

  datatype RawSdeData = RawSdeData(systems: seq<System>, gatePairs: seq<(int, int)>, hulls: RawHullCatalog)

  /**
   * The kd-tree as a list of points. `inclusive` is the library's choice whether
   * a point exactly on the sphere of a radius query is inside it.
   */
  datatype SpatialIndex = SpatialIndex(items: seq<(Coords, nat)>, inclusive: bool)

  /** `edges` are the undirected gate edges, in insertion order. */
  datatype GraphData = GraphData(
    systems: seq<System>,
    idToIdx: map<int, nat>,
    nameToIdx: map<string, nat>,
    edges: seq<(nat, nat)>,
    spatial: SpatialIndex,
    hulls: HullCatalog,
    buildNumber: nat)
  {
    predicate HasGate(a: nat, b: nat) { (a, b) in edges || (b, a) in edges }

    /** The invariants src/model.rs lists for a built graph. */
    ghost predicate Valid() {
      && |systems| <= MAX_SYSTEMS
      && (forall e :: e in edges ==> e.0 < |systems| && e.1 < |systems|)
      && (forall i, j :: 0 <= i < j < |edges| ==> !SamePair(edges[i], edges[j]))
      && (forall i :: 0 <= i < |systems| ==> systems[i].id in idToIdx && i <= idToIdx[systems[i].id])
      && (forall k :: k in idToIdx ==> idToIdx[k] < |systems| && systems[idToIdx[k]].id == k)
      && (forall i {:trigger Lower(systems[i].name)} :: 0 <= i < |systems| ==>
            Lower(systems[i].name) in nameToIdx && i <= nameToIdx[Lower(systems[i].name)])
      && (forall k :: k in nameToIdx ==> nameToIdx[k] < |systems| && Lower(systems[nameToIdx[k]].name) == k)
      && (forall i :: 0 <= i < |spatial.items| ==> IndexesKSpace(spatial.items[i]))
      && (forall i, j :: 0 <= i < j < |spatial.items| ==> spatial.items[i].1 != spatial.items[j].1)
      && (forall v :: 0 <= v < |systems| && !systems[v].IsWormhole() ==>
            (systems[v].coords, v) in spatial.items)
      && CatalogValid(hulls)
    }

    ghost predicate IndexesKSpace(item: (Coords, nat)) {
      item.1 < |systems| && !systems[item.1].IsWormhole() && systems[item.1].coords == item.0
    }
  }

  ghost predicate SamePair<T>(e: (T, T), f: (T, T)) {
    e == f || (e.0 == f.1 && e.1 == f.0)
  }

  /** The group minimum is a lower bound on every hull the catalog can return. */
  ghost predicate CatalogValid(c: HullCatalog) {
    && (forall t :: t in c.byTypeId ==> AboveMinimum(c, c.byTypeId[t]))
    && (forall n :: n in c.byName ==> AboveMinimum(c, c.byName[n]))
  }

  ghost predicate AboveMinimum(c: HullCatalog, h: HullEntry) {
    h.groupId in c.minBaseLyByGroup && c.minBaseLyByGroup[h.groupId] <= h.baseLy
  }

  function LowerChar(c: char): char {
    if 'A' <= c <= 'Z' then c - 'A' + 'a' else c
  }

  /** ASCII case folding. */
  function Lower(s: string): string {
    seq(|s|, i requires 0 <= i < |s| => LowerChar(s[i]))
  }

  predicate SameLetter(c: char, d: char) {
    || c == d
    || ('A' <= c <= 'Z' && d as int == c as int + 32)
    || ('A' <= d <= 'Z' && c as int == d as int + 32)
  }

  /** Equal up to the case of ASCII letters. */
  predicate SameName(a: string, b: string) {
    |a| == |b| && forall i :: 0 <= i < |a| ==> SameLetter(a[i], b[i])
  }

  /** Folding identifies exactly the names equal up to ASCII case. */
  lemma FoldsTogetherIff(a: string, b: string)
    ensures Lower(a) == Lower(b) <==> SameName(a, b)
  {
    if Lower(a) == Lower(b) {
      forall i | 0 <= i < |a| ensures SameLetter(a[i], b[i]) {
        assert Lower(a)[i] == Lower(b)[i];
      }
    }
    if SameName(a, b) {
      forall i | 0 <= i < |a| ensures Lower(a)[i] == Lower(b)[i] {
        assert SameLetter(a[i], b[i]);
      }
    }
  }

  datatype SystemRef = ById(id: int) | ByName(name: string)

  datatype ShipRef = ShipById(id: int) | ShipByName(name: string)

  datatype AppError =
    | UnknownSystem(system: SystemRef)
    | UnknownHull(ship: Option<ShipRef>)
    | InvalidParam
    | Unreachable
    | CynoTargetHighsec(name: string)
    | NoStagingInRange
    | StagingUnreachable
}
