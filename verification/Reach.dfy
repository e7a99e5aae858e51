/** Single-jump reachability, src/services/range.rs. */
module Reach {
  import opened Model
  import opened JumpRange
  import opened Sorting
  import opened Staging

  datatype RangeHull = RangeHull(name: string, typeId: int, baseLy: real)

  datatype RangeReachable = RangeReachable(system: SystemInfo, jumpLy: real)

  datatype RangeSummary = RangeSummary(reachableCount: nat, farthestLy: real, bySecClass: map<SecClass, nat>)

  datatype RangeResponse = RangeResponse(
    source: SystemInfo,
    hull: RangeHull,
    jdcLevel: nat,
    effectiveLy: real,
    summary: RangeSummary,
    reachable: seq<RangeReachable>)

  /** In range of the source, not the source, and not highsec. */
  predicate IsLandable(graph: GraphData, source: nat, ly: real, v: nat)
    requires source < |graph.systems|
  {
    && InRange(graph, graph.systems[source].coords, ly, v) && v != source
    && graph.systems[v].secClass != Highsec
  }

  function CountClass(reachable: seq<RangeReachable>, cls: SecClass): nat
    decreases |reachable|
  {
    if reachable == [] then 0
    else
      CountClass(reachable[..|reachable| - 1], cls)
        + if reachable[|reachable| - 1].system.secClass == cls then 1 else 0
  }

  /** The tally has an entry for exactly the classes that occur. */
  ghost predicate IsTally(reachable: seq<RangeReachable>, m: map<SecClass, nat>) {
    forall cls: SecClass :: (cls in m <==> CountClass(reachable, cls) > 0) && (cls in m ==> m[cls] == CountClass(reachable, cls))
  }

  method BuildTally(reachable: seq<RangeReachable>) returns (m: map<SecClass, nat>)
    ensures IsTally(reachable, m)
  {
    m := map[];
    for k := 0 to |reachable|
      invariant IsTally(reachable[..k], m)
    {
      var cls := reachable[k].system.secClass;
      assert reachable[..k + 1][..k] == reachable[..k];
      m := m[cls := (if cls in m then m[cls] else 0) + 1];
    }
    assert reachable[..|reachable|] == reachable;
  }

  function EntryOf(sqrt: real -> real, graph: GraphData, center: Coords, v: nat): RangeReachable
    requires v < |graph.systems|
  {
    RangeReachable(InfoOf(graph.systems[v]), Round2(LyTo(sqrt, graph, center, v)))
  }

  /** Every landable system once, nearest first by full-precision distance. */
  ghost predicate IsReachOrder(sqrt: real -> real, graph: GraphData, source: nat, ly: real, order: seq<nat>)
    requires source < |graph.systems|
  {
    && NoRepeats(order)
    && (forall v :: v in order <==> IsLandable(graph, source, ly, v))
    && (forall i, j :: 0 <= i < j < |order| ==>
          LyTo(sqrt, graph, graph.systems[source].coords, order[i]) <= LyTo(sqrt, graph, graph.systems[source].coords, order[j]))
  }

  ghost predicate Reports(sqrt: real -> real, graph: GraphData, source: nat, order: seq<nat>, r: RangeResponse)
    requires source < |graph.systems| && forall i :: 0 <= i < |order| ==> order[i] < |graph.systems|
  {
    var center := graph.systems[source].coords;
    && |r.reachable| == |order|
    && (forall i :: 0 <= i < |order| ==> r.reachable[i] == EntryOf(sqrt, graph, center, order[i]))
    && r.summary.reachableCount == |order|
    && r.summary.farthestLy == (if order == [] then 0.0 else Round2(LyTo(sqrt, graph, center, order[|order| - 1])))
    && IsTally(r.reachable, r.summary.bySecClass)
  }

  method ComputeReachable(graph: GraphData, source: nat, hull: RangeHull, jdcLevel: nat, ly: real, sqrt: real -> real)
    returns (r: RangeResponse, ghost order: seq<nat>)
    requires graph.Valid() && source < |graph.systems|
    ensures IsReachOrder(sqrt, graph, source, ly, order)
    ensures forall i :: 0 <= i < |order| ==> order[i] < |graph.systems|
    ensures Reports(sqrt, graph, source, order, r)
    ensures r.source == InfoOf(graph.systems[source]) && r.hull == hull && r.jdcLevel == jdcLevel && r.effectiveLy == ly
  {
    hide GraphData.Valid, TotalPreorder, Within, LyTo, Round2, IsTally;
    var center := graph.systems[source].coords;
    var hits := RadiusQuery(graph, center, ly);
    var landable := [];
    for k := 0 to |hits|
      invariant NoRepeats(landable)
      invariant forall v :: v in landable <==> v in hits[..k] && IsLandable(graph, source, ly, v)
    {
      var v := hits[k];
      assert v in hits;
      assert hits[..k + 1] == hits[..k] + [v];
      assert v !in hits[..k];
      if v != source && graph.systems[v].secClass != Highsec {
        landable := landable + [v];
      }
    }
    assert hits[..|hits|] == hits;
    var sorted := SortByLy(sqrt, graph, center, landable);
    forall i | 0 <= i < |sorted| ensures sorted[i] < |graph.systems| {
      assert sorted[i] in sorted;
    }
    var reachable := [];
    for k := 0 to |sorted|
      invariant |reachable| == k
      invariant forall i :: 0 <= i < k ==> reachable[i] == EntryOf(sqrt, graph, center, sorted[i])
    {
      reachable := reachable + [EntryOf(sqrt, graph, center, sorted[k])];
    }
    var tally := BuildTally(reachable);
    var farthest := if sorted == [] then 0.0 else Round2(LyTo(sqrt, graph, center, sorted[|sorted| - 1]));
    r := RangeResponse(InfoOf(graph.systems[source]), hull, jdcLevel, ly,
                       RangeSummary(|reachable|, farthest, tally), reachable);
    order := sorted;
  }

  lemma LyIsPreorder(sqrt: real -> real, graph: GraphData, center: Coords)
    ensures TotalPreorder((a: nat, b: nat) => LyTo(sqrt, graph, center, a) <= LyTo(sqrt, graph, center, b))
  {
  }

  method SortByLy(sqrt: real -> real, graph: GraphData, center: Coords, nodes: seq<nat>) returns (r: seq<nat>)
    ensures NoRepeats(nodes) ==> NoRepeats(r)
    ensures forall v :: v in r <==> v in nodes
    ensures forall i, j :: 0 <= i < j < |r| ==> LyTo(sqrt, graph, center, r[i]) <= LyTo(sqrt, graph, center, r[j])
  {
    hide TotalPreorder, LyTo;
    LyIsPreorder(sqrt, graph, center);
    r := SortBy((a: nat, b: nat) => LyTo(sqrt, graph, center, a) <= LyTo(sqrt, graph, center, b), nodes);
    Reordered(nodes, r);
  }

  // ---------------------------------------------------------------- properties

  /** A lowsec or nullsec system other than the source, near it. */
  ghost predicate CanLand(graph: GraphData, source: nat, ly: real, v: nat)
    requires source < |graph.systems|
  {
    && v < |graph.systems| && v != source
    && (graph.systems[v].secClass == Lowsec || graph.systems[v].secClass == Nullsec)
    && Near(graph, v, graph.systems[source].coords, ly)
  }

  /** The response lists exactly the systems one jump can land in, each as it is on the map and at its distance. */
  lemma ListsWhereOneCanLand(sqrt: real -> real, graph: GraphData, source: nat, ly: real, order: seq<nat>, r: RangeResponse)
    requires source < |graph.systems| && IsReachOrder(sqrt, graph, source, ly, order)
    requires (forall i :: 0 <= i < |order| ==> order[i] < |graph.systems|) && Reports(sqrt, graph, source, order, r)
    ensures forall v: nat :: v in order <==> CanLand(graph, source, ly, v)
    ensures NoRepeats(order) && |r.reachable| == |order| == r.summary.reachableCount
    ensures forall i :: 0 <= i < |order| ==>
              var s, e := graph.systems[order[i]], r.reachable[i];
              && e.system.system == s.name && e.system.systemId == s.id
              && e.system.security == s.security && e.system.secClass == s.secClass
              && e.jumpLy == Round2(LyBetween(sqrt, s.coords, graph.systems[source].coords))
  {
    hide Round2, IsTally, InRange, Near, LyBetween;
    forall v: nat
      ensures v in order <==> CanLand(graph, source, ly, v)
    {
      InRangeIff(graph, graph.systems[source].coords, ly, v);
    }
  }

  /** In light-years: whoever is nearer than the range is listed, and no one listed is beyond it. */
  lemma ListedByLy(sqrt: real -> real, graph: GraphData, source: nat, ly: real, order: seq<nat>, v: nat)
    requires source < |graph.systems| && IsReachOrder(sqrt, graph, source, ly, order)
    requires IsSqrt(sqrt) && ly >= 0.0 && v < |graph.systems|
    ensures var s, d := graph.systems[v], LyBetween(sqrt, graph.systems[v].coords, graph.systems[source].coords);
            && (v != source && (s.secClass == Lowsec || s.secClass == Nullsec) && d < ly ==> v in order)
            && (v in order ==> v != source && (s.secClass == Lowsec || s.secClass == Nullsec) && d <= ly)
  {
    hide InRange, Near, LyBetween, IsSqrt;
    InRangeIff(graph, graph.systems[source].coords, ly, v);
    NearInLy(sqrt, graph, v, graph.systems[source].coords, ly);
  }

  /** Rounding keeps the order, and the summary's farthest is the greatest listed distance. */
  lemma RoundedStaysAscending(sqrt: real -> real, graph: GraphData, source: nat, ly: real, order: seq<nat>, r: RangeResponse)
    requires source < |graph.systems| && IsReachOrder(sqrt, graph, source, ly, order)
    requires (forall i :: 0 <= i < |order| ==> order[i] < |graph.systems|) && Reports(sqrt, graph, source, order, r)
    ensures forall i, j :: 0 <= i < j < |r.reachable| ==> r.reachable[i].jumpLy <= r.reachable[j].jumpLy
    ensures forall i :: 0 <= i < |r.reachable| ==> r.reachable[i].jumpLy <= r.summary.farthestLy
    ensures r.reachable == [] ==> r.summary.farthestLy == 0.0
    ensures r.reachable != [] ==> exists i :: 0 <= i < |r.reachable| && r.reachable[i].jumpLy == r.summary.farthestLy
  {
    hide LyTo, Round2, IsTally, IsLandable;
    var center := graph.systems[source].coords;
    forall i, j | 0 <= i < j < |r.reachable|
      ensures r.reachable[i].jumpLy <= r.reachable[j].jumpLy
    {
      Round2Grows(LyTo(sqrt, graph, center, order[i]), LyTo(sqrt, graph, center, order[j]));
    }
    if r.reachable != [] {
      assert r.reachable[|order| - 1].jumpLy == r.summary.farthestLy;
    }
  }

  ghost function IndicesOf(reachable: seq<RangeReachable>, cls: SecClass): set<nat> {
    set i: nat | i < |reachable| && reachable[i].system.secClass == cls
  }

  lemma IndicesPush(front: seq<RangeReachable>, e: RangeReachable, cls: SecClass)
    ensures IndicesOf(front + [e], cls) == IndicesOf(front, cls) + (if e.system.secClass == cls then {|front|} else {})
    ensures |front| !in IndicesOf(front, cls)
  {
    forall i: nat
      ensures i in IndicesOf(front + [e], cls) <==> i in IndicesOf(front, cls) || (i == |front| && e.system.secClass == cls)
    {
      if i < |front| {
        assert (front + [e])[i] == front[i];
      }
    }
  }

  /** The class count is the number of entries of the class. */
  lemma {:induction false} CountIsCardinality(reachable: seq<RangeReachable>, cls: SecClass)
    ensures CountClass(reachable, cls) == |IndicesOf(reachable, cls)|
    decreases |reachable|
  {
    if reachable == [] {
      assert IndicesOf(reachable, cls) == {};
    } else {
      hide IndicesOf;
      var n := |reachable| - 1;
      CountIsCardinality(reachable[..n], cls);
      IndicesPush(reachable[..n], reachable[n], cls);
      assert reachable == reachable[..n] + [reachable[n]];
    }
  }

  lemma {:induction false} ClassesPartition(reachable: seq<RangeReachable>)
    ensures CountClass(reachable, Highsec) + CountClass(reachable, Lowsec)
            + CountClass(reachable, Nullsec) + CountClass(reachable, Wormhole) == |reachable|
    decreases |reachable|
  {
    if reachable != [] {
      ClassesPartition(reachable[..|reachable| - 1]);
    }
  }

  lemma {:induction false} AbsentClass(reachable: seq<RangeReachable>, cls: SecClass)
    requires forall i :: 0 <= i < |reachable| ==> reachable[i].system.secClass != cls
    ensures CountClass(reachable, cls) == 0
    decreases |reachable|
  {
    if reachable != [] {
      AbsentClass(reachable[..|reachable| - 1], cls);
    }
  }

  function TallyOf(m: map<SecClass, nat>, cls: SecClass): nat {
    if cls in m then m[cls] else 0
  }

  /** Only lowsec and nullsec are tallied, and together they make up the count. */
  lemma TalliesSumToCount(sqrt: real -> real, graph: GraphData, source: nat, ly: real, order: seq<nat>, r: RangeResponse)
    requires source < |graph.systems| && IsReachOrder(sqrt, graph, source, ly, order)
    requires (forall i :: 0 <= i < |order| ==> order[i] < |graph.systems|) && Reports(sqrt, graph, source, order, r)
    ensures r.summary.bySecClass.Keys <= {Lowsec, Nullsec}
    ensures TallyOf(r.summary.bySecClass, Lowsec) + TallyOf(r.summary.bySecClass, Nullsec) == r.summary.reachableCount
  {
    hide LyTo, Round2, Within;
    forall i | 0 <= i < |r.reachable|
      ensures r.reachable[i].system.secClass != Highsec && r.reachable[i].system.secClass != Wormhole
    {
      assert order[i] in order;
    }
    ClassesPartition(r.reachable);
    AbsentClass(r.reachable, Highsec);
    AbsentClass(r.reachable, Wormhole);
    forall cls: SecClass | cls in r.summary.bySecClass ensures cls in {Lowsec, Nullsec} {
      assert cls != Highsec && cls != Wormhole;
    }
  }
}
