/**
 * Jump-range arithmetic of src/range.rs and the radius query over the spatial
 * index, over real numbers. The square root is a parameter.
 */
module JumpRange {
  import opened Model
  import opened Sorting

  const LY_IN_METERS: real := 9460700000000000.0

  function EffectiveLy(baseLy: real, bonusPerLevel: real, jdcLevel: nat): real {
    baseLy * (1.0 + bonusPerLevel * (jdcLevel as real))
  }

  function RadiusM2(ly: real): real {
    var m := ly * LY_IN_METERS;
    m * m
  }

  function DistSq(a: Coords, b: Coords): real {
    (a.x - b.x) * (a.x - b.x) + (a.y - b.y) * (a.y - b.y) + (a.z - b.z) * (a.z - b.z)
  }

  ghost predicate IsSqrt(sqrt: real -> real) {
    forall x {:trigger sqrt(x)} :: x >= 0.0 ==> sqrt(x) >= 0.0 && sqrt(x) * sqrt(x) == x
  }

  function LyBetween(sqrt: real -> real, a: Coords, b: Coords): real {
    sqrt(DistSq(a, b)) / LY_IN_METERS
  }

  /** Two decimals, halves away from zero. */
  function Round2(ly: real): real {
    var scaled := ly * 100.0;
    (if scaled >= 0.0 then (scaled + 0.5).Floor else -((0.5 - scaled).Floor)) as real / 100.0
  }

  // ---------------------------------------------------------------- what the formulas measure

  /** Without the skill a hull has its base range, and every level adds one bonus of it. */
  lemma EffectiveLyByLevel(base: real, bonus: real, level: nat)
    ensures EffectiveLy(base, bonus, 0) == base
    ensures EffectiveLy(base, bonus, level + 1) == EffectiveLy(base, bonus, level) + base * bonus
  {
    var n := level as real;
    assert (level + 1) as real == n + 1.0;
    Distributes(base, 1.0 + bonus * n, bonus);
    Distributes(bonus, n, 1.0);
  }

  lemma Distributes(a: real, b: real, c: real)
    ensures a * (b + c) == a * b + a * c
  {
  }

  /** Along each axis the squared distance is the square of the displacement. */
  lemma DistSqAlongAxis(a: Coords, d: real)
    ensures DistSq(a.(x := a.x + d), a) == DistSq(a.(y := a.y + d), a) == DistSq(a.(z := a.z + d), a) == d * d
  {
    assert a.x + d - a.x == a.y + d - a.y == a.z + d - a.z == d;
  }

  /** Pythagoras: going one axis at a time, the squared distances add up. */
  lemma DistSqAddsUp(a: Coords, b: Coords)
    ensures var c, e := Coords(b.x, a.y, a.z), Coords(b.x, b.y, a.z);
            DistSq(a, b) == DistSq(a, c) + DistSq(c, e) + DistSq(e, b)
  {
  }

  /** A system `d` light-years of 9460700000000000 metres away along an axis is `d` light-years away. */
  lemma LyAlongAxis(sqrt: real -> real, a: Coords, d: real)
    requires IsSqrt(sqrt) && d >= 0.0
    ensures var m := d * 9460700000000000.0;
            && LyBetween(sqrt, a.(x := a.x + m), a) == d && LyBetween(sqrt, a.(y := a.y + m), a) == d
            && LyBetween(sqrt, a.(z := a.z + m), a) == d
  {
    var m := d * 9460700000000000.0;
    DistSqAlongAxis(a, m);
    SquareOrder(sqrt(m * m), m);
    SquareOrder(m, sqrt(m * m));
    assert sqrt(m * m) == m;
    assert m / LY_IN_METERS == d;
  }

  /** Rounding gives the nearest whole hundredth, and the one farther from zero if two are as near. */
  lemma Round2IsNearest(x: real)
    ensures (Round2(x) * 100.0).Floor as real == Round2(x) * 100.0
    ensures -0.005 <= Round2(x) - x <= 0.005
    ensures if x >= 0.0 then Round2(x) - x > -0.005 else Round2(x) - x < 0.005
  {
    var k := if x * 100.0 >= 0.0 then (x * 100.0 + 0.5).Floor else -((0.5 - x * 100.0).Floor);
    assert Round2(x) * 100.0 == k as real;
  }

  lemma Positive(x: real, y: real)
    requires x > 0.0 && y > 0.0
    ensures x * y > 0.0
  {
  }

  lemma SquareOrder(x: real, y: real)
    requires x >= 0.0 && y >= 0.0
    ensures x <= y <==> x * x <= y * y
  {
    if x <= y {
      assert x * x <= x * y <= y * y;
    } else {
      assert x * x - y * y == (x - y) * (x + y);
      Positive(x - y, x + y);
    }
  }

  lemma DistSqSymmetric(a: Coords, b: Coords)
    ensures DistSq(a, b) == DistSq(b, a) >= 0.0
  {
    SameSquare(a.x - b.x);
    SameSquare(a.y - b.y);
    SameSquare(a.z - b.z);
  }

  lemma SameSquare(x: real)
    ensures x * x == (-x) * (-x) >= 0.0
  {
  }

  /** The squared-metre radius and the light-year distance agree on who is in range. */
  lemma RadiusMatchesLy(sqrt: real -> real, a: Coords, b: Coords, ly: real)
    requires IsSqrt(sqrt) && ly >= 0.0
    ensures DistSq(a, b) <= RadiusM2(ly) <==> LyBetween(sqrt, a, b) <= ly
    ensures DistSq(a, b) < RadiusM2(ly) <==> LyBetween(sqrt, a, b) < ly
  {
    DistSqSymmetric(a, b);
    var r, m := sqrt(DistSq(a, b)), ly * LY_IN_METERS;
    SquareOrder(r, m);
    SquareOrder(m, r);
    assert r / LY_IN_METERS <= ly <==> r <= m;
    assert r / LY_IN_METERS < ly <==> r < m;
  }

  /** Being closer in light-years is being closer in metres. */
  lemma CloserInLy(sqrt: real -> real, a: Coords, b: Coords, center: Coords)
    requires IsSqrt(sqrt)
    ensures LyBetween(sqrt, a, center) <= LyBetween(sqrt, b, center) <==> DistSq(a, center) <= DistSq(b, center)
  {
    DistSqSymmetric(a, center);
    DistSqSymmetric(b, center);
    var x, y := sqrt(DistSq(a, center)), sqrt(DistSq(b, center));
    SquareOrder(x, y);
    assert x / LY_IN_METERS <= y / LY_IN_METERS <==> x <= y;
  }

  lemma RadiusGrows(a: real, b: real)
    requires 0.0 <= a <= b
    ensures RadiusM2(a) <= RadiusM2(b)
  {
    SquareOrder(a * LY_IN_METERS, b * LY_IN_METERS);
  }

  lemma ProductOrder(a: real, b: real, c: real, d: real)
    requires 0.0 <= a <= b && 0.0 <= c <= d
    ensures 0.0 <= a * c <= b * d
  {
    assert a * c <= b * c;
    assert b * c <= b * d;
  }

  /** More base range or a higher level never shortens a jump. */
  lemma EffectiveLyGrows(base: real, base': real, bonus: real, level: nat, level': nat)
    requires 0.0 <= base <= base' && 0.0 <= bonus && level <= level'
    ensures 0.0 <= EffectiveLy(base, bonus, level) <= EffectiveLy(base', bonus, level')
  {
    ProductOrder(bonus, bonus, level as real, level' as real);
    ProductOrder(base, base', 1.0 + bonus * (level as real), 1.0 + bonus * (level' as real));
  }

  lemma FloorGrows(a: real, b: real)
    requires a <= b
    ensures a.Floor <= b.Floor
  {
  }

  lemma Round2Grows(a: real, b: real)
    requires a <= b
    ensures Round2(a) <= Round2(b)
  {
    var x, y := a * 100.0, b * 100.0;
    FloorGrows(x + 0.5, y + 0.5);
    FloorGrows(0.5 - y, 0.5 - x);
    if x < 0.0 <= y {
      assert -((0.5 - x).Floor) <= 0;
    }
  }

  // ---------------------------------------------------------------- the radius query

  predicate Within(inclusive: bool, a: Coords, b: Coords, radius: real) {
    if inclusive then DistSq(a, b) <= radius else DistSq(a, b) < radius
  }

  /** `v` is a K-space system within `ly` of `center`. */
  predicate InRange(graph: GraphData, center: Coords, ly: real, v: nat) {
    && v < |graph.systems| && !graph.systems[v].IsWormhole()
    && Within(graph.spatial.inclusive, graph.systems[v].coords, center, RadiusM2(ly))
  }

  /**
   * The same in coordinates: inside the sphere of `ly` light-years, or on it if
   * the index counts that in.
   */
  predicate Near(graph: GraphData, v: nat, center: Coords, ly: real)
    requires v < |graph.systems|
  {
    var at := graph.systems[v].coords;
    var dx, dy, dz, m := at.x - center.x, at.y - center.y, at.z - center.z, ly * 9460700000000000.0;
    dx * dx + dy * dy + dz * dz < m * m || (graph.spatial.inclusive && dx * dx + dy * dy + dz * dz == m * m)
  }

  lemma InRangeIff(graph: GraphData, center: Coords, ly: real, v: nat)
    ensures InRange(graph, center, ly, v) <==>
            v < |graph.systems| && graph.systems[v].secClass != Wormhole && Near(graph, v, center, ly)
  {
  }

  /** In light-years: whatever is nearer is near, and nothing near is farther. */
  lemma NearInLy(sqrt: real -> real, graph: GraphData, v: nat, center: Coords, ly: real)
    requires v < |graph.systems| && IsSqrt(sqrt) && ly >= 0.0
    ensures LyBetween(sqrt, graph.systems[v].coords, center) < ly ==> Near(graph, v, center, ly)
    ensures Near(graph, v, center, ly) ==> LyBetween(sqrt, graph.systems[v].coords, center) <= ly
  {
    RadiusMatchesLy(sqrt, graph.systems[v].coords, center, ly);
  }

  /** Every indexed point within range, in no promised order. */
  method RadiusQuery(graph: GraphData, center: Coords, ly: real) returns (hits: seq<nat>)
    requires graph.Valid()
    ensures NoRepeats(hits)
    ensures forall v :: v in hits <==> InRange(graph, center, ly, v)
  {
    hide CatalogValid, Lower, RadiusM2, Within;
    var radius := RadiusM2(ly);
    var items := graph.spatial.items;
    hits := [];
    for k := 0 to |items|
      invariant NoRepeats(hits)
      invariant forall v :: v in hits <==>
                            exists i :: 0 <= i < k && items[i].1 == v
                                        && Within(graph.spatial.inclusive, items[i].0, center, radius)
    {
      if Within(graph.spatial.inclusive, items[k].0, center, radius) {
        assert items[k].1 !in hits;
        hits := hits + [items[k].1];
      }
    }
    forall v: nat
      ensures v in hits <==> InRange(graph, center, ly, v)
    {
      HitMeansInRange(graph, center, ly, v);
    }
  }

  lemma HitMeansInRange(graph: GraphData, center: Coords, ly: real, v: nat)
    requires graph.Valid()
    ensures (exists i :: 0 <= i < |graph.spatial.items| && graph.spatial.items[i].1 == v
                         && Within(graph.spatial.inclusive, graph.spatial.items[i].0, center, RadiusM2(ly)))
            <==> InRange(graph, center, ly, v)
  {
    hide CatalogValid, Lower, RadiusM2, Within;
    var items := graph.spatial.items;
    if InRange(graph, center, ly, v) {
      var i :| 0 <= i < |items| && items[i] == (graph.systems[v].coords, v);
    }
    if i :| 0 <= i < |items| && items[i].1 == v && Within(graph.spatial.inclusive, items[i].0, center, RadiusM2(ly)) {
      assert graph.IndexesKSpace(items[i]);
    }
  }

  /** A longer range reaches everything a shorter one did. */
  lemma InRangeGrows(graph: GraphData, center: Coords, a: real, b: real, v: nat)
    requires 0.0 <= a <= b && InRange(graph, center, a, v)
    ensures InRange(graph, center, b, v)
  {
    RadiusGrows(a, b);
  }
}
