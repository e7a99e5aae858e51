/**
 * Finite weighted directed graphs and the walks through them. This is the
 * reference the search in Routing is proved against: reachability, least cost,
 * and one canonical least-cost walk, none of which mentions a search.
 */
module Walks {
  import opened Wrappers

  /** Nodes are 0..n; `cost` gives the weight of every directed edge. */
  datatype Net = Net(n: nat, cost: map<(nat, nat), nat>)

  ghost predicate WellFormed(g: Net) {
    forall e :: e in g.cost ==> e.0 < g.n && e.1 < g.n && g.cost[e] >= 1
  }

  function Last(p: seq<nat>): nat
    requires p != []
  {
    p[|p| - 1]
  }

  function Front(p: seq<nat>): seq<nat>
    requires p != []
  {
    p[..|p| - 1]
  }

  ghost predicate IsWalk(g: Net, p: seq<nat>)
    decreases |p|
  {
    p != [] &&
    if |p| == 1 then p[0] < g.n
    else IsWalk(g, Front(p)) && (p[|p| - 2], p[|p| - 1]) in g.cost
  }

  /** A walk from `s` to `t`. */
  ghost predicate Between(g: Net, s: nat, t: nat, p: seq<nat>) {
    IsWalk(g, p) && p[0] == s && Last(p) == t
  }

  ghost function Cost(g: Net, p: seq<nat>): nat
    requires IsWalk(g, p)
    decreases |p|
  {
    if |p| == 1 then 0 else Cost(g, Front(p)) + g.cost[(p[|p| - 2], p[|p| - 1])]
  }

  ghost predicate Reachable(g: Net, s: nat, t: nat) {
    exists p :: Between(g, s, t, p)
  }

  ghost predicate Optimal(g: Net, s: nat, t: nat, p: seq<nat>) {
    Between(g, s, t, p) && forall q :: Between(g, s, t, q) ==> Cost(g, p) <= Cost(g, q)
  }

  ghost predicate Simple(p: seq<nat>) {
    forall i, j :: 0 <= i < j < |p| ==> p[i] != p[j]
  }

  // ---------------------------------------------------------------- walks

  lemma Extend(g: Net, s: nat, u: nat, p: seq<nat>, v: nat)
    requires Between(g, s, u, p) && (u, v) in g.cost
    ensures Between(g, s, v, p + [v])
    ensures Cost(g, p + [v]) == Cost(g, p) + g.cost[(u, v)]
  {
    assert Front(p + [v]) == p;
  }

  lemma {:induction false} Prepend(g: Net, u: nat, p: seq<nat>)
    requires WellFormed(g) && IsWalk(g, p) && (u, p[0]) in g.cost
    ensures IsWalk(g, [u] + p)
    ensures Cost(g, [u] + p) == g.cost[(u, p[0])] + Cost(g, p)
    decreases |p|
  {
    if |p| == 1 {
      assert Front([u] + p) == [u];
    } else {
      Prepend(g, u, Front(p));
      assert Front([u] + p) == [u] + Front(p);
    }
  }

  lemma {:induction false} WalkAt(g: Net, p: seq<nat>, k: nat)
    requires WellFormed(g) && IsWalk(g, p) && k < |p|
    ensures p[k] < g.n && IsWalk(g, p[..k + 1]) && Cost(g, p[..k + 1]) <= Cost(g, p)
    ensures 0 < k ==> (p[k - 1], p[k]) in g.cost
    decreases |p|
  {
    if k == |p| - 1 {
      assert p[..k + 1] == p;
    } else {
      WalkAt(g, Front(p), k);
      assert Front(p)[..k + 1] == p[..k + 1];
    }
  }

  // ---------------------------------------------------------------- least cost

  lemma {:induction false} OptimalExists(g: Net, s: nat, t: nat, p: seq<nat>)
    requires Between(g, s, t, p)
    ensures exists q :: Optimal(g, s, t, q)
    decreases Cost(g, p)
  {
    if !Optimal(g, s, t, p) {
      var q :| Between(g, s, t, q) && Cost(g, q) < Cost(g, p);
      OptimalExists(g, s, t, q);
    }
  }

  ghost function Dist(g: Net, s: nat, t: nat): nat
    requires Reachable(g, s, t)
  {
    var p :| Between(g, s, t, p);
    OptimalExists(g, s, t, p);
    var q :| Optimal(g, s, t, q);
    Cost(g, q)
  }

  lemma DistIsLeast(g: Net, s: nat, t: nat, p: seq<nat>)
    requires Between(g, s, t, p)
    ensures Reachable(g, s, t) && Dist(g, s, t) <= Cost(g, p)
    ensures Optimal(g, s, t, p) <==> Cost(g, p) == Dist(g, s, t)
  {
    OptimalExists(g, s, t, p);
    var q := OptimalWalk(g, s, t);
  }

  lemma OptimalWalk(g: Net, s: nat, t: nat) returns (q: seq<nat>)
    requires Reachable(g, s, t)
    ensures Optimal(g, s, t, q) && Cost(g, q) == Dist(g, s, t)
  {
    var p :| Between(g, s, t, p);
    OptimalExists(g, s, t, p);
    q :| Optimal(g, s, t, q);
    assert exists r :: Optimal(g, s, t, r) && Cost(g, r) == Dist(g, s, t);
  }

  lemma DistOfSource(g: Net, s: nat)
    requires s < g.n
    ensures Reachable(g, s, s) && Dist(g, s, s) == 0
  {
    assert Between(g, s, s, [s]);
    DistIsLeast(g, s, s, [s]);
  }

  // ---------------------------------------------------------------- canonical walk

  /** `u` is the node before `v` on some least-cost walk from `s`. */
  ghost predicate OptPred(g: Net, s: nat, u: nat, v: nat)
    requires Reachable(g, s, v)
  {
    Reachable(g, s, u) && (u, v) in g.cost && Dist(g, s, u) + g.cost[(u, v)] == Dist(g, s, v)
  }

  /** The order in which distances are settled: by distance, then by index. */
  ghost predicate LexLe(d: nat, u: nat, e: nat, v: nat) {
    d < e || (d == e && u <= v)
  }

  ghost predicate IsBestPred(g: Net, s: nat, u: nat, v: nat)
    requires Reachable(g, s, v)
  {
    OptPred(g, s, u, v) &&
    forall x :: OptPred(g, s, x, v) ==> LexLe(Dist(g, s, u), u, Dist(g, s, x), x)
  }

  lemma HasOptPred(g: Net, s: nat, v: nat) returns (u: nat)
    requires WellFormed(g) && Reachable(g, s, v) && v != s
    ensures OptPred(g, s, u, v)
  {
    var p := OptimalWalk(g, s, v);
    u := p[|p| - 2];
    assert Between(g, s, u, Front(p));
    DistIsLeast(g, s, u, Front(p));
    var q := OptimalWalk(g, s, u);
    Extend(g, s, u, q, v);
  }

  lemma {:induction false} BestPredFrom(g: Net, s: nat, u: nat, v: nat)
    requires Reachable(g, s, v) && OptPred(g, s, u, v)
    ensures exists x :: IsBestPred(g, s, x, v)
    decreases Dist(g, s, u), u
  {
    if !IsBestPred(g, s, u, v) {
      var x :| OptPred(g, s, x, v) && !LexLe(Dist(g, s, u), u, Dist(g, s, x), x);
      BestPredFrom(g, s, x, v);
    }
  }

  /** The least (distance, index) node among the optimal predecessors of `v`. */
  ghost function BestPred(g: Net, s: nat, v: nat): (u: nat)
    requires WellFormed(g) && Reachable(g, s, v) && v != s
    ensures IsBestPred(g, s, u, v)
    ensures Dist(g, s, u) < Dist(g, s, v)
  {
    assert exists x :: IsBestPred(g, s, x, v) by {
      var w := HasOptPred(g, s, v);
      BestPredFrom(g, s, w, v);
    }
    var u :| IsBestPred(g, s, u, v);
    u
  }

  lemma BestPredIsUnique(g: Net, s: nat, u: nat, v: nat)
    requires WellFormed(g) && Reachable(g, s, v) && v != s && IsBestPred(g, s, u, v)
    ensures u == BestPred(g, s, v)
  {
  }

  /** Walk back from `t`, at each node to the best predecessor, until `s`. */
  ghost function CanonicalPath(g: Net, s: nat, t: nat): (p: seq<nat>)
    requires WellFormed(g) && Reachable(g, s, t)
    ensures p != [] && p[0] == s && Last(p) == t
    decreases Dist(g, s, t)
  {
    if t == s then [s] else CanonicalPath(g, s, BestPred(g, s, t)) + [t]
  }

  /** The route a search must return. */
  ghost function FindRoute(g: Net, s: nat, t: nat): Option<seq<nat>>
    requires WellFormed(g)
  {
    if Reachable(g, s, t) then Some(CanonicalPath(g, s, t)) else None
  }

  lemma {:induction false} CanonicalIsOptimal(g: Net, s: nat, t: nat)
    requires WellFormed(g) && Reachable(g, s, t)
    ensures Optimal(g, s, t, CanonicalPath(g, s, t))
    ensures Cost(g, CanonicalPath(g, s, t)) == Dist(g, s, t)
    decreases Dist(g, s, t)
  {
    if t == s {
      var p := OptimalWalk(g, s, s);
      WalkAt(g, p, 0);
      assert Between(g, s, s, [s]);
      DistIsLeast(g, s, s, [s]);
      DistOfSource(g, s);
    } else {
      var u := BestPred(g, s, t);
      CanonicalIsOptimal(g, s, u);
      Extend(g, s, u, CanonicalPath(g, s, u), t);
      DistIsLeast(g, s, t, CanonicalPath(g, s, t));
    }
  }

  /** Distances rise strictly along the canonical walk, so no node repeats. */
  lemma {:induction false} CanonicalIsSimple(g: Net, s: nat, t: nat)
    requires WellFormed(g) && Reachable(g, s, t)
    ensures forall v :: v in Front(CanonicalPath(g, s, t)) ==> Reachable(g, s, v) && Dist(g, s, v) < Dist(g, s, t)
    ensures Simple(CanonicalPath(g, s, t))
    decreases Dist(g, s, t)
  {
    if t != s {
      CanonicalIsSimple(g, s, BestPred(g, s, t));
    }
  }

  // ---------------------------------------------------------------- simple walks

  /** Cutting every detour out of a walk keeps its ends and raises no weight. */
  lemma {:induction false} Simplify(g: Net, h: Net, p: seq<nat>) returns (q: seq<nat>)
    requires WellFormed(g) && IsWalk(g, p) && h.n == g.n && h.cost.Keys == g.cost.Keys
    ensures Between(g, p[0], Last(p), q) && Simple(q) && |q| <= |p|
    ensures IsWalk(h, p) && IsWalk(h, q) && Cost(h, q) <= Cost(h, p)
    decreases |p|
  {
    if |p| == 1 {
      q := p;
    } else {
      var v := Last(p);
      var r := Simplify(g, h, Front(p));
      if v in r {
        var k :| 0 <= k < |r| && r[k] == v;
        q := r[..k + 1];
        WalkAt(g, r, k);
        PrefixCost(h, r, k);
      } else {
        q := r + [v];
        Extend(g, p[0], p[|p| - 2], r, v);
        Extend(h, p[0], p[|p| - 2], r, v);
      }
    }
  }

  lemma {:induction false} PrefixCost(h: Net, p: seq<nat>, k: nat)
    requires IsWalk(h, p) && k < |p|
    ensures IsWalk(h, p[..k + 1]) && Cost(h, p[..k + 1]) <= Cost(h, p)
    decreases |p|
  {
    if k == |p| - 1 {
      assert p[..k + 1] == p;
    } else {
      PrefixCost(h, Front(p), k);
      assert Front(p)[..k + 1] == p[..k + 1];
    }
  }

  function Below(n: nat): (r: set<nat>)
    ensures forall i: nat :: i in r <==> i < n
    ensures |r| == n
  {
    if n == 0 then {} else Below(n - 1) + {n - 1}
  }

  function Nodes(p: seq<nat>): (r: set<nat>)
    ensures forall v :: v in r <==> v in p
    ensures Simple(p) ==> |r| == |p|
    decreases |p|
  {
    if p == [] then {} else
      assert p == Front(p) + [Last(p)];
      Nodes(Front(p)) + {Last(p)}
  }

  lemma SubsetSize<T>(a: set<T>, b: set<T>)
    requires a <= b
    ensures |a| <= |b|
  {
    assert b == a + (b - a);
  }

  /** A simple walk visits at most n nodes. */
  lemma SimpleIsShort(g: Net, p: seq<nat>)
    requires WellFormed(g) && IsWalk(g, p) && Simple(p)
    ensures |p| <= g.n
  {
    forall v | v in p ensures v < g.n {
      var k :| 0 <= k < |p| && p[k] == v;
      WalkAt(g, p, k);
    }
    SubsetSize(Nodes(p), Below(g.n));
  }

  lemma {:induction false} CostBound(g: Net, p: seq<nat>, w: nat)
    requires IsWalk(g, p) && forall e :: e in g.cost ==> g.cost[e] <= w
    ensures Cost(g, p) <= (|p| - 1) * w
    decreases |p|
  {
    if |p| > 1 {
      CostBound(g, Front(p), w);
      assert (|p| - 1) * w == (|p| - 2) * w + w;
    }
  }

  lemma ScaleUp(a: nat, b: nat, w: nat)
    requires a <= b
    ensures a * w <= b * w
  {
  }

  /** Every least cost is bounded by n - 1 edges of the heaviest weight. */
  lemma DistBound(g: Net, s: nat, t: nat, w: nat)
    requires WellFormed(g) && Reachable(g, s, t) && forall e :: e in g.cost ==> g.cost[e] <= w
    ensures g.n > 0 && Dist(g, s, t) <= (g.n - 1) * w
  {
    CanonicalIsOptimal(g, s, t);
    CanonicalIsSimple(g, s, t);
    var p := CanonicalPath(g, s, t);
    SimpleIsShort(g, p);
    CostBound(g, p, w);
    ScaleUp(|p| - 1, g.n - 1, w);
  }

  // ---------------------------------------------------------------- comparing nets

  /** `h` has every edge of `g`, none of them heavier. */
  ghost predicate Extends(g: Net, h: Net) {
    g.n == h.n && forall e :: e in g.cost ==> e in h.cost && h.cost[e] <= g.cost[e]
  }

  lemma {:induction false} WalkInLarger(g: Net, h: Net, p: seq<nat>)
    requires Extends(g, h) && IsWalk(g, p)
    ensures IsWalk(h, p) && Cost(h, p) <= Cost(g, p)
    decreases |p|
  {
    if |p| > 1 {
      WalkInLarger(g, h, Front(p));
    }
  }

  lemma LargerIsCheaper(g: Net, h: Net, s: nat, t: nat)
    requires Extends(g, h) && Reachable(g, s, t)
    ensures Reachable(h, s, t) && Dist(h, s, t) <= Dist(g, s, t)
  {
    var p := OptimalWalk(g, s, t);
    WalkInLarger(g, h, p);
    DistIsLeast(h, s, t, p);
  }

  /** `h` is `g` without some of the edges back into `s`. */
  ghost predicate DropsReturns(g: Net, h: Net, s: nat) {
    && WellFormed(g) && WellFormed(h) && g.n == h.n
    && (forall e :: e in h.cost ==> e in g.cost && g.cost[e] == h.cost[e])
    && (forall e :: e in g.cost && e.1 != s ==> e in h.cost)
  }

  lemma {:induction false} SimpleNeverReturns(g: Net, h: Net, p: seq<nat>)
    requires p != [] && DropsReturns(g, h, p[0]) && IsWalk(g, p) && Simple(p)
    ensures IsWalk(h, p) && Cost(h, p) == Cost(g, p)
    decreases |p|
  {
    if |p| > 1 {
      SimpleNeverReturns(g, h, Front(p));
      assert (p[|p| - 2], Last(p)) in h.cost;
    }
  }

  lemma SameDistWithoutReturns(g: Net, h: Net, s: nat, t: nat)
    requires DropsReturns(g, h, s)
    ensures Reachable(g, s, t) <==> Reachable(h, s, t)
    ensures Reachable(g, s, t) ==> Dist(g, s, t) == Dist(h, s, t)
  {
    if Reachable(h, s, t) {
      LargerIsCheaper(h, g, s, t);
    }
    if Reachable(g, s, t) {
      CanonicalIsOptimal(g, s, t);
      CanonicalIsSimple(g, s, t);
      var p := CanonicalPath(g, s, t);
      SimpleNeverReturns(g, h, p);
      DistIsLeast(h, s, t, p);
    }
  }

  /** No canonical walk returns to its start, so those edges decide nothing. */
  lemma {:induction false} SamePathWithoutReturns(g: Net, h: Net, s: nat, t: nat)
    requires DropsReturns(g, h, s) && Reachable(g, s, t)
    ensures Reachable(h, s, t) && CanonicalPath(g, s, t) == CanonicalPath(h, s, t)
    decreases Dist(g, s, t)
  {
    SameDistWithoutReturns(g, h, s, t);
    if t != s {
      var u := BestPred(g, s, t);
      forall x: nat
        ensures OptPred(g, s, x, t) <==> OptPred(h, s, x, t)
        ensures OptPred(g, s, x, t) ==> Dist(g, s, x) == Dist(h, s, x)
      {
        SameDistWithoutReturns(g, h, s, x);
      }
      BestPredIsUnique(h, s, u, t);
      SamePathWithoutReturns(g, h, s, u);
    }
  }
}
