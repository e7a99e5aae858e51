/**
 * The labels a Dijkstra search keeps, the invariant its loop maintains over
 * them, and what that invariant says about least costs. Everything here is
 * about values; the loops themselves are in Routing.
 */
module Search {
  import opened Wrappers
  import opened Walks

  /** Marks a node without a predecessor; no node has this index. */
  const NO_PREV: nat := 0xFFFF_FFFF

  datatype Distance = Finite(value: nat) | Infinity {
    /** `d < this` and `this < d`, with infinity above every number. */
    predicate Above(d: nat) { Infinity? || d < value }
    predicate Under(d: nat) { Finite? && value < d }
  }

  /** A queued node. `Cmp` reverses the order, so the greatest item is the nearest. */
  datatype HeapItem = HeapItem(dist: nat, node: nat)

  datatype Ordering = Less | Equal | Greater

  function CmpNat(a: nat, b: nat): Ordering {
    if a < b then Less else if a == b then Equal else Greater
  }

  function Cmp(a: HeapItem, b: HeapItem): Ordering {
    if b.dist == a.dist then CmpNat(b.node, a.node) else CmpNat(b.dist, a.dist)
  }

  ghost predicate IsGreatest(i: HeapItem, heap: multiset<HeapItem>) {
    i in heap && forall j :: j in heap ==> Cmp(i, j) != Less
  }

  /** The greatest queued item is the least by (distance, index). */
  lemma GreatestIsNearest(i: HeapItem, heap: multiset<HeapItem>, j: HeapItem)
    requires IsGreatest(i, heap) && j in heap
    ensures LexLe(i.dist, i.node, j.dist, j.node)
  {
    assert Cmp(i, j) != Less;
  }

  datatype Labels = Labels(dist: seq<Distance>, prev: seq<nat>, visited: seq<bool>)

  ghost predicate Sized(g: Net, l: Labels) {
    |l.dist| == g.n && |l.prev| == g.n && |l.visited| == g.n
  }

  /** A finite label is the source's 0, or comes over an edge from a visited node. */
  ghost predicate Labelled(g: Net, s: nat, l: Labels, v: nat)
    requires Sized(g, l) && v < g.n
  {
    l.dist[v].Finite? ==>
      if v == s then l.dist[v].value == 0
      else
        var u := l.prev[v];
        && u < g.n && l.visited[u] && l.dist[u].Finite? && (u, v) in g.cost
        && l.dist[v].value == l.dist[u].value + g.cost[(u, v)]
  }

  /** Edge (u, v) offers nothing better than v's label, and on a tie v's predecessor comes first. */
  ghost predicate Relaxed(g: Net, s: nat, l: Labels, u: nat, v: nat)
    requires WellFormed(g) && Sized(g, l) && (u, v) in g.cost
  {
    && l.dist[u].Finite? && l.dist[v].Finite?
    && l.dist[v].value <= l.dist[u].value + g.cost[(u, v)]
    && (v != s && l.dist[v].value == l.dist[u].value + g.cost[(u, v)] ==>
          && l.prev[v] < g.n && l.dist[l.prev[v]].Finite?
          && LexLe(l.dist[l.prev[v]].value, l.prev[v], l.dist[u].value, u))
  }

  /** `u` is settled no later than `v`. */
  ghost predicate Precedes(l: Labels, u: nat, v: nat)
    requires u < |l.dist| && v < |l.dist| && l.dist[u].Finite? && l.dist[v].Finite?
  {
    LexLe(l.dist[u].value, u, l.dist[v].value, v)
  }

  /** The loop invariant on the labels; nodes in `open` are visited but not expanded. */
  ghost predicate Settled(g: Net, s: nat, l: Labels, open: set<nat>) {
    && WellFormed(g) && Sized(g, l) && s < g.n && l.dist[s] == Finite(0)
    && (forall v :: 0 <= v < g.n ==> Labelled(g, s, l, v))
    && (forall v :: 0 <= v < g.n && l.visited[v] ==> l.dist[v].Finite?)
    && (forall u, v :: (u, v) in g.cost && l.visited[u] && u !in open ==> Relaxed(g, s, l, u, v))
    && (forall u, v :: 0 <= u < g.n && 0 <= v < g.n && l.visited[u] && l.dist[v].Finite? ==>
          (!l.visited[v] || v in open) ==> Precedes(l, u, v))
  }

  /** The loop invariant on the queue. */
  ghost predicate Queued(g: Net, l: Labels, heap: multiset<HeapItem>)
    requires Sized(g, l)
  {
    && (forall i :: i in heap ==>
          i.node < g.n && l.dist[i.node].Finite? && l.dist[i.node].value <= i.dist)
    && (forall v :: 0 <= v < g.n && !l.visited[v] && l.dist[v].Finite? ==>
          HeapItem(l.dist[v].value, v) in heap)
  }

  function InitialLabels(n: nat, s: nat): Labels
    requires s < n
  {
    Labels(seq(n, _ => Infinity)[s := Finite(0)], seq(n, _ => NO_PREV), seq(n, _ => false))
  }

  function Visit(l: Labels, u: nat): Labels
    requires u < |l.visited|
  {
    l.(visited := l.visited[u := true])
  }

  /** One neighbour examined: `d` is the distance of `u`, `w` the weight of (u, v). */
  function RelaxEdge(l: Labels, u: nat, d: nat, v: nat, w: nat): Labels
    requires v < |l.dist| && v < |l.prev| && v < |l.visited|
  {
    if Improves(l, d, v, w)
    then l.(dist := l.dist[v := Finite(d + w)], prev := l.prev[v := u])
    else l
  }

  // ---------------------------------------------------------------- steps keep the invariant

  lemma InitialIsSettled(g: Net, s: nat)
    requires WellFormed(g) && s < g.n
    ensures Sized(g, InitialLabels(g.n, s)) && Settled(g, s, InitialLabels(g.n, s), {})
    ensures Queued(g, InitialLabels(g.n, s), multiset{HeapItem(0, s)})
    ensures Counted(g, InitialLabels(g.n, s), {})
  {
  }

  /** The nearest queued unvisited node carries its own label, and may be visited. */
  lemma VisitKeepsSettled(g: Net, s: nat, l: Labels, heap: multiset<HeapItem>, i: HeapItem)
    requires Settled(g, s, l, {}) && Queued(g, l, heap) && IsGreatest(i, heap) && !l.visited[i.node]
    ensures l.dist[i.node] == Finite(i.dist)
    ensures Sized(g, Visit(l, i.node)) && Settled(g, s, Visit(l, i.node), {i.node})
    ensures Queued(g, Visit(l, i.node), heap - multiset{i})
  {
    var u := i.node;
    GreatestIsNearest(i, heap, HeapItem(l.dist[u].value, u));
    forall v | 0 <= v < g.n && !l.visited[v] && l.dist[v].Finite?
      ensures Precedes(l, u, v)
    {
      GreatestIsNearest(i, heap, HeapItem(l.dist[v].value, v));
    }
    var m := Visit(l, u);
    forall v | 0 <= v < g.n
      ensures Labelled(g, s, m, v)
    {
      assert Labelled(g, s, l, v);
    }
    forall a, b | (a, b) in g.cost && m.visited[a] && a !in {u}
      ensures Relaxed(g, s, m, a, b)
    {
      assert Relaxed(g, s, l, a, b);
    }
    forall a, b | 0 <= a < g.n && 0 <= b < g.n && m.visited[a] && m.dist[b].Finite? && (!m.visited[b] || b in {u})
      ensures Precedes(m, a, b)
    {
      if a != u {
        assert Precedes(l, a, b);
      }
    }
  }

  lemma RelaxKeepsSettled(g: Net, s: nat, l: Labels, u: nat, v: nat)
    requires Settled(g, s, l, {u}) && (u, v) in g.cost && l.visited[u]
    ensures var m := RelaxEdge(l, u, l.dist[u].value, v, g.cost[(u, v)]);
            && Sized(g, m) && Settled(g, s, m, {u}) && Relaxed(g, s, m, u, v)
            && m.dist[u] == l.dist[u]
            && (forall x :: (u, x) in g.cost && Relaxed(g, s, l, u, x) ==> Relaxed(g, s, m, u, x))
  {
    var d, w := l.dist[u].value, g.cost[(u, v)];
    var m := RelaxEdge(l, u, d, v, w);
    if m == l {
      if l.visited[v] {
        assert Precedes(l, v, u);
      } else if v != s {
        assert Labelled(g, s, l, v);
        assert Precedes(l, l.prev[v], u);
      }
    } else {
      assert forall x :: 0 <= x < g.n && l.visited[x] ==> m.dist[x] == l.dist[x];
      forall x | 0 <= x < g.n
        ensures Labelled(g, s, m, x)
      {
        assert Labelled(g, s, l, x);
      }
      forall a, b | (a, b) in g.cost && l.visited[a] && (a != u || Relaxed(g, s, l, a, b))
        ensures Relaxed(g, s, m, a, b)
      {
        assert Relaxed(g, s, l, a, b);
        if b != v && b != s {
          assert Labelled(g, s, l, b);
        }
      }
      forall a, b | 0 <= a < g.n && 0 <= b < g.n && m.visited[a] && m.dist[b].Finite? && (!m.visited[b] || b in {u})
        ensures Precedes(m, a, b)
      {
        assert Precedes(l, a, u);
        if b != v {
          assert Precedes(l, a, b);
        }
      }
    }
  }

  /** Once every edge out of `u` is relaxed, `u` is expanded. */
  lemma ExpandedIsSettled(g: Net, s: nat, l: Labels, u: nat)
    requires Settled(g, s, l, {u}) && forall v :: (u, v) in g.cost ==> Relaxed(g, s, l, u, v)
    ensures Settled(g, s, l, {})
  {
  }

  /** Whether examining (u, v) improves v's label. */
  predicate Improves(l: Labels, d: nat, v: nat, w: nat)
    requires v < |l.dist| && v < |l.visited|
  {
    !l.visited[v] && l.dist[v].Above(d + w)
  }

  lemma RelaxKeepsQueued(g: Net, s: nat, l: Labels, heap: multiset<HeapItem>, u: nat, v: nat)
    requires Settled(g, s, l, {u}) && Queued(g, l, heap) && (u, v) in g.cost && l.visited[u]
    ensures var d, w := l.dist[u].value, g.cost[(u, v)];
            Queued(g, RelaxEdge(l, u, d, v, w),
                   if Improves(l, d, v, w) then heap + multiset{HeapItem(d + w, v)} else heap)
  {
  }

  /** Edges over which something was queued: each at most once. */
  ghost predicate Counted(g: Net, l: Labels, pushed: set<(nat, nat)>)
    requires WellFormed(g) && Sized(g, l)
  {
    forall e :: e in pushed ==>
      && e in g.cost && l.visited[e.0] && l.dist[e.0].Finite? && l.dist[e.1].Finite?
      && l.dist[e.1].value <= l.dist[e.0].value + g.cost[e]
  }

  lemma RelaxKeepsCounted(g: Net, s: nat, l: Labels, pushed: set<(nat, nat)>, u: nat, v: nat)
    requires Settled(g, s, l, {u}) && Counted(g, l, pushed) && (u, v) in g.cost && l.visited[u]
    ensures var d, w := l.dist[u].value, g.cost[(u, v)];
            && Counted(g, RelaxEdge(l, u, d, v, w), if Improves(l, d, v, w) then pushed + {(u, v)} else pushed)
            && (Improves(l, d, v, w) ==> (u, v) !in pushed)
    ensures |pushed| + 1 <= |g.cost| || !Improves(l, l.dist[u].value, v, g.cost[(u, v)])
  {
    if Improves(l, l.dist[u].value, v, g.cost[(u, v)]) {
      SubsetSize(pushed + {(u, v)}, g.cost.Keys);
    }
  }

  // ---------------------------------------------------------------- the whole loop state

  ghost predicate IsVisitedSet(l: Labels, seen: set<nat>) {
    forall v: nat :: v in seen <==> v < |l.visited| && l.visited[v]
  }

  /** Everything true at the head of the search loop. */
  ghost predicate Searching(g: Net, s: nat, l: Labels, heap: multiset<HeapItem>,
                            pushed: set<(nat, nat)>, seen: set<nat>) {
    && Settled(g, s, l, {}) && Queued(g, l, heap) && Counted(g, l, pushed)
    && IsVisitedSet(l, seen) && |seen| <= g.n && |pushed| <= |g.cost|
  }

  /** Everything true while the edges out of `u`, just visited, are being relaxed. */
  ghost predicate Expanding(g: Net, s: nat, l: Labels, u: nat, heap: multiset<HeapItem>,
                            pushed: set<(nat, nat)>, seen: set<nat>) {
    && Settled(g, s, l, {u}) && Queued(g, l, heap) && Counted(g, l, pushed)
    && IsVisitedSet(l, seen) && |seen| <= g.n && |pushed| <= |g.cost|
    && u < g.n && l.visited[u]
  }

  lemma Begin(g: Net, s: nat)
    requires WellFormed(g) && s < g.n
    ensures Sized(g, InitialLabels(g.n, s))
    ensures Searching(g, s, InitialLabels(g.n, s), multiset{HeapItem(0, s)}, {}, {})
  {
    InitialIsSettled(g, s);
  }

  lemma PopIsSafe(g: Net, s: nat, l: Labels, heap: multiset<HeapItem>,
                  pushed: set<(nat, nat)>, seen: set<nat>, i: HeapItem)
    requires Searching(g, s, l, heap, pushed, seen) && i in heap
    ensures i.node < g.n == |l.visited| == |l.dist|
    ensures l.visited[i.node] ==> Searching(g, s, l, heap - multiset{i}, pushed, seen)
  {
  }

  lemma SearchIsSized(g: Net, s: nat, l: Labels)
    requires Settled(g, s, l, {})
    ensures WellFormed(g) && Sized(g, l)
  {
  }

  lemma VisitKeepsCounted(g: Net, s: nat, l: Labels, pushed: set<(nat, nat)>, seen: set<nat>, u: nat)
    requires WellFormed(g) && Sized(g, l) && Counted(g, l, pushed) && IsVisitedSet(l, seen) && u < g.n && !l.visited[u]
    ensures Counted(g, Visit(l, u), pushed) && IsVisitedSet(Visit(l, u), seen + {u})
    ensures |seen + {u}| == |seen| + 1 <= g.n
  {
    SubsetSize(seen + {u}, Below(g.n));
  }

  lemma PopVisits(g: Net, s: nat, l: Labels, heap: multiset<HeapItem>,
                  pushed: set<(nat, nat)>, seen: set<nat>, i: HeapItem)
    requires Searching(g, s, l, heap, pushed, seen) && IsGreatest(i, heap)
    requires i.node < |l.visited| && !l.visited[i.node]
    ensures Sized(g, l) && l.dist[i.node] == Finite(i.dist)
    ensures Expanding(g, s, Visit(l, i.node), i.node, heap - multiset{i}, pushed, seen + {i.node})
    ensures |seen + {i.node}| == |seen| + 1 <= g.n
  {
    hide IsGreatest, Settled, Queued;
    SearchIsSized(g, s, l);
    VisitKeepsSettled(g, s, l, heap, i);
    VisitKeepsCounted(g, s, l, pushed, seen, i.node);
  }

  lemma ExpandingIsSized(g: Net, s: nat, l: Labels, u: nat, heap: multiset<HeapItem>,
                         pushed: set<(nat, nat)>, seen: set<nat>)
    requires Expanding(g, s, l, u, heap, pushed, seen)
    ensures WellFormed(g) && Sized(g, l) && u < g.n && l.visited[u] && l.dist[u].Finite?
  {
  }

  lemma RelaxKeepsVisited(g: Net, l: Labels, u: nat, v: nat, seen: set<nat>)
    requires Sized(g, l) && u < g.n && v < g.n && l.dist[u].Finite? && (u, v) in g.cost && IsVisitedSet(l, seen)
    ensures IsVisitedSet(RelaxEdge(l, u, l.dist[u].value, v, g.cost[(u, v)]), seen)
  {
  }

  lemma RelaxContinues(g: Net, s: nat, l: Labels, u: nat, heap: multiset<HeapItem>,
                       pushed: set<(nat, nat)>, seen: set<nat>, v: nat)
    requires Expanding(g, s, l, u, heap, pushed, seen) && (u, v) in g.cost
    ensures Sized(g, l) && l.dist[u].Finite? && v < g.n
    ensures var d, w := l.dist[u].value, g.cost[(u, v)];
            var m := RelaxEdge(l, u, d, v, w);
            && Sized(g, m) && m.dist[u] == l.dist[u] && Relaxed(g, s, m, u, v)
            && (forall x :: (u, x) in g.cost && Relaxed(g, s, l, u, x) ==> Relaxed(g, s, m, u, x))
            && (if Improves(l, d, v, w)
                then Expanding(g, s, m, u, heap + multiset{HeapItem(d + w, v)}, pushed + {(u, v)}, seen)
                     && (u, v) !in pushed
                else Expanding(g, s, m, u, heap, pushed, seen))
  {
    hide Settled, Queued, Counted, IsVisitedSet, Relaxed;
    ExpandingIsSized(g, s, l, u, heap, pushed, seen);
    RelaxKeepsSettled(g, s, l, u, v);
    RelaxKeepsQueued(g, s, l, heap, u, v);
    RelaxKeepsCounted(g, s, l, pushed, u, v);
    RelaxKeepsVisited(g, l, u, v, seen);
  }

  lemma Expanded(g: Net, s: nat, l: Labels, u: nat, heap: multiset<HeapItem>,
                 pushed: set<(nat, nat)>, seen: set<nat>)
    requires Expanding(g, s, l, u, heap, pushed, seen)
    requires forall v :: (u, v) in g.cost ==> Relaxed(g, s, l, u, v)
    ensures Searching(g, s, l, heap, pushed, seen)
  {
    ExpandedIsSettled(g, s, l, u);
  }

  // ---------------------------------------------------------------- what the invariant means

  /** A walk that outruns the labels already costs more than any visited node. */
  lemma {:induction false} FrontierBound(g: Net, s: nat, l: Labels, open: set<nat>, p: seq<nat>, v: nat)
    requires Settled(g, s, l, open) && v < g.n && l.visited[v] && IsWalk(g, p) && p[0] == s
    ensures Last(p) < g.n
    ensures || l.dist[v].value <= Cost(g, p)
            || (l.dist[Last(p)].Finite? && l.dist[Last(p)].value <= Cost(g, p))
    decreases |p|
  {
    if |p| > 1 {
      var y, x := p[|p| - 2], Last(p);
      FrontierBound(g, s, l, open, Front(p), v);
      assert (y, x) in g.cost;
      if l.dist[y].Finite? && l.dist[y].value <= Cost(g, Front(p)) {
        if l.visited[y] && y !in open {
          assert Relaxed(g, s, l, y, x);
        } else {
          assert Precedes(l, v, y);
        }
      }
    }
  }

  lemma {:induction false} LabelIsWalk(g: Net, s: nat, l: Labels, open: set<nat>, v: nat) returns (p: seq<nat>)
    requires Settled(g, s, l, open) && v < g.n && l.dist[v].Finite?
    ensures Between(g, s, v, p) && Cost(g, p) == l.dist[v].value
    decreases l.dist[v].value
  {
    assert Labelled(g, s, l, v);
    if v == s {
      p := [s];
    } else {
      var q := LabelIsWalk(g, s, l, open, l.prev[v]);
      Extend(g, s, l.prev[v], q, v);
      p := q + [v];
    }
  }

  /** A visited node's label is its least cost. */
  lemma VisitedIsLeast(g: Net, s: nat, l: Labels, open: set<nat>, v: nat)
    requires Settled(g, s, l, open) && v < g.n && l.visited[v]
    ensures Reachable(g, s, v) && l.dist[v] == Finite(Dist(g, s, v))
  {
    var p := LabelIsWalk(g, s, l, open, v);
    DistIsLeast(g, s, v, p);
    var q := OptimalWalk(g, s, v);
    FrontierBound(g, s, l, open, q, v);
  }

  /** A visited node's predecessor is the canonical one. */
  lemma PrevIsBest(g: Net, s: nat, l: Labels, open: set<nat>, v: nat)
    requires Settled(g, s, l, open) && v < g.n && l.visited[v] && v != s
    ensures Reachable(g, s, v) && l.prev[v] == BestPred(g, s, v)
    ensures l.prev[v] < g.n && l.visited[l.prev[v]]
  {
    assert Labelled(g, s, l, v);
    var u := l.prev[v];
    VisitedIsLeast(g, s, l, open, v);
    VisitedIsLeast(g, s, l, open, u);
    forall x: nat | OptPred(g, s, x, v)
      ensures LexLe(Dist(g, s, u), u, Dist(g, s, x), x)
    {
      var q := OptimalWalk(g, s, x);
      FrontierBound(g, s, l, open, q, v);
      assert l.dist[x].Finite? && l.dist[x].value < l.dist[v].value;
      assert l.visited[x] && x !in open by {
        assert !Precedes(l, v, x);
      }
      VisitedIsLeast(g, s, l, open, x);
      assert Relaxed(g, s, l, x, v);
    }
    assert IsBestPred(g, s, u, v);
    BestPredIsUnique(g, s, u, v);
  }

  /** Following `prev` back from the end of `p` yields `p`, stopping at its first node. */
  ghost predicate IsChain(prev: seq<nat>, p: seq<nat>)
    decreases |p|
  {
    && p != [] && Last(p) < |prev|
    && (|p| > 1 ==>
          Last(p) != p[0] && prev[Last(p)] == p[|p| - 2] && prev[Last(p)] != NO_PREV && IsChain(prev, Front(p)))
  }

  lemma {:induction false} CanonicalIsChain(g: Net, s: nat, l: Labels, open: set<nat>, v: nat)
    requires Settled(g, s, l, open) && v < g.n <= NO_PREV && l.visited[v]
    ensures Reachable(g, s, v) && IsChain(l.prev, CanonicalPath(g, s, v))
    decreases l.dist[v].value
  {
    VisitedIsLeast(g, s, l, open, v);
    if v != s {
      assert Labelled(g, s, l, v);
      PrevIsBest(g, s, l, open, v);
      CanonicalIsChain(g, s, l, open, l.prev[v]);
    }
  }

  /** When the queue has run dry, every reachable node has been visited. */
  lemma {:induction false} ExhaustedReachesAll(g: Net, s: nat, l: Labels, p: seq<nat>)
    requires Settled(g, s, l, {}) && Queued(g, l, multiset{}) && IsWalk(g, p) && p[0] == s
    ensures Last(p) < g.n && l.visited[Last(p)]
    decreases |p|
  {
    if |p| > 1 {
      ExhaustedReachesAll(g, s, l, Front(p));
      assert (p[|p| - 2], Last(p)) in g.cost;
      assert Relaxed(g, s, l, p[|p| - 2], Last(p));
    }
  }

  /** The answer for `t` read off a search that stopped at `t` or ran dry. */
  lemma SearchAnswers(g: Net, s: nat, l: Labels, open: set<nat>, t: nat)
    requires Settled(g, s, l, open) && t < g.n <= NO_PREV
    requires l.visited[t] || (open == {} && Queued(g, l, multiset{}))
    ensures l.visited[t] <==> Reachable(g, s, t)
    ensures l.visited[t] ==> IsChain(l.prev, CanonicalPath(g, s, t))
    ensures FindRoute(g, s, t) == if l.visited[t] then Some(CanonicalPath(g, s, t)) else None
  {
    if l.visited[t] {
      CanonicalIsChain(g, s, l, open, t);
    } else if Reachable(g, s, t) {
      var p := OptimalWalk(g, s, t);
      ExhaustedReachesAll(g, s, l, p);
      assert false;
    }
  }

  /** A state in which the search may stop, as far as target `t` is concerned. */
  ghost predicate Stopped(g: Net, s: nat, l: Labels, t: nat) {
    exists open: set<nat> ::
      Settled(g, s, l, open) && t < g.n && (l.visited[t] || (open == {} && Queued(g, l, multiset{})))
  }

  lemma StopAtVisited(g: Net, s: nat, l: Labels, u: nat, heap: multiset<HeapItem>,
                      pushed: set<(nat, nat)>, seen: set<nat>, t: nat)
    requires Expanding(g, s, l, u, heap, pushed, seen) && t < g.n && t < |l.visited| && l.visited[t]
    ensures Stopped(g, s, l, t)
  {
  }

  lemma StopWhenDry(g: Net, s: nat, l: Labels, pushed: set<(nat, nat)>, seen: set<nat>, t: nat)
    requires Searching(g, s, l, multiset{}, pushed, seen) && t < g.n
    ensures Stopped(g, s, l, t)
  {
  }

  /** Every target is still wanted or already visited. */
  ghost predicate Wanted(visited: seq<bool>, want: set<nat>, ts: seq<nat>) {
    forall t :: t in ts ==> t < |visited| && (t in want || visited[t])
  }

  lemma WantedInitially(visited: seq<bool>, ts: seq<nat>)
    requires forall t :: t in ts ==> t < |visited|
    ensures Wanted(visited, Nodes(ts), ts)
  {
  }

  lemma WantedVisit(l: Labels, want: set<nat>, ts: seq<nat>, u: nat)
    requires u < |l.visited| && Wanted(l.visited, want, ts)
    ensures Wanted(Visit(l, u).visited, want - {u}, ts)
    ensures u !in want ==> Wanted(Visit(l, u).visited, want, ts)
  {
    assert u !in want ==> want - {u} == want;
  }

  ghost predicate AllStopped(g: Net, s: nat, l: Labels, ts: seq<nat>) {
    forall t :: t in ts ==> Stopped(g, s, l, t)
  }

  lemma AllVisitedStops(g: Net, s: nat, l: Labels, u: nat, heap: multiset<HeapItem>,
                        pushed: set<(nat, nat)>, seen: set<nat>, ts: seq<nat>)
    requires Expanding(g, s, l, u, heap, pushed, seen) && Wanted(l.visited, {}, ts)
    ensures AllStopped(g, s, l, ts)
  {
  }

  lemma AllStopWhenDry(g: Net, s: nat, l: Labels, pushed: set<(nat, nat)>, seen: set<nat>, want: set<nat>, ts: seq<nat>)
    requires Searching(g, s, l, multiset{}, pushed, seen) && Wanted(l.visited, want, ts)
    ensures AllStopped(g, s, l, ts)
  {
  }

  lemma StoppedAnswers(g: Net, s: nat, l: Labels, t: nat)
    requires Stopped(g, s, l, t) && g.n <= NO_PREV
    ensures WellFormed(g) && t < |l.visited|
    ensures l.visited[t] <==> Reachable(g, s, t)
    ensures l.visited[t] ==> IsChain(l.prev, CanonicalPath(g, s, t))
    ensures FindRoute(g, s, t) == if l.visited[t] then Some(CanonicalPath(g, s, t)) else None
  {
    var open: set<nat> :|
      Settled(g, s, l, open) && t < g.n && (l.visited[t] || (open == {} && Queued(g, l, multiset{})));
    SearchAnswers(g, s, l, open, t);
  }
}
