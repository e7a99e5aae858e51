/**
 * The routing core, src/routing.rs: the per-request overlay over the gate graph
 * and the Dijkstra searches with reusable scratch.
 */
module Routing {
  import opened Wrappers
  import opened Walks
  import opened Search
  import opened Model

  /** Added to the weight of entering a non-highsec system under Safest. */
  const SECURITY_PENALTY: nat := 10000

  /** Added to the weight of an overlay hop under PreferGates. */
  const WORMHOLE_PENALTY: nat := 2

  datatype EdgeKind = WormholeEdge | BridgeEdge

  datatype Preference = Shortest | Safest | PreferGates

  datatype Via = Start | Stargate | ViaWormhole | ViaBridge

  function ViaLabel(k: EdgeKind): Via {
    match k
    case WormholeEdge => ViaWormhole
    case BridgeEdge => ViaBridge
  }

  /** A gate outranks an overlay edge; the last case does not arise on a path. */
  function StepLabel(hasGate: bool, kind: Option<EdgeKind>): Via {
    if hasGate then Stargate else if kind.Some? then ViaLabel(kind.value) else Stargate
  }

  function SecurityPenalty(pref: Preference, dest: SecClass): nat {
    if pref.Safest? && dest != Highsec then SECURITY_PENALTY else 0
  }

  function WormholePenalty(pref: Preference, isOverlay: bool, hasGate: bool): nat {
    if pref.PreferGates? && isOverlay && !hasGate then WORMHOLE_PENALTY else 0
  }

  // ---------------------------------------------------------------- the abstract overlay

  /** What a connection list says about ordered pairs of nodes. */
  type Overlay = map<(nat, nat), EdgeKind>

  function KindAt(o: Overlay, a: nat, b: nat): Option<EdgeKind> {
    if (a, b) in o then Some(o[(a, b)]) else None
  }

  /** One connection request. */
  datatype Link = Link(a: nat, b: nat, kind: EdgeKind)

  ghost predicate Joins(l: Link, a: nat, b: nat) {
    a != b && ((l.a == a && l.b == b) || (l.a == b && l.b == a))
  }

  function Joined(o: Overlay, l: Link): Overlay {
    if l.a == l.b || (l.a, l.b) in o then o else o[(l.a, l.b) := l.kind][(l.b, l.a) := l.kind]
  }

  function JoinAll(o: Overlay, links: seq<Link>): Overlay
    decreases |links|
  {
    if links == [] then o else Joined(JoinAll(o, links[..|links| - 1]), links[|links| - 1])
  }

  /** The kind of the first connection made for a pair. */
  ghost function FirstKind(links: seq<Link>, a: nat, b: nat): Option<EdgeKind>
    decreases |links|
  {
    if links == [] then None
    else
      var l := links[|links| - 1];
      var before := FirstKind(links[..|links| - 1], a, b);
      if before.Some? then before else if Joins(l, a, b) then Some(l.kind) else None
  }

  lemma {:induction false} OverlayAt(links: seq<Link>, a: nat, b: nat)
    ensures KindAt(JoinAll(map[], links), a, b) == FirstKind(links, a, b) == FirstKind(links, b, a)
    decreases |links|
  {
    if links != [] {
      var front, l := links[..|links| - 1], links[|links| - 1];
      OverlayAt(front, a, b);
      OverlayAt(front, l.a, l.b);
      if Joins(l, a, b) {
        assert FirstKind(front, l.a, l.b) == FirstKind(front, a, b);
      }
    }
  }

  lemma {:induction false} FirstKindIsFirst(links: seq<Link>, a: nat, b: nat)
    ensures FirstKind(links, a, b).Some? <==> exists i :: 0 <= i < |links| && Joins(links[i], a, b)
    ensures forall i :: 0 <= i < |links| && Joins(links[i], a, b) ==>
              (exists j :: 0 <= j < i && Joins(links[j], a, b)) || FirstKind(links, a, b) == Some(links[i].kind)
    decreases |links|
  {
    if links != [] {
      var m := |links| - 1;
      var front := links[..m];
      FirstKindIsFirst(front, a, b);
      assert forall i :: 0 <= i < m ==> front[i] == links[i];
      if i :| 0 <= i < |links| && Joins(links[i], a, b) {
        assert i < m ==> Joins(front[i], a, b);
      }
    }
  }

  /**
   * Connections made one after another from an empty overlay: a pair is joined
   * iff some connection joins it, in both directions and never a system to
   * itself, and it keeps the kind of the first that did.
   */
  lemma OverlayKeepsFirstKind(links: seq<Link>, a: nat, b: nat)
    ensures var o := JoinAll(map[], links);
            && KindAt(o, a, b) == KindAt(o, b, a) && ((a, a) !in o)
            && ((a, b) in o <==> exists i :: 0 <= i < |links| && Joins(links[i], a, b))
            && forall i :: 0 <= i < |links| && Joins(links[i], a, b) ==>
                 (exists j :: 0 <= j < i && Joins(links[j], a, b)) || KindAt(o, a, b) == Some(links[i].kind)
  {
    OverlayAt(links, a, b);
    OverlayAt(links, b, a);
    OverlayAt(links, a, a);
    FirstKindIsFirst(links, a, b);
    FirstKindIsFirst(links, a, a);
  }

  lemma OverlayIsSymmetric(links: seq<Link>)
    ensures Symmetric(JoinAll(map[], links))
  {
    forall a: nat, b: nat {
      OverlayKeepsFirstKind(links, a, b);
    }
  }

  lemma {:induction false} JoinAllConcat(o: Overlay, xs: seq<Link>, ys: seq<Link>)
    ensures JoinAll(o, xs + ys) == JoinAll(JoinAll(o, xs), ys)
    decreases |ys|
  {
    if ys == [] {
      assert xs + ys == xs;
    } else {
      JoinAllConcat(o, xs, ys[..|ys| - 1]);
      assert (xs + ys)[..|xs + ys| - 1] == xs + ys[..|ys| - 1];
    }
  }

  lemma JoinOneMore(o: Overlay, xs: seq<Link>, l: Link)
    ensures JoinAll(o, xs + [l]) == Joined(JoinAll(o, xs), l)
  {
    assert (xs + [l])[..|xs + [l]| - 1] == xs;
  }

  ghost predicate Symmetric(o: Overlay) {
    forall a: nat, b: nat :: KindAt(o, a, b) == KindAt(o, b, a) && (a == b ==> (a, b) !in o)
  }

  /** A request's routing problem as a value. */
  datatype Ctx = Ctx(graph: GraphData, avoid: set<nat>, overlay: Overlay, preference: Preference) {
    ghost predicate InBounds() {
      && graph.Valid()
      && forall e :: e in overlay ==> e.0 < |graph.systems| && e.1 < |graph.systems|
    }

    ghost predicate Adjacent(a: nat, b: nat) {
      graph.HasGate(a, b) || (a, b) in overlay
    }

    /** A step into an avoided node is not taken; starting from one is. */
    ghost predicate Steps(a: nat, b: nat) {
      Adjacent(a, b) && b !in avoid
    }

    function Via(a: nat, b: nat): Via {
      StepLabel(graph.HasGate(a, b), KindAt(overlay, a, b))
    }

    function Weight(a: nat, b: nat): nat
      requires b < |graph.systems|
    {
      1 + SecurityPenalty(preference, graph.systems[b].secClass)
        + WormholePenalty(preference, (a, b) in overlay, graph.HasGate(a, b))
    }
  }

  function Pairs(n: nat): (r: set<(nat, nat)>)
    ensures forall e: (nat, nat) :: e in r <==> e.0 < n && e.1 < n
  {
    set a, b | a in Below(n) && b in Below(n) :: (a, b)
  }

  /** The weighted directed graph a request is routed over. */
  ghost function Network(c: Ctx): (g: Net)
    ensures WellFormed(g) && g.n == |c.graph.systems|
    ensures forall e: (nat, nat) :: e in g.cost <==> e.0 < g.n && e.1 < g.n && c.Steps(e.0, e.1)
    ensures forall e :: e in g.cost ==> g.cost[e] == c.Weight(e.0, e.1)
  {
    var n := |c.graph.systems|;
    Net(n, map e | e in Pairs(n) && c.Steps(e.0, e.1) :: c.Weight(e.0, e.1))
  }

  // ---------------------------------------------------------------- mirrored adjacency lists

  type Lists = map<nat, seq<(nat, EdgeKind)>>

  function Lookup(es: seq<(nat, EdgeKind)>, b: nat): Option<EdgeKind> {
    if es == [] then None else if es[0].0 == b then Some(es[0].1) else Lookup(es[1..], b)
  }

  function Entry(ls: Lists, a: nat, b: nat): Option<EdgeKind> {
    if a in ls then Lookup(ls[a], b) else None
  }

  lemma {:induction false} LookupPush(es: seq<(nat, EdgeKind)>, e: (nat, EdgeKind), b: nat)
    ensures Lookup(es + [e], b) ==
            if Lookup(es, b).Some? then Lookup(es, b) else if e.0 == b then Some(e.1) else None
  {
    if es != [] {
      assert (es + [e])[1..] == es[1..] + [e];
      LookupPush(es[1..], e, b);
    }
  }

  lemma {:induction false} LookupFinds(es: seq<(nat, EdgeKind)>, b: nat)
    ensures Lookup(es, b).Some? <==> exists k :: 0 <= k < |es| && es[k].0 == b
  {
    if es != [] {
      LookupFinds(es[1..], b);
      if k :| 0 <= k < |es| && es[k].0 == b {
        if k > 0 {
          assert es[1..][k - 1].0 == b;
        }
      }
    }
  }

  ghost predicate EachPeerOnce(ls: Lists) {
    forall a, i, j :: a in ls && 0 <= i < j < |ls[a]| ==> ls[a][i].0 != ls[a][j].0
  }

  /** The lists say exactly what the overlay says. */
  ghost predicate Mirrors(ls: Lists, o: Overlay) {
    forall a, b :: Entry(ls, a, b) == KindAt(o, a, b)
  }

  function PushHalf(ls: Lists, a: nat, b: nat, kind: EdgeKind): Lists {
    var es := if a in ls then ls[a] else [];
    ls[a := if Lookup(es, b).None? then es + [(b, kind)] else es]
  }

  lemma PushHalfEntry(ls: Lists, a: nat, b: nat, kind: EdgeKind)
    requires EachPeerOnce(ls)
    ensures EachPeerOnce(PushHalf(ls, a, b, kind))
    ensures forall x, y :: Entry(PushHalf(ls, a, b, kind), x, y) ==
                           if x == a && y == b && Entry(ls, a, b).None? then Some(kind) else Entry(ls, x, y)
  {
    var es := if a in ls then ls[a] else [];
    LookupFinds(es, b);
    forall y {
      LookupPush(es, (b, kind), y);
    }
  }

  /** Per-request routing context, with the overlay as mirrored adjacency lists. */
  class RouteContext {
    const graph: GraphData
    const avoid: set<nat>
    const preference: Preference
    var connections: Lists
    ghost var overlay: Overlay

    ghost predicate Valid()
      reads this
    {
      Mirrors(connections, overlay) && Symmetric(overlay) && EachPeerOnce(connections)
    }

    ghost function View(): Ctx
      reads this
    {
      Ctx(graph, avoid, overlay, preference)
    }

    constructor (graph: GraphData, avoid: set<nat>, preference: Preference)
      ensures Valid() && View() == Ctx(graph, avoid, map[], preference)
    {
      this.graph, this.avoid, this.preference := graph, avoid, preference;
      connections, overlay := map[], map[];
    }

    /** Both directions at once; a self-loop or a pair already joined is ignored. */
    method AddConnection(a: nat, b: nat, kind: EdgeKind)
      requires Valid()
      modifies this
      ensures Valid() && View() == old(View()).(overlay := Joined(old(overlay), Link(a, b, kind)))
    {
      if a == b {
        return;
      }
      PushHalfEntry(connections, a, b, kind);
      PushHalfEntry(PushHalf(connections, a, b, kind), b, a, kind);
      ghost var before := overlay;
      assert Entry(connections, a, b) == KindAt(overlay, a, b) == KindAt(overlay, b, a) == Entry(connections, b, a);
      connections := PushHalf(connections, a, b, kind);
      connections := PushHalf(connections, b, a, kind);
      overlay := Joined(overlay, Link(a, b, kind));
      assert forall x, y :: KindAt(overlay, x, y) ==
                            if KindAt(before, a, b).None? && ((x == a && y == b) || (x == b && y == a))
                            then Some(kind) else KindAt(before, x, y);
    }

    function OverlayEdgeKind(a: nat, b: nat): (r: Option<EdgeKind>)
      requires Valid()
      reads this
      ensures r == KindAt(overlay, a, b)
    {
      Entry(connections, a, b)
    }

    function EdgeWeight(src: nat, dest: nat): (r: nat)
      requires Valid() && dest < |graph.systems|
      reads this
      ensures r == View().Weight(src, dest)
    {
      1 + SecurityPenalty(preference, graph.systems[dest].secClass)
        + WormholePenalty(preference, OverlayEdgeKind(src, dest).Some?, graph.HasGate(src, dest))
    }

    lemma ListedAreSteps(node: nat, es: seq<(nat, EdgeKind)>, b: nat)
      requires Valid() && View().InBounds() && node < |graph.systems|
      requires es == if node in connections then connections[node] else []
      ensures (node, b) in Network(View()).cost <==>
              b !in avoid && (graph.HasGate(node, b) || exists j :: 0 <= j < |es| && es[j].0 == b)
    {
      hide CatalogValid, Lower;
      LookupFinds(es, b);
      assert Entry(connections, node, b) == KindAt(overlay, node, b);
      assert graph.HasGate(node, b) ==> b < |graph.systems|;
    }

    /** Gate neighbours, then overlay neighbours, without the avoided. Only the set of them is promised. */
    method Neighbors(node: nat) returns (nbs: seq<nat>)
      requires Valid() && View().InBounds() && node < |graph.systems|
      ensures forall b :: b in nbs <==> (node, b) in Network(View()).cost
    {
      hide Network, Valid, Ctx.InBounds;
      nbs := [];
      for k := 0 to |graph.edges|
        invariant forall b :: b in nbs <==>
                              b !in avoid && ((node, b) in graph.edges[..k] || (b, node) in graph.edges[..k])
      {
        var e := graph.edges[k];
        assert graph.edges[..k + 1] == graph.edges[..k] + [e];
        var nb := if e.0 == node then e.1 else e.0;
        if (e.0 == node || e.1 == node) && nb !in avoid {
          nbs := nbs + [nb];
        }
      }
      assert graph.edges[..|graph.edges|] == graph.edges;
      var es := if node in connections then connections[node] else [];
      for k := 0 to |es|
        invariant forall b :: b in nbs <==>
                              b !in avoid && (graph.HasGate(node, b) || exists j :: 0 <= j < k && es[j].0 == b)
      {
        if es[k].0 !in avoid {
          nbs := nbs + [es[k].0];
        }
      }
      forall b: nat
        ensures b in nbs <==> (node, b) in Network(View()).cost
      {
        ListedAreSteps(node, es, b);
      }
    }
  }

  // ---------------------------------------------------------------- the searches

  /** Reusable labels; whatever an earlier search left in them is cleared by `Reset`. */
  class DijkstraScratch {
    var dist: seq<Distance>
    var prev: seq<nat>
    var visited: seq<bool>
    ghost var pushes: nat      // items queued since the last reset
    ghost var expansions: nat  // nodes visited since the last reset

    ghost function View(): Labels
      reads this
    {
      Labels(dist, prev, visited)
    }

    constructor ()
      ensures View() == Labels([], [], [])
    {
      dist, prev, visited := [], [], [];
      pushes, expansions := 0, 0;
    }

    method Reset(n: nat)
      modifies this
      ensures View() == Labels(seq(n, _ => Infinity), seq(n, _ => NO_PREV), seq(n, _ => false))
      ensures pushes == 0 && expansions == 0
    {
      pushes, expansions := 0, 0;
      dist := seq(n, _ => Infinity);
      prev := seq(n, _ => NO_PREV);
      visited := seq(n, _ => false);
    }

    /** Queue an item, counting it. */
    method Push(heap: multiset<HeapItem>, item: HeapItem) returns (more: multiset<HeapItem>)
      modifies this`pushes
      ensures more == heap + multiset{item} && pushes == old(pushes) + 1
    {
      more := heap + multiset{item};
      pushes := pushes + 1;
    }

    /** Visit a node for the first time, counting it. */
    method MarkVisited(u: nat)
      requires u < |visited| && !visited[u]
      modifies this`visited, this`expansions
      ensures View() == Visit(old(View()), u) && expansions == old(expansions) + 1
    {
      visited := visited[u := true];
      expansions := expansions + 1;
    }
  }

  lemma CmpReflexive(a: HeapItem)
    ensures Cmp(a, a) != Less
  {
  }

  lemma CmpTransitive(a: HeapItem, b: HeapItem, c: HeapItem)
    requires Cmp(a, b) == Less && Cmp(a, c) != Less
    ensures Cmp(b, c) != Less
  {
  }

  /** The priority queue's pop: a greatest item under `Cmp`. */
  method PopGreatest(heap: multiset<HeapItem>) returns (i: HeapItem, rest: multiset<HeapItem>)
    requires heap != multiset{}
    ensures i in heap && IsGreatest(i, heap) && rest == heap - multiset{i}
  {
    hide Cmp;
    i :| i in heap;
    CmpReflexive(i);
    var todo := heap - multiset{i};
    while todo != multiset{}
      invariant todo <= heap && i in heap
      invariant forall j :: j in heap ==> j in todo || Cmp(i, j) != Less
      decreases |todo|
    {
      var j :| j in todo;
      if Cmp(i, j) == Less {
        CmpReflexive(j);
        forall k | k in heap && Cmp(i, k) != Less ensures Cmp(j, k) != Less {
          CmpTransitive(i, j, k);
        }
        i := j;
      }
      todo := todo - multiset{j};
    }
    rest := heap - multiset{i};
  }

  /** Walk the predecessors back from `to`, then reverse. */
  method ReconstructPath(prev: seq<nat>, from: nat, to: nat, ghost chain: seq<nat>) returns (path: seq<nat>)
    requires IsChain(prev, chain) && chain[0] == from && Last(chain) == to
    ensures path == chain
  {
    var rev := [to];
    var cur := to;
    ghost var left := chain;
    while cur != from
      invariant left != [] && IsChain(prev, left) && left[0] == from && Last(left) == cur
      invariant left == chain[..|left|] && |left| + |rev| == |chain| + 1
      invariant forall k :: 0 <= k < |rev| ==> rev[k] == chain[|chain| - 1 - k]
      decreases |left|
    {
      var p := prev[cur];
      assert p != NO_PREV;
      rev := rev + [p];
      cur := p;
      left := Front(left);
    }
    assert |left| == 1;
    path := seq(|rev|, k requires 0 <= k < |rev| => rev[|rev| - 1 - k]);
  }

  /** Examine one neighbour: label and queue it if this route to it is shorter. */
  method RelaxNeighbor(ctx: RouteContext, cur: nat, dist: nat, nb: nat, scratch: DijkstraScratch, heap0: multiset<HeapItem>)
    returns (heap: multiset<HeapItem>)
    requires ctx.Valid() && nb < |ctx.graph.systems|
    requires nb < |scratch.dist| == |scratch.prev| == |scratch.visited|
    modifies scratch`dist, scratch`prev, scratch`pushes
    ensures var w := ctx.View().Weight(cur, nb);
            && scratch.View() == RelaxEdge(old(scratch.View()), cur, dist, nb, w)
            && heap == if Improves(old(scratch.View()), dist, nb, w)
                       then heap0 + multiset{HeapItem(dist + w, nb)} else heap0
    ensures scratch.pushes == old(scratch.pushes) + if Improves(old(scratch.View()), dist, nb, ctx.View().Weight(cur, nb)) then 1 else 0
  {
    heap := heap0;
    if !scratch.visited[nb] {
      var newDist := dist + ctx.EdgeWeight(cur, nb);
      if scratch.dist[nb].Above(newDist) {
        scratch.dist := scratch.dist[nb := Finite(newDist)];
        scratch.prev := scratch.prev[nb := cur];
        heap := scratch.Push(heap, HeapItem(newDist, nb));
      }
    }
  }

  /** The same step, with what it keeps of the search state. */
  method RelaxStep(ctx: RouteContext, cur: nat, dist: nat, nb: nat, scratch: DijkstraScratch,
                   heap0: multiset<HeapItem>, ghost from: nat, ghost pushed0: set<(nat, nat)>, ghost seen: set<nat>)
    returns (heap: multiset<HeapItem>, ghost pushed: set<(nat, nat)>)
    requires ctx.Valid() && cur < |scratch.dist| && scratch.dist[cur] == Finite(dist)
    requires (cur, nb) in Network(ctx.View()).cost
    requires Expanding(Network(ctx.View()), from, scratch.View(), cur, heap0, pushed0, seen)
    modifies scratch`dist, scratch`prev, scratch`pushes
    ensures var g := Network(ctx.View());
            && Sized(g, scratch.View()) && cur < g.n && scratch.dist[cur] == Finite(dist)
            && Expanding(g, from, scratch.View(), cur, heap, pushed, seen)
            && Relaxed(g, from, scratch.View(), cur, nb)
            && (forall x :: (cur, x) in g.cost && old(Sized(g, scratch.View()) && Relaxed(g, from, scratch.View(), cur, x))
                            ==> Relaxed(g, from, scratch.View(), cur, x))
    ensures scratch.pushes - old(scratch.pushes) == |pushed| - |pushed0|
  {
    hide Network, Expanding, Relaxed, RouteContext.Valid, Ctx.Weight, Ctx.Steps;
    ghost var g, w := Network(ctx.View()), Network(ctx.View()).cost[(cur, nb)];
    RelaxContinues(g, from, scratch.View(), cur, heap0, pushed0, seen, nb);
    pushed := if Improves(scratch.View(), dist, nb, w) then pushed0 + {(cur, nb)} else pushed0;
    heap := RelaxNeighbor(ctx, cur, dist, nb, scratch, heap0);
  }

  /** Relax every edge out of a node just visited, queueing each improved neighbour. */
  method ExpandNode(ctx: RouteContext, node: nat, dist: nat, scratch: DijkstraScratch,
                    heap0: multiset<HeapItem>, ghost from: nat, ghost pushed0: set<(nat, nat)>, ghost seen: set<nat>)
    returns (heap: multiset<HeapItem>, ghost pushed: set<(nat, nat)>)
    requires ctx.Valid() && ctx.View().InBounds() && node < |ctx.graph.systems|
    requires Sized(Network(ctx.View()), scratch.View()) && scratch.dist[node] == Finite(dist)
    requires Expanding(Network(ctx.View()), from, scratch.View(), node, heap0, pushed0, seen)
    modifies scratch`dist, scratch`prev, scratch`pushes
    ensures Sized(Network(ctx.View()), scratch.View())
    ensures Searching(Network(ctx.View()), from, scratch.View(), heap, pushed, seen)
    ensures scratch.pushes - old(scratch.pushes) == |pushed| - |pushed0|
  {
    hide Network, Expanding, Searching, Relaxed, RouteContext.Valid, Ctx.InBounds, Ctx.Weight, Ctx.Steps;
    ghost var g := Network(ctx.View());
    heap, pushed := heap0, pushed0;
    var nbs := ctx.Neighbors(node);
    for k := 0 to |nbs|
      invariant Sized(g, scratch.View()) && scratch.dist[node] == Finite(dist)
      invariant Expanding(g, from, scratch.View(), node, heap, pushed, seen)
      invariant forall j :: 0 <= j < k ==> Relaxed(g, from, scratch.View(), node, nbs[j])
      invariant scratch.pushes - old(scratch.pushes) == |pushed| - |pushed0|
    {
      heap, pushed := RelaxStep(ctx, node, dist, nbs[k], scratch, heap, from, pushed, seen);
    }
    Expanded(g, from, scratch.View(), node, heap, pushed, seen);
  }

  /** At most one push per directed edge and one for the source; each node expanded at most once. */
  ghost predicate WorkBound(g: Net, scratch: DijkstraScratch)
    reads scratch
  {
    scratch.pushes <= 1 + |g.cost| && scratch.expansions <= g.n
  }

  lemma SearchBounds(g: Net, s: nat, l: Labels, heap: multiset<HeapItem>, pushed: set<(nat, nat)>, seen: set<nat>)
    requires Searching(g, s, l, heap, pushed, seen)
    ensures |seen| <= g.n && |pushed| <= |g.cost|
  {
  }

  /** Clear the scratch and queue the source at distance 0. */
  method StartSearch(ctx: RouteContext, from: nat, scratch: DijkstraScratch) returns (heap: multiset<HeapItem>)
    requires from < |ctx.graph.systems|
    modifies scratch
    ensures Sized(Network(ctx.View()), scratch.View())
    ensures Searching(Network(ctx.View()), from, scratch.View(), heap, {}, {})
    ensures forall v :: 0 <= v < |scratch.visited| ==> !scratch.visited[v]
    ensures scratch.pushes == 1 && scratch.expansions == 0
  {
    hide Network, Searching;
    var n := |ctx.graph.systems|;
    scratch.Reset(n);
    scratch.dist := scratch.dist[from := Finite(0)];
    heap := scratch.Push(multiset{}, HeapItem(0, from));
    assert heap == multiset{HeapItem(0, from)};
    Begin(Network(ctx.View()), from);
    assert scratch.View() == InitialLabels(n, from);
  }

  /** Dijkstra to one target: exactly the canonical route of the request's network. */
  method ShortestPath(ctx: RouteContext, from: nat, to: nat, scratch: DijkstraScratch)
    returns (path: Option<seq<nat>>)
    requires ctx.Valid() && ctx.View().InBounds()
    requires from < |ctx.graph.systems| && to < |ctx.graph.systems|
    modifies scratch
    ensures path == FindRoute(Network(ctx.View()), from, to)
    ensures WorkBound(Network(ctx.View()), scratch)
  {
    hide Network, Expanding, Searching, Stopped, IsGreatest, IsChain, FindRoute, CanonicalPath, RouteContext.Valid;
    ghost var g := Network(ctx.View());
    var heap := StartSearch(ctx, from, scratch);
    ghost var pushed: set<(nat, nat)>, seen: set<nat> := {}, {};
    while heap != multiset{}
      invariant Sized(g, scratch.View()) && Searching(g, from, scratch.View(), heap, pushed, seen)
      invariant scratch.pushes == 1 + |pushed| && scratch.expansions == |seen|
      invariant !scratch.visited[to]
      decreases g.n - |seen|, |heap|
    {
      SearchBounds(g, from, scratch.View(), heap, pushed, seen);
      var item, rest := PopGreatest(heap);
      PopIsSafe(g, from, scratch.View(), heap, pushed, seen, item);
      ghost var before, unvisited := heap, scratch.View();
      heap := rest;
      if scratch.visited[item.node] {
        continue;
      }
      PopVisits(g, from, unvisited, before, pushed, seen, item);
      scratch.MarkVisited(item.node);
      seen := seen + {item.node};
      if item.node == to {
        StopAtVisited(g, from, scratch.View(), to, heap, pushed, seen, to);
        StoppedAnswers(g, from, scratch.View(), to);
        var p := ReconstructPath(scratch.prev, from, to, CanonicalPath(g, from, to));
        return Some(p);
      }
      if scratch.dist[item.node].Under(item.dist) {
        assert false; // a stale entry is never the first to reach its node
      }
      heap, pushed := ExpandNode(ctx, item.node, item.dist, scratch, heap, from, pushed, seen);
    }
    SearchBounds(g, from, scratch.View(), heap, pushed, seen);
    StopWhenDry(g, from, scratch.View(), pushed, seen, to);
    StoppedAnswers(g, from, scratch.View(), to);
    return None;
  }

  datatype SettledTarget = SettledTarget(node: nat, jumps: nat, path: seq<nat>)

  /** The entry a reachable target gets. */
  ghost function SettledFor(g: Net, s: nat, t: nat): SettledTarget
    requires WellFormed(g) && Reachable(g, s, t)
  {
    SettledTarget(t, |CanonicalPath(g, s, t)| - 1, CanonicalPath(g, s, t))
  }

  /** One entry per reachable target, in the order of `ts`, repeats included. */
  ghost function SettledTargets(g: Net, s: nat, ts: seq<nat>): seq<SettledTarget>
    requires WellFormed(g)
    decreases |ts|
  {
    if ts == [] then []
    else SettledTargets(g, s, Front(ts)) + if Reachable(g, s, Last(ts)) then [SettledFor(g, s, Last(ts))] else []
  }

  /** Reconstruct the path of every target the search settled. */
  method CollectSettled(ghost g: Net, from: nat, targets: seq<nat>, scratch: DijkstraScratch)
    returns (settled: seq<SettledTarget>)
    requires WellFormed(g) && g.n <= NO_PREV
    requires AllStopped(g, from, scratch.View(), targets)
    ensures settled == SettledTargets(g, from, targets)
  {
    hide Stopped, IsChain, CanonicalPath;
    settled := [];
    for k := 0 to |targets|
      invariant settled == SettledTargets(g, from, targets[..k])
    {
      var t := targets[k];
      assert Front(targets[..k + 1]) == targets[..k];
      StoppedAnswers(g, from, scratch.View(), t);
      if scratch.visited[t] {
        var p := ReconstructPath(scratch.prev, from, t, CanonicalPath(g, from, t));
        settled := settled + [SettledTarget(t, |p| - 1, p)];
      }
    }
    assert targets[..|targets|] == targets;
  }

  /** The multi-target answer has an entry for a target exactly when a single search finds it, and the same one. */
  lemma {:induction false} MultiRefinesSingle(g: Net, s: nat, ts: seq<nat>)
    requires WellFormed(g)
    ensures forall t :: t in ts ==>
              (FindRoute(g, s, t).Some? <==> exists e :: e in SettledTargets(g, s, ts) && e.node == t)
    ensures forall e :: e in SettledTargets(g, s, ts) ==>
              && e.node in ts && FindRoute(g, s, e.node) == Some(e.path)
              && e.path != [] && e.jumps == |e.path| - 1
    decreases |ts|
  {
    if ts != [] {
      MultiRefinesSingle(g, s, Front(ts));
      var t := Last(ts);
      assert ts == Front(ts) + [t];
      if Reachable(g, s, t) {
        assert SettledFor(g, s, t) in SettledTargets(g, s, ts);
      }
      forall x | x in ts
        ensures FindRoute(g, s, x).Some? <==> exists e :: e in SettledTargets(g, s, ts) && e.node == x
      {
        if x in Front(ts) && Reachable(g, s, x) {
          var e :| e in SettledTargets(g, s, Front(ts)) && e.node == x;
          assert e in SettledTargets(g, s, ts);
        }
      }
    }
  }

  /** Dijkstra to many targets in one expansion, stopping when the last is settled. */
  method ShortestPathMulti(ctx: RouteContext, from: nat, targets: seq<nat>, scratch: DijkstraScratch)
    returns (settled: seq<SettledTarget>)
    requires ctx.Valid() && ctx.View().InBounds()
    requires from < |ctx.graph.systems| && forall t :: t in targets ==> t < |ctx.graph.systems|
    modifies scratch
    ensures settled == SettledTargets(Network(ctx.View()), from, targets)
    ensures WorkBound(Network(ctx.View()), scratch)
  {
    hide Network, Expanding, Searching, Wanted, AllStopped, IsGreatest, RouteContext.Valid, Ctx.Steps, Ctx.Weight;
    ghost var g := Network(ctx.View());
    var want := Nodes(targets);
    var remaining := |want|;
    var heap := StartSearch(ctx, from, scratch);
    WantedInitially(scratch.visited, targets);
    ghost var pushed: set<(nat, nat)>, seen: set<nat>, early := {}, {}, false;
    while heap != multiset{}
      invariant Sized(g, scratch.View()) && Searching(g, from, scratch.View(), heap, pushed, seen)
      invariant scratch.pushes == 1 + |pushed| && scratch.expansions == |seen|
      invariant remaining == |want| && Wanted(scratch.visited, want, targets)
      invariant !early
      decreases g.n - |seen|, |heap|
    {
      SearchBounds(g, from, scratch.View(), heap, pushed, seen);
      var item, rest := PopGreatest(heap);
      PopIsSafe(g, from, scratch.View(), heap, pushed, seen, item);
      ghost var before, unvisited := heap, scratch.View();
      heap := rest;
      if scratch.visited[item.node] {
        continue;
      }
      PopVisits(g, from, unvisited, before, pushed, seen, item);
      scratch.MarkVisited(item.node);
      WantedVisit(unvisited, want, targets, item.node);
      seen := seen + {item.node};
      if item.node in want {
        assert |want - {item.node}| == |want| - 1;
        want := want - {item.node};
        remaining := remaining - 1;
        if remaining == 0 {
          assert want == {};
          AllVisitedStops(g, from, scratch.View(), item.node, heap, pushed, seen, targets);
          early := true;
          break;
        }
      }
      if scratch.dist[item.node].Under(item.dist) {
        assert false; // a stale entry is never the first to reach its node
      }
      heap, pushed := ExpandNode(ctx, item.node, item.dist, scratch, heap, from, pushed, seen);
    }
    if !early {
      SearchBounds(g, from, scratch.View(), heap, pushed, seen);
      AllStopWhenDry(g, from, scratch.View(), pushed, seen, want, targets);
    }
    settled := CollectSettled(g, from, targets, scratch);
  }
}
