/** DijkstraPathfinder, the enemies' path planner: nearest-node scans and
    Dijkstra's algorithm over the navigation graph. Nodes are values of an
    abstract type N; node positions, the distance between two points, the
    edge weight and the Linecast obstruction test are parameters. */
module Dijkstra {
  import opened Common

  // ---------------------------------------------------------------------
  // Nearest-node scans

  /** float.MaxValue, the "not reached yet" value, as +infinity. */
  datatype Dist = Finite(value: real) | Infinite

  /** The comparison `x < d` of a real against a possibly infinite value. */
  predicate Below(x: real, d: Dist) {
    d.Infinite? || x < d.value
  }

  /** Index i holds the first node, in list order, of least distance among
      the nodes `ok` accepts. */
  ghost predicate IsFirstClosest<N>(nodes: seq<N>, d: N -> real, ok: N -> bool, i: int) {
    && 0 <= i < |nodes| && ok(nodes[i])
    && (forall j :: 0 <= j < |nodes| && ok(nodes[j]) ==> d(nodes[i]) <= d(nodes[j]))
    && (forall j :: 0 <= j < i && ok(nodes[j]) ==> d(nodes[i]) < d(nodes[j]))
  }

  /** The outcome of a left-to-right scan that keeps a running minimum and
      replaces it only on a strictly smaller distance: nothing when no node is
      accepted, otherwise the first closest accepted node. */
  function FirstClosest<N>(nodes: seq<N>, d: N -> real, ok: N -> bool): (r: Option<nat>)
    ensures r.None? <==> forall j :: 0 <= j < |nodes| ==> !ok(nodes[j])
    ensures r.Some? ==> IsFirstClosest(nodes, d, ok, r.value)
  {
    if |nodes| == 0 then None
    else
      var best := FirstClosest(nodes[..|nodes| - 1], d, ok);
      var last := nodes[|nodes| - 1];
      if ok(last) && (best.None? || d(last) < d(nodes[best.value])) then Some(|nodes| - 1)
      else best
  }

  /** The first closest accepted node is unique, so FirstClosest finds
      exactly it. */
  lemma FirstClosestUnique<N>(nodes: seq<N>, d: N -> real, ok: N -> bool, i: int)
    ensures FirstClosest(nodes, d, ok) == Some(i) <==> IsFirstClosest(nodes, d, ok, i)
  {
  }

  /** One more node of the scan: it replaces the running minimum only when
      it is accepted and strictly closer. */
  lemma FirstClosestStep<N>(nodes: seq<N>, d: N -> real, ok: N -> bool, i: int)
    requires 0 <= i < |nodes|
    ensures var best := FirstClosest(nodes[..i], d, ok);
      FirstClosest(nodes[..i + 1], d, ok)
      == if ok(nodes[i]) && (best.None? || d(nodes[i]) < d(nodes[best.value])) then Some(i) else best
  {
    assert nodes[..i + 1][..i] == nodes[..i];
  }

  function NodeAt<N>(nodes: seq<N>, i: Option<nat>): Option<N> {
    if i.Some? && i.value < |nodes| then Some(nodes[i.value]) else None
  }

  function AnyNode<N>(): N -> bool {
    n => true
  }

  /** The distance from the query position to each node. */
  function DistanceFrom<N>(pos: N -> Vec, distance: (Vec, Vec) -> real, position: Vec): N -> real {
    n => distance(position, pos(n))
  }

  /** The test of the front scan: the normalised direction to the node has
      a positive dot product with the normalised forward direction.
      `normalize` is Vector3.normalized, which also turns a vector shorter
      than 1e-5 into zero. */
  predicate InFront(normalize: Vec -> Vec, forward: Vec, from: Vec, to: Vec) {
    Dot(normalize(forward), normalize(Sub(to, from))) > 0.0
  }

  /** A node at the query position itself is never in front of it, as long
      as normalising the zero vector gives zero. */
  lemma NotInFrontOfItself(normalize: Vec -> Vec, forward: Vec, p: Vec)
    requires normalize(Zero) == Zero
    ensures !InFront(normalize, forward, p, p)
  {
    assert Sub(p, p) == Zero;
    assert Dot(normalize(forward), Zero) == 0.0;
  }

  /** A front candidate: ahead of the query position and not obstructed
      according to Linecast. */
  function FrontTest<N>(pos: N -> Vec, normalize: Vec -> Vec, position: Vec, forward: Vec,
                        blocked: (Vec, Vec) -> bool): N -> bool {
    n => InFront(normalize, forward, position, pos(n)) && !blocked(position, pos(n))
  }

  /** The node FindClosestNode returns. */
  function ClosestNode<N>(nodes: seq<N>, pos: N -> Vec, distance: (Vec, Vec) -> real, position: Vec): Option<N> {
    NodeAt(nodes, FirstClosest(nodes, DistanceFrom(pos, distance, position), AnyNode()))
  }

  /** DijkstraPathfinder.FindClosestNode: null for an empty node list,
      otherwise the first node of least distance from `position`. */
  method FindClosestNode<N>(nodes: seq<N>, pos: N -> Vec, distance: (Vec, Vec) -> real, position: Vec)
    returns (closest: Option<N>)
    ensures closest == ClosestNode(nodes, pos, distance, position)
    ensures closest.None? <==> |nodes| == 0
    ensures closest.Some? ==> exists i :: IsFirstClosest(nodes, DistanceFrom(pos, distance, position), AnyNode(), i)
                                         && nodes[i] == closest.value
  {
    ghost var d := DistanceFrom(pos, distance, position);
    ghost var best: Option<nat> := None;
    closest := None;
    var closestDistance := Infinite;
    for i := 0 to |nodes|
      invariant best == FirstClosest(nodes[..i], d, AnyNode())
      invariant closest == NodeAt(nodes, best)
      invariant closestDistance == if best.Some? then Finite(d(nodes[best.value])) else Infinite
    {
      FirstClosestStep(nodes, d, AnyNode(), i);
      var nodeDistance := distance(position, pos(nodes[i]));
      assert d(nodes[i]) == nodeDistance && AnyNode()(nodes[i]);
      if Below(nodeDistance, closestDistance) {
        closest := Some(nodes[i]);
        closestDistance := Finite(nodeDistance);
        best := Some(i);
      }
    }
    assert nodes[..|nodes|] == nodes;
  }

  /** DijkstraPathfinder.FindClosestNodeInFront: the first closest front
      candidate; when there is none, exactly what FindClosestNode returns. A
      node standing at the query position is never a front candidate (when
      normalising zero gives zero, as in Unity), so it can only come from
      that fallback. */
  method FindClosestNodeInFront<N>(nodes: seq<N>, pos: N -> Vec, distance: (Vec, Vec) -> real,
                                   normalize: Vec -> Vec, blocked: (Vec, Vec) -> bool,
                                   position: Vec, forward: Vec)
    returns (closest: Option<N>)
    ensures var front := FirstClosest(nodes, DistanceFrom(pos, distance, position),
                                      FrontTest(pos, normalize, position, forward, blocked));
      closest == if front.Some? then Some(nodes[front.value]) else ClosestNode(nodes, pos, distance, position)
    ensures normalize(Zero) == Zero && closest.Some? && pos(closest.value) == position ==>
      closest == ClosestNode(nodes, pos, distance, position)
  {
    ghost var d := DistanceFrom(pos, distance, position);
    ghost var test := FrontTest(pos, normalize, position, forward, blocked);
    ghost var best: Option<nat> := None;
    var closestInFront: Option<N> := None;
    var closestDistance := Infinite;
    for i := 0 to |nodes|
      invariant best == FirstClosest(nodes[..i], d, test)
      invariant closestInFront == NodeAt(nodes, best)
      invariant closestDistance == if best.Some? then Finite(d(nodes[best.value])) else Infinite
    {
      FirstClosestStep(nodes, d, test, i);
      var node := nodes[i];
      var directionToNode := normalize(Sub(pos(node), position));
      var dotProduct := Dot(normalize(forward), directionToNode);
      assert d(node) == distance(position, pos(node));
      assert test(node) == (dotProduct > 0.0 && !blocked(position, pos(node)));
      if dotProduct > 0.0 {
        var nodeDistance := distance(position, pos(node));
        if Below(nodeDistance, closestDistance) && !blocked(position, pos(node)) {
          closestInFront := Some(node);
          closestDistance := Finite(nodeDistance);
          best := Some(i);
        }
      }
    }
    assert nodes[..|nodes|] == nodes;
    if closestInFront.None? {
      closest := FindClosestNode(nodes, pos, distance, position);
    } else {
      closest := closestInFront;
      assert test(nodes[best.value]);
      if normalize(Zero) == Zero {
        NotInFrontOfItself(normalize, forward, position);
      }
    }
  }

  // ---------------------------------------------------------------------
  // The navigation graph and its paths

  /** The graph GameManager holds: all nodes in list order, the usable
      ones (Node.isUsable), the neighbour list of each node (nodeGraph) and
      the edge weight (the Vector2 distance between the two positions). */
  datatype Graph<!N(==)> = Graph(nodes: seq<N>, usable: set<N>, adj: map<N, seq<N>>, weight: (N, N) -> real)

  ghost predicate NonNegative<N(!new)>(g: Graph<N>) {
    forall a, b :: g.weight(a, b) >= 0.0
  }

  /** An edge the search follows: listed in the neighbour list of `a` and
      leading to a usable node. */
  predicate Edge<N(==,!new)>(g: Graph<N>, a: N, b: N) {
    a in g.adj && b in g.adj[a] && b in g.usable
  }

  predicate IsPath<N(==,!new)>(g: Graph<N>, p: seq<N>, s: N, t: N) {
    && |p| >= 1 && p[0] == s && p[|p| - 1] == t
    && forall i :: 0 <= i < |p| - 1 ==> Edge(g, p[i], p[i + 1])
  }

  function Weight<N(==,!new)>(g: Graph<N>, p: seq<N>): real
    decreases |p|
  {
    if |p| <= 1 then 0.0 else Weight(g, p[..|p| - 1]) + g.weight(p[|p| - 2], p[|p| - 1])
  }

  ghost predicate Reachable<N(!new)>(g: Graph<N>, s: N, t: N) {
    exists p :: IsPath(g, p, s, t)
  }

  /** x is at most the weight of every path from s to t. */
  ghost predicate LowerBound<N(!new)>(g: Graph<N>, s: N, t: N, x: real) {
    forall p :: IsPath(g, p, s, t) ==> x <= Weight(g, p)
  }

  /** The usable nodes of the list: the keys `distance` and `previous` get
      before the search starts. */
  function Indexed<N(==,!new)>(g: Graph<N>): set<N> {
    set v | v in g.nodes && v in g.usable
  }

  /** A graph on which the search raises no KeyNotFoundException: both ends
      are usable listed nodes, every such node has a neighbour list and every
      edge leads to such a node (as the graph NodeSpawner builds). */
  ghost predicate WellFormed<N(!new)>(g: Graph<N>, start: N, target: N) {
    && start in Indexed(g) && target in Indexed(g)
    && (forall v :: v in Indexed(g) ==> v in g.adj)
    && (forall a, b :: Edge(g, a, b) ==> b in Indexed(g))
  }

  predicate Distinct<N(==,!new)>(s: seq<N>) {
    forall i, j :: 0 <= i < j < |s| ==> s[i] != s[j]
  }

  lemma {:induction false} WeightCons<N(!new)>(g: Graph<N>, v: N, p: seq<N>)
    requires |p| >= 1
    ensures Weight(g, [v] + p) == g.weight(v, p[0]) + Weight(g, p)
    decreases |p|
  {
    if |p| == 1 {
      assert ([v] + p)[..1] == [v];
    } else {
      var q := p[..|p| - 1];
      WeightCons(g, v, q);
      assert ([v] + p)[..|p|] == [v] + q;
    }
  }

  // ---------------------------------------------------------------------
  // The invariant of the search

  /** The tables keep their keys, the start stays at distance 0, no distance
      is negative, the frontier has no duplicates and holds exactly the
      reached nodes not yet taken from it. */
  ghost predicate Shape<N(!new)>(g: Graph<N>, start: N, dist: map<N, Dist>, prev: map<N, Option<N>>,
                               frontier: seq<N>, done: set<N>) {
    && dist.Keys == Indexed(g) + {start} && prev.Keys == Indexed(g)
    && dist[start] == Finite(0.0)
    && (forall v :: v in dist && dist[v].Finite? ==> dist[v].value >= 0.0)
    && Distinct(frontier)
    && (forall v :: v in frontier ==> v in dist && dist[v].Finite? && v !in done)
    && (forall v :: v in dist && v !in done && dist[v].Finite? ==> v in frontier)
    && done <= dist.Keys
  }

  /** A predecessor link from v back to u: u was taken from the frontier,
      the link is an edge and accounts for the distance of v exactly, and u
      left the frontier before v did. */
  ghost predicate Link<N(!new)>(g: Graph<N>, dist: map<N, Dist>, done: set<N>, order: map<N, nat>, v: N, u: N) {
    && u in done && Edge(g, u, v)
    && v in dist && u in dist && dist[v].Finite? && dist[u].Finite?
    && dist[v].value == dist[u].value + g.weight(u, v)
    && (v in done ==> u in order && v in order && order[u] < order[v])
  }

  /** Every reached node but the start has a link; the start has none. */
  ghost predicate Chains<N(!new)>(g: Graph<N>, start: N, dist: map<N, Dist>, prev: map<N, Option<N>>,
                                done: set<N>, order: map<N, nat>, step: nat) {
    && (forall v :: v in done ==> v in order && order[v] < step)
    && (forall v :: v in prev && prev[v].Some? ==> Link(g, dist, done, order, v, prev[v].value))
    && (forall v {:trigger prev[v]} {:trigger v in prev} :: v in dist && dist[v].Finite? && v != start ==> v in prev && prev[v].Some?)
    && (start in prev ==> prev[start] == None)
  }

  /** The distance of every node taken from the frontier is the least weight
      of a path to it, and is no greater than any distance in the frontier. */
  ghost predicate Settled<N(!new)>(g: Graph<N>, start: N, dist: map<N, Dist>, frontier: seq<N>, done: set<N>) {
    && (forall a :: a in done ==> a in dist && dist[a].Finite? && LowerBound(g, start, a, dist[a].value))
    && (forall a, v :: a in done && v in frontier ==>
          a in dist && v in dist && dist[a].Finite? && dist[v].Finite? && dist[a].value <= dist[v].value)
  }

  /** Every edge out of an expanded node into a node still outside `done`
      has been relaxed. */
  ghost predicate Relaxed<N(!new)>(g: Graph<N>, dist: map<N, Dist>, done: set<N>, expanded: set<N>) {
    forall a, b :: a in expanded && Edge(g, a, b) && b !in done ==>
      a in dist && b in dist && dist[a].Finite? && dist[b].Finite? && dist[b].value <= dist[a].value + g.weight(a, b)
  }

  /** A path from the start to a node outside `done` leaves `done` at a
      frontier node no farther than the path's weight. */
  lemma {:induction false} FrontierBound<N(!new)>(g: Graph<N>, start: N, dist: map<N, Dist>, prev: map<N, Option<N>>,
                                                frontier: seq<N>, done: set<N>, p: seq<N>, t: N)
    requires NonNegative(g) && Shape(g, start, dist, prev, frontier, done)
    requires Settled(g, start, dist, frontier, done) && Relaxed(g, dist, done, done)
    requires IsPath(g, p, start, t) && t !in done
    ensures exists v :: v in frontier && v in dist && dist[v].Finite? && dist[v].value <= Weight(g, p)
    decreases |p|
  {
    if |p| == 1 {
      assert start in frontier;
    } else {
      var q := p[..|p| - 1];
      var a, b := p[|p| - 2], p[|p| - 1];
      assert IsPath(g, q, start, a) by {
        forall i | 0 <= i < |q| - 1 ensures Edge(g, q[i], q[i + 1]) {
          assert q[i] == p[i] && q[i + 1] == p[i + 1];
        }
      }
      assert Edge(g, a, b);
      if a in done {
        assert dist[a].value <= Weight(g, q);
        assert b in frontier;
      } else {
        FrontierBound(g, start, dist, prev, frontier, done, q, a);
        assert g.weight(a, b) >= 0.0;
      }
    }
  }

  /** The node taken from the frontier, of least distance there, has the
      least weight of any path to it. */
  lemma MinIsOptimal<N(!new)>(g: Graph<N>, start: N, dist: map<N, Dist>, prev: map<N, Option<N>>,
                            frontier: seq<N>, done: set<N>, u: N)
    requires NonNegative(g) && Shape(g, start, dist, prev, frontier, done)
    requires Settled(g, start, dist, frontier, done) && Relaxed(g, dist, done, done)
    requires u in frontier && forall v :: v in frontier ==> dist[u].value <= dist[v].value
    ensures LowerBound(g, start, u, dist[u].value)
  {
    forall p | IsPath(g, p, start, u) ensures dist[u].value <= Weight(g, p) {
      FrontierBound(g, start, dist, prev, frontier, done, p, u);
    }
  }

  /** Once the frontier is empty every node reachable from the start has
      been taken from it. */
  lemma ExhaustedReach<N(!new)>(g: Graph<N>, start: N, dist: map<N, Dist>, prev: map<N, Option<N>>,
                              done: set<N>, t: N)
    requires NonNegative(g) && Shape(g, start, dist, prev, [], done)
    requires Settled(g, start, dist, [], done) && Relaxed(g, dist, done, done)
    requires t !in done
    ensures !Reachable(g, start, t)
  {
    if Reachable(g, start, t) {
      var p :| IsPath(g, p, start, t);
      FrontierBound(g, start, dist, prev, [], done, p, t);
    }
  }

  // ---------------------------------------------------------------------
  // Relaxing an edge keeps the invariant

  /** u was taken from the frontier last: no expanded node is farther. */
  ghost predicate Latest<N(!new)>(dist: map<N, Dist>, done: set<N>, u: N) {
    && u in done && u in dist && dist[u].Finite?
    && forall a :: a in done ==> a in dist && dist[a].Finite? && dist[a].value <= dist[u].value
  }

  /** The edge u -> v leads to v more cheaply than its current distance. */
  ghost predicate Improves<N(!new)>(g: Graph<N>, dist: map<N, Dist>, u: N, v: N, d: real) {
    && u in dist && dist[u].Finite? && Edge(g, u, v) && v in dist
    && d == dist[u].value + g.weight(u, v) && Below(d, dist[v])
  }

  /** Only a node outside `done`, other than the start, is ever relaxed. */
  lemma RelaxedIsFresh<N(!new)>(g: Graph<N>, start: N, u: N, v: N, d: real, dist: map<N, Dist>, prev: map<N, Option<N>>,
                                frontier: seq<N>, done: set<N>)
    requires NonNegative(g) && Shape(g, start, dist, prev, frontier, done) && Latest(dist, done, u)
    requires Improves(g, dist, u, v, d)
    ensures v !in done && v != start && v in Indexed(g)
  {
    assert g.weight(u, v) >= 0.0;
  }

  /** In the lemmas below, relaxing u -> v gives v the distance through u,
      u as predecessor and a place at the end of the frontier if it had none. */
  lemma RelaxShape<N(!new)>(g: Graph<N>, start: N, u: N, v: N, d: real, dist: map<N, Dist>, prev: map<N, Option<N>>,
                            frontier: seq<N>, done: set<N>)
    requires NonNegative(g) && Shape(g, start, dist, prev, frontier, done) && Latest(dist, done, u)
    requires Improves(g, dist, u, v, d)
    ensures Shape(g, start, dist[v := Finite(d)], prev[v := Some(u)],
                  if v in frontier then frontier else frontier + [v], done)
  {
    RelaxedIsFresh(g, start, u, v, d, dist, prev, frontier, done);
    assert g.weight(u, v) >= 0.0;
    if v !in frontier {
      var frontier' := frontier + [v];
      forall i, j | 0 <= i < j < |frontier'| ensures frontier'[i] != frontier'[j] {
        if j == |frontier| {
          assert frontier[i] in frontier;
        }
      }
    }
  }

  lemma RelaxChains<N(!new)>(g: Graph<N>, start: N, u: N, v: N, d: real, dist: map<N, Dist>, prev: map<N, Option<N>>,
                             frontier: seq<N>, done: set<N>, order: map<N, nat>, step: nat)
    requires NonNegative(g) && Shape(g, start, dist, prev, frontier, done) && Latest(dist, done, u)
    requires Chains(g, start, dist, prev, done, order, step)
    requires Improves(g, dist, u, v, d)
    ensures Chains(g, start, dist[v := Finite(d)], prev[v := Some(u)], done, order, step)
  {
    RelaxedIsFresh(g, start, u, v, d, dist, prev, frontier, done);
    var dist', prev' := dist[v := Finite(d)], prev[v := Some(u)];
    forall x | x in prev' && prev'[x].Some? ensures Link(g, dist', done, order, x, prev'[x].value) {
      if x != v {
        assert Link(g, dist, done, order, x, prev[x].value);
      }
    }
  }

  lemma RelaxSettled<N(!new)>(g: Graph<N>, start: N, u: N, v: N, d: real, dist: map<N, Dist>, prev: map<N, Option<N>>,
                              frontier: seq<N>, done: set<N>)
    requires NonNegative(g) && Shape(g, start, dist, prev, frontier, done) && Latest(dist, done, u)
    requires Settled(g, start, dist, frontier, done)
    requires Improves(g, dist, u, v, d)
    ensures Settled(g, start, dist[v := Finite(d)],
                    if v in frontier then frontier else frontier + [v], done)
  {
    RelaxedIsFresh(g, start, u, v, d, dist, prev, frontier, done);
    assert g.weight(u, v) >= 0.0;
  }

  lemma RelaxRelaxed<N(!new)>(g: Graph<N>, start: N, u: N, v: N, d: real, dist: map<N, Dist>, prev: map<N, Option<N>>,
                              frontier: seq<N>, done: set<N>, expanded: set<N>)
    requires NonNegative(g) && Shape(g, start, dist, prev, frontier, done) && Latest(dist, done, u)
    requires Relaxed(g, dist, done, expanded) && expanded <= done
    requires Improves(g, dist, u, v, d)
    ensures Relaxed(g, dist[v := Finite(d)], done, expanded)
  {
    RelaxedIsFresh(g, start, u, v, d, dist, prev, frontier, done);
  }

  // ---------------------------------------------------------------------
  // FindShortestPath

  /** The initial loop over all nodes: every usable node gets distance
      float.MaxValue and no predecessor. */
  method InitTables<N(==,!new)>(g: Graph<N>) returns (dist: map<N, Dist>, prev: map<N, Option<N>>)
    ensures dist.Keys == Indexed(g) && prev.Keys == Indexed(g)
    ensures forall v :: v in dist ==> dist[v] == Infinite
    ensures forall v :: v in prev ==> prev[v] == None
  {
    dist, prev := map[], map[];
    for i := 0 to |g.nodes|
      invariant dist.Keys == set v | v in g.nodes[..i] && v in g.usable
      invariant prev.Keys == dist.Keys
      invariant forall v :: v in dist ==> dist[v] == Infinite
      invariant forall v :: v in prev ==> prev[v] == None
    {
      assert g.nodes[..i + 1] == g.nodes[..i] + [g.nodes[i]];
      var node := g.nodes[i];
      if node !in g.usable {
        continue;
      }
      dist := dist[node := Infinite];
      prev := prev[node := None];
    }
    assert g.nodes[..|g.nodes|] == g.nodes;
  }

  /** Sorting the frontier by distance and removing its first entry: the
      node taken has the least distance; the others stay. (List.Sort is not
      stable, so which of several equally near nodes comes first is not
      fixed; this takes the first in frontier order.) */
  method PopMin<N(==,!new)>(frontier: seq<N>, dist: map<N, Dist>) returns (u: N, rest: seq<N>)
    requires |frontier| > 0
    requires forall v :: v in frontier ==> v in dist && dist[v].Finite?
    ensures u in frontier && forall v :: v in frontier ==> dist[u].value <= dist[v].value
    ensures |rest| == |frontier| - 1
    ensures forall v :: v in rest ==> v in frontier
    ensures forall v :: v in frontier && v != u ==> v in rest
    ensures Distinct(frontier) ==> Distinct(rest) && u !in rest
  {
    var best := 0;
    for i := 1 to |frontier|
      invariant 0 <= best < i
      invariant forall j :: 0 <= j < i ==> dist[frontier[best]].value <= dist[frontier[j]].value
    {
      if dist[frontier[i]].value < dist[frontier[best]].value {
        best := i;
      }
    }
    u := frontier[best];
    rest := frontier[..best] + frontier[best + 1..];
    assert forall j :: 0 <= j < |rest| ==> rest[j] == if j < best then frontier[j] else frontier[j + 1];
    forall v | v in frontier && v != u ensures v in rest {
      var j :| 0 <= j < |frontier| && frontier[j] == v;
      if j < best { assert rest[j] == v; } else { assert rest[j - 1] == v; }
    }
  }

  /** One pass of the neighbour loop for a usable neighbour v that has a
      distance: when the way through u is strictly shorter, v takes it. */
  method RelaxEdge<N(==,!new)>(g: Graph<N>, start: N, u: N, v: N, dist0: map<N, Dist>, prev0: map<N, Option<N>>,
                               frontier0: seq<N>, ghost done: set<N>, ghost order: map<N, nat>, ghost step: nat)
    returns (dist: map<N, Dist>, prev: map<N, Option<N>>, frontier: seq<N>)
    requires SearchInv(g, start, dist0, prev0, frontier0, done, order, step)
    requires Relaxed(g, dist0, done, done - {u})
    requires Latest(dist0, done, u) && Edge(g, u, v) && v in dist0
    ensures SearchInv(g, start, dist, prev, frontier, done, order, step)
    ensures Relaxed(g, dist, done, done - {u})
    ensures Latest(dist, done, u) && forall a :: a in done ==> dist[a] == dist0[a]
    ensures dist.Keys == dist0.Keys
    ensures forall x :: x in dist0 && dist0[x].Finite? ==> dist[x].Finite? && dist[x].value <= dist0[x].value
    ensures v !in done ==> dist[v].Finite? && dist[v].value <= dist[u].value + g.weight(u, v)
  {
    dist, prev, frontier := dist0, prev0, frontier0;
    var newDistance := dist[u].value + g.weight(u, v);
    if Below(newDistance, dist[v]) {
      RelaxedIsFresh(g, start, u, v, newDistance, dist0, prev0, frontier0, done);
      RelaxShape(g, start, u, v, newDistance, dist0, prev0, frontier0, done);
      RelaxChains(g, start, u, v, newDistance, dist0, prev0, frontier0, done, order, step);
      RelaxSettled(g, start, u, v, newDistance, dist0, prev0, frontier0, done);
      RelaxRelaxed(g, start, u, v, newDistance, dist0, prev0, frontier0, done, done - {u});
      dist := dist[v := Finite(newDistance)];
      prev := prev[v := Some(u)];
      if v !in frontier {
        frontier := frontier + [v];
      }
    }
  }

  /** Taking the nearest node u out of the frontier keeps the invariant,
      with u numbered `step` in the order of removal, and leaves u's edges
      as the only ones still to relax. */
  lemma TakeKeeps<N(!new)>(g: Graph<N>, start: N, dist: map<N, Dist>, prev: map<N, Option<N>>,
                           frontier: seq<N>, done: set<N>, order: map<N, nat>, step: nat, u: N, rest: seq<N>)
    requires SearchInv(g, start, dist, prev, frontier, done, order, step) && Relaxed(g, dist, done, done)
    requires u in frontier && forall v :: v in frontier ==> dist[u].value <= dist[v].value
    requires forall v :: v in rest <==> v in frontier && v != u
    requires Distinct(rest)
    ensures SearchInv(g, start, dist, prev, rest, done + {u}, order[u := step], step + 1)
    ensures Relaxed(g, dist, done + {u}, (done + {u}) - {u}) && Latest(dist, done + {u}, u)
  {
    MinIsOptimal(g, start, dist, prev, frontier, done, u);
    TakeShape(g, start, dist, prev, frontier, done, u, rest);
    TakeChains(g, start, dist, prev, frontier, done, order, step, u);
    TakeSettled(g, start, dist, frontier, done, u, rest);
    assert (done + {u}) - {u} == done;
  }

  lemma TakeShape<N(!new)>(g: Graph<N>, start: N, dist: map<N, Dist>, prev: map<N, Option<N>>,
                           frontier: seq<N>, done: set<N>, u: N, rest: seq<N>)
    requires Shape(g, start, dist, prev, frontier, done)
    requires u in frontier && forall v :: v in rest <==> v in frontier && v != u
    requires Distinct(rest)
    ensures Shape(g, start, dist, prev, rest, done + {u})
  {
  }

  lemma TakeChains<N(!new)>(g: Graph<N>, start: N, dist: map<N, Dist>, prev: map<N, Option<N>>,
                            frontier: seq<N>, done: set<N>, order: map<N, nat>, step: nat, u: N)
    requires Shape(g, start, dist, prev, frontier, done) && Chains(g, start, dist, prev, done, order, step)
    requires u in frontier
    ensures Chains(g, start, dist, prev, done + {u}, order[u := step], step + 1)
  {
    var done', order' := done + {u}, order[u := step];
    forall v | v in prev && prev[v].Some? ensures Link(g, dist, done', order', v, prev[v].value) {
      assert Link(g, dist, done, order, v, prev[v].value);
    }
  }

  lemma TakeSettled<N(!new)>(g: Graph<N>, start: N, dist: map<N, Dist>, frontier: seq<N>, done: set<N>,
                             u: N, rest: seq<N>)
    requires u in frontier && u in dist && dist[u].Finite?
    requires Settled(g, start, dist, frontier, done) && LowerBound(g, start, u, dist[u].value)
    requires forall v :: v in frontier ==> v in dist && dist[v].Finite? && dist[u].value <= dist[v].value
    requires forall v :: v in rest ==> v in frontier
    ensures Settled(g, start, dist, rest, done + {u})
  {
  }

  /** The invariant of the search, but for the relaxation of the edges out
      of the node being expanded. */
  ghost predicate SearchInv<N(!new)>(g: Graph<N>, start: N, dist: map<N, Dist>, prev: map<N, Option<N>>,
                                     frontier: seq<N>, done: set<N>, order: map<N, nat>, step: nat) {
    && NonNegative(g)
    && Shape(g, start, dist, prev, frontier, done) && Chains(g, start, dist, prev, done, order, step)
    && Settled(g, start, dist, frontier, done)
  }

  /** The first k neighbours of u have been relaxed. */
  ghost predicate RelaxedUpTo<N(!new)>(g: Graph<N>, dist: map<N, Dist>, done: set<N>, u: N, neighbours: seq<N>, k: int) {
    && 0 <= k <= |neighbours| && u in dist && dist[u].Finite?
    && forall j :: 0 <= j < k && neighbours[j] in g.usable && neighbours[j] !in done ==>
         neighbours[j] in dist && dist[neighbours[j]].Finite?
         && dist[neighbours[j]].value <= dist[u].value + g.weight(u, neighbours[j])
  }

  lemma RelaxedAll<N(!new)>(g: Graph<N>, dist: map<N, Dist>, done: set<N>, u: N)
    requires u in g.adj && RelaxedUpTo(g, dist, done, u, g.adj[u], |g.adj[u]|)
    requires Relaxed(g, dist, done, done - {u})
    ensures Relaxed(g, dist, done, done)
  {
    forall a, b | a in done && Edge(g, a, b) && b !in done
      ensures a in dist && b in dist && dist[a].Finite? && dist[b].Finite?
              && dist[b].value <= dist[a].value + g.weight(a, b)
    {
      if a == u {
        var j :| 0 <= j < |g.adj[u]| && g.adj[u][j] == b;
      }
    }
  }

  /** One pass of the neighbour loop: an unusable neighbour is skipped, a
      usable one without a distance raises KeyNotFoundException, any other
      is relaxed. */
  method ExpandStep<N(==,!new)>(g: Graph<N>, start: N, u: N, neighbours: seq<N>, k: int,
                                dist0: map<N, Dist>, prev0: map<N, Option<N>>, frontier0: seq<N>,
                                ghost done: set<N>, ghost order: map<N, nat>, ghost step: nat)
    returns (failed: bool, dist: map<N, Dist>, prev: map<N, Option<N>>, frontier: seq<N>)
    requires u in g.adj && neighbours == g.adj[u] && 0 <= k < |neighbours|
    requires SearchInv(g, start, dist0, prev0, frontier0, done, order, step)
    requires Relaxed(g, dist0, done, done - {u}) && Latest(dist0, done, u)
    requires RelaxedUpTo(g, dist0, done, u, neighbours, k)
    ensures failed <==> neighbours[k] in g.usable && neighbours[k] !in dist0
    ensures !failed ==> SearchInv(g, start, dist, prev, frontier, done, order, step) && dist.Keys == dist0.Keys
    ensures !failed ==> Relaxed(g, dist, done, done - {u}) && Latest(dist, done, u)
    ensures !failed ==> RelaxedUpTo(g, dist, done, u, neighbours, k + 1)
  {
    dist, prev, frontier := dist0, prev0, frontier0;
    var v := neighbours[k];
    if v !in g.usable {
      return false, dist, prev, frontier;
    }
    if v !in dist {
      return true, dist, prev, frontier;
    }
    failed := false;
    dist, prev, frontier := RelaxEdge(g, start, u, v, dist, prev, frontier, done, order, step);
    forall j | 0 <= j < k + 1 && neighbours[j] in g.usable && neighbours[j] !in done
      ensures neighbours[j] in dist && dist[neighbours[j]].Finite?
              && dist[neighbours[j]].value <= dist[u].value + g.weight(u, neighbours[j])
    {
      if j < k {
        assert dist0[neighbours[j]].Finite?;
      }
    }
  }

  /** The neighbour loop for the node just taken from the frontier. It
      fails (KeyNotFoundException) when the node has no neighbour list or a
      usable neighbour has no distance; otherwise it keeps the invariant of
      the search and leaves every edge out of the node relaxed. */
  method Expand<N(==,!new)>(g: Graph<N>, start: N, u: N, dist0: map<N, Dist>, prev0: map<N, Option<N>>,
                            frontier0: seq<N>, ghost done: set<N>, ghost order: map<N, nat>, ghost step: nat)
    returns (failed: bool, dist: map<N, Dist>, prev: map<N, Option<N>>, frontier: seq<N>)
    requires SearchInv(g, start, dist0, prev0, frontier0, done, order, step)
    requires Relaxed(g, dist0, done, done - {u}) && Latest(dist0, done, u)
    ensures !failed ==> SearchInv(g, start, dist, prev, frontier, done, order, step) && Relaxed(g, dist, done, done)
    ensures u in g.adj && (forall v :: Edge(g, u, v) ==> v in dist0) ==> !failed
  {
    dist, prev, frontier := dist0, prev0, frontier0;
    if u !in g.adj {
      return true, dist, prev, frontier;
    }
    var neighbours := g.adj[u];
    for k := 0 to |neighbours|
      invariant SearchInv(g, start, dist, prev, frontier, done, order, step) && dist.Keys == dist0.Keys
      invariant Relaxed(g, dist, done, done - {u}) && Latest(dist, done, u)
      invariant RelaxedUpTo(g, dist, done, u, neighbours, k)
    {
      failed, dist, prev, frontier := ExpandStep(g, start, u, neighbours, k, dist, prev, frontier, done, order, step);
      if failed {
        return;
      }
    }
    RelaxedAll(g, dist, done, u);
    failed := false;
  }

  /** The backtracking loop: follow the predecessor links from the target,
      putting each node in front of the path, then discard a path that does
      not begin at the start. It fails when a node on the way has no entry
      in `previous`. */
  method Backtrack<N(==,!new)>(g: Graph<N>, start: N, target: N, dist: map<N, Dist>, prev: map<N, Option<N>>,
                               ghost done: set<N>, ghost order: map<N, nat>, ghost step: nat)
    returns (r: Result<seq<N>>)
    requires Chains(g, start, dist, prev, done, order, step) && prev.Keys == Indexed(g)
    requires start in dist && dist[start] == Finite(0.0) && start in done
    requires forall v :: v in done ==> v in dist && dist[v].Finite?
    requires target !in done ==> target !in dist || dist[target].Infinite?
    ensures r.Success? && r.value != [] ==> IsPath(g, r.value, start, target) && target in dist
                                            && dist[target].Finite? && Weight(g, r.value) == dist[target].value
    ensures r.Success? ==> (r.value == [] <==> target !in done)
    ensures r.Failure? <==> target !in Indexed(g) || (target in done && start !in Indexed(g))
    ensures target == start && start in Indexed(g) ==> r == Success([start])
  {
    var path: seq<N> := [];
    var pathNode: Option<N> := Some(target);
    while pathNode.Some?
      invariant path == [] ==> pathNode == Some(target)
      invariant path != [] ==> path[|path| - 1] == target && target in prev && path[0] in prev && prev[path[0]] == pathNode
      invariant forall i :: 0 <= i < |path| - 1 ==> Edge(g, path[i], path[i + 1])
      invariant target in done && path != [] ==>
                  path[0] in done && path[0] in dist && dist[path[0]].Finite? && target in dist && dist[target].Finite?
                  && Weight(g, path) == dist[target].value - dist[path[0]].value
      invariant target !in done && path != [] ==> path == [target] && pathNode == None
      invariant pathNode.Some? && path != [] ==> pathNode.value in done
      invariant target == start && path != [] ==> path == [start] && pathNode == None
      decreases if pathNode.None? then 0 else if pathNode.value in done then order[pathNode.value] + 1 else step + 1
    {
      var v := pathNode.value;
      if v !in prev {
        return Failure(KeyNotFound);
      }
      if path != [] {
        WeightCons(g, v, path);
      }
      path := [v] + path;
      pathNode := prev[v];
    }
    if |path| == 0 || path[0] != start {
      return Success([]);
    }
    return Success(path);
  }

  /** Taking one more node out of the frontier leaves fewer nodes to take:
      the measure of the main loop. */
  lemma FewerLeft<N>(all: set<N>, done: set<N>, u: N)
    requires u in all && u !in done
    ensures |all - (done + {u})| < |all - done|
  {
    assert all - done == (all - (done + {u})) + {u};
  }

  /** The invariant of the main loop of FindShortestPath: `found` says
      the target has been taken from the frontier, and then its own edges
      are the only ones not relaxed. */
  ghost predicate Searching<N(!new)>(g: Graph<N>, start: N, target: N, dist: map<N, Dist>, prev: map<N, Option<N>>,
                                     frontier: seq<N>, done: set<N>, order: map<N, nat>, step: nat, found: bool) {
    && SearchInv(g, start, dist, prev, frontier, done, order, step)
    && Relaxed(g, dist, done, if found then done - {target} else done)
    && (found <==> target in done)
    && (done == {} ==> frontier == [start])
    && (done != {} ==> start in done)
  }

  /** One pass of the main loop: the nearest frontier node u is taken out
      and, unless it is the target, its edges are relaxed; a failure is a
      missing dictionary key, which a well-formed graph never has. */
  method Visit<N(==,!new)>(g: Graph<N>, start: N, target: N, dist0: map<N, Dist>, prev0: map<N, Option<N>>,
                           frontier0: seq<N>, ghost done0: set<N>, ghost order0: map<N, nat>, ghost step0: nat)
    returns (failed: bool, found: bool, dist: map<N, Dist>, prev: map<N, Option<N>>, frontier: seq<N>,
             ghost done: set<N>, ghost order: map<N, nat>, ghost step: nat, u: N)
    requires Searching(g, start, target, dist0, prev0, frontier0, done0, order0, step0, false) && |frontier0| > 0
    ensures !failed ==> Searching(g, start, target, dist, prev, frontier, done, order, step, found)
    ensures done == done0 + {u} && u !in done0 && u in Indexed(g) + {start}
    ensures frontier0 == [start] ==> u == start
    ensures u == target ==> !failed
    ensures WellFormed(g, start, target) ==> !failed
  {
    var rest;
    u, rest := PopMin(frontier0, dist0);
    TakeKeeps(g, start, dist0, prev0, frontier0, done0, order0, step0, u, rest);
    done, order, step := done0 + {u}, order0[u := step0], step0 + 1;
    dist, prev, frontier := dist0, prev0, rest;
    failed := false;
    found := u == target;
    if !found {
      failed, dist, prev, frontier := Expand(g, start, u, dist0, prev0, rest, done, order, step);
    }
  }

  /** The set-up before the main loop: the tables from InitTables, the
      start at distance 0 and the frontier holding the start alone. */
  method StartSearch<N(==,!new)>(g: Graph<N>, start: N, target: N)
    returns (dist: map<N, Dist>, prev: map<N, Option<N>>, frontier: seq<N>)
    requires NonNegative(g)
    ensures Searching(g, start, target, dist, prev, frontier, {}, map[], 0, false)
  {
    dist, prev := InitTables(g);
    dist := dist[start := Finite(0.0)];
    frontier := [start];
  }

  /** When the main loop stops, the tables are ready for backtracking, and
      the target was taken from the frontier exactly when it can be reached. */
  lemma SearchDone<N(!new)>(g: Graph<N>, start: N, target: N, dist: map<N, Dist>, prev: map<N, Option<N>>,
                            frontier: seq<N>, done: set<N>, order: map<N, nat>, step: nat, found: bool)
    requires Searching(g, start, target, dist, prev, frontier, done, order, step, found)
    requires |frontier| == 0 || found
    ensures Chains(g, start, dist, prev, done, order, step) && prev.Keys == Indexed(g)
    ensures start in dist && dist[start] == Finite(0.0) && start in done
    ensures forall v :: v in done ==> v in dist && dist[v].Finite?
    ensures target !in done ==> (target !in dist || dist[target].Infinite?) && !Reachable(g, start, target)
    ensures target in done ==> LowerBound(g, start, target, dist[target].value)
  {
    if !found {
      ExhaustedReach(g, start, dist, prev, done, target);
    }
  }

  /** DijkstraPathfinder.FindShortestPath. A non-empty result is a path of
      the graph from the start to the target, and none is lighter; the empty
      result means the target cannot be reached. A missing dictionary key is
      a Failure: always when the target is not a usable listed node, never
      on a well-formed graph. From a usable listed node to itself the path is
      that node alone. */
  method FindShortestPath<N(==,!new)>(g: Graph<N>, start: N, target: N) returns (r: Result<seq<N>>)
    requires NonNegative(g)
    ensures r.Success? && r.value != [] ==> IsPath(g, r.value, start, target)
                                            && LowerBound(g, start, target, Weight(g, r.value))
    ensures r.Success? ==> (r.value == [] <==> !Reachable(g, start, target))
    ensures target !in Indexed(g) ==> r.Failure?
    ensures WellFormed(g, start, target) ==> r.Success?
    ensures start == target && start in Indexed(g) ==> r == Success([start])
  {
    var dist, prev, frontier := StartSearch(g, start, target);
    ghost var done: set<N> := {};
    ghost var order: map<N, nat> := map[];
    ghost var step: nat := 0;
    var found := false;
    while |frontier| > 0 && !found
      invariant Searching(g, start, target, dist, prev, frontier, done, order, step, found)
      decreases |(Indexed(g) + {start}) - done|
    {
      var failed;
      var u;
      ghost var done0 := done;
      failed, found, dist, prev, frontier, done, order, step, u :=
        Visit(g, start, target, dist, prev, frontier, done, order, step);
      FewerLeft(Indexed(g) + {start}, done0, u);
      if failed {
        return Failure(KeyNotFound);
      }
    }
    SearchDone(g, start, target, dist, prev, frontier, done, order, step, found);
    r := Backtrack(g, start, target, dist, prev, done, order, step);
  }
}
