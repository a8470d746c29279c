/** Node and NodeSpawner: the grid of navigation nodes the enemies plan
    over and its visibility graph. The physics queries the components make
    (OverlapCircleAll on the "Objects" layer and on all layers, Linecast,
    Vector2.Distance) are functions of a World value; GameManager, which
    holds the shared node list and graph, is passed explicitly. */
module NodeGraph {
  import opened Common

  /** One collider returned by an overlap query: a null entry, the querying
      node's own collider, or the collider of another game object. */
  datatype Hit = NullHit | OwnCollider | OtherCollider(id: int)

  /** The physics of the scene, as seen from a position and a radius. */
  datatype World = World(
    obstacles: (Vec, real) -> seq<Hit>,   // OverlapCircleAll on the "Objects" layer
    overlap: (Vec, real) -> seq<Hit>,     // OverlapCircleAll on every layer
    blocked: (Vec, Vec) -> bool,          // Linecast on the "Objects" layer hits a collider
    distance: (Vec, Vec) -> real)         // Vector2.Distance

  /** The inspector values of the node prefab that Instantiate copies. */
  datatype Prefab = Prefab(isUsable: bool, checkRadius: real)

  // ---------------------------------------------------------------------
  // Node

  /** The usability flag after one obstacle check: cleared when the overlap
      finds anything, left alone otherwise. */
  function UsableAfter(usable: bool, obstacles: seq<Hit>): bool {
    usable && |obstacles| == 0
  }

  /** The check only ever moves the flag from true to false. */
  lemma UsableMonotone(usable: bool, obstacles: seq<Hit>)
    ensures UsableAfter(usable, obstacles) ==> usable
    ensures !usable ==> !UsableAfter(usable, obstacles)
    ensures |obstacles| > 0 ==> !UsableAfter(usable, obstacles)
    ensures |obstacles| == 0 ==> UsableAfter(usable, obstacles) == usable
  {
  }

  /** Checking the same overlap result twice is checking it once. */
  lemma UsableIdempotent(usable: bool, obstacles: seq<Hit>)
    ensures UsableAfter(UsableAfter(usable, obstacles), obstacles) == UsableAfter(usable, obstacles)
  {
  }

  /** The colliders CheckIfTouching collects: every non-null one that does
      not belong to the node itself, in query order. */
  function TouchingObjects(hits: seq<Hit>): (r: seq<Hit>)
    ensures |r| <= |hits|
    ensures forall h :: h in r ==> h in hits && h.OtherCollider?
  {
    if |hits| == 0 then []
    else TouchingObjects(hits[..|hits| - 1]) + (if hits[|hits| - 1].OtherCollider? then [hits[|hits| - 1]] else [])
  }

  /** Something other than the node itself is touching: some collected
      collider exists exactly when some hit is another object's. */
  lemma {:induction false} TouchingObjectsNonEmpty(hits: seq<Hit>)
    ensures |TouchingObjects(hits)| > 0 <==> exists i :: 0 <= i < |hits| && hits[i].OtherCollider?
    decreases |hits|
  {
    if |hits| > 0 {
      var init := hits[..|hits| - 1];
      TouchingObjectsNonEmpty(init);
      if exists i :: 0 <= i < |init| && init[i].OtherCollider? {
        var i :| 0 <= i < |init| && init[i].OtherCollider?;
        assert hits[i] == init[i];
      }
      if exists i :: 0 <= i < |hits| && hits[i].OtherCollider? {
        var i :| 0 <= i < |hits| && hits[i].OtherCollider?;
        if i < |init| {
          assert init[i] == hits[i];
        }
      }
    }
  }

  /** A Node MonoBehaviour: its transform position, its check radius and
      the usability flag. */
  class Node {
    var isUsable: bool
    var checkRadius: real
    var position: Vec

    /** Instantiate(nodePrefab, position, ...): the prefab's values. */
    constructor(prefab: Prefab, position: Vec)
      ensures isUsable == prefab.isUsable && checkRadius == prefab.checkRadius && this.position == position
    {
      isUsable := prefab.isUsable;
      checkRadius := prefab.checkRadius;
      this.position := position;
    }

    /** Node.CheckIfUsable: an obstacle within the check radius makes the
        node unusable for good; nothing else changes. */
    method CheckIfUsable(world: World)
      modifies this
      ensures isUsable == UsableAfter(old(isUsable), world.obstacles(position, checkRadius))
      ensures checkRadius == old(checkRadius) && position == old(position)
    {
      var obstacles := world.obstacles(position, checkRadius);
      if |obstacles| > 0 {
        isUsable := false;
      }
    }

    /** Node.Initialize: the position and the radius are set first, so the
        obstacle check looks at the new ones. */
    method Initialize(world: World, position: Vec, radius: real)
      modifies this
      ensures this.position == position && checkRadius == radius
      ensures isUsable == UsableAfter(old(isUsable), world.obstacles(position, radius))
    {
      this.position := position;
      checkRadius := radius;
      CheckIfUsable(world);
    }

    /** Node.Start: the check again while the game is playing. On the same
        world it gives what the flag already says after Initialize. */
    method Start(world: World, isPlaying: bool)
      modifies this
      ensures isUsable == if isPlaying then UsableAfter(old(isUsable), world.obstacles(position, checkRadius))
                          else old(isUsable)
      ensures checkRadius == old(checkRadius) && position == old(position)
    {
      if !isPlaying {
        return;
      }
      CheckIfUsable(world);
    }

    /** Node.CheckIfTouching: true exactly when the overlap at the node
        finds a non-null collider of some other object. */
    method CheckIfTouching(world: World) returns (touching: bool)
      ensures touching <==> exists i :: 0 <= i < |world.overlap(position, checkRadius)|
                                      && world.overlap(position, checkRadius)[i].OtherCollider?
      ensures touching == (|TouchingObjects(world.overlap(position, checkRadius))| > 0)
    {
      var touches := world.overlap(position, checkRadius);
      var touchingObjects: seq<Hit> := [];
      for i := 0 to |touches|
        invariant touchingObjects == TouchingObjects(touches[..i])
      {
        assert touches[..i + 1][..i] == touches[..i];
        var touch := touches[i];
        if touch.OtherCollider? {
          touchingObjects := touchingObjects + [touch];
        }
      }
      assert touches[..|touches|] == touches;
      TouchingObjectsNonEmpty(touches);
      touching := |touchingObjects| > 0;
    }
  }

  /** Initialize followed by Start on the same world leaves the flag as
      Initialize set it: the second check is redundant. */
  lemma StartAfterInitialize(world: World, usable: bool, position: Vec, radius: real)
    ensures var afterInit := UsableAfter(usable, world.obstacles(position, radius));
      UsableAfter(afterInit, world.obstacles(position, radius)) == afterInit
  {
    UsableIdempotent(usable, world.obstacles(position, radius));
  }

  // ---------------------------------------------------------------------
  // The node grid

  /** The shared state GameManager keeps for the pathfinder. GameManager
      itself is not part of this model. */
  class GameManager {
    var mapSize: int
    var allNodes: seq<Node>
    var nodeGraph: map<Node, seq<Node>>

    constructor(mapSize: int)
      ensures this.mapSize == mapSize && allNodes == [] && nodeGraph == map[]
    {
      this.mapSize := mapSize;
      allNodes := [];
      nodeGraph := map[];
    }
  }

  /** The spawn position of grid cell (x, y): the grid is centred on the
      spawner's position and its cells are `spacing` apart. */
  function CellPosition(origin: Vec, width: real, height: real, spacing: real, x: int, y: int): Vec {
    Vec(origin.x + -width / 2.0 + x as real * spacing, origin.y + -height / 2.0 + y as real * spacing, 0.0)
  }

  /** Mathf.FloorToInt(length / spacing): the number of cells along a side,
      none when it is negative. */
  function CellCount(length: real, spacing: real): nat
    requires spacing > 0.0
  {
    Max((length / spacing).Floor, 0)
  }

  /** Column x of the grid, cells y = 0 .. count - 1. */
  function Column(origin: Vec, width: real, height: real, spacing: real, x: int, count: nat): (r: seq<Vec>)
    ensures |r| == count
  {
    seq(count, y => CellPosition(origin, width, height, spacing, x, y))
  }

  /** The candidates of the first `columns` columns, x-major then y. */
  function Candidates(origin: Vec, width: real, height: real, spacing: real, columns: nat, count: nat): (r: seq<Vec>)
    decreases columns
  {
    if columns == 0 then []
    else Candidates(origin, width, height, spacing, columns - 1, count)
         + Column(origin, width, height, spacing, columns - 1, count)
  }

  lemma {:induction false} CandidatesCount(origin: Vec, width: real, height: real, spacing: real, columns: nat, count: nat)
    ensures |Candidates(origin, width, height, spacing, columns, count)| == columns * count
    decreases columns
  {
    if columns > 0 {
      CandidatesCount(origin, width, height, spacing, columns - 1, count);
      assert columns * count == (columns - 1) * count + count;
    }
  }

  /** The candidates are exactly the cells (x, y) with x below `columns`
      and y below `count`. */
  lemma {:induction false} CandidatesCells(origin: Vec, width: real, height: real, spacing: real,
                                          columns: nat, count: nat, p: Vec)
    ensures p in Candidates(origin, width, height, spacing, columns, count)
            <==> exists x, y :: 0 <= x < columns && 0 <= y < count
                                && p == CellPosition(origin, width, height, spacing, x, y)
    decreases columns
  {
    if columns > 0 {
      CandidatesCells(origin, width, height, spacing, columns - 1, count, p);
      var column := Column(origin, width, height, spacing, columns - 1, count);
      if p in column {
        var y :| 0 <= y < count && column[y] == p;
        assert p == CellPosition(origin, width, height, spacing, columns - 1, y);
      }
      if exists x, y :: 0 <= x < columns && 0 <= y < count && p == CellPosition(origin, width, height, spacing, x, y) {
        var x, y :| 0 <= x < columns && 0 <= y < count && p == CellPosition(origin, width, height, spacing, x, y);
        if x == columns - 1 {
          assert column[y] == p;
        }
      }
    }
  }

  /** Whether SpawnNodeGrid keeps a node spawned at p: it touches something
      and the prefab leaves it usable. */
  predicate Kept(world: World, prefab: Prefab, p: Vec) {
    && (exists i :: 0 <= i < |world.overlap(p, prefab.checkRadius)| && world.overlap(p, prefab.checkRadius)[i].OtherCollider?)
    && prefab.isUsable
  }

  /** The positions of the nodes SpawnNodeGrid keeps, in candidate order. */
  function KeptPositions(world: World, prefab: Prefab, ps: seq<Vec>): (r: seq<Vec>)
    ensures |r| <= |ps|
  {
    if |ps| == 0 then []
    else KeptPositions(world, prefab, ps[..|ps| - 1]) + (if Kept(world, prefab, ps[|ps| - 1]) then [ps[|ps| - 1]] else [])
  }

  lemma {:induction false} KeptPositionsMember(world: World, prefab: Prefab, ps: seq<Vec>, p: Vec)
    ensures p in KeptPositions(world, prefab, ps) <==> p in ps && Kept(world, prefab, p)
    decreases |ps|
  {
    if |ps| > 0 {
      var init := ps[..|ps| - 1];
      KeptPositionsMember(world, prefab, init, p);
      assert ps == init + [ps[|ps| - 1]];
    }
  }

  /** At most one node per candidate cell is kept. */
  lemma SpawnCountBound(world: World, prefab: Prefab, origin: Vec, width: real, height: real, spacing: real)
    requires spacing > 0.0
    ensures var columns, count := CellCount(width, spacing), CellCount(height, spacing);
      |KeptPositions(world, prefab, Candidates(origin, width, height, spacing, columns, count))| <= columns * count
  {
    CandidatesCount(origin, width, height, spacing, CellCount(width, spacing), CellCount(height, spacing));
  }

  /** A spawned node of the shared list: where it stands, its radius and
      whether Initialize left it usable. */
  predicate SpawnedAt(world: World, prefab: Prefab, node: Node, p: Vec)
    reads node
  {
    node.position == p && node.checkRadius == prefab.checkRadius
    && node.isUsable == UsableAfter(prefab.isUsable, world.obstacles(p, prefab.checkRadius))
  }

  predicate Distinct<T(==)>(s: seq<T>) {
    forall i, j :: 0 <= i < j < |s| ==> s[i] != s[j]
  }

  // ---------------------------------------------------------------------
  // The edges

  /** The edge rule of ConnectNodes: `other` becomes a neighbour of `node`
      when both are usable, they are different nodes, the line between them
      is clear and they are within the connection distance. */
  predicate Connects(world: World, connectionDistance: real, node: Node, other: Node)
    reads node, other
  {
    && node.isUsable && other != node && other.isUsable
    && !world.blocked(node.position, other.position)
    && world.distance(node.position, other.position) <= connectionDistance
  }

  /** The neighbours `node` gets from the first k nodes of the list. */
  function NeighboursUpTo(world: World, connectionDistance: real, nodes: seq<Node>, node: Node, k: nat): (r: seq<Node>)
    requires k <= |nodes|
    reads (set n | n in nodes), node
    ensures |r| <= k
  {
    if k == 0 then []
    else NeighboursUpTo(world, connectionDistance, nodes, node, k - 1)
         + (if Connects(world, connectionDistance, node, nodes[k - 1]) then [nodes[k - 1]] else [])
  }

  /** The neighbour list ConnectNodes gives `node`. */
  function Neighbours(world: World, connectionDistance: real, nodes: seq<Node>, node: Node): seq<Node>
    reads (set n | n in nodes), node
  {
    NeighboursUpTo(world, connectionDistance, nodes, node, |nodes|)
  }

  lemma {:induction false} NeighboursUpToMember(world: World, connectionDistance: real, nodes: seq<Node>,
                                               node: Node, k: nat, other: Node)
    requires k <= |nodes|
    ensures other in NeighboursUpTo(world, connectionDistance, nodes, node, k)
            <==> other in nodes[..k] && Connects(world, connectionDistance, node, other)
    decreases k
  {
    if k > 0 {
      NeighboursUpToMember(world, connectionDistance, nodes, node, k - 1, other);
      assert nodes[..k] == nodes[..k - 1] + [nodes[k - 1]];
    }
  }

  /** A node is a neighbour exactly when it is in the list and the edge
      rule holds; so an unusable node has no neighbours and no node is its
      own neighbour. */
  lemma NeighboursMember(world: World, connectionDistance: real, nodes: seq<Node>, node: Node, other: Node)
    ensures other in Neighbours(world, connectionDistance, nodes, node)
            <==> other in nodes && Connects(world, connectionDistance, node, other)
    ensures node !in Neighbours(world, connectionDistance, nodes, node)
    ensures !node.isUsable ==> Neighbours(world, connectionDistance, nodes, node) == []
  {
    NeighboursUpToMember(world, connectionDistance, nodes, node, |nodes|, other);
    NeighboursUpToMember(world, connectionDistance, nodes, node, |nodes|, node);
    assert nodes[..|nodes|] == nodes;
    if !node.isUsable {
      var ns := Neighbours(world, connectionDistance, nodes, node);
      if ns != [] {
        NeighboursUpToMember(world, connectionDistance, nodes, node, |nodes|, ns[0]);
      }
    }
  }

  /** A list without repeated nodes gives neighbour lists without repeats. */
  lemma {:induction false} NeighboursUpToDistinct(world: World, connectionDistance: real, nodes: seq<Node>,
                                                 node: Node, k: nat)
    requires k <= |nodes| && Distinct(nodes)
    ensures Distinct(NeighboursUpTo(world, connectionDistance, nodes, node, k))
    decreases k
  {
    if k > 0 {
      NeighboursUpToDistinct(world, connectionDistance, nodes, node, k - 1);
      NeighboursUpToMember(world, connectionDistance, nodes, node, k - 1, nodes[k - 1]);
      assert nodes[k - 1] !in nodes[..k - 1];
    }
  }

  lemma NeighboursDistinct(world: World, connectionDistance: real, nodes: seq<Node>, node: Node)
    requires Distinct(nodes)
    ensures Distinct(Neighbours(world, connectionDistance, nodes, node))
  {
    NeighboursUpToDistinct(world, connectionDistance, nodes, node, |nodes|);
  }

  /** With a symmetric Linecast (and distance), the graph is undirected. */
  lemma NeighboursSymmetric(world: World, connectionDistance: real, nodes: seq<Node>, a: Node, b: Node)
    requires forall p, q :: world.blocked(p, q) == world.blocked(q, p)
    requires forall p, q :: world.distance(p, q) == world.distance(q, p)
    requires a in nodes && b in nodes
    ensures b in Neighbours(world, connectionDistance, nodes, a) <==> a in Neighbours(world, connectionDistance, nodes, b)
  {
    NeighboursMember(world, connectionDistance, nodes, a, b);
    NeighboursMember(world, connectionDistance, nodes, b, a);
    assert world.blocked(a.position, b.position) == world.blocked(b.position, a.position);
    assert world.distance(a.position, b.position) == world.distance(b.position, a.position);
  }

  // ---------------------------------------------------------------------
  // NodeSpawner

  /** The NodeSpawner MonoBehaviour: the inspector values, its transform
      position, and its own node list and graph, which nothing writes. */
  class NodeSpawner {
    var gridWidth: real
    var gridHeight: real
    var spacing: real
    var connectionDistance: real
    const origin: Vec
    const nodePrefab: Prefab
    var allNodes: seq<Node>
    var nodeGraph: map<Node, seq<Node>>

    /** The private list and graph stay as they were created: empty. */
    predicate Valid()
      reads this
    {
      allNodes == [] && nodeGraph == map[]
    }

    /** The inspector defaults. */
    constructor(origin: Vec, nodePrefab: Prefab)
      ensures gridWidth == 10.0 && gridHeight == 10.0 && spacing == 2.0 && connectionDistance == 1.0
      ensures this.origin == origin && this.nodePrefab == nodePrefab
      ensures Valid()
    {
      gridWidth, gridHeight, spacing, connectionDistance := 10.0, 10.0, 2.0, 1.0;
      this.origin := origin;
      this.nodePrefab := nodePrefab;
      allNodes, nodeGraph := [], map[];
    }

    /** The candidate positions of the current grid. */
    function GridCandidates(): seq<Vec>
      requires spacing > 0.0
      reads this
    {
      Candidates(origin, gridWidth, gridHeight, spacing, CellCount(gridWidth, spacing), CellCount(gridHeight, spacing))
    }

    /** NodeSpawner.SpawnNodeGrid: the shared list is cleared, then a new
        node is spawned at every candidate, x-major, and kept (after
        Initialize) exactly when Kept says so. */
    method SpawnNodeGrid(gm: GameManager, world: World)
      requires spacing > 0.0
      modifies gm
      ensures gm.nodeGraph == old(gm.nodeGraph) && gm.mapSize == old(gm.mapSize)
      ensures var kept := KeptPositions(world, nodePrefab, GridCandidates());
        && |gm.allNodes| == |kept|
        && forall i :: 0 <= i < |kept| ==> SpawnedAt(world, nodePrefab, gm.allNodes[i], kept[i])
      ensures Distinct(gm.allNodes) && forall n :: n in gm.allNodes ==> fresh(n)
    {
      gm.allNodes := [];
      var nodeCountX := CellCount(gridWidth, spacing);
      var nodeCountY := CellCount(gridHeight, spacing);
      for x := 0 to nodeCountX
        invariant gm.nodeGraph == old(gm.nodeGraph) && gm.mapSize == old(gm.mapSize)
        invariant SpawnedAll(world, gm.allNodes, Candidates(origin, gridWidth, gridHeight, spacing, x, nodeCountY))
        invariant forall n :: n in gm.allNodes ==> fresh(n)
      {
        SpawnColumn(gm, world, x, nodeCountY, Candidates(origin, gridWidth, gridHeight, spacing, x, nodeCountY));
      }
    }

    /** The inner loop of SpawnNodeGrid: column x of the grid. */
    method SpawnColumn(gm: GameManager, world: World, x: int, nodeCountY: nat, ghost visited: seq<Vec>)
      requires SpawnedAll(world, gm.allNodes, visited)
      modifies gm
      ensures SpawnedAll(world, gm.allNodes, visited + Column(origin, gridWidth, gridHeight, spacing, x, nodeCountY))
      ensures gm.nodeGraph == old(gm.nodeGraph) && gm.mapSize == old(gm.mapSize)
      ensures forall n :: n in gm.allNodes ==> n in old(gm.allNodes) || fresh(n)
    {
      ghost var column := Column(origin, gridWidth, gridHeight, spacing, x, nodeCountY);
      assert visited + column[..0] == visited;
      for y := 0 to nodeCountY
        invariant SpawnedAll(world, gm.allNodes, visited + column[..y])
        invariant gm.nodeGraph == old(gm.nodeGraph) && gm.mapSize == old(gm.mapSize)
        invariant forall n :: n in gm.allNodes ==> n in old(gm.allNodes) || fresh(n)
      {
        var spawnPosition := CellPosition(origin, gridWidth, gridHeight, spacing, x, y);
        assert visited + column[..y + 1] == (visited + column[..y]) + [spawnPosition];
        SpawnOne(gm, world, spawnPosition, visited + column[..y]);
      }
      assert column[..nodeCountY] == column;
    }

    /** The nodes of the list so far are the fresh nodes spawned at the
        kept positions among `visited`. */
    ghost predicate SpawnedAll(world: World, nodes: seq<Node>, visited: seq<Vec>)
      reads this, set n | n in nodes
    {
      var kept := KeptPositions(world, nodePrefab, visited);
      && |nodes| == |kept|
      && (forall i :: 0 <= i < |kept| ==> SpawnedAt(world, nodePrefab, nodes[i], kept[i]))
      && Distinct(nodes)
    }

    /** The body of the inner loop of SpawnNodeGrid for one candidate. */
    method SpawnOne(gm: GameManager, world: World, spawnPosition: Vec, ghost visited: seq<Vec>)
      requires SpawnedAll(world, gm.allNodes, visited)
      modifies gm
      ensures SpawnedAll(world, gm.allNodes, visited + [spawnPosition])
      ensures gm.nodeGraph == old(gm.nodeGraph) && gm.mapSize == old(gm.mapSize)
      ensures forall n :: n in gm.allNodes ==> n in old(gm.allNodes) || fresh(n)
    {
      assert (visited + [spawnPosition])[..|visited|] == visited;
      var node := new Node(nodePrefab, spawnPosition);
      var touching := node.CheckIfTouching(world);
      if touching && node.isUsable {
        node.Initialize(world, spawnPosition, node.checkRadius);
        gm.allNodes := gm.allNodes + [node];
      }
    }

    /** NodeSpawner.ConnectNodes: every node of the shared list gets a new
        neighbour list built by the edge rule in list order; the entries of
        nodes not in the list are kept as they were. */
    method ConnectNodes(gm: GameManager, world: World)
      modifies gm
      ensures gm.allNodes == old(gm.allNodes) && gm.mapSize == old(gm.mapSize)
      ensures gm.nodeGraph.Keys == old(gm.nodeGraph).Keys + (set n | n in gm.allNodes)
      ensures forall n :: n in gm.allNodes ==> gm.nodeGraph[n] == Neighbours(world, connectionDistance, gm.allNodes, n)
      ensures forall n :: n in gm.nodeGraph && n !in gm.allNodes ==> gm.nodeGraph[n] == old(gm.nodeGraph)[n]
    {
      var nodes := gm.allNodes;
      for i := 0 to |nodes|
        invariant gm.allNodes == nodes && gm.mapSize == old(gm.mapSize)
        invariant gm.nodeGraph.Keys == old(gm.nodeGraph).Keys + (set n | n in nodes[..i])
        invariant forall n :: n in nodes[..i] ==> gm.nodeGraph[n] == Neighbours(world, connectionDistance, nodes, n)
        invariant forall n :: n in gm.nodeGraph && n !in nodes[..i] ==> gm.nodeGraph[n] == old(gm.nodeGraph)[n]
      {
        assert nodes[..i + 1] == nodes[..i] + [nodes[i]];
        ConnectNode(gm, world, nodes, nodes[i]);
      }
      assert nodes[..|nodes|] == nodes;
    }

    /** One pass of the outer loop of ConnectNodes: the neighbour list of
        `node`, empty when the node is unusable. (The source stores the new
        list first and appends to it in place; the list is built here and
        then stored, which ends in the same dictionary.) */
    method ConnectNode(gm: GameManager, world: World, nodes: seq<Node>, node: Node)
      modifies gm
      ensures gm.allNodes == old(gm.allNodes) && gm.mapSize == old(gm.mapSize)
      ensures gm.nodeGraph.Keys == old(gm.nodeGraph).Keys + {node}
      ensures gm.nodeGraph[node] == Neighbours(world, connectionDistance, nodes, node)
      ensures forall n :: n in gm.nodeGraph && n != node ==> gm.nodeGraph[n] == old(gm.nodeGraph)[n]
    {
      gm.nodeGraph := gm.nodeGraph[node := []];
      if !node.isUsable {
        NeighboursMember(world, connectionDistance, nodes, node, node);
        return;
      }
      var neighbours: seq<Node> := [];
      for k := 0 to |nodes|
        invariant neighbours == NeighboursUpTo(world, connectionDistance, nodes, node, k)
      {
        var otherNode := nodes[k];
        if otherNode != node && otherNode.isUsable {
          var hit := world.blocked(node.position, otherNode.position);
          if !hit {
            var distance := world.distance(node.position, otherNode.position);
            if distance <= connectionDistance {
              neighbours := neighbours + [otherNode];
            }
          }
        }
      }
      gm.nodeGraph := gm.nodeGraph[node := neighbours];
    }

    /** NodeSpawner.Start: the grid is square, ten units per map cell, and is
        spawned and connected; the spawner's own list and graph stay as they
        are. */
    method Start(gm: GameManager, world: World)
      requires spacing > 0.0
      modifies this, gm
      ensures gridHeight == (old(gm.mapSize) * 10) as real && gridWidth == gridHeight
      ensures spacing == old(spacing) && connectionDistance == old(connectionDistance)
      ensures allNodes == old(allNodes) && nodeGraph == old(nodeGraph)
      ensures var kept := KeptPositions(world, nodePrefab, GridCandidates());
        && |gm.allNodes| == |kept|
        && forall i :: 0 <= i < |kept| ==> SpawnedAt(world, nodePrefab, gm.allNodes[i], kept[i])
      ensures Distinct(gm.allNodes) && forall n :: n in gm.allNodes ==> fresh(n)
      ensures gm.nodeGraph.Keys == old(gm.nodeGraph).Keys + (set n | n in gm.allNodes)
      ensures forall n :: n in gm.allNodes ==> gm.nodeGraph[n] == Neighbours(world, connectionDistance, gm.allNodes, n)
    {
      gridHeight := (gm.mapSize * 10) as real;
      gridWidth := gridHeight;
      SpawnNodeGrid(gm, world);
      ConnectNodes(gm, world);
    }

    /** NodeSpawner.GetAllNodes: the spawner's own list, which is never
        filled. */
    method GetAllNodes() returns (nodes: seq<Node>)
      requires Valid()
      ensures nodes == []
    {
      nodes := allNodes;
    }

    /** NodeSpawner.GetNodeGraph: the spawner's own graph, which is never
        filled. */
    method GetNodeGraph() returns (graph: map<Node, seq<Node>>)
      requires Valid()
      ensures graph == map[]
    {
      graph := nodeGraph;
    }
  }
}
