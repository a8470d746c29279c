/** The dungeon generator of MapGen.cs: a random walk from the centre of a
    square grid that carves open rooms, surrounds them with walls, marks the
    cell at three quarters of the walk as the VIP room and the last cell as
    the exit, and restarts the whole attempt when a step leaves the inner
    ring, lands on the entrance, or the three special cells coincide.

    The grid is specified as a value (`Grid`, a sequence of columns) by pure
    functions; the methods at the end carve an `array2<int>` in place, as the
    C# code carves its `int[,]`, and are proved to agree with those
    functions cell by cell. */
module MapGen {
  import opened Common
  import opened Grids

  // Cell values written into the matrix.
  const EmptyCell: int := 0
  const Entrance: int := 1
  const Exit: int := 2
  const Wall: int := 3
  const OpenRoom: int := 4
  const VipRoom: int := 5

  /** MapGen.IsInBounds: the walk stays off the outermost ring, so every
      neighbour of an accepted cell is a cell of the grid. */
  function IsInBounds(n: int, p: Pos): (r: bool)
    ensures r ==> InGrid(n, p)
    ensures r ==> 0 <= p.x - 1 && p.x + 1 < n && 0 <= p.y - 1 && p.y + 1 < n
    ensures !r ==> p.x < 1 || p.x >= n - 1 || p.y < 1 || p.y >= n - 1
  {
    p.x >= 1 && p.x < n - 1 && p.y >= 1 && p.y < n - 1
  }

  /** The entrance: the centre of the grid (integer division). */
  function StartCell(n: int): Pos {
    Pos(n / 2, n / 2)
  }

  // ---------------------------------------------------------------------
  // Walls

  /** Which cell the exit test of the right-hand neighbour reads: the code as
      written reads the up-right cell [x+1, y+1]; the corrected rule reads the
      cell it is about to overwrite. */
  datatype WallRule = AsWritten | Corrected

  predicate IsNeighbour(c: Pos, p: Pos) {
    p != c && c.x - 1 <= p.x <= c.x + 1 && c.y - 1 <= p.y <= c.y + 1
  }

  function RightOf(c: Pos): Pos {
    Pos(c.x + 1, c.y)
  }

  /** The cell whose value is compared with Exit before walling p. */
  function Probe(rule: WallRule, c: Pos, p: Pos): Pos {
    if rule == AsWritten && p == RightOf(c) then Pos(c.x + 1, c.y + 1) else p
  }

  /** The offsets of the eight guarded writes of PlaceWallsAround, in the
      order of the source: up, down, left, right, up-right, up-left,
      down-right, down-left. */
  function Offset(k: int): Pos
    requires 0 <= k < 8
  {
    [Pos(0, 1), Pos(0, -1), Pos(-1, 0), Pos(1, 0), Pos(1, 1), Pos(-1, 1), Pos(1, -1), Pos(-1, -1)][k]
  }

  function Target(c: Pos, k: int): Pos
    requires 0 <= k < 8
  {
    Pos(c.x + Offset(k).x, c.y + Offset(k).y)
  }

  /** The write that targets the neighbour p of c: Target(c, Slot(c, p)) is p,
      and the slot of a cell that is no neighbour is 8. */
  function Slot(c: Pos, p: Pos): (k: int)
    ensures 0 <= k <= 8
    ensures k < 8 <==> IsNeighbour(c, p)
    ensures k < 8 ==> Target(c, k) == p
  {
    var (dx, dy) := (p.x - c.x, p.y - c.y);
    if dx == 0 && dy == 1 then 0
    else if dx == 0 && dy == -1 then 1
    else if dx == -1 && dy == 0 then 2
    else if dx == 1 && dy == 0 then 3
    else if dx == 1 && dy == 1 then 4
    else if dx == -1 && dy == 1 then 5
    else if dx == 1 && dy == -1 then 6
    else if dx == -1 && dy == -1 then 7
    else 8
  }

  /** The eight writes hit eight different cells, and the cell each test
      probes is not written by an earlier write. */
  lemma SlotFacts(c: Pos, rule: WallRule, k: int)
    requires 0 <= k < 8
    ensures Slot(c, Target(c, k)) == k
    ensures forall j :: 0 <= j < k ==> Target(c, j) != Probe(rule, c, Target(c, k))
  {
  }

  /** The test of one guarded write of PlaceWallsAround: the target holds no
      open room, entrance or VIP room, and the probed cell holds no exit. */
  predicate Wallable(g: Grid, n: int, target: Pos, probe: Pos)
    requires IsGrid(g, n) && InGrid(n, target) && InGrid(n, probe)
  {
    At(g, n, target) != OpenRoom && At(g, n, target) != Entrance && At(g, n, target) != VipRoom
    && At(g, n, probe) != Exit
  }

  /** One guarded write of PlaceWallsAround. */
  function WallIf(g: Grid, n: int, guard: bool, target: Pos, probe: Pos): (r: Grid)
    requires IsGrid(g, n)
    requires guard ==> InGrid(n, target) && InGrid(n, probe)
    ensures IsGrid(r, n)
  {
    if guard && Wallable(g, n, target, probe) then Set(g, n, target, Wall) else g
  }

  /** The writes numbered k to 7 of PlaceWallsAround around c. */
  function WallsFrom(g: Grid, n: int, c: Pos, rule: WallRule, k: int): (r: Grid)
    requires IsGrid(g, n) && 0 <= k <= 8
    ensures IsGrid(r, n)
    decreases 8 - k
  {
    if k == 8 then g
    else
      var t := Target(c, k);
      WallsFrom(WallIf(g, n, IsInBounds(n, c), t, Probe(rule, c, t)), n, c, rule, k + 1)
  }

  /** MapGen.PlaceWallsAround as a function: the eight guarded writes in the
      order of the source. */
  function PlaceWalls(g: Grid, n: int, c: Pos, rule: WallRule): (r: Grid)
    requires IsGrid(g, n)
    ensures IsGrid(r, n)
  {
    WallsFrom(g, n, c, rule, 0)
  }

  /** The cells PlaceWallsAround(c) turns into walls, judged on the grid it
      starts from. */
  predicate Walled(g: Grid, n: int, c: Pos, rule: WallRule, p: Pos)
    requires IsGrid(g, n) && InGrid(n, p)
  {
    IsInBounds(n, c) && IsNeighbour(c, p) && Wallable(g, n, p, Probe(rule, c, p))
  }

  /** The writes from k on wall exactly the cells with a slot from k on that
      Walled accepts on the grid they start from. */
  lemma {:induction false} WallsFromCell(g: Grid, n: int, c: Pos, rule: WallRule, k: int, p: Pos)
    requires IsGrid(g, n) && InGrid(n, p) && 0 <= k <= 8
    ensures At(WallsFrom(g, n, c, rule, k), n, p)
            == if k <= Slot(c, p) && Walled(g, n, c, rule, p) then Wall else At(g, n, p)
    decreases 8 - k
  {
    if k < 8 {
      var b := IsInBounds(n, c);
      var t := Target(c, k);
      var g' := WallIf(g, n, b, t, Probe(rule, c, t));
      WallsFromCell(g', n, c, rule, k + 1, p);
      SlotFacts(c, rule, k);
      if p != t {
        assert At(g', n, p) == At(g, n, p);
      }
      if b && k < Slot(c, p) < 8 {
        // the cell the test of p probes is not written by write k
        SlotFacts(c, rule, Slot(c, p));
        assert At(g', n, Probe(rule, c, p)) == At(g, n, Probe(rule, c, p));
      }
    }
  }

  /** The eight sequential writes of PlaceWalls act as one simultaneous
      rule: a cell becomes a wall exactly when Walled says so on the grid the
      call starts from, and every other cell keeps its value. */
  lemma PlaceWallsCell(g: Grid, n: int, c: Pos, rule: WallRule, p: Pos)
    requires IsGrid(g, n) && InGrid(n, p)
    ensures At(PlaceWalls(g, n, c, rule), n, p) == if Walled(g, n, c, rule, p) then Wall else At(g, n, p)
  {
    WallsFromCell(g, n, c, rule, 0, p);
  }

  /** What PlaceWalls can and cannot do to a cell: it writes only walls, only
      around an in-bounds centre, never over an open room, the entrance or
      the VIP room, and over the exit only as the right-hand neighbour under
      the code as written. */
  lemma PlaceWallsEffect(g: Grid, n: int, c: Pos, rule: WallRule, p: Pos)
    requires IsGrid(g, n) && InGrid(n, p)
    ensures var r := PlaceWalls(g, n, c, rule);
      && (At(r, n, p) != At(g, n, p) ==> At(r, n, p) == Wall && IsNeighbour(c, p) && IsInBounds(n, c))
      && (At(g, n, p) in {Entrance, OpenRoom, VipRoom} ==> At(r, n, p) == At(g, n, p))
      && (At(g, n, p) == Exit && (rule == Corrected || p != RightOf(c)) ==> At(r, n, p) == Exit)
  {
    PlaceWallsCell(g, n, c, rule, p);
  }

  /** The typo in the right-hand test (MapGen.cs:201): an exit to the right of
      the walled cell is overwritten by a wall, which the corrected test
      prevents. */
  lemma RightNeighbourExitOverwritten()
    ensures var g := Set(Filled(3, EmptyCell), 3, Pos(2, 1), Exit);
      && At(PlaceWalls(g, 3, Pos(1, 1), AsWritten), 3, Pos(2, 1)) == Wall
      && At(PlaceWalls(g, 3, Pos(1, 1), Corrected), 3, Pos(2, 1)) == Exit
  {
    var g := Set(Filled(3, EmptyCell), 3, Pos(2, 1), Exit);
    assert Walled(g, 3, Pos(1, 1), AsWritten, Pos(2, 1));
    assert !Walled(g, 3, Pos(1, 1), Corrected, Pos(2, 1));
    PlaceWallsCell(g, 3, Pos(1, 1), AsWritten, Pos(2, 1));
    PlaceWallsCell(g, 3, Pos(1, 1), Corrected, Pos(2, 1));
  }

  // ---------------------------------------------------------------------
  // Direction tokens

  predicate IsToken(s: string) {
    s == "u" || s == "d" || s == "l" || s == "r"
  }

  /** t undoes s: up/down or left/right. */
  predicate IsReversal(s: string, t: string) {
    (s == "u" && t == "d") || (s == "d" && t == "u") || (s == "l" && t == "r") || (s == "r" && t == "l")
  }

  function Token(d: int): string
    requires 0 <= d < 4
  {
    if d == 0 then "u" else if d == 1 then "d" else if d == 2 then "l" else "r"
  }

  /** A draw of Random.Range(0, 4) that MapGen.Directions keeps after the
      previously kept draw prev (-1 before the first). */
  predicate Accepts(prev: int, d: int) {
    (d == 0 && prev != 1) || (d == 1 && prev != 0) || (d == 2 && prev != 3) || (d == 3 && prev != 2)
  }

  /** Reference definition of MapGen.Directions: the tokens kept from the
      draws while fewer than `need` are kept, and the draws left unused. */
  function DrawTokens(need: int, prev: int, draws: seq<int>): (seq<string>, seq<int>)
    decreases |draws|
  {
    if need <= 0 || draws == [] then ([], draws)
    else if Accepts(prev, draws[0]) then
      var r := DrawTokens(need - 1, draws[0], draws[1..]);
      ([Token(draws[0])] + r.0, r.1)
    else
      DrawTokens(need, prev, draws[1..])
  }

  predicate WellFormedDirections(dirs: seq<string>) {
    && (forall i :: 0 <= i < |dirs| ==> IsToken(dirs[i]))
    && (forall i :: 0 < i < |dirs| ==> !IsReversal(dirs[i - 1], dirs[i]))
  }

  /** The kept tokens: at most `need` of them and exactly `need` unless the
      draws ran out; each one of u, d, l, r; none the reverse of the one
      before it (nor of the draw prev); the unused draws are a suffix. */
  lemma {:induction false} DrawTokensFacts(need: int, prev: int, draws: seq<int>)
    requires -1 <= prev < 4
    ensures var (dirs, rest) := DrawTokens(need, prev, draws);
      && |dirs| <= Max(need, 0)
      && (|dirs| == Max(need, 0) || rest == [])
      && WellFormedDirections(dirs)
      && (|dirs| > 0 && prev >= 0 ==> !IsReversal(Token(prev), dirs[0]))
      && |rest| <= |draws| && rest == draws[|draws| - |rest|..]
    decreases |draws|
  {
    if need <= 0 || draws == [] {
    } else if Accepts(prev, draws[0]) {
      DrawTokensFacts(need - 1, draws[0], draws[1..]);
      var r := DrawTokens(need - 1, draws[0], draws[1..]);
      var dirs := [Token(draws[0])] + r.0;
      assert forall i :: 0 < i < |dirs| ==> dirs[i] == r.0[i - 1];
      assert draws[1..][|draws| - 1 - |r.1|..] == draws[|draws| - |r.1|..];
    } else {
      DrawTokensFacts(need, prev, draws[1..]);
      var r := DrawTokens(need, prev, draws[1..]);
      assert draws[1..][|draws| - 1 - |r.1|..] == draws[|draws| - |r.1|..];
    }
  }

  /** MapGen.Directions: draws Random.Range(0, 4) values from `draws` until it
      has kept x tokens, discarding a draw that would reverse the previous
      kept one without counting it. The source draws for ever; here the draws
      may run out first, and `rest` is what is left of them. */
  method Directions(x: int, draws: seq<int>) returns (directions: seq<string>, rest: seq<int>)
    ensures directions == DrawTokens(x, -1, draws).0 && rest == DrawTokens(x, -1, draws).1
    ensures |directions| <= Max(x, 0) && (|directions| == Max(x, 0) || rest == [])
    ensures WellFormedDirections(directions)
  {
    directions := [];
    var prevDirection := -1;
    var i := 0;
    var k := 0;
    assert draws[0..] == draws;
    assert directions + DrawTokens(x, -1, draws).0 == DrawTokens(x, -1, draws).0;
    while i < x && k < |draws|
      invariant 0 <= k <= |draws| && -1 <= prevDirection < 4
      invariant i == |directions|
      invariant DrawTokens(x, -1, draws).0 == directions + DrawTokens(x - i, prevDirection, draws[k..]).0
      invariant DrawTokens(x, -1, draws).1 == DrawTokens(x - i, prevDirection, draws[k..]).1
      decreases |draws| - k
    {
      var direc := draws[k];
      assert draws[k..][0] == direc && draws[k..][1..] == draws[k + 1..];
      if Accepts(prevDirection, direc) {
        var r := DrawTokens(x - i - 1, direc, draws[k + 1..]);
        assert DrawTokens(x - i, prevDirection, draws[k..]) == ([Token(direc)] + r.0, r.1);
        assert directions + ([Token(direc)] + r.0) == (directions + [Token(direc)]) + r.0;
      } else {
        assert DrawTokens(x - i, prevDirection, draws[k..]) == DrawTokens(x - i, prevDirection, draws[k + 1..]);
      }
      k := k + 1;
      if direc == 0 && prevDirection != 1 {
        directions := directions + ["u"];
        i := i + 1;
        prevDirection := direc;
      } else if direc == 1 && prevDirection != 0 {
        directions := directions + ["d"];
        i := i + 1;
        prevDirection := direc;
      } else if direc == 2 && prevDirection != 3 {
        directions := directions + ["l"];
        i := i + 1;
        prevDirection := direc;
      } else if direc == 3 && prevDirection != 2 {
        directions := directions + ["r"];
        i := i + 1;
        prevDirection := direc;
      }
    }
    rest := draws[k..];
    assert DrawTokens(x - i, prevDirection, rest) == ([], rest);
    assert directions + [] == directions;
    DrawTokensFacts(x, -1, draws);
  }

  // ---------------------------------------------------------------------
  // One attempt of GenerateDungeonFromDirections

  /** The offset of a token; None for a token the switch rejects. */
  function Move(tok: string): Option<Pos> {
    if tok == "u" then Some(Pos(0, 1))
    else if tok == "d" then Some(Pos(0, -1))
    else if tok == "l" then Some(Pos(-1, 0))
    else if tok == "r" then Some(Pos(1, 0))
    else None
  }

  /** Where the walk stands after the first t tokens (an invalid token does
      not move it). */
  function Position(n: int, dirs: seq<string>, t: nat): Pos
    requires t <= |dirs|
  {
    if t == 0 then StartCell(n)
    else
      var p := Position(n, dirs, t - 1);
      match Move(dirs[t - 1])
      case None => p
      case Some(d) => Pos(p.x + d.x, p.y + d.y)
  }

  /** Index of the token after which the VIP room is captured. */
  function VipIndex(count: int): int {
    count * 3 / 4
  }

  /** The VIP index names one of the tokens, and it names the last one
      exactly when there are at most four. */
  lemma VipIndexRange(count: int)
    requires count >= 1
    ensures 0 <= VipIndex(count) < count
    ensures VipIndex(count) == count - 1 <==> count <= 4
  {
    if count <= 4 {
      assert count == 1 || count == 2 || count == 3 || count == 4;
    } else {
      assert count * 3 / 4 <= (count * 3) / 4;
      assert count * 3 < 4 * (count - 1);
    }
  }

  /** The VIP position once the first k tokens are walked: the cell reached by
      token VipIndex, unless that token was invalid or is not yet walked. */
  function VipAfter(n: int, dirs: seq<string>, k: nat): Pos
    requires k <= |dirs|
  {
    var v := VipIndex(|dirs|);
    if 0 <= v < k && Move(dirs[v]).Some? then Position(n, dirs, v + 1) else StartCell(n)
  }

  datatype Walk = Walking(grid: Grid, at: Pos, vip: Pos) | Rejected

  /** The loop of GenerateDungeonFromDirections over the first k tokens:
      each valid step moves, and either carves an open room with walls
      around it or, off the inner ring or onto the entrance, abandons the
      attempt. */
  function WalkPrefix(n: int, dirs: seq<string>, k: nat, rule: WallRule): (w: Walk)
    requires n >= 1 && k <= |dirs|
    ensures w.Walking? ==> IsGrid(w.grid, n)
  {
    if k == 0 then
      Walking(Set(Filled(n, EmptyCell), n, StartCell(n), Entrance), StartCell(n), StartCell(n))
    else
      var w := WalkPrefix(n, dirs, k - 1, rule);
      match w
      case Rejected => Rejected
      case Walking(g, at, vip) =>
        match Move(dirs[k - 1])
        case None => w
        case Some(d) =>
          var next := Pos(at.x + d.x, at.y + d.y);
          if IsInBounds(n, next) && At(g, n, next) != Entrance then
            var g' := PlaceWalls(Set(g, n, next, OpenRoom), n, next, rule);
            Walking(g', next, if k - 1 == VipIndex(|dirs|) then next else vip)
          else
            Rejected
  }

  datatype Kind = Succeeded | StepRejected | Coincident

  datatype Layout = Layout(grid: Grid, vip: Pos, exit: Pos)

  datatype Attempt = Done(layout: Layout) | Failed(kind: Kind) {
    function KindOf(): Kind {
      if Done? then Succeeded else kind
    }
  }

  /** The finishing writes of a walk that ended at e with VIP v. */
  function Finish(g: Grid, n: int, v: Pos, e: Pos, rule: WallRule): Grid
    requires IsGrid(g, n) && InGrid(n, v) && InGrid(n, e)
  {
    var g1 := Set(g, n, e, Exit);
    var g2 := Set(g1, n, v, VipRoom);
    var g3 := PlaceWalls(g2, n, v, rule);
    PlaceWalls(g3, n, StartCell(n), rule)
  }

  /** One call of GenerateDungeonFromDirections, up to its retry. */
  function AttemptOf(n: int, dirs: seq<string>, rule: WallRule): Attempt
    requires n >= 1
  {
    match WalkPrefix(n, dirs, |dirs|, rule)
    case Rejected => Failed(StepRejected)
    case Walking(g, e, v) =>
      if v == StartCell(n) || e == StartCell(n) || e == v then Failed(Coincident)
      else if InGrid(n, v) && InGrid(n, e) then Done(Layout(Finish(g, n, v, e, rule), v, e))
      else Failed(Coincident) // not reached: see WalkFacts
  }

  // ---------------------------------------------------------------------
  // Facts about the walk

  /** A valid step numbered t (1-based) lands in the inner ring, off the
      entrance. */
  predicate AcceptedStep(n: int, dirs: seq<string>, t: nat)
    requires 0 < t <= |dirs|
  {
    Move(dirs[t - 1]).Some? ==> IsInBounds(n, Position(n, dirs, t)) && Position(n, dirs, t) != StartCell(n)
  }

  /** How an attempt ends, from the geometry of the walk alone: rejected
      when some valid step leaves the inner ring or lands on the entrance,
      coincident when two of entrance, VIP room and exit share a cell. */
  function AttemptKind(n: int, dirs: seq<string>): Kind {
    if exists t :: 0 < t <= |dirs| && !AcceptedStep(n, dirs, t) then StepRejected
    else
      var v, e := VipAfter(n, dirs, |dirs|), Position(n, dirs, |dirs|);
      if v == StartCell(n) || e == StartCell(n) || e == v then Coincident else Succeeded
  }

  /** The grid of a walk in progress: the entrance is at the start and
      nowhere else, and every cell is empty, a wall or an open room. */
  ghost predicate WalkGrid(g: Grid, n: int)
  {
    && IsGrid(g, n) && InGrid(n, StartCell(n))
    && (forall p :: InGrid(n, p) ==> (At(g, n, p) == Entrance <==> p == StartCell(n)))
    && (forall p :: InGrid(n, p) ==> At(g, n, p) in {EmptyCell, Entrance, Wall, OpenRoom})
  }

  /** Carving an open room at an in-bounds cell off the entrance, and walling
      it, keeps the walk grid invariant and keeps every open room open. */
  lemma CarveKeepsWalkGrid(g: Grid, n: int, next: Pos, rule: WallRule)
    requires WalkGrid(g, n) && IsInBounds(n, next) && next != StartCell(n)
    ensures var g' := PlaceWalls(Set(g, n, next, OpenRoom), n, next, rule);
      && WalkGrid(g', n)
      && At(g', n, next) == OpenRoom
      && (forall p :: InGrid(n, p) && At(g, n, p) == OpenRoom ==> At(g', n, p) == OpenRoom)
  {
    var g1 := Set(g, n, next, OpenRoom);
    var g' := PlaceWalls(g1, n, next, rule);
    forall p | InGrid(n, p)
      ensures At(g', n, p) in {EmptyCell, Entrance, Wall, OpenRoom}
      ensures At(g', n, p) == Entrance <==> p == StartCell(n)
      ensures At(g, n, p) == OpenRoom || p == next ==> At(g', n, p) == OpenRoom
    {
      PlaceWallsEffect(g1, n, next, rule, p);
    }
  }

  /** What holds after walking k tokens without a rejection. */
  ghost predicate WalkFacts(n: int, dirs: seq<string>, k: nat, w: Walk)
    requires n >= 1 && k <= |dirs|
  {
    && w.Walking?
    && WalkGrid(w.grid, n)
    && w.at == Position(n, dirs, k)
    && w.vip == VipAfter(n, dirs, k)
    && (w.at == StartCell(n) || IsInBounds(n, w.at))
    && (w.vip == StartCell(n) || IsInBounds(n, w.vip))
    && (forall t :: 0 < t <= k ==> AcceptedStep(n, dirs, t))
    && (forall t :: 0 < t <= k && Move(dirs[t - 1]).Some? ==>
          IsInBounds(n, Position(n, dirs, t)) && At(w.grid, n, Position(n, dirs, t)) == OpenRoom)
  }

  lemma WalkFactsStart(n: int, dirs: seq<string>, rule: WallRule)
    requires n >= 1
    ensures WalkFacts(n, dirs, 0, WalkPrefix(n, dirs, 0, rule))
  {
    var c := StartCell(n);
    var g := Set(Filled(n, EmptyCell), n, c, Entrance);
    assert InGrid(n, c);
    assert forall p :: InGrid(n, p) ==> At(g, n, p) == if p == c then Entrance else EmptyCell;
  }

  lemma VipAfterStep(n: int, dirs: seq<string>, k: nat)
    requires 0 < k <= |dirs|
    ensures VipAfter(n, dirs, k) == if k - 1 == VipIndex(|dirs|) && Move(dirs[k - 1]).Some?
                                    then Position(n, dirs, k) else VipAfter(n, dirs, k - 1)
  {
  }

  /** An invalid token leaves the walk where it is. */
  lemma InvalidTokenStep(n: int, dirs: seq<string>, k: nat, rule: WallRule)
    requires n >= 1 && 0 < k <= |dirs| && Move(dirs[k - 1]).None?
    requires WalkFacts(n, dirs, k - 1, WalkPrefix(n, dirs, k - 1, rule))
    ensures AcceptedStep(n, dirs, k)
    ensures WalkFacts(n, dirs, k, WalkPrefix(n, dirs, k, rule))
  {
    VipAfterStep(n, dirs, k);
    assert WalkPrefix(n, dirs, k, rule) == WalkPrefix(n, dirs, k - 1, rule);
    assert Position(n, dirs, k) == Position(n, dirs, k - 1);
  }

  /** The facts after an accepted valid token, stated on the components of
      the walk before and after it. */
  lemma CarriedFacts(n: int, dirs: seq<string>, k: nat, before: Walk, g': Grid, vip': Pos)
    requires n >= 1 && 0 < k <= |dirs| && Move(dirs[k - 1]).Some?
    requires WalkFacts(n, dirs, k - 1, before)
    requires AcceptedStep(n, dirs, k)
    requires vip' == VipAfter(n, dirs, k) && (vip' == StartCell(n) || IsInBounds(n, vip'))
    requires WalkGrid(g', n) && At(g', n, Position(n, dirs, k)) == OpenRoom
    requires forall p :: InGrid(n, p) && At(before.grid, n, p) == OpenRoom ==> At(g', n, p) == OpenRoom
    ensures WalkFacts(n, dirs, k, Walking(g', Position(n, dirs, k), vip'))
  {
    forall t | 0 < t <= k && Move(dirs[t - 1]).Some?
      ensures IsInBounds(n, Position(n, dirs, t)) && At(g', n, Position(n, dirs, t)) == OpenRoom
    {
      if t < k {
        assert IsInBounds(n, Position(n, dirs, t)) && At(before.grid, n, Position(n, dirs, t)) == OpenRoom;
      }
    }
  }

  /** A valid token is accepted exactly when the walk goes on, and then the
      walk stands on the carved cell. */
  lemma ValidTokenStep(n: int, dirs: seq<string>, k: nat, rule: WallRule)
    requires n >= 1 && 0 < k <= |dirs| && Move(dirs[k - 1]).Some?
    requires var w := WalkPrefix(n, dirs, k - 1, rule);
      && w.Walking? && w.at == Position(n, dirs, k - 1) && w.vip == VipAfter(n, dirs, k - 1)
      && forall p :: InGrid(n, p) ==> (At(w.grid, n, p) == Entrance <==> p == StartCell(n))
    ensures WalkPrefix(n, dirs, k, rule).Walking? <==> AcceptedStep(n, dirs, k)
    ensures WalkPrefix(n, dirs, k, rule).Walking? ==>
      var g := WalkPrefix(n, dirs, k - 1, rule).grid;
      var next := Position(n, dirs, k);
      && IsInBounds(n, next)
      && WalkPrefix(n, dirs, k, rule) == Walking(PlaceWalls(Set(g, n, next, OpenRoom), n, next, rule), next, VipAfter(n, dirs, k))
  {
    var w := WalkPrefix(n, dirs, k - 1, rule);
    var d := Move(dirs[k - 1]).value;
    var next := Pos(w.at.x + d.x, w.at.y + d.y);
    assert Position(n, dirs, k) == next;
    VipAfterStep(n, dirs, k);
    if IsInBounds(n, next) && At(w.grid, n, next) == Entrance {
      assert next == StartCell(n);
    }
  }

  /** One token of the walk: it is accepted exactly when the walk goes on,
      and then the facts carry over. */
  lemma WalkFactsStep(n: int, dirs: seq<string>, k: nat, rule: WallRule)
    requires n >= 1 && 0 < k <= |dirs|
    requires WalkFacts(n, dirs, k - 1, WalkPrefix(n, dirs, k - 1, rule))
    ensures WalkPrefix(n, dirs, k, rule).Walking? <==> AcceptedStep(n, dirs, k)
    ensures WalkPrefix(n, dirs, k, rule).Walking? ==> WalkFacts(n, dirs, k, WalkPrefix(n, dirs, k, rule))
  {
    if Move(dirs[k - 1]).None? {
      InvalidTokenStep(n, dirs, k, rule);
    } else {
      ValidTokenStep(n, dirs, k, rule);
      var w := WalkPrefix(n, dirs, k - 1, rule);
      if WalkPrefix(n, dirs, k, rule).Walking? {
        var next := Position(n, dirs, k);
        CarveKeepsWalkGrid(w.grid, n, next, rule);
        CarriedFacts(n, dirs, k, w, PlaceWalls(Set(w.grid, n, next, OpenRoom), n, next, rule), VipAfter(n, dirs, k));
      }
    }
  }

  lemma {:induction false} WalkPrefixFacts(n: int, dirs: seq<string>, k: nat, rule: WallRule)
    requires n >= 1 && k <= |dirs|
    ensures WalkPrefix(n, dirs, k, rule).Walking? <==> (forall t :: 0 < t <= k ==> AcceptedStep(n, dirs, t))
    ensures WalkPrefix(n, dirs, k, rule).Walking? ==> WalkFacts(n, dirs, k, WalkPrefix(n, dirs, k, rule))
  {
    if k == 0 {
      WalkFactsStart(n, dirs, rule);
    } else {
      WalkPrefixFacts(n, dirs, k - 1, rule);
      if WalkPrefix(n, dirs, k - 1, rule).Walking? {
        WalkFactsStep(n, dirs, k, rule);
      } else {
        var t :| 0 < t <= k - 1 && !AcceptedStep(n, dirs, t);
      }
    }
  }

  /** Where an attempt ends: it is rejected exactly when some valid step
      leaves the inner ring or lands on the entrance, whatever the grid
      holds; otherwise it fails as coincident exactly when two of entrance,
      VIP room and exit share a cell. */
  lemma AttemptKindIff(n: int, dirs: seq<string>, rule: WallRule)
    requires n >= 1
    ensures AttemptOf(n, dirs, rule).KindOf() == StepRejected
            <==> exists t :: 0 < t <= |dirs| && !AcceptedStep(n, dirs, t)
    ensures AttemptOf(n, dirs, rule).KindOf() == Coincident
            <==> (forall t :: 0 < t <= |dirs| ==> AcceptedStep(n, dirs, t))
                 && var v, e := VipAfter(n, dirs, |dirs|), Position(n, dirs, |dirs|);
                    v == StartCell(n) || e == StartCell(n) || e == v
  {
    WalkPrefixFacts(n, dirs, |dirs|, rule);
  }

  /** The grid and the wall rule never decide how an attempt ends. */
  lemma AttemptKindMatches(n: int, dirs: seq<string>, rule: WallRule)
    requires n >= 1
    ensures AttemptOf(n, dirs, rule).KindOf() == AttemptKind(n, dirs)
  {
    AttemptKindIff(n, dirs, rule);
  }

  /** With at most four tokens the VIP index is the last token's, so the VIP
      room is the exit (or, when that token is invalid, the entrance): such an
      attempt never succeeds. */
  lemma ShortWalkNeverSucceeds(n: int, dirs: seq<string>, rule: WallRule)
    requires n >= 1 && |dirs| <= 4
    ensures AttemptOf(n, dirs, rule).KindOf() != Succeeded
  {
    WalkPrefixFacts(n, dirs, |dirs|, rule);
    var w := WalkPrefix(n, dirs, |dirs|, rule);
    if w.Walking? {
      assert w.at == Position(n, dirs, |dirs|) && w.vip == VipAfter(n, dirs, |dirs|);
      if |dirs| > 0 {
        VipIndexRange(|dirs|);
        assert w.vip == StartCell(n) || w.vip == w.at;
      }
    }
  }

  /** A finished grid: one entrance at the start, one VIP room at v, the exit
      value nowhere but e, and only cell values 0 to 5. */
  ghost predicate FinishedGrid(g: Grid, n: int, v: Pos, e: Pos)
  {
    && IsGrid(g, n) && InGrid(n, StartCell(n)) && InGrid(n, v) && InGrid(n, e)
    && (forall p :: InGrid(n, p) ==> (At(g, n, p) == Entrance <==> p == StartCell(n)))
    && (forall p :: InGrid(n, p) ==> (At(g, n, p) == VipRoom <==> p == v))
    && (forall p :: InGrid(n, p) && At(g, n, p) == Exit ==> p == e)
    && (forall p :: InGrid(n, p) ==> 0 <= At(g, n, p) <= 5)
  }

  /** The exit, the VIP room and the walls around the VIP room. */
  lemma VipPhase(g: Grid, n: int, v: Pos, e: Pos, rule: WallRule)
    requires WalkGrid(g, n) && IsInBounds(n, v) && InGrid(n, e)
    requires v != StartCell(n) && e != StartCell(n) && v != e
    ensures var g3 := PlaceWalls(Set(Set(g, n, e, Exit), n, v, VipRoom), n, v, rule);
      && FinishedGrid(g3, n, v, e)
      && At(g3, n, e) == (if rule == AsWritten && e == RightOf(v) then Wall else Exit)
      && (forall p :: InGrid(n, p) && At(g, n, p) == OpenRoom && p != v && p != e ==> At(g3, n, p) == OpenRoom)
  {
    var g2 := Set(Set(g, n, e, Exit), n, v, VipRoom);
    var g3 := PlaceWalls(g2, n, v, rule);
    forall p | InGrid(n, p)
      ensures At(g3, n, p) == Entrance <==> p == StartCell(n)
      ensures At(g3, n, p) == VipRoom <==> p == v
      ensures At(g3, n, p) == Exit ==> p == e
      ensures 0 <= At(g3, n, p) <= 5
      ensures At(g, n, p) == OpenRoom && p != v && p != e ==> At(g3, n, p) == OpenRoom
    {
      PlaceWallsEffect(g2, n, v, rule, p);
    }
    PlaceWallsCell(g2, n, v, rule, e);
  }

  /** The walls around the entrance. */
  lemma EntrancePhase(g: Grid, n: int, v: Pos, e: Pos, rule: WallRule)
    requires FinishedGrid(g, n, v, e) && IsInBounds(n, e) && At(g, n, e) in {Exit, Wall}
    ensures var g4 := PlaceWalls(g, n, StartCell(n), rule);
      && FinishedGrid(g4, n, v, e)
      && At(g4, n, e) == (if rule == AsWritten && e == RightOf(StartCell(n)) then Wall else At(g, n, e))
      && (forall p :: InGrid(n, p) && At(g, n, p) == OpenRoom ==> At(g4, n, p) == OpenRoom)
  {
    var g4 := PlaceWalls(g, n, StartCell(n), rule);
    forall p | InGrid(n, p)
      ensures At(g4, n, p) == Entrance <==> p == StartCell(n)
      ensures At(g4, n, p) == VipRoom <==> p == v
      ensures At(g4, n, p) == Exit ==> p == e
      ensures 0 <= At(g4, n, p) <= 5
      ensures At(g, n, p) == OpenRoom ==> At(g4, n, p) == OpenRoom
    {
      PlaceWallsEffect(g, n, StartCell(n), rule, p);
    }
    PlaceWallsCell(g, n, StartCell(n), rule, e);
  }

  /** The layout of a successful attempt: the entrance holds 1 and is the only
      cell that does, the VIP room holds 5 and is the only cell that does, the
      exit holds 2 unless the code as written walls it as the right-hand
      neighbour of the VIP room or of the entrance, no other cell holds 2, and
      every other walked cell is still an open room. */
  lemma SuccessLayout(n: int, dirs: seq<string>, rule: WallRule)
    requires n >= 1 && AttemptOf(n, dirs, rule).Done?
    ensures var a := AttemptOf(n, dirs, rule).layout;
      && a.vip == VipAfter(n, dirs, |dirs|) && a.exit == Position(n, dirs, |dirs|)
      && a.vip != StartCell(n) && a.exit != StartCell(n) && a.vip != a.exit
      && FinishedGrid(a.grid, n, a.vip, a.exit)
      && At(a.grid, n, a.exit) == (if rule == AsWritten && (a.exit == RightOf(a.vip) || a.exit == RightOf(StartCell(n)))
                                  then Wall else Exit)
      && (forall t :: (0 < t <= |dirs| && Move(dirs[t - 1]).Some? && Position(n, dirs, t) != a.vip
                       && Position(n, dirs, t) != a.exit) ==>
            IsInBounds(n, Position(n, dirs, t)) && At(a.grid, n, Position(n, dirs, t)) == OpenRoom)
  {
    WalkPrefixFacts(n, dirs, |dirs|, rule);
    var w := WalkPrefix(n, dirs, |dirs|, rule);
    var g, e, v := w.grid, w.at, w.vip;
    VipPhase(g, n, v, e, rule);
    var g3 := PlaceWalls(Set(Set(g, n, e, Exit), n, v, VipRoom), n, v, rule);
    EntrancePhase(g3, n, v, e, rule);
    assert Finish(g, n, v, e, rule) == PlaceWalls(g3, n, StartCell(n), rule);
  }

  /** With the corrected right-hand test a successful attempt has exactly one
      exit cell, as it has exactly one entrance and one VIP room. */
  lemma CorrectedKeepsExit(n: int, dirs: seq<string>)
    requires n >= 1 && AttemptOf(n, dirs, Corrected).Done?
    ensures var a := AttemptOf(n, dirs, Corrected).layout;
      forall p :: InGrid(n, p) ==> (At(a.grid, n, p) == Exit <==> p == a.exit)
  {
    SuccessLayout(n, dirs, Corrected);
  }

  /** The code as written can lose the exit: on a 7 by 7 grid the walk
      u, u, l, d, r puts the VIP room at (2, 4) and ends at (3, 4), its
      right-hand neighbour, which the VIP room's walls overwrite. */
  lemma AsWrittenLosesExit()
    ensures AttemptOf(7, ["u", "u", "l", "d", "r"], AsWritten).Done?
    ensures var a := AttemptOf(7, ["u", "u", "l", "d", "r"], AsWritten).layout;
      forall p :: InGrid(7, p) ==> At(a.grid, 7, p) != Exit
  {
    var dirs := ["u", "u", "l", "d", "r"];
    assert Position(7, dirs, 1) == Pos(3, 4);
    assert Position(7, dirs, 2) == Pos(3, 5);
    assert Position(7, dirs, 3) == Pos(2, 5);
    assert Position(7, dirs, 4) == Pos(2, 4);
    assert Position(7, dirs, 5) == Pos(3, 4);
    assert forall t :: 0 < t <= 5 ==> AcceptedStep(7, dirs, t);
    AttemptKindIff(7, dirs, AsWritten);
    assert VipAfter(7, dirs, 5) == Pos(2, 4);
    SuccessLayout(7, dirs, AsWritten);
  }

  // ---------------------------------------------------------------------
  // The imperative generator

  /** Guarded write number k of MapGen.PlaceWallsAround(matrix, c.x, c.y) on
      the matrix. */
  method WallCell(matrix: array2<int>, c: Pos, k: int, rule: WallRule, ghost g: Grid) returns (ghost r: Grid)
    requires Agree(matrix, g) && 0 <= k < 8
    modifies matrix
    ensures r == WallIf(g, matrix.Length0, IsInBounds(matrix.Length0, c), Target(c, k), Probe(rule, c, Target(c, k)))
    ensures Agree(matrix, r)
  {
    var n := matrix.Length0;
    var t := Target(c, k);
    var probe := Probe(rule, c, t);
    r := WallIf(g, n, IsInBounds(n, c), t, probe);
    if IsInBounds(n, c) && matrix[t.x, t.y] != OpenRoom && matrix[t.x, t.y] != Entrance
       && matrix[t.x, t.y] != VipRoom && matrix[probe.x, probe.y] != Exit
    {
      matrix[t.x, t.y] := Wall;
    }
  }

  /** MapGen.PlaceWallsAround on the matrix, in place: the eight guarded
      writes in the order of the source, the right-hand one probing
      [x + 1, y + 1] as written. */
  method PlaceWallsAround(matrix: array2<int>, x: int, y: int, rule: WallRule, ghost g: Grid)
    requires Agree(matrix, g)
    modifies matrix
    ensures Agree(matrix, PlaceWalls(g, matrix.Length0, Pos(x, y), rule))
  {
    ghost var n := matrix.Length0;
    var c := Pos(x, y);
    ghost var h := WallCell(matrix, c, 0, rule, g);    // up
    assert PlaceWalls(g, n, c, rule) == WallsFrom(h, n, c, rule, 1);
    h := WallCell(matrix, c, 1, rule, h);              // down
    assert PlaceWalls(g, n, c, rule) == WallsFrom(h, n, c, rule, 2);
    h := WallCell(matrix, c, 2, rule, h);              // left
    assert PlaceWalls(g, n, c, rule) == WallsFrom(h, n, c, rule, 3);
    h := WallCell(matrix, c, 3, rule, h);              // right
    assert PlaceWalls(g, n, c, rule) == WallsFrom(h, n, c, rule, 4);
    h := WallCell(matrix, c, 4, rule, h);              // up-right
    assert PlaceWalls(g, n, c, rule) == WallsFrom(h, n, c, rule, 5);
    h := WallCell(matrix, c, 5, rule, h);              // up-left
    assert PlaceWalls(g, n, c, rule) == WallsFrom(h, n, c, rule, 6);
    h := WallCell(matrix, c, 6, rule, h);              // down-right
    assert PlaceWalls(g, n, c, rule) == WallsFrom(h, n, c, rule, 7);
    h := WallCell(matrix, c, 7, rule, h);              // down-left
    assert PlaceWalls(g, n, c, rule) == WallsFrom(h, n, c, rule, 8);
  }

  /** Once a walk is rejected it stays rejected to the last token. */
  lemma RejectedStays(n: int, dirs: seq<string>, k: nat, rule: WallRule)
    requires n >= 1 && k <= |dirs| && WalkPrefix(n, dirs, k, rule).Rejected?
    ensures WalkPrefix(n, dirs, |dirs|, rule) == Rejected
  {
    WalkPrefixFacts(n, dirs, k, rule);
    WalkPrefixFacts(n, dirs, |dirs|, rule);
  }

  /** A walk rejected at some token leaves the attempt rejected. */
  lemma AttemptRejected(n: int, dirs: seq<string>, k: nat, rule: WallRule)
    requires n >= 1 && k <= |dirs| && WalkPrefix(n, dirs, k, rule).Rejected?
    ensures AttemptOf(n, dirs, rule) == Failed(StepRejected)
  {
    WalkPrefixFacts(n, dirs, k, rule);
    var t :| 0 < t <= k && !AcceptedStep(n, dirs, t);
    AttemptKindIff(n, dirs, rule);
  }

  /** A walk that reaches the last token ends the attempt as coincident or
      with the layout finished from the walk's grid. */
  lemma AttemptAfterWalk(n: int, dirs: seq<string>, rule: WallRule, g: Grid, at: Pos, vip: Pos)
    requires n >= 1 && WalkPrefix(n, dirs, |dirs|, rule) == Walking(g, at, vip)
    ensures IsGrid(g, n) && InGrid(n, at) && InGrid(n, vip)
    ensures AttemptOf(n, dirs, rule) ==
      if vip == StartCell(n) || at == StartCell(n) || at == vip then Failed(Coincident)
      else Done(Layout(Finish(g, n, vip, at, rule), vip, at))
  {
    WalkPrefixFacts(n, dirs, |dirs|, rule);
  }

  /** The switch on one direction token: the four letters move the current
      cell, anything else is skipped. */
  method StepTarget(current: Pos, direction: string) returns (valid: bool, next: Pos)
    ensures valid <==> Move(direction).Some?
    ensures valid ==> next == Pos(current.x + Move(direction).value.x, current.y + Move(direction).value.y)
  {
    valid := true;
    if direction == "u" {
      next := Pos(current.x, current.y + 1);
    } else if direction == "d" {
      next := Pos(current.x, current.y - 1);
    } else if direction == "l" {
      next := Pos(current.x - 1, current.y);
    } else if direction == "r" {
      next := Pos(current.x + 1, current.y);
    } else {
      valid, next := false, current;
    }
  }

  /** One pass of the loop of GenerateDungeonFromDirections over token i:
      false when the step abandons the attempt, otherwise the walk after
      token i, carved into the matrix. */
  method WalkStep(matrix: array2<int>, directions: seq<string>, i: nat, rule: WallRule,
                  current: Pos, vip: Pos, ghost g: Grid)
    returns (accepted: bool, current': Pos, vip': Pos, ghost g': Grid)
    requires matrix.Length0 >= 1 && i < |directions|
    requires WalkPrefix(matrix.Length0, directions, i, rule) == Walking(g, current, vip)
    requires Agree(matrix, g)
    modifies matrix
    ensures accepted <==> WalkPrefix(matrix.Length0, directions, i + 1, rule).Walking?
    ensures accepted ==> WalkPrefix(matrix.Length0, directions, i + 1, rule) == Walking(g', current', vip')
                         && Agree(matrix, g')
  {
    var n := matrix.Length0;
    var valid, next := StepTarget(current, directions[i]);
    if !valid {
      return true, current, vip, g;
    }
    if IsInBounds(n, next) && matrix[next.x, next.y] != Entrance {
      matrix[next.x, next.y] := OpenRoom;
      ghost var h := Set(g, n, next, OpenRoom);
      PlaceWallsAround(matrix, next.x, next.y, rule, h);
      g' := PlaceWalls(h, n, next, rule);
      accepted, current' := true, next;
      vip' := if i == |directions| * 3 / 4 then next else vip;
    } else {
      accepted, current', vip', g' := false, current, vip, g;
    }
  }

  /** The tail of a successful attempt on the matrix: the exit, the VIP room
      and the walls around it, then the walls around the entrance. */
  method FinishLayout(matrix: array2<int>, vip: Pos, exit: Pos, rule: WallRule, ghost g: Grid)
    requires Agree(matrix, g) && InGrid(matrix.Length0, vip) && InGrid(matrix.Length0, exit)
    modifies matrix
    ensures Agree(matrix, Finish(g, matrix.Length0, vip, exit, rule))
  {
    ghost var n := matrix.Length0;
    var start := StartCell(matrix.Length0);
    matrix[exit.x, exit.y] := Exit;
    ghost var h := Set(g, n, exit, Exit);
    matrix[vip.x, vip.y] := VipRoom;
    h := Set(h, n, vip, VipRoom);
    PlaceWallsAround(matrix, vip.x, vip.y, rule, h);
    h := PlaceWalls(h, n, vip, rule);
    PlaceWallsAround(matrix, start.x, start.y, rule, h);
  }

  /** The loop of GenerateDungeonFromDirections on the matrix, which holds
      the entrance on an empty grid: false when a step abandons the attempt,
      otherwise the walk over all the tokens. */
  method WalkAll(matrix: array2<int>, directions: seq<string>, rule: WallRule)
    returns (accepted: bool, current: Pos, vip: Pos, ghost g: Grid)
    requires matrix.Length0 >= 1 && Agree(matrix, WalkPrefix(matrix.Length0, directions, 0, rule).grid)
    modifies matrix
    ensures accepted <==> WalkPrefix(matrix.Length0, directions, |directions|, rule).Walking?
    ensures accepted ==> WalkPrefix(matrix.Length0, directions, |directions|, rule) == Walking(g, current, vip)
                         && Agree(matrix, g)
  {
    ghost var n := matrix.Length0;
    current, vip := StartCell(matrix.Length0), StartCell(matrix.Length0);
    g := WalkPrefix(n, directions, 0, rule).grid;
    accepted := true;
    var i := 0;
    while i < |directions| && accepted
      invariant 0 <= i <= |directions|
      invariant accepted ==> WalkPrefix(n, directions, i, rule) == Walking(g, current, vip) && Agree(matrix, g)
      invariant !accepted ==> WalkPrefix(n, directions, i, rule).Rejected?
    {
      accepted, current, vip, g := WalkStep(matrix, directions, i, rule, current, vip, g);
      i := i + 1;
    }
    if !accepted {
      RejectedStays(n, directions, i, rule);
    }
  }

  /** One call of MapGen.GenerateDungeonFromDirections up to the point where
      it either retries or builds the dungeon: the walk over the directions,
      then the exit, the VIP room and the walls, carved into a fresh matrix.
      The kind says which way it ended; on success the matrix holds the
      layout of AttemptOf. */
  method GenerateAttempt(n: int, directions: seq<string>, rule: WallRule)
    returns (kind: Kind, matrix: array2<int>, vip: Pos, exit: Pos)
    requires n >= 1
    ensures kind == AttemptOf(n, directions, rule).KindOf() == AttemptKind(n, directions)
    ensures kind == Succeeded ==>
      var a := AttemptOf(n, directions, rule).layout;
      Agree(matrix, a.grid) && matrix.Length0 == n && vip == a.vip && exit == a.exit
  {
    AttemptKindMatches(n, directions, rule);
    matrix := new int[n, n]((i, j) => EmptyCell);
    var start := StartCell(n);
    matrix[start.x, start.y] := Entrance;
    assert Agree(matrix, Set(Filled(n, EmptyCell), n, start, Entrance));
    ghost var g;
    var accepted, current;
    accepted, current, vip, g := WalkAll(matrix, directions, rule);
    exit := current;
    if !accepted {
      AttemptRejected(n, directions, |directions|, rule);
      kind := StepRejected;
    } else {
      AttemptAfterWalk(n, directions, rule, g, current, vip);
      if vip == start || current == start || current == vip {
        kind := Coincident;
      } else {
        FinishLayout(matrix, vip, exit, rule, g);
        kind := Succeeded;
      }
    }
  }

  // ---------------------------------------------------------------------
  // Retries

  /** How a run of GenerateDungeonFromDirections ends: with a dungeon built
      from the directions of the last attempt, with the draws running out
      while a new list of directions is drawn (the source draws for ever),
      or after `fuel` attempts (the source may retry for ever). */
  datatype Outcome = Generated(directions: seq<string>) | Exhausted | OutOfFuel

  datatype RunState = RunState(outcome: Outcome, pathLength: int, count: int, draws: seq<int>)

  /** The bookkeeping after a rejected step: the failure count goes up and,
      while PathLength is at least 6, every fifth failure shortens it by one. */
  function Retune(pathLength: int, count: int): (int, int) {
    var c := count + 1;
    (if pathLength < 6 then pathLength else if c % 5 == 0 then pathLength - 1 else pathLength, c)
  }

  lemma RetuneFacts(pathLength: int, count: int)
    ensures var (pl, c) := Retune(pathLength, count);
      && c == count + 1
      && (pl == pathLength - 1 <==> pathLength >= 6 && c % 5 == 0)
      && (pl == pathLength || pl == pathLength - 1)
      && pl >= Min(pathLength, 5)
  {
  }

  /** MapGen.GenerateDungeonFromDirections with its retries: each failed
      attempt draws a fresh list of PathLength directions (with the
      PathLength in force before the failure is counted) and starts again;
      a rejected step also runs Retune. A dungeon is built only from
      directions whose attempt succeeds. Retries never lengthen the path,
      never shorten it below 5 (or below where it started), shorten it at
      most once per multiple of 5 the failure count passes, and never lower
      the failure count. */
  function Run(n: int, pathLength: int, count: int, dirs: seq<string>, draws: seq<int>, fuel: nat): (r: RunState)
    ensures r.outcome.Generated? ==> AttemptKind(n, r.outcome.directions) == Succeeded
    ensures count <= r.count
    ensures Min(pathLength, 5) <= r.pathLength <= pathLength
    ensures pathLength - r.pathLength <= r.count / 5 - count / 5
    decreases fuel
  {
    if fuel == 0 then RunState(OutOfFuel, pathLength, count, draws)
    else
      var kind := AttemptKind(n, dirs);
      if kind == Succeeded then RunState(Generated(dirs), pathLength, count, draws)
      else
        var (spare, rest) := DrawTokens(pathLength, -1, draws);
        if |spare| < Max(pathLength, 0) then RunState(Exhausted, pathLength, count, rest)
        else if kind == StepRejected then
          var (pl, c) := Retune(pathLength, count);
          Run(n, pl, c, spare, rest, fuel - 1)
        else
          Run(n, pathLength, count, spare, rest, fuel - 1)
  }

  /** Run once the first attempt succeeds. */
  lemma RunDone(n: int, pathLength: int, count: int, dirs: seq<string>, draws: seq<int>, fuel: nat)
    requires fuel > 0 && AttemptKind(n, dirs) == Succeeded
    ensures Run(n, pathLength, count, dirs, draws, fuel) == RunState(Generated(dirs), pathLength, count, draws)
  {
  }

  /** Run once the first attempt fails and the draws run out. */
  lemma RunExhausted(n: int, pathLength: int, count: int, dirs: seq<string>, draws: seq<int>, fuel: nat)
    requires fuel > 0 && AttemptKind(n, dirs) != Succeeded
    requires |DrawTokens(pathLength, -1, draws).0| < Max(pathLength, 0)
    ensures Run(n, pathLength, count, dirs, draws, fuel)
            == RunState(Exhausted, pathLength, count, DrawTokens(pathLength, -1, draws).1)
  {
  }

  /** Run once the first attempt fails: the retry with fresh directions and
      the bookkeeping of the failure. */
  lemma RunRetry(n: int, pathLength: int, count: int, dirs: seq<string>, draws: seq<int>,
                 fuel: nat, pathLength': int, count': int)
    requires fuel > 0 && AttemptKind(n, dirs) != Succeeded
    requires |DrawTokens(pathLength, -1, draws).0| >= Max(pathLength, 0)
    requires (pathLength', count') == if AttemptKind(n, dirs) == StepRejected
                                      then Retune(pathLength, count) else (pathLength, count)
    ensures Run(n, pathLength, count, dirs, draws, fuel)
            == Run(n, pathLength', count', DrawTokens(pathLength, -1, draws).0,
                   DrawTokens(pathLength, -1, draws).1, fuel - 1)
  {
  }

  /** PathLength only shrinks through Retune, which needs it at 6 or more:
      once it is at most 4 and the directions in hand are at most four, every
      later list is at most four tokens long, no attempt succeeds, and no
      dungeon is ever built. */
  lemma {:induction false} ShortPathNeverGenerates(n: int, pathLength: int, count: int,
                                                   dirs: seq<string>, draws: seq<int>, fuel: nat)
    requires n >= 1 && pathLength <= 4 && |dirs| <= 4
    ensures !Run(n, pathLength, count, dirs, draws, fuel).outcome.Generated?
    decreases fuel
  {
    ShortWalkNeverSucceeds(n, dirs, Corrected);
    AttemptKindMatches(n, dirs, Corrected);
    if fuel > 0 {
      var (spare, rest) := DrawTokens(pathLength, -1, draws);
      DrawTokensFacts(pathLength, -1, draws);
      if |spare| >= Max(pathLength, 0) {
        var (pl, c) := Retune(pathLength, count);
        ShortPathNeverGenerates(n, pl, c, spare, rest, fuel - 1);
        ShortPathNeverGenerates(n, pathLength, count, spare, rest, fuel - 1);
      }
    }
  }

  // ---------------------------------------------------------------------
  // The MapGen component

  /** Where the player spawns: the entrance cell scaled by the tile size. */
  function SpawnPosition(n: int, tileSize: int): Vec {
    Vec((StartCell(n).x * tileSize) as real, (StartCell(n).y * tileSize) as real, 0.0)
  }

  /** The MapGen MonoBehaviour: its sizes, its retry bookkeeping and the
      player spawn position as fields, the values Random.Range(0, 4) will
      return as the sequence `random`, and the matrix last handed to
      BuildGridFromMatrix as `dungeon`. */
  class MapGenerator {
    var tileSize: int
    var gridDimension: int
    var pathLength: int
    var count: int
    var playerSpawnPosition: Vec
    var random: seq<int>
    var dungeon: array2<int>
    var built: bool
    const rule: WallRule

    /** The inspector defaults; `rule` chooses the right-hand wall test. */
    constructor(rule: WallRule, random: seq<int>)
      ensures tileSize == 10 && gridDimension == 20 && pathLength == 10 && count == 0
      ensures playerSpawnPosition == Zero && this.random == random && !built && this.rule == rule
    {
      tileSize, gridDimension, pathLength, count := 10, 20, 10, 0;
      playerSpawnPosition := Zero;
      this.random := random;
      dungeon := new int[0, 0];
      built := false;
      this.rule := rule;
    }

    /** The retry branch of GenerateDungeonFromDirections before it calls
        itself again: a fresh list of PathLength directions and, after a
        rejected step, the failure count and PathLength updated; false when
        the draws run out. */
    method Redraw(kind: Kind) returns (spare: seq<string>, drawn: bool)
      modifies this
      ensures var (sp, rest) := DrawTokens(old(pathLength), -1, old(random));
        && spare == sp && random == rest && drawn == (|sp| >= Max(old(pathLength), 0))
        && (pathLength, count) == if drawn && kind == StepRejected then Retune(old(pathLength), old(count))
                                   else (old(pathLength), old(count))
      ensures tileSize == old(tileSize) && gridDimension == old(gridDimension) && built == old(built)
      ensures dungeon == old(dungeon) && playerSpawnPosition == old(playerSpawnPosition)
    {
      var rest;
      spare, rest := Directions(pathLength, random);
      random := rest;
      drawn := |spare| >= Max(pathLength, 0);
      if drawn && kind == StepRejected {
        count := count + 1;
        if pathLength < 6 {
        } else if count % 5 == 0 {
          pathLength := pathLength - 1;
        }
      }
    }

    /** MapGen.GenerateDungeonFromDirections, retries included: on success
        the dungeon matrix holds the layout of the last attempt and the spawn
        position is set; the bookkeeping is that of Run. */
    method GenerateDungeonFromDirections(directions: seq<string>, fuel: nat) returns (generated: bool)
      requires gridDimension >= 1
      modifies this
      ensures tileSize == old(tileSize) && gridDimension == old(gridDimension)
      ensures var r := Run(gridDimension, old(pathLength), old(count), directions, old(random), fuel);
        && generated == r.outcome.Generated?
        && pathLength == r.pathLength && count == r.count && random == r.draws
        && (generated ==> built && dungeon.Length0 == gridDimension
                          && AttemptOf(gridDimension, r.outcome.directions, rule).Done?
                          && Agree(dungeon, AttemptOf(gridDimension, r.outcome.directions, rule).layout.grid))
      ensures generated ==> playerSpawnPosition == SpawnPosition(gridDimension, tileSize)
      ensures !generated ==> built == old(built) && dungeon == old(dungeon)
                             && playerSpawnPosition == old(playerSpawnPosition)
    {
      generated := Generate(directions, fuel, Run(gridDimension, pathLength, count, directions, random, fuel));
    }

    /** The recursion of GenerateDungeonFromDirections, told the run it is
        to carry out. */
    method Generate(directions: seq<string>, fuel: nat, ghost target: RunState) returns (generated: bool)
      requires gridDimension >= 1
      requires target == Run(gridDimension, pathLength, count, directions, random, fuel)
      modifies this
      ensures tileSize == old(tileSize) && gridDimension == old(gridDimension)
      ensures generated == target.outcome.Generated?
      ensures pathLength == target.pathLength && count == target.count && random == target.draws
      ensures generated ==> built && dungeon.Length0 == gridDimension
                            && AttemptOf(gridDimension, target.outcome.directions, rule).Done?
                            && Agree(dungeon, AttemptOf(gridDimension, target.outcome.directions, rule).layout.grid)
      ensures generated ==> playerSpawnPosition == SpawnPosition(gridDimension, tileSize)
      ensures !generated ==> built == old(built) && dungeon == old(dungeon)
                             && playerSpawnPosition == old(playerSpawnPosition)
      decreases fuel
    {
      if fuel == 0 {
        return false;
      }
      var kind, matrix, vip, exit := GenerateAttempt(gridDimension, directions, rule);
      if kind == Succeeded {
        RunDone(gridDimension, pathLength, count, directions, random, fuel);
        playerSpawnPosition := SpawnPosition(gridDimension, tileSize);
        dungeon, built := matrix, true;
        return true;
      }
      ghost var n, pl, c, draws := gridDimension, pathLength, count, random;
      var spare, drawn := Redraw(kind);
      if !drawn {
        RunExhausted(n, pl, c, directions, draws, fuel);
        return false;
      }
      RunRetry(n, pl, c, directions, draws, fuel, pathLength, count);
      generated := Generate(spare, fuel - 1, target);
    }

    /** MapGen.Start: the grid takes the map size, the path length ten times
        it, and the first list of directions is drawn before generating. */
    method Start(mapSize: int, fuel: nat) returns (generated: bool)
      requires mapSize >= 1
      modifies this
      ensures gridDimension == mapSize && tileSize == old(tileSize)
      ensures var (dirs, rest) := DrawTokens(mapSize * 10, -1, old(random));
        var r := Run(mapSize, mapSize * 10, old(count), dirs, rest, fuel);
        && generated == r.outcome.Generated?
        && pathLength == r.pathLength && count == r.count && random == r.draws
        && (generated ==> built && AttemptOf(mapSize, r.outcome.directions, rule).Done?
                          && Agree(dungeon, AttemptOf(mapSize, r.outcome.directions, rule).layout.grid))
      ensures generated ==> playerSpawnPosition == SpawnPosition(mapSize, tileSize) && dungeon.Length0 == mapSize
      ensures !generated ==> built == old(built) && dungeon == old(dungeon)
                             && playerSpawnPosition == old(playerSpawnPosition)
    {
      gridDimension := mapSize;
      pathLength := mapSize * 10;
      var directions, rest := Directions(pathLength, random);
      random := rest;
      generated := GenerateDungeonFromDirections(directions, fuel);
    }
  }
}
