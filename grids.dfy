/** Square grids of cell values, as a value (a sequence of columns) and as
    the two-dimensional array the generator writes. */
module Grids {

  datatype Pos = Pos(x: int, y: int)

  /** grid[x][y] is the cell at column x and row y. */
  type Grid = seq<seq<int>>

  predicate IsGrid(g: Grid, n: int) {
    n >= 0 && |g| == n && forall i :: 0 <= i < n ==> |g[i]| == n
  }

  predicate InGrid(n: int, p: Pos) {
    0 <= p.x < n && 0 <= p.y < n
  }

  function At(g: Grid, n: int, p: Pos): int
    requires IsGrid(g, n) && InGrid(n, p)
  {
    g[p.x][p.y]
  }

  /** The n by n grid holding v everywhere. */
  function Filled(n: nat, v: int): (g: Grid)
    ensures IsGrid(g, n)
    ensures forall p :: InGrid(n, p) ==> At(g, n, p) == v
  {
    seq(n, i => seq(n, j => v))
  }

  /** g with the cell p set to v. */
  function Set(g: Grid, n: int, p: Pos, v: int): (r: Grid)
    requires IsGrid(g, n) && InGrid(n, p)
    ensures IsGrid(r, n)
    ensures forall q :: InGrid(n, q) ==> At(r, n, q) == if q == p then v else At(g, n, q)
  {
    g[p.x := g[p.x][p.y := v]]
  }

  /** The matrix holds the grid g cell by cell. */
  ghost predicate Agree(m: array2<int>, g: Grid)
    reads m
  {
    m.Length0 == m.Length1 && IsGrid(g, m.Length0)
    && forall i, j :: 0 <= i < m.Length0 && 0 <= j < m.Length1 ==> m[i, j] == g[i][j]
  }
}
