/**
 * The clock grid as a value (`seq` of columns, indexed [i][j] like
 * `clocks[i][j]`), the Moore-neighbour scanning rule, and the link between
 * the in-place `array2` and its value.
 */
module Grids {
  import opened ClockCell

  /** `clocks[i][j]`, i < clocks_x, j < clocks_y. */
  type Grid = seq<seq<Updatable>>

  /** The second dimension (`clocks_y`) of a grid. */
  function Height(g: Grid): nat {
    if g == [] then 0 else |g[0]|
  }

  predicate Rectangular(g: Grid) {
    forall i :: 0 <= i < |g| ==> |g[i]| == Height(g)
  }

  /** (i, j) is a cell of g. */
  predicate InGrid(g: Grid, i: int, j: int) {
    0 <= i < |g| && 0 <= j < |g[i]|
  }

  /**
   * Whether the accumulation loop adds the speed at (ni, nj) into the clock
   * at (i, j): the cell is not (i, j) itself and lies inside a w-by-h grid.
   */
  predicate Scanned(i: int, j: int, ni: int, nj: int, w: int, h: int) {
    !(ni == i && nj == j) && 0 <= ni < w && 0 <= nj < h
  }

  /** On a rectangular grid the two forms of the loop guards agree. */
  lemma ScannedInGrid(g: Grid, i: int, j: int, ni: int, nj: int)
    requires Rectangular(g)
    ensures (!(ni == i && nj == j) && InGrid(g, ni, nj)) == Scanned(i, j, ni, nj, |g|, Height(g))
  {
    if 0 <= ni < |g| {
      assert |g[ni]| == Height(g);
    }
  }

  /** The array holds exactly the clocks of g. */
  ghost predicate Matches(a: array2<Updatable>, g: Grid)
    reads a
  {
    |g| == a.Length0 &&
    (forall i :: 0 <= i < |g| ==> |g[i]| == a.Length1) &&
    forall i, j :: 0 <= i < a.Length0 && 0 <= j < a.Length1 ==> g[i][j] == a[i, j]
  }

  /** The value held in the array. */
  ghost function Snapshot(a: array2<Updatable>): (g: Grid)
    reads a
    ensures Matches(a, g) && Rectangular(g)
    ensures a.Length0 > 0 ==> Height(g) == a.Length1
  {
    seq(a.Length0, i requires 0 <= i < a.Length0 reads a =>
      seq(a.Length1, j requires 0 <= j < a.Length1 reads a => a[i, j]))
  }

  /** An array holds one grid value only. */
  lemma MatchesUnique(a: array2<Updatable>, g: Grid, h: Grid)
    requires Matches(a, g) && Matches(a, h)
    ensures g == h
  {
    assert |g| == |h|;
    forall i | 0 <= i < |g|
      ensures g[i] == h[i]
    {
      assert |g[i]| == |h[i]|;
      forall j | 0 <= j < |g[i]|
        ensures g[i][j] == h[i][j]
      {
        assert g[i][j] == a[i, j] == h[i][j];
      }
    }
  }
}
