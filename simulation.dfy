/**
 * The post-update pass of the frame loop: each clock in turn (column i
 * outer, row j inner) adds the current speeds of its in-bounds Moore
 * neighbours into its accumulator and is then updated at once, so clocks
 * visited earlier contribute their already updated speed.
 */
module Simulation {
  import opened ClockCell
  import opened Grids
  import opened Construction

  // ----- The neighbour scan -----

  /** How many cells the scan of (i, j) adds, counted in the loops' order up to (ni, nj). */
  function RowCount(i: int, j: int, ni: int, nj: int, w: int, h: int): nat
    requires j - 1 <= nj <= j + 2
    decreases nj - j
  {
    if nj == j - 1 then 0
    else RowCount(i, j, ni, nj - 1, w, h) + (if Scanned(i, j, ni, nj - 1, w, h) then 1 else 0)
  }

  function BlockCount(i: int, j: int, ni: int, w: int, h: int): nat
    requires i - 1 <= ni <= i + 2
    decreases ni - i
  {
    if ni == i - 1 then 0
    else BlockCount(i, j, ni - 1, w, h) + RowCount(i, j, ni - 1, j + 2, w, h)
  }

  /** The number of cells the accumulation loop adds into (i, j). */
  function ScanCount(i: int, j: int, w: int, h: int): nat {
    BlockCount(i, j, i + 2, w, h)
  }

  /** How many of the three rows j-1, j, j+1 of a column lie in the grid. */
  function RowsInside(j: int, h: int): nat {
    (if 0 <= j - 1 < h then 1 else 0) + (if 0 <= j < h then 1 else 0) + (if 0 <= j + 1 < h then 1 else 0)
  }

  /** One column of the scan: all three rows, or two when it is the clock's own column. */
  lemma RowCountOfColumn(i: int, j: int, ni: int, w: int, h: int)
    ensures RowCount(i, j, ni, j + 2, w, h)
         == if !(0 <= ni < w) then 0
            else if ni == i then RowsInside(j, h) - (if 0 <= j < h then 1 else 0)
            else RowsInside(j, h)
  {
    assert RowCount(i, j, ni, j - 1, w, h) == 0;
    assert RowCount(i, j, ni, j, w, h) == RowCount(i, j, ni, j - 1, w, h) + (if Scanned(i, j, ni, j - 1, w, h) then 1 else 0);
    assert RowCount(i, j, ni, j + 1, w, h) == RowCount(i, j, ni, j, w, h) + (if Scanned(i, j, ni, j, w, h) then 1 else 0);
  }

  /**
   * For a grid of at least 2-by-2, the count `create_clocks` derives from
   * `borders` is exactly the number of cells the accumulation loop scans:
   * 3 at a corner, 5 on an edge, 8 inside.
   */
  lemma NeighborCountMatchesScan(i: int, j: int, w: int, h: int)
    requires 2 <= w && 2 <= h && 0 <= i < w && 0 <= j < h
    ensures NeighborCount(i, j, w, h) == ScanCount(i, j, w, h)
  {
    RowCountOfColumn(i, j, i - 1, w, h);
    RowCountOfColumn(i, j, i, w, h);
    RowCountOfColumn(i, j, i + 1, w, h);
    assert BlockCount(i, j, i - 1, w, h) == 0;
    assert BlockCount(i, j, i, w, h) == RowCount(i, j, i - 1, j + 2, w, h);
    assert BlockCount(i, j, i + 1, w, h) == BlockCount(i, j, i, w, h) + RowCount(i, j, i, j + 2, w, h);
    assert ScanCount(i, j, w, h) == BlockCount(i, j, i + 1, w, h) + RowCount(i, j, i + 1, j + 2, w, h);
  }

  /**
   * The 2-by-2 bound above is needed: in a single column the `borders` rule
   * counts one edge where the cell has two, so it stores 5 for a cell whose
   * scan finds 2 neighbours.
   */
  lemma SingleColumnOvercounts()
    ensures NeighborCount(0, 1, 1, 3) == 5 && ScanCount(0, 1, 1, 3) == 2
  {
    RowCountOfColumn(0, 1, -1, 1, 3);
    RowCountOfColumn(0, 1, 0, 1, 3);
    RowCountOfColumn(0, 1, 1, 1, 3);
  }

  // ----- The neighbour sum -----

  /** What the scan of (i, j) adds for cell (ni, nj): its speed if scanned, else nothing. */
  function Contribution(g: Grid, i: int, j: int, ni: int, nj: int): real {
    if !(ni == i && nj == j) && InGrid(g, ni, nj) then g[ni][nj].speed else 0.0
  }

  /** The sum the scan of (i, j) has added, in the loops' order, before reaching (ni, nj). */
  function RowScan(g: Grid, i: int, j: int, ni: int, nj: int): real
    requires j - 1 <= nj <= j + 2
    decreases nj - j
  {
    if nj == j - 1 then 0.0 else RowScan(g, i, j, ni, nj - 1) + Contribution(g, i, j, ni, nj - 1)
  }

  function BlockScan(g: Grid, i: int, j: int, ni: int): real
    requires i - 1 <= ni <= i + 2
    decreases ni - i
  {
    if ni == i - 1 then 0.0 else BlockScan(g, i, j, ni - 1) + RowScan(g, i, j, ni - 1, j + 2)
  }

  /** The speeds of the in-bounds Moore neighbours of (i, j), added in the loops' order. */
  function NeighborSum(g: Grid, i: int, j: int): real {
    BlockScan(g, i, j, i + 2)
  }

  /** s added up n times. */
  function Repeated(n: nat, s: real): real {
    if n == 0 then 0.0 else Repeated(n - 1, s) + s
  }

  lemma {:induction false} RepeatedSum(m: nat, n: nat, s: real)
    ensures Repeated(m + n, s) == Repeated(m, s) + Repeated(n, s)
    decreases n
  {
    if n > 0 {
      RepeatedSum(m, n - 1, s);
    }
  }

  lemma {:induction false} RepeatedIsProduct(n: nat, s: real)
    ensures Repeated(n, s) == n as real * s
    decreases n
  {
    if n > 0 {
      RepeatedIsProduct(n - 1, s);
      assert n as real * s == (n - 1) as real * s + s;
    }
  }

  /** A row of the scan over uniform speed s adds s once per scanned cell. */
  lemma {:induction false} RowScanUniform(g: Grid, s: real, i: int, j: int, ni: int, nj: int)
    requires Rectangular(g) && j - 1 <= nj <= j + 2
    requires forall a, b :: 0 <= a < |g| && 0 <= b < |g[a]| ==> g[a][b].speed == s
    ensures RowScan(g, i, j, ni, nj) == Repeated(RowCount(i, j, ni, nj, |g|, Height(g)), s)
    decreases nj - j
  {
    if nj != j - 1 {
      RowScanUniform(g, s, i, j, ni, nj - 1);
      RepeatedSum(RowCount(i, j, ni, nj - 1, |g|, Height(g)), if Scanned(i, j, ni, nj - 1, |g|, Height(g)) then 1 else 0, s);
    }
  }

  lemma {:induction false} BlockScanUniform(g: Grid, s: real, i: int, j: int, ni: int)
    requires Rectangular(g) && i - 1 <= ni <= i + 2
    requires forall a, b :: 0 <= a < |g| && 0 <= b < |g[a]| ==> g[a][b].speed == s
    ensures BlockScan(g, i, j, ni) == Repeated(BlockCount(i, j, ni, |g|, Height(g)), s)
    decreases ni - i
  {
    if ni != i - 1 {
      BlockScanUniform(g, s, i, j, ni - 1);
      RowScanUniform(g, s, i, j, ni - 1, j + 2);
      RepeatedSum(BlockCount(i, j, ni - 1, |g|, Height(g)), RowCount(i, j, ni - 1, j + 2, |g|, Height(g)), s);
    }
  }

  /**
   * When every clock runs at speed s, the neighbour sum is s times the
   * scanned count, so with the count of `create_clocks` the mean is s.
   */
  lemma NeighborMeanOfUniform(g: Grid, s: real, i: int, j: int)
    requires Rectangular(g) && 2 <= |g| && 2 <= Height(g)
    requires 0 <= i < |g| && 0 <= j < Height(g)
    requires forall a, b :: 0 <= a < |g| && 0 <= b < |g[a]| ==> g[a][b].speed == s
    ensures NeighborSum(g, i, j) / NeighborCount(i, j, |g|, Height(g)) as real == s
  {
    BlockScanUniform(g, s, i, j, i + 2);
    NeighborCountMatchesScan(i, j, |g|, Height(g));
    RepeatedIsProduct(ScanCount(i, j, |g|, Height(g)), s);
  }

  // ----- The pass as a function of the grid -----

  /** What never changes for a clock: position, count, lock, and a locked clock's speed. */
  predicate Persists(c: Clock, d: Clock) {
    d.x == c.x && d.y == c.y && d.neighbors == c.neighbors && d.speedLocked == c.speedLocked &&
    (c.speedLocked ==> d.speed == c.speed)
  }


  /** The clock at (i, j) once its neighbours' speeds are added into its accumulator. */
  function Accumulated(g: Grid, i: nat, j: nat): Updatable
    requires i < |g| && j < |g[i]|
  {
    g[i][j].(neighborSpeedSum := g[i][j].neighborSpeedSum + NeighborSum(g, i, j))
  }

  /** One visit of the pass: accumulate into (i, j), then update that clock alone. */
  function VisitCell(g: Grid, i: nat, j: nat, frameTime: real): (r: Grid)
    requires i < |g| && j < |g[i]|
    ensures |r| == |g| && forall k :: 0 <= k < |g| ==> |r[k]| == |g[k]|
  {
    var c: Updatable := Advanced(Accumulated(g, i, j), frameTime);
    var column: seq<Updatable> := g[i][j := c];
    g[i := column]
  }

  /** The grid after visiting the first j clocks of column i, starting from g. */
  function RowPrefix(g: Grid, i: nat, j: nat, frameTime: real): (r: Grid)
    requires i < |g| && j <= |g[i]|
    ensures |r| == |g| && forall k :: 0 <= k < |g| ==> |r[k]| == |g[k]|
    decreases j
  {
    if j == 0 then g else VisitCell(RowPrefix(g, i, j - 1, frameTime), i, j - 1, frameTime)
  }

  /** The grid after the pass has visited every clock of the first i columns. */
  function Columns(g: Grid, i: nat, frameTime: real): (r: Grid)
    requires i <= |g|
    ensures |r| == |g| && forall k :: 0 <= k < |g| ==> |r[k]| == |g[k]|
    decreases i
  {
    if i == 0 then g
    else
      var p := Columns(g, i - 1, frameTime);
      RowPrefix(p, i - 1, |p[i - 1]|, frameTime)
  }

  /** The whole post-update pass of one frame. */
  function Pass(g: Grid, frameTime: real): (r: Grid)
    ensures |r| == |g| && forall k :: 0 <= k < |g| ==> |r[k]| == |g[k]|
  {
    Columns(g, |g|, frameTime)
  }

  /** The grid the pass sees when it reaches clock (a, b). */
  function Visiting(g: Grid, a: nat, b: nat, frameTime: real): Grid
    requires a < |g| && b < |g[a]|
  {
    RowPrefix(Columns(g, a, frameTime), a, b, frameTime)
  }

  /** (c, d) comes before (a, b) in the pass: column-major, i outer and j inner. */
  predicate Before(c: int, d: int, a: int, b: int) {
    c < a || (c == a && d < b)
  }

  /** The frame loop without its drawing: one pass per frame time. */
  function Run(g: Grid, frameTimes: seq<real>): (r: Grid)
    ensures |r| == |g| && forall k :: 0 <= k < |g| ==> |r[k]| == |g[k]|
    decreases |frameTimes|
  {
    if frameTimes == [] then g else Run(Pass(g, frameTimes[0]), frameTimes[1..])
  }

  // ----- The visiting order -----

  /** Visits in column i that have not happened yet, and other columns, leave a clock alone. */
  lemma {:induction false} RowPrefixUntouched(g: Grid, i: nat, j: nat, frameTime: real, a: nat, b: nat)
    requires i < |g| && j <= |g[i]|
    requires a < |g| && b < |g[a]| && (a != i || b >= j)
    ensures RowPrefix(g, i, j, frameTime)[a][b] == g[a][b]
    decreases j
  {
    if j > 0 {
      RowPrefixUntouched(g, i, j - 1, frameTime, a, b);
    }
  }

  /** Once visited, a clock of column i is not touched by the later visits of that column. */
  lemma {:induction false} RowPrefixSettled(g: Grid, i: nat, j: nat, frameTime: real, b: nat)
    requires i < |g| && j <= |g[i]| && b < j
    ensures RowPrefix(g, i, j, frameTime)[i][b] == RowPrefix(g, i, b + 1, frameTime)[i][b]
    decreases j
  {
    if j > b + 1 {
      RowPrefixSettled(g, i, j - 1, frameTime, b);
    }
  }

  /** Columns not yet reached are unchanged. */
  lemma {:induction false} ColumnsUntouched(g: Grid, i: nat, frameTime: real, a: nat, b: nat)
    requires i <= |g| && i <= a < |g| && b < |g[a]|
    ensures Columns(g, i, frameTime)[a][b] == g[a][b]
    decreases i
  {
    if i > 0 {
      var p := Columns(g, i - 1, frameTime);
      ColumnsUntouched(g, i - 1, frameTime, a, b);
      RowPrefixUntouched(p, i - 1, |p[i - 1]|, frameTime, a, b);
    }
  }

  /** Columns already done are not touched again. */
  lemma {:induction false} ColumnsSettled(g: Grid, i: nat, frameTime: real, a: nat, b: nat)
    requires a < i <= |g| && b < |g[a]|
    ensures Columns(g, i, frameTime)[a][b] == Columns(g, a + 1, frameTime)[a][b]
    decreases i
  {
    if i > a + 1 {
      var p := Columns(g, i - 1, frameTime);
      ColumnsSettled(g, i - 1, frameTime, a, b);
      RowPrefixUntouched(p, i - 1, |p[i - 1]|, frameTime, a, b);
    }
  }

  /** A clock of an earlier column already holds its final value when the pass reaches (a, b). */
  lemma VisitingSeesDone(g: Grid, frameTime: real, a: nat, b: nat, c: nat, d: nat)
    requires a < |g| && b < |g[a]| && c < a && d < |g[c]|
    ensures Visiting(g, a, b, frameTime)[c][d] == Pass(g, frameTime)[c][d]
  {
    var p := Columns(g, a, frameTime);
    RowPrefixUntouched(p, a, b, frameTime, c, d);
    ColumnsSettled(g, a, frameTime, c, d);
    ColumnsSettled(g, |g|, frameTime, c, d);
  }

  /** A clock visited earlier in column a already holds its final value. */
  lemma VisitingSeesColumn(g: Grid, frameTime: real, a: nat, b: nat, d: nat)
    requires a < |g| && b < |g[a]| && d < b
    ensures Visiting(g, a, b, frameTime)[a][d] == Pass(g, frameTime)[a][d]
  {
    var p := Columns(g, a, frameTime);
    RowPrefixSettled(p, a, b, frameTime, d);
    RowPrefixSettled(p, a, |p[a]|, frameTime, d);
    if a + 1 < |g| {
      ColumnsSettled(g, |g|, frameTime, a, d);
    }
  }

  /** A clock not yet visited, (a, b) included, still holds its value from before the pass. */
  lemma VisitingSeesPending(g: Grid, frameTime: real, a: nat, b: nat, c: nat, d: nat)
    requires a < |g| && b < |g[a]| && c < |g| && d < |g[c]| && !Before(c, d, a, b)
    ensures Visiting(g, a, b, frameTime)[c][d] == g[c][d]
  {
    var p := Columns(g, a, frameTime);
    RowPrefixUntouched(p, a, b, frameTime, c, d);
    ColumnsUntouched(g, a, frameTime, c, d);
  }

  /**
   * The order of the pass: when it reaches (a, b), every clock before (a, b)
   * already holds its final value of this frame and every other clock,
   * (a, b) included, still holds its value from before the pass.
   */
  lemma VisitingSees(g: Grid, frameTime: real, a: nat, b: nat, c: nat, d: nat)
    requires a < |g| && b < |g[a]| && c < |g| && d < |g[c]|
    ensures Visiting(g, a, b, frameTime)[c][d]
         == if Before(c, d, a, b) then Pass(g, frameTime)[c][d] else g[c][d]
  {
    if c < a {
      VisitingSeesDone(g, frameTime, a, b, c, d);
    } else if c == a && d < b {
      VisitingSeesColumn(g, frameTime, a, b, d);
    } else {
      VisitingSeesPending(g, frameTime, a, b, c, d);
    }
  }

  /** The final value of clock (a, b): the update of what it accumulated when the pass reached it. */
  lemma PassAt(g: Grid, frameTime: real, a: nat, b: nat)
    requires a < |g| && b < |g[a]|
    ensures Visiting(g, a, b, frameTime)[a][b] == g[a][b]
    ensures Pass(g, frameTime)[a][b] == Advanced(Accumulated(Visiting(g, a, b, frameTime), a, b), frameTime)
  {
    VisitingSeesPending(g, frameTime, a, b, a, b);
    var p := Columns(g, a, frameTime);
    RowPrefixSettled(p, a, |p[a]|, frameTime, b);
    if a + 1 < |g| {
      ColumnsSettled(g, |g|, frameTime, a, b);
    }
  }

  /**
   * What one pass leaves in clock (a, b). An unlocked clock has relaxed
   * toward the neighbour sum it read, on top of its old accumulator, and its
   * accumulator is 0. A locked clock keeps its speed and its accumulator
   * grows by that neighbour sum.
   */
  lemma PassResult(g: Grid, frameTime: real, a: nat, b: nat)
    requires a < |g| && b < |g[a]|
    ensures var c := g[a][b];
            var r := Pass(g, frameTime)[a][b];
            var sum := NeighborSum(Visiting(g, a, b, frameTime), a, b);
            (!c.speedLocked ==>
               r.neighborSpeedSum == 0.0 &&
               r.speed == Relaxed(c.speed, c.neighborSpeedSum + sum, c.neighbors, frameTime)) &&
            (c.speedLocked ==>
               r.speed == c.speed && r.neighborSpeedSum == c.neighborSpeedSum + sum)
  {
    PassAt(g, frameTime, a, b);
  }

  /** Every clock runs at speed s, unlocked, with an empty accumulator and the count `create_clocks` gives it. */
  predicate Settled(g: Grid, s: real) {
    Rectangular(g) &&
    forall a, b :: 0 <= a < |g| && 0 <= b < |g[a]| ==>
      var c := g[a][b];
      c.speed == s && !c.speedLocked && c.neighborSpeedSum == 0.0 && c.neighbors == NeighborCount(a, b, |g|, Height(g))
  }

  /** The pass preserves the lengths, so a rectangular grid stays rectangular. */
  lemma VisitingRectangular(g: Grid, frameTime: real, a: nat, b: nat)
    requires Rectangular(g) && a < |g| && b < |g[a]|
    ensures var v := Visiting(g, a, b, frameTime); Rectangular(v) && |v| == |g| && Height(v) == Height(g)
  {
  }

  /** Under a settled grid, the clock (a, b) still runs at s once the pass is done with it. */
  lemma {:induction false} SettledClockKeepsSpeed(g: Grid, s: real, frameTime: real, a: nat, b: nat)
    requires Settled(g, s) && 2 <= |g| && 2 <= Height(g) && a < |g| && b < |g[a]|
    ensures Pass(g, frameTime)[a][b].speed == s
    decreases a, b, 1
  {
    var v: Grid := Visiting(g, a, b, frameTime);
    VisitingRectangular(g, frameTime, a, b);
    SettledWhenVisited(g, s, frameTime, a, b);
    NeighborMeanOfUniform(v, s, a, b);
    PassResult(g, frameTime, a, b);
    RelaxedAtMean(s, NeighborSum(v, a, b), g[a][b].neighbors, frameTime);
  }

  /** Under a settled grid, every clock still runs at s when the pass reaches (a, b). */
  lemma {:induction false} SettledWhenVisited(g: Grid, s: real, frameTime: real, a: nat, b: nat)
    requires Settled(g, s) && 2 <= |g| && 2 <= Height(g) && a < |g| && b < |g[a]|
    ensures var v := Visiting(g, a, b, frameTime);
            forall c, d :: 0 <= c < |v| && 0 <= d < |v[c]| ==> v[c][d].speed == s
    decreases a, b, 0
  {
    var v: Grid := Visiting(g, a, b, frameTime);
    forall c, d | 0 <= c < |v| && 0 <= d < |v[c]|
      ensures v[c][d].speed == s
    {
      VisitingSees(g, frameTime, a, b, c, d);
      if Before(c, d, a, b) {
        SettledClockKeepsSpeed(g, s, frameTime, c, d);
      }
    }
  }

  /**
   * Consensus is a fixed point: when every clock is unlocked, runs at the
   * same speed and has an empty accumulator, a pass changes no speed.
   */
  lemma SettledIsFixed(g: Grid, s: real, frameTime: real)
    requires Settled(g, s) && 2 <= |g| && 2 <= Height(g)
    ensures var r := Pass(g, frameTime);
            forall a, b :: 0 <= a < |r| && 0 <= b < |r[a]| ==> r[a][b].speed == s
  {
    forall a, b | 0 <= a < |g| && 0 <= b < |g[a]|
      ensures Pass(g, frameTime)[a][b].speed == s
    {
      SettledClockKeepsSpeed(g, s, frameTime, a, b);
    }
  }

  /** Two unlocked clocks side by side, at rest and at speed 1, each with one neighbour. */
  const TwoClocks: Grid := [[Clock(0, 0, 0.0, 0.0, 0.0, 0.0, 1, false)], [Clock(0, 0, 0.0, 0.0, 1.0, 0.0, 1, false)]]

  /**
   * The pass is not synchronous. With frame time 1, the first clock moves to
   * 0.3 before the second one reads it, so the second ends at 0.79; reading
   * the speeds from before the pass it would end at 0.7.
   */
  lemma PassReadsUpdatedSpeeds()
    ensures Pass(TwoClocks, 1.0)[0][0].speed == 0.3
    ensures Pass(TwoClocks, 1.0)[1][0].speed == 0.79
    ensures Advanced(Accumulated(TwoClocks, 1, 0), 1.0).speed == 0.7
  {
    var g := TwoClocks;
    var v0: Grid := Visiting(g, 0, 0, 1.0);
    var v1: Grid := Visiting(g, 1, 0, 1.0);
    VisitingSees(g, 1.0, 0, 0, 1, 0);
    VisitingSees(g, 1.0, 1, 0, 0, 0);
    VisitingSees(g, 1.0, 1, 0, 1, 0);
    assert NeighborSum(v0, 0, 0) == 1.0;
    PassResult(g, 1.0, 0, 0);
    assert NeighborSum(v1, 1, 0) == 0.3;
    PassResult(g, 1.0, 1, 0);
    assert NeighborSum(g, 1, 0) == 0.0;
  }

  /** A pass keeps every clock's position, count and lock, and a locked clock's speed. */
  lemma PassPersists(g: Grid, frameTime: real, a: nat, b: nat)
    requires a < |g| && b < |g[a]|
    ensures Persists(g[a][b], Pass(g, frameTime)[a][b])
  {
    PassAt(g, frameTime, a, b);
  }

  /** Any number of frames keep every clock's position, count and lock, and a locked clock's speed. */
  lemma {:induction false} RunPersists(g: Grid, frameTimes: seq<real>, a: nat, b: nat)
    requires a < |g| && b < |g[a]|
    ensures Persists(g[a][b], Run(g, frameTimes)[a][b])
    decreases |frameTimes|
  {
    if frameTimes != [] {
      PassPersists(g, frameTimes[0], a, b);
      RunPersists(Pass(g, frameTimes[0]), frameTimes[1..], a, b);
    }
  }

  /** After a frame every unlocked clock's accumulator is 0. */
  lemma {:induction false} RunResetsUnlocked(g: Grid, frameTimes: seq<real>, a: nat, b: nat)
    requires a < |g| && b < |g[a]| && frameTimes != []
    requires !g[a][b].speedLocked
    ensures Run(g, frameTimes)[a][b].neighborSpeedSum == 0.0
    decreases |frameTimes|
  {
    if frameTimes[1..] == [] {
      PassResult(g, frameTimes[0], a, b);
    } else {
      PassPersists(g, frameTimes[0], a, b);
      RunResetsUnlocked(Pass(g, frameTimes[0]), frameTimes[1..], a, b);
    }
  }

  /**
   * The pacemakers of a built grid keep their lock and their speeds, +2π and
   * -2π, through any number of frames, and no other clock becomes locked.
   */
  lemma PacemakersPersist(g: Grid, frameTimes: seq<real>)
    requires InitialGrid(g) && |g| >= 3 && Height(g) >= 1
    ensures var r := Run(g, frameTimes);
            var (i, j) := (|g| / 2, Height(g) / 2);
            r[i][j].speedLocked && r[i][j].speed == 2.0 * PI &&
            r[i + 1][j].speedLocked && r[i + 1][j].speed == -2.0 * PI &&
            LockedCells(r) == LockedCells(g)
  {
    ExactlyTwoPacemakers(g);
    var (i, j) := (|g| / 2, Height(g) / 2);
    InitialCellFacts(g[i][j], i, j, |g|, Height(g));
    InitialCellFacts(g[i + 1][j], i + 1, j, |g|, Height(g));
    var r := Run(g, frameTimes);
    forall a, b | 0 <= a < |g| && 0 <= b < |g[a]|
      ensures Persists(g[a][b], r[a][b])
    {
      RunPersists(g, frameTimes, a, b);
    }
  }

  // ----- The pass on the array -----

  /**
   * The two inner loops over the 3-by-3 block around (i, j): they add the
   * speeds of its in-bounds Moore neighbours, in the loops' order, into its
   * accumulator.
   */
  method AccumulateNeighbors(clocks: array2<Updatable>, i: nat, j: nat)
    requires i < clocks.Length0 && j < clocks.Length1
    modifies clocks
    ensures clocks[i, j] == Accumulated(old(Snapshot(clocks)), i, j)
    ensures forall a, b :: 0 <= a < clocks.Length0 && 0 <= b < clocks.Length1 && (a, b) != (i, j) ==>
              clocks[a, b] == old(clocks[a, b])
  {
    ghost var g: Grid := Snapshot(clocks);
    ghost var start := g[i][j].neighborSpeedSum;
    for ni := i - 1 to i + 2
      invariant clocks[i, j] == g[i][j].(neighborSpeedSum := clocks[i, j].neighborSpeedSum)
      invariant clocks[i, j].neighborSpeedSum == start + BlockScan(g, i, j, ni)
      invariant forall a, b :: 0 <= a < clocks.Length0 && 0 <= b < clocks.Length1 && (a, b) != (i, j) ==>
                  clocks[a, b] == old(clocks[a, b])
    {
      for nj := j - 1 to j + 2
        invariant clocks[i, j] == g[i][j].(neighborSpeedSum := clocks[i, j].neighborSpeedSum)
        invariant clocks[i, j].neighborSpeedSum == start + BlockScan(g, i, j, ni) + RowScan(g, i, j, ni, nj)
        invariant forall a, b :: 0 <= a < clocks.Length0 && 0 <= b < clocks.Length1 && (a, b) != (i, j) ==>
                    clocks[a, b] == old(clocks[a, b])
      {
        assert RowScan(g, i, j, ni, nj + 1) == RowScan(g, i, j, ni, nj) + Contribution(g, i, j, ni, nj);
        if ni == i && nj == j {
          continue;
        }
        if ni >= 0 && ni < clocks.Length0 && nj >= 0 && nj < clocks.Length1 {
          assert Contribution(g, i, j, ni, nj) == clocks[ni, nj].speed;
          clocks[i, j] := clocks[i, j].(neighborSpeedSum := clocks[i, j].neighborSpeedSum + clocks[ni, nj].speed);
        }
      }
    }
  }

  /** One visit of the pass: the accumulation loops for (i, j), then `update_clock` on it. */
  method VisitClock(clocks: array2<Updatable>, i: nat, j: nat, frameTime: real)
    requires i < clocks.Length0 && j < clocks.Length1
    modifies clocks
    ensures Snapshot(clocks) == VisitCell(old(Snapshot(clocks)), i, j, frameTime)
  {
    ghost var g := Snapshot(clocks);
    AccumulateNeighbors(clocks, i, j);
    UpdateClock(clocks, i, j, frameTime);
    assert Matches(clocks, VisitCell(g, i, j, frameTime));
    MatchesUnique(clocks, Snapshot(clocks), VisitCell(g, i, j, frameTime));
  }

  /** The post-update pass: accumulate into each clock and update it before moving on. */
  method PostUpdate(clocks: array2<Updatable>, frameTime: real)
    modifies clocks
    ensures Snapshot(clocks) == Pass(old(Snapshot(clocks)), frameTime)
  {
    ghost var g: Grid := Snapshot(clocks);
    for i := 0 to clocks.Length0
      invariant Matches(clocks, Columns(g, i, frameTime))
    {
      ghost var p := Columns(g, i, frameTime);
      for j := 0 to clocks.Length1
        invariant Matches(clocks, RowPrefix(p, i, j, frameTime))
      {
        MatchesUnique(clocks, Snapshot(clocks), RowPrefix(p, i, j, frameTime));
        VisitClock(clocks, i, j, frameTime);
      }
    }
    MatchesUnique(clocks, Snapshot(clocks), Pass(g, frameTime));
  }

  /** The frame loop of main.c, one pass per frame, with the drawing left out. */
  method RunFrames(clocks: array2<Updatable>, frameTimes: seq<real>)
    modifies clocks
    ensures Snapshot(clocks) == Run(old(Snapshot(clocks)), frameTimes)
  {
    ghost var g: Grid := Snapshot(clocks);
    for k := 0 to |frameTimes|
      invariant Run(g, frameTimes) == Run(Snapshot(clocks), frameTimes[k..])
    {
      PostUpdate(clocks, frameTimes[k]);
      assert frameTimes[k..][1..] == frameTimes[k + 1..];
    }
  }
}
