/** The grid-size constants and `create_clocks`. */
module Construction {
  import opened ClockCell
  import opened Grids

  const ClockHandLength: int := 30
  const ScreenWidth: int := 1920
  const ScreenHeight: int := 1080
  const XOffset: int := ClockHandLength + 10
  const YOffset: int := ClockHandLength + 10
  /** The operands are positive, so Dafny's division agrees with C's. */
  const ClocksX: int := (ScreenWidth - XOffset) / (2 * ClockHandLength)
  const ClocksY: int := (ScreenHeight - YOffset) / (2 * ClockHandLength)

  /** The display geometry yields a 31-by-17 grid. */
  lemma GridDimensions()
    ensures ClocksX == 31 && ClocksY == 17
  {
  }

  /** Pixel column of grid column i. */
  function PixelX(i: int): int {
    XOffset + i * ClockHandLength * 2
  }

  /** Pixel row of grid row j. */
  function PixelY(j: int): int {
    YOffset + j * ClockHandLength * 2
  }

  /** Positions grow strictly with the index, so distinct cells get distinct positions. */
  lemma PositionsIncrease(i: int, i': int)
    requires i < i'
    ensures PixelX(i) < PixelX(i') && PixelY(i) < PixelY(i')
  {
  }

  lemma PositionsDistinct(i: int, j: int, i': int, j': int)
    ensures (PixelX(i), PixelY(j)) == (PixelX(i'), PixelY(j')) <==> i == i' && j == j'
  {
  }

  /** `borders`: on how many axes cell (i, j) lies on the edge of a w-by-h grid. */
  function Borders(i: int, j: int, w: int, h: int): (b: nat)
    ensures b <= 2
    ensures 0 <= i < w && 0 <= j < h ==> (b == 0 <==> 0 < i < w - 1 && 0 < j < h - 1)
    ensures b == 2 <==> (i == 0 || i == w - 1) && (j == 0 || j == h - 1)
  {
    (if i == 0 || i == w - 1 then 1 else 0) + (if j == 0 || j == h - 1 then 1 else 0)
  }

  /** The neighbour count `create_clocks` stores: 3 for two borders, 5 for one, 8 for none. */
  function NeighborCount(i: int, j: int, w: int, h: int): (n: int)
    ensures n == 3 || n == 5 || n == 8
    ensures n == 8 <==> Borders(i, j, w, h) == 0
    ensures n == 5 <==> Borders(i, j, w, h) == 1
    ensures n == 3 <==> Borders(i, j, w, h) == 2
  {
    var b := Borders(i, j, w, h);
    if b == 2 then 3 else if b == 1 then 5 else 8
  }

  /** By position: 3 at a corner, 5 on an edge away from the corners, 8 inside. */
  lemma NeighborCountByPosition(i: int, j: int, w: int, h: int)
    requires 0 <= i < w && 0 <= j < h
    ensures var onX, onY := i == 0 || i == w - 1, j == 0 || j == h - 1;
            (NeighborCount(i, j, w, h) == 3 <==> onX && onY) &&
            (NeighborCount(i, j, w, h) == 5 <==> onX != onY) &&
            (NeighborCount(i, j, w, h) == 8 <==> !onX && !onY)
  {
  }

  /** The left pacemaker's cell. */
  predicate IsLeftPacemaker(i: int, j: int, w: nat, h: nat) {
    i == w / 2 && j == h / 2
  }

  /** The right pacemaker's cell, one column to the right. */
  predicate IsRightPacemaker(i: int, j: int, w: nat, h: nat) {
    i == w / 2 + 1 && j == h / 2
  }

  /** The first hand's starting angle for the drawn value d0 (main.c line 67). */
  function DrawnAngle0(d0: int): real {
    (2.0 / 2000.0) * d0 as real * PI
  }

  /** The second hand's starting angle for the drawn value d1. */
  function DrawnAngle1(d1: int): real {
    0.001 * d1 as real * PI
  }

  /** The starting speed for the drawn value d2. */
  function DrawnSpeed(d2: int): real {
    2.0 * PI * (0.0005 * d2 as real)
  }

  /**
   * The clock `create_clocks` builds at (i, j) of a w-by-h grid from the
   * three values drawn for it (d0 and d1 in [0, 2000], d2 in [-2000, 2000]).
   */
  function InitialClock(i: int, j: int, w: nat, h: nat, d0: int, d1: int, d2: int): Clock {
    var drawn := Clock(
      PixelX(i), PixelY(j),
      DrawnAngle0(d0), DrawnAngle1(d1), DrawnSpeed(d2),
      0.0,
      NeighborCount(i, j, w, h),
      false);
    var left := if IsLeftPacemaker(i, j, w, h) then drawn.(speed := 2.0 * PI, speedLocked := true) else drawn;
    if IsRightPacemaker(i, j, w, h) then left.(speed := -2.0 * PI, speedLocked := true) else left
  }

  /** c is a clock `create_clocks` may build at (i, j), for some values drawn in range. */
  ghost predicate InitialCell(c: Clock, i: int, j: int, w: nat, h: nat) {
    exists d0, d1, d2 ::
      0 <= d0 <= 2000 && 0 <= d1 <= 2000 && -2000 <= d2 <= 2000 &&
      c == InitialClock(i, j, w, h, d0, d1, d2)
  }

  /** g is a grid `create_clocks` may build. */
  ghost predicate InitialGrid(g: Grid) {
    Rectangular(g) &&
    forall i, j :: 0 <= i < |g| && 0 <= j < |g[i]| ==> InitialCell(g[i][j], i, j, |g|, Height(g))
  }

  /** `d * PI` lies between `lo * PI` and `hi * PI` when d lies between lo and hi. */
  lemma ScaledByPi(d: real, lo: real, hi: real)
    requires lo <= d <= hi
    ensures lo * PI <= d * PI <= hi * PI
  {
    assert (d - lo) * PI >= 0.0;
    assert (hi - d) * PI >= 0.0;
  }

  /** The first hand starts in [0, 2π]. */
  lemma DrawnAngle0Range(d0: int)
    requires 0 <= d0 <= 2000
    ensures 0.0 <= DrawnAngle0(d0) <= 2.0 * PI
  {
    var x := (2.0 / 2000.0) * d0 as real;
    assert 0.0 <= x <= 2.0;
    ScaledByPi(x, 0.0, 2.0);
  }

  /** The second hand starts in [0, 2π]. */
  lemma DrawnAngle1Range(d1: int)
    requires 0 <= d1 <= 2000
    ensures 0.0 <= DrawnAngle1(d1) <= 2.0 * PI
  {
    var x := 0.001 * d1 as real;
    assert 0.0 <= x <= 2.0;
    ScaledByPi(x, 0.0, 2.0);
  }

  /** A drawn speed lies in [-2π, 2π]. */
  lemma DrawnSpeedRange(d2: int)
    requires -2000 <= d2 <= 2000
    ensures -2.0 * PI <= DrawnSpeed(d2) <= 2.0 * PI
  {
    var x := 2.0 * 0.0005 * d2 as real;
    assert -2.0 <= x <= 2.0;
    ScaledByPi(x, -2.0, 2.0);
    assert DrawnSpeed(d2) == x * PI;
  }

  /**
   * What `create_clocks` guarantees of each clock: its position, its
   * neighbour count, a zero accumulator, both hands in [0, 2π] and, except
   * at the two pacemakers (locked at +2π and -2π), an unlocked speed in
   * [-2π, 2π].
   */
  lemma InitialClockFacts(i: int, j: int, w: nat, h: nat, d0: int, d1: int, d2: int)
    requires 0 <= d0 <= 2000 && 0 <= d1 <= 2000 && -2000 <= d2 <= 2000
    ensures var c := InitialClock(i, j, w, h, d0, d1, d2);
      c.x == PixelX(i) && c.y == PixelY(j) &&
      c.neighbors == NeighborCount(i, j, w, h) && c.neighborSpeedSum == 0.0 &&
      0.0 <= c.angle0 <= 2.0 * PI && 0.0 <= c.angle1 <= 2.0 * PI &&
      (IsLeftPacemaker(i, j, w, h) ==> c.speed == 2.0 * PI && c.speedLocked) &&
      (IsRightPacemaker(i, j, w, h) ==> c.speed == -2.0 * PI && c.speedLocked) &&
      (!IsLeftPacemaker(i, j, w, h) && !IsRightPacemaker(i, j, w, h) ==>
         !c.speedLocked && -2.0 * PI <= c.speed <= 2.0 * PI)
  {
    DrawnAngle0Range(d0);
    DrawnAngle1Range(d1);
    DrawnSpeedRange(d2);
  }

  /** The facts of InitialClockFacts, for a clock drawn with some values in range. */
  lemma InitialCellFacts(c: Clock, i: int, j: int, w: nat, h: nat)
    requires InitialCell(c, i, j, w, h)
    ensures c.x == PixelX(i) && c.y == PixelY(j)
    ensures c.neighbors == NeighborCount(i, j, w, h) && c.neighborSpeedSum == 0.0
    ensures 0.0 <= c.angle0 <= 2.0 * PI && 0.0 <= c.angle1 <= 2.0 * PI
    ensures IsLeftPacemaker(i, j, w, h) ==> c.speed == 2.0 * PI && c.speedLocked
    ensures IsRightPacemaker(i, j, w, h) ==> c.speed == -2.0 * PI && c.speedLocked
    ensures !IsLeftPacemaker(i, j, w, h) && !IsRightPacemaker(i, j, w, h) ==>
              !c.speedLocked && -2.0 * PI <= c.speed <= 2.0 * PI
  {
    var d0, d1, d2 :|
      0 <= d0 <= 2000 && 0 <= d1 <= 2000 && -2000 <= d2 <= 2000 &&
      c == InitialClock(i, j, w, h, d0, d1, d2);
    InitialClockFacts(i, j, w, h, d0, d1, d2);
  }

  /** The cells whose speed is locked. */
  function LockedCells(g: Grid): set<(int, int)> {
    set i, j | 0 <= i < |g| && 0 <= j < |g[i]| && g[i][j].speedLocked :: (i, j)
  }

  /**
   * With at least three columns, a built grid has exactly two locked cells:
   * the two pacemakers side by side in the middle row.
   */
  lemma ExactlyTwoPacemakers(g: Grid)
    requires InitialGrid(g) && |g| >= 3 && Height(g) >= 1
    ensures LockedCells(g) == {(|g| / 2, Height(g) / 2), (|g| / 2 + 1, Height(g) / 2)}
    ensures |LockedCells(g)| == 2
  {
    var w, h := |g|, Height(g);
    var pacemakers := {(w / 2, h / 2), (w / 2 + 1, h / 2)};
    forall p | p in LockedCells(g)
      ensures p in pacemakers
    {
      var (i, j) := p;
      InitialCellFacts(g[i][j], i, j, w, h);
    }
    forall p | p in pacemakers
      ensures p in LockedCells(g)
    {
      var (i, j) := p;
      InitialCellFacts(g[i][j], i, j, w, h);
    }
  }

  /** raylib's `GetRandomValue`: an arbitrary integer between the bounds (swapped when reversed). */
  method GetRandomValue(lo: int, hi: int) returns (r: int)
    ensures lo <= hi ==> lo <= r <= hi
    ensures hi < lo ==> hi <= r <= lo
  {
    if lo <= hi {
      r :| lo <= r <= hi;
    } else {
      r :| hi <= r <= lo;
    }
  }

  /** `create_clocks`: fills the grid column by column, overwriting every field of every clock. */
  method CreateClocks(clocks: array2<Updatable>)
    modifies clocks
    ensures InitialGrid(Snapshot(clocks))
  {
    var w, h := clocks.Length0, clocks.Length1;
    for i := 0 to w
      invariant forall a, b :: 0 <= a < i && 0 <= b < h ==> InitialCell(clocks[a, b], a, b, w, h)
    {
      for j := 0 to h
        invariant forall a, b :: 0 <= a < i && 0 <= b < h ==> InitialCell(clocks[a, b], a, b, w, h)
        invariant forall b :: 0 <= b < j ==> InitialCell(clocks[i, b], i, b, w, h)
      {
        var c: Clock := clocks[i, j];
        c := c.(x := XOffset + i * ClockHandLength * 2);
        c := c.(y := YOffset + j * ClockHandLength * 2);
        var d0 := GetRandomValue(0, 2000);
        c := c.(angle0 := (2.0 / 2000.0) * d0 as real * PI);
        var d1 := GetRandomValue(0, 2000);
        c := c.(angle1 := 0.001 * d1 as real * PI);
        var d2 := GetRandomValue(-2000, 2000);
        c := c.(speed := 2.0 * PI * (0.0005 * d2 as real));
        c := c.(speedLocked := false);
        if i == w / 2 && j == h / 2 {
          c := c.(speed := 2.0 * PI, speedLocked := true);
        }
        if i == w / 2 + 1 && j == h / 2 {
          c := c.(speed := -2.0 * PI, speedLocked := true);
        }
        var borders := 0;
        borders := borders + (if i == 0 || i == w - 1 then 1 else 0);
        borders := borders + (if j == 0 || j == h - 1 then 1 else 0);
        if borders == 2 {
          c := c.(neighbors := 3);
        } else if borders == 1 {
          c := c.(neighbors := 5);
        } else {
          c := c.(neighbors := 8);
        }
        c := c.(neighborSpeedSum := 0.0);
        assert c == InitialClock(i, j, w, h, d0, d1, d2);
        clocks[i, j] := c;
      }
    }
    var g := Snapshot(clocks);
    assert forall a, b :: 0 <= a < |g| && 0 <= b < |g[a]| ==> InitialCell(g[a][b], a, b, |g|, Height(g));
  }
}
