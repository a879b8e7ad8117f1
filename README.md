# Coupled rotary clocks, modelled in Dafny

`main.c` draws a grid of rotary clocks and runs them as a network of coupled
oscillators. Each clock has two hands, a first hand and a second hand that turns
at 1/60 of its speed. It also has an angular speed.

Once per frame, after drawing, the program visits every clock, column by column.
At each visit it adds the current speeds of the clock's in-bounds Moore
neighbours into the clock's accumulator. It then updates that clock:
- an unlocked clock takes one explicit-Euler step toward its neighbours' mean speed, with gain `0.3 * frame_time`, and clears its accumulator;
- both hands then advance, and 2π is subtracted once from any hand angle that is above 2π.

Two pacemaker clocks in the middle row are locked at +2π and −2π.

The project has four modules:

- `ClockCell` (`clock.dfy`) holds three things:
  - the `ClockT` record as a datatype `Clock`, with `angle[0]` and `angle[1]` as `angle0` and `angle1`;
  - the update as a function `Advanced`;
  - `update_clock` itself as the method `UpdateClock`, which changes one cell of the clock array in place, field by field.
- `Grids` (`grid.dfy`) is the grid as a value (`seq` of columns, indexed `[i][j]` as in C) and its link to the in-place `array2`.
- `Construction` (`construction.dfy`) holds the screen constants, the `borders` neighbour rule, the clock `create_clocks` builds at each cell, and `create_clocks` itself as a method filling the array.
- `Simulation` (`simulation.dfy`) holds:
  - the neighbour scan;
  - the post-update pass as a reference function (`VisitCell`, `RowPrefix`, `Columns`, `Pass`);
  - the frame loop (`Run`);
  - the array methods `AccumulateNeighbors`, `VisitClock`, `PostUpdate` and `RunFrames`, proved equal to those functions.

Floats are exact reals. `PI` is an abstract positive constant. raylib's `GetRandomValue` is a method returning an arbitrary integer in its range. `GetFrameTime` becomes a parameter.

The pass is in place (Gauss–Seidel): a clock visited earlier in the same frame contributes its already updated speed. `VisitingSees` states this order. The pass does not work on a frozen copy of the grid, where every clock would read the old speeds (Jacobi). `PassReadsUpdatedSpeeds` gives two clocks for which the two orders end at different speeds.

A locked clock's accumulator is never cleared, so it grows by its neighbour sum every frame. `PassResult` states this. Nothing reads that sum.

The angle wrap subtracts 2π only when the angle is strictly above 2π. So an angle equal to 2π stays 2π, and a negative angle is never corrected (`Wrap`, `NegativeStepLeavesRange`, `SecondHandNegativeStepLeavesRange`).

Every clock in a grid is an `Updatable`: it is locked, or its neighbour count is not zero. This is why the division in the update is always defined. `create_clocks` gives every clock 3, 5 or 8 neighbours, and no update changes the count.

## Model

| member | source | states |
|---|---|---|
| ClockCell.Wrap | main.c:49-51 | The result is the angle or the angle minus 2π. 2π comes off if and only if the angle is above 2π. The result is at most 2π if and only if the angle is at most 4π. |
| ClockCell.Divisible | main.c:45 | Definition, no contract: the division by `neighbors` is defined, because the clock is locked or has a non-zero count. The type `Updatable` of the clocks a grid holds is the clocks that satisfy it. |
| ClockCell.Relaxed | main.c:45 | Definition, no contract: the relaxation formula. `UnlockedRelaxes`, `RelaxedLiesBetween` and `RelaxedAtMean` state its facts. |
| ClockCell.Advanced | main.c:43-52 | The update keeps position, neighbour count and lock. A locked clock keeps its speed and its accumulator. An unlocked clock's accumulator becomes 0. |
| ClockCell.UnlockedRelaxes | main.c:44-47 | An unlocked clock's new speed is `speed + frame_time * 0.3 * (sum / neighbors - speed)`, and its accumulator becomes 0. |
| ClockCell.RelaxedLiesBetween | main.c:45 | When the gain `frame_time * 0.3` lies in [0, 1], the new speed lies between the old speed and the neighbour mean, in either order. |
| ClockCell.RelaxedAtMean | main.c:45 | A clock whose speed already equals its neighbour mean keeps that speed. |
| ClockCell.HandsAdvance | main.c:48-51 | The first hand moves by `speed * frame_time` and the second by a sixtieth of that, each using the new speed. Each is then wrapped once. |
| ClockCell.WrapKeepsRange | main.c:48-49 | A hand in [0, 2π] that moves forward by at most 2π stays in [0, 2π]. |
| ClockCell.HandsStayInRange | main.c:48-51 | With both hands in [0, 2π] and a first-hand step in [0, 2π], both hands stay in [0, 2π]. |
| ClockCell.NegativeStepLeavesRange | main.c:48-49 | A backward step past 0 leaves the first hand negative: there is no wrap below 0. |
| ClockCell.SecondHandNegativeStepLeavesRange | main.c:50-51 | A backward step past 0 leaves the second hand negative: there is no wrap below 0 for it either. |
| ClockCell.UpdateClock | main.c:43-52 | `update_clock` on one array cell leaves `Advanced` of the old clock there and changes no other cell. |
| Construction.GridDimensions | main.c:55-60 | The 1920×1080 screen with 40-pixel offsets and 60-pixel cells gives `clocks_x` = 31 and `clocks_y` = 17. |
| Construction.PositionsIncrease | main.c:65-66 | Pixel positions grow strictly with the column and the row index. |
| Construction.PositionsDistinct | main.c:65-66 | Two cells get the same pixel position if and only if they are the same cell. |
| Construction.Borders | main.c:81-83 | `borders` is at most 2. It is 2 exactly when the cell is in the first or last column and also in the first or last row. For an in-grid cell it is 0 exactly for the interior cells. |
| Construction.NeighborCount | main.c:84-90 | The stored count is 3, 5 or 8: 3 exactly when `borders` is 2, 5 exactly when it is 1, 8 exactly when it is 0. |
| Construction.NeighborCountByPosition | main.c:81-90 | For an in-grid cell the count is 3 exactly at a corner, 5 exactly on an edge away from the corners, and 8 exactly inside. |
| Construction.DrawnAngle0Range | main.c:67 | A first-hand angle drawn from [0, 2000] lies in [0, 2π]. |
| Construction.DrawnAngle1Range | main.c:68 | A second-hand angle drawn from [0, 2000] lies in [0, 2π]. |
| Construction.DrawnSpeedRange | main.c:69 | A speed drawn from [−2000, 2000] lies in [−2π, 2π]. |
| Construction.PixelX | main.c:65 | Definition, no contract: `x_offset + i * clock_hand_length * 2`. `PositionsIncrease` and `PositionsDistinct` state its facts. |
| Construction.PixelY | main.c:66 | Definition, no contract: `y_offset + j * clock_hand_length * 2`. `PositionsIncrease` and `PositionsDistinct` state its facts. |
| Construction.DrawnAngle0 | main.c:67 | Definition, no contract: the first hand's starting angle from the drawn value. `DrawnAngle0Range` states its range. |
| Construction.DrawnAngle1 | main.c:68 | Definition, no contract: the second hand's starting angle from the drawn value. `DrawnAngle1Range` states its range. |
| Construction.DrawnSpeed | main.c:69 | Definition, no contract: the starting speed from the drawn value. `DrawnSpeedRange` states its range. |
| Construction.IsLeftPacemaker | main.c:72 | Definition, no contract: the cell (clocks_x/2, clocks_y/2). |
| Construction.IsRightPacemaker | main.c:77 | Definition, no contract: the cell (clocks_x/2 + 1, clocks_y/2). |
| Construction.InitialClock | main.c:65-91 | Definition, no contract: the clock the body of the `create_clocks` loops builds at (i, j) from its three draws. It applies the left and then the right pacemaker override, and stores the count from `borders`. `InitialClockFacts` states its facts. |
| Construction.InitialCell | main.c:63-92 | Definition, no contract: a clock `create_clocks` may leave at (i, j), meaning `InitialClock` of some first-hand and second-hand draws in [0, 2000] and some speed draw in [−2000, 2000]. `InitialCellFacts` states its facts. |
| Construction.InitialGrid | main.c:63-92 | Definition, no contract: a rectangular grid in which every cell holds a clock `InitialCell` allows there. `CreateClocks` establishes it, and `ExactlyTwoPacemakers` and `PacemakersPersist` start from it. |
| Construction.InitialClockFacts | main.c:65-91 | For any draws in range, the built clock has its pixel position, the `borders` count and a zero accumulator. Both its hands are in [0, 2π]. The left pacemaker is locked at +2π and the right one at −2π. Every other clock is unlocked, with speed in [−2π, 2π]. |
| Construction.InitialCellFacts | main.c:63-92 | The same facts for any clock `create_clocks` may leave at (i, j), whatever values were drawn. |
| Construction.ExactlyTwoPacemakers | main.c:70-80 | With at least three columns, exactly two cells are locked: (w/2, h/2) and (w/2+1, h/2). |
| Construction.GetRandomValue | main.c:67-69 | The drawn integer lies between the two bounds, in either order. |
| Construction.CreateClocks | main.c:62-94 | After `create_clocks`, every cell of the array holds a clock that the rule above may build for that cell. |
| Simulation.RowCount | main.c:132-137 | Definition, no contract: how many cells the inner `nj` loop has added so far, in loop order, for one column. |
| Simulation.BlockCount | main.c:131-137 | Definition, no contract: how many cells the `ni` and `nj` loops have added so far, in loop order. |
| Simulation.ScanCount | main.c:131-137 | Definition, no contract: how many cells pass the self-skip and bounds test of main.c:133-134 in the whole scan of (i, j). `NeighborCountMatchesScan` compares it with the stored count. |
| Simulation.RowsInside | main.c:132-134 | Definition, no contract: how many of the rows j−1, j and j+1 lie inside the grid. It is the closed form `RowCountOfColumn` uses. |
| Simulation.RowCountOfColumn | main.c:131-137 | The number of cells the scan adds from one column: the in-grid rows among j−1, j and j+1, minus the clock itself for its own column, and 0 for a column outside the grid. |
| Simulation.NeighborCountMatchesScan | main.c:131-137 | On a grid of at least 2×2, the count stored by `create_clocks` (main.c:81-90) equals the number of cells the accumulation loop adds. |
| Simulation.SingleColumnOvercounts | main.c:81-90 | In a single-column grid, the `borders` rule stores 5 for a cell whose scan finds only 2 neighbours. |
| Grids.Scanned | main.c:133-134 | Definition, no contract: the loop guards. The cell is not (i, j) itself and lies inside a w-by-h grid. The scan counts use it. |
| Grids.ScannedInGrid | main.c:133-134 | On a rectangular grid, the guard form used by the sums (not the clock itself, and inside the grid) is the same as `Scanned` against the grid's width and height, which the counts use. |
| Grids.InGrid | main.c:134 | Definition, no contract: the bounds test, read against the grid's own dimensions. |
| Simulation.Contribution | main.c:133-135 | Definition, no contract: what one step of the inner loop adds, the neighbour's speed when the guards pass and 0 otherwise. |
| Simulation.RowScan | main.c:132-137 | Definition, no contract: the sum the inner `nj` loop has added, in loop order. `RowScanUniform` states its facts. |
| Simulation.BlockScan | main.c:131-138 | Definition, no contract: the sum the `ni` and `nj` loops have added, in loop order. `BlockScanUniform` states its facts. |
| Simulation.NeighborSum | main.c:131-138 | Definition, no contract: the whole sum the accumulation loops add into (i, j). `NeighborMeanOfUniform`, `AccumulateNeighbors` and `PassAt` state its facts. |
| Simulation.Accumulated | main.c:135 | Definition, no contract: the clock after its accumulator has received the neighbour sum, with all other fields unchanged. `AccumulateNeighbors` proves the loops compute it. |
| Simulation.RowScanUniform | main.c:132-137 | When every clock runs at speed s, one column of the scan adds s once for each cell it scans. |
| Simulation.BlockScanUniform | main.c:131-137 | When every clock runs at speed s, the whole scan adds s once for each cell it scans. |
| Simulation.NeighborMeanOfUniform | main.c:131-139 | When every clock runs at speed s, the neighbour sum divided by the stored count is s. |
| Simulation.VisitCell | main.c:131-139 | One visit keeps the grid's dimensions. |
| Simulation.RowPrefix | main.c:130-140 | The visits of cells 0 to j−1 of column i keep the grid's dimensions. |
| Simulation.Columns | main.c:129-141 | The visits of the first i columns keep the grid's dimensions. |
| Simulation.Pass | main.c:129-141 | A whole pass keeps the grid's dimensions. |
| Simulation.Run | main.c:111-141 | Any number of frames keep the grid's dimensions. |
| Simulation.RowPrefixUntouched | main.c:130-140 | The visits of one column leave every other column unchanged, and leave the cells of that column that have not been visited yet unchanged. |
| Simulation.RowPrefixSettled | main.c:130-140 | A later visit in the same column does not change a cell that has already been visited. |
| Simulation.ColumnsUntouched | main.c:129-141 | Columns the pass has not reached yet are unchanged. |
| Simulation.ColumnsSettled | main.c:129-141 | Columns the pass has already finished are not changed again. |
| Simulation.Visiting | main.c:129-141 | Definition, no contract: the grid as it stands when the loops of main.c:129-130 reach (a, b). By then every earlier column and the first b cells of column a have been visited. `VisitingSees`, `PassAt` and `PassResult` are stated through it. |
| Simulation.Before | main.c:129-130 | Definition, no contract: the visiting order, column-major, with i outer and j inner. |
| Simulation.VisitingSeesDone | main.c:129-141 | When the pass reaches (a, b), every clock of an earlier column already holds its final value for the frame. |
| Simulation.VisitingSeesColumn | main.c:130-140 | When the pass reaches (a, b), every clock above it in column a already holds its final value for the frame. |
| Simulation.VisitingSeesPending | main.c:129-141 | When the pass reaches (a, b), every clock from (a, b) onward still holds its value from before the pass. |
| Simulation.VisitingSees | main.c:129-141 | This is the pass order. The grid the pass sees at (a, b) holds the final value of this frame for every clock before (a, b) in column-major order, and the old value for every other clock. |
| Simulation.PassAt | main.c:129-141 | A clock is untouched until its own visit. Its final value is the update of what it accumulated from the grid it saw at that moment. |
| Simulation.PassResult | main.c:44-47 | After a pass, an unlocked clock has relaxed toward (old accumulator + neighbour sum seen) / neighbours, and its accumulator is 0. A locked clock keeps its speed, and its accumulator has grown by that sum. |
| Simulation.SettledClockKeepsSpeed | main.c:129-141 | Take a grid where all clocks are unlocked, run at s, have empty accumulators and the `create_clocks` counts. After the pass, each clock still runs at s. |
| Simulation.SettledWhenVisited | main.c:129-141 | For such a grid, every clock still runs at s at whatever point the pass has reached. |
| Simulation.SettledIsFixed | main.c:129-141 | Consensus is a fixed point: on such a grid a pass changes no speed. |
| Simulation.PassReadsUpdatedSpeeds | main.c:129-141 | The pass is not synchronous. Take two unlocked clocks at speeds 0 and 1, each with one neighbour, and frame time 1. The second clock ends at 0.79 because it reads the first clock's new speed 0.3. It would end at 0.7 if it read the speeds from before the pass. |
| Simulation.PassPersists | main.c:129-141 | A pass keeps every clock's position, neighbour count and lock, and a locked clock's speed. |
| Simulation.RunPersists | main.c:111-141 | The same holds across any number of frames. |
| Simulation.RunResetsUnlocked | main.c:44-47 | After one or more frames, every unlocked clock's accumulator is 0. |
| Simulation.PacemakersPersist | main.c:70-80 | Through any number of frames, the two pacemakers stay locked at +2π and −2π, and the set of locked cells does not change. |
| Simulation.AccumulateNeighbors | main.c:131-138 | The two inner loops over the 3×3 block around (i, j) add the in-bounds neighbour speeds, in loop order, into clock (i, j) and change no other cell. |
| Simulation.VisitClock | main.c:131-139 | The accumulation loops followed by `update_clock` turn the array into `VisitCell` of its old value. |
| Simulation.PostUpdate | main.c:129-141 | The post-update loop turns the array into `Pass` of its old value. |
| Simulation.RunFrames | main.c:111-143 | The frame loop, without its drawing, turns the array into `Run` of its old value over the given frame times. |

## Left out

- `draw_clock` (main.c:15-40) and the drawing part of the frame loop (main.c:117-125): they only read the clocks. So do the window calls (`InitWindow`, `SetTargetFPS`, `WindowShouldClose`, `CloseWindow`). `RunFrames` takes the frame times as a finite sequence and does not model the close test.
- GetFrameTime: it is called once per clock (main.c:139). The model takes one frame time per pass, because raylib returns the duration of the previous frame, which stays fixed until the next frame.
- Single-precision rounding, PI's finite-precision value, and the `float`/`double` conversions: all arithmetic is exact real arithmetic. This means the model does not show rounding drift in the angles, or the precision loss of a locked clock's ever-growing accumulator.
- The value of π: the model only uses PI > 0.
- Division by zero in `update_clock`: it cannot happen, because every clock `create_clocks` builds has 3, 5 or 8 neighbours. The model carries this as the `Updatable` element type of the clock array, not as a run-time check.
- Simulation.NeighborCountMatchesScan: stated only for grids of at least 2×2, because the `borders` rule miscounts a single row or column (`SingleColumnOvercounts`). The real 31×17 grid meets the bound.
- Construction.ExactlyTwoPacemakers and Simulation.PacemakersPersist: stated for grids of at least three columns. With fewer columns the right pacemaker's column `clocks_x/2 + 1` lies outside the grid.
