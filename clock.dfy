/** One rotary clock (the `ClockT` struct) and its per-frame update (`update_clock`). */
module ClockCell {

  /** Strictly positive reals. */
  type Positive = r: real | r > 0.0 witness 1.0

  /** The circle constant. The model only relies on it being positive. */
  const PI: Positive

  /** `adaptation_step_size`: how fast a speed relaxes toward its neighbours' mean. */
  const AdaptationStepSize: real := 0.3

  /** The second hand turns at 1/60 of the speed of the first one. */
  const SecondHandRate: real := 1.0 / 60.0

  /**
   * A clock: its pixel position, the angles of its two hands, its angular
   * speed, the scratch sum of its neighbours' speeds, how many neighbours it
   * has and whether its speed is fixed (a pacemaker). Floats are exact reals.
   */
  datatype Clock = Clock(
    x: int,
    y: int,
    angle0: real,
    angle1: real,
    speed: real,
    neighborSpeedSum: real,
    neighbors: int,
    speedLocked: bool)

  /** The update divides by `neighbors` only for an unlocked clock. */
  predicate Divisible(c: Clock) {
    c.speedLocked || c.neighbors != 0
  }

  /**
   * The clocks a grid holds: every one of them can be updated. `create_clocks`
   * gives each 3, 5 or 8 neighbours and the update keeps the count.
   */
  type Updatable = c: Clock | Divisible(c) witness Clock(0, 0, 0.0, 0.0, 0.0, 0.0, 8, false)

  /** The one-shot wrap of a hand angle: 2π comes off once, and only above 2π. */
  function Wrap(a: real): (r: real)
    ensures r == a || r == a - 2.0 * PI
    ensures r == a - 2.0 * PI <==> a > 2.0 * PI
    ensures r <= 2.0 * PI <==> a <= 4.0 * PI
  {
    if a > 2.0 * PI then a - 2.0 * PI else a
  }

  /** One explicit-Euler relaxation step of `speed` toward `sum / neighbors`. */
  function Relaxed(speed: real, sum: real, neighbors: int, frameTime: real): real
    requires neighbors != 0
  {
    speed + frameTime * AdaptationStepSize * (sum / neighbors as real - speed)
  }

  /**
   * The clock `update_clock` leaves behind. The speed and the accumulator
   * change only for an unlocked clock; each hand then advances by its rate
   * times the frame time and is wrapped once.
   */
  function Advanced(c: Clock, frameTime: real): (r: Clock)
    requires Divisible(c)
    ensures r.x == c.x && r.y == c.y && r.neighbors == c.neighbors
    ensures r.speedLocked == c.speedLocked
    ensures c.speedLocked ==> r.speed == c.speed && r.neighborSpeedSum == c.neighborSpeedSum
    ensures !c.speedLocked ==> r.neighborSpeedSum == 0.0
  {
    var speed := if c.speedLocked then c.speed else Relaxed(c.speed, c.neighborSpeedSum, c.neighbors, frameTime);
    var sum := if c.speedLocked then c.neighborSpeedSum else 0.0;
    c.(speed := speed,
       neighborSpeedSum := sum,
       angle0 := Wrap(c.angle0 + speed * frameTime),
       angle1 := Wrap(c.angle1 + SecondHandRate * speed * frameTime))
  }

  /** An unlocked clock relaxes by exactly the rule's step and forgets its accumulator. */
  lemma UnlockedRelaxes(c: Clock, frameTime: real)
    requires !c.speedLocked && c.neighbors != 0
    ensures Advanced(c, frameTime).speed
         == c.speed + frameTime * AdaptationStepSize * (c.neighborSpeedSum / c.neighbors as real - c.speed)
    ensures Advanced(c, frameTime).neighborSpeedSum == 0.0
  {
  }

  /**
   * When the step factor `frameTime * 0.3` lies in [0, 1], the relaxed speed
   * lies between the old speed and the neighbour mean.
   */
  lemma RelaxedLiesBetween(speed: real, sum: real, neighbors: int, frameTime: real)
    requires neighbors != 0
    requires 0.0 <= frameTime * AdaptationStepSize <= 1.0
    ensures var mean := sum / neighbors as real;
            var r := Relaxed(speed, sum, neighbors, frameTime);
            (speed <= mean ==> speed <= r <= mean) && (mean <= speed ==> mean <= r <= speed)
  {
    var k := frameTime * AdaptationStepSize;
    var mean := sum / neighbors as real;
    var d := mean - speed;
    assert Relaxed(speed, sum, neighbors, frameTime) == speed + k * d;
    if d >= 0.0 {
      assert 0.0 <= k * d;
      assert (1.0 - k) * d >= 0.0;
    } else {
      assert k * d <= 0.0;
      assert (1.0 - k) * d <= 0.0;
    }
  }

  /** A clock already at its neighbours' mean keeps its speed. */
  lemma RelaxedAtMean(speed: real, sum: real, neighbors: int, frameTime: real)
    requires neighbors != 0 && sum / neighbors as real == speed
    ensures Relaxed(speed, sum, neighbors, frameTime) == speed
  {
    assert sum / neighbors as real - speed == 0.0;
  }

  /** Each hand advances by its rate times the frame time, then wraps once. */
  lemma HandsAdvance(c: Clock, frameTime: real)
    requires Divisible(c)
    ensures var r := Advanced(c, frameTime);
            var a0 := c.angle0 + r.speed * frameTime;
            var a1 := c.angle1 + (r.speed * frameTime) / 60.0;
            (r.angle0 == if a0 > 2.0 * PI then a0 - 2.0 * PI else a0) &&
            (r.angle1 == if a1 > 2.0 * PI then a1 - 2.0 * PI else a1)
  {
    var r := Advanced(c, frameTime);
    assert SecondHandRate == 1.0 / 60.0;
    assert SecondHandRate * r.speed * frameTime == (r.speed * frameTime) / 60.0;
  }

  /** A hand in [0, 2π] that moves forward by at most 2π stays in [0, 2π]. */
  lemma WrapKeepsRange(a: real, increment: real)
    requires 0.0 <= a <= 2.0 * PI
    requires 0.0 <= increment <= 2.0 * PI
    ensures 0.0 <= Wrap(a + increment) <= 2.0 * PI
  {
  }

  /**
   * With both hands in [0, 2π] and a first-hand step `speed * frameTime` in
   * [0, 2π], both hands are in [0, 2π] after the update.
   */
  lemma HandsStayInRange(c: Clock, frameTime: real)
    requires Divisible(c)
    requires 0.0 <= c.angle0 <= 2.0 * PI && 0.0 <= c.angle1 <= 2.0 * PI
    requires 0.0 <= Advanced(c, frameTime).speed * frameTime <= 2.0 * PI
    ensures 0.0 <= Advanced(c, frameTime).angle0 <= 2.0 * PI
    ensures 0.0 <= Advanced(c, frameTime).angle1 <= 2.0 * PI
  {
    var step := Advanced(c, frameTime).speed * frameTime;
    HandsAdvance(c, frameTime);
    WrapKeepsRange(c.angle0, step);
    WrapKeepsRange(c.angle1, step / 60.0);
  }

  /** There is no correction below zero: a backward step past 0 leaves the first hand negative. */
  lemma NegativeStepLeavesRange(c: Clock, frameTime: real)
    requires Divisible(c)
    requires c.angle0 + Advanced(c, frameTime).speed * frameTime < 0.0
    ensures Advanced(c, frameTime).angle0 < 0.0
  {
  }

  /** Nor for the second hand: a backward step past 0 leaves it negative. */
  lemma SecondHandNegativeStepLeavesRange(c: Clock, frameTime: real)
    requires Divisible(c)
    requires c.angle1 + (Advanced(c, frameTime).speed * frameTime) / 60.0 < 0.0
    ensures Advanced(c, frameTime).angle1 < 0.0
  {
    HandsAdvance(c, frameTime);
  }

  /**
   * `update_clock` on the clock at (i, j) of the grid: the clock is mutated
   * field by field, as through the pointer, and no other clock changes.
   */
  method UpdateClock(clocks: array2<Updatable>, i: nat, j: nat, frameTime: real)
    requires i < clocks.Length0 && j < clocks.Length1
    modifies clocks
    ensures clocks[i, j] == Advanced(old(clocks[i, j]), frameTime)
    ensures forall a, b :: 0 <= a < clocks.Length0 && 0 <= b < clocks.Length1 && (a, b) != (i, j) ==>
              clocks[a, b] == old(clocks[a, b])
  {
    var c: Clock := clocks[i, j];
    if !c.speedLocked {
      c := c.(speed := c.speed + frameTime * AdaptationStepSize * ((c.neighborSpeedSum / c.neighbors as real) - c.speed));
      c := c.(neighborSpeedSum := 0.0);
    }
    c := c.(angle0 := c.angle0 + c.speed * frameTime);
    c := c.(angle0 := c.angle0 - 2.0 * PI * (if c.angle0 > 2.0 * PI then 1.0 else 0.0));
    c := c.(angle1 := c.angle1 + SecondHandRate * c.speed * frameTime);
    c := c.(angle1 := c.angle1 - 2.0 * PI * (if c.angle1 > 2.0 * PI then 1.0 else 0.0));
    clocks[i, j] := c;
  }
}
