/** The streak layer: sprites that drift right across the view and jump back to the
    left edge once they pass the right one. */
module Streaks {
  import opened Grid

  /** The number of streaks. */
  const StreakCount: int := 250
  /** Streaks live between x = -Edge and x = Edge. */
  const Edge: real := 400.0
  /** Every sprite is this wide. */
  const StreakWidth: real := 0.3

  /** The five draws one streak consumes: x, y, z, height and speed. */
  datatype StreakDraws = StreakDraws(x: real, y: real, z: real, height: real, speed: real)

  predicate ValidStreakDraws(d: StreakDraws) {
    IsDraw(d.x) && IsDraw(d.y) && IsDraw(d.z) && IsDraw(d.height) && IsDraw(d.speed)
  }

  /** Math.random() * 800 - 400 */
  function SpawnX(r: real): (x: real)
    requires IsDraw(r)
    ensures -Edge <= x < Edge
  {
    r * 800.0 - 400.0
  }

  /** Math.random() * 600 - 300 */
  function SpawnY(r: real): (y: real)
    requires IsDraw(r)
    ensures -300.0 <= y < 300.0
  {
    r * 600.0 - 300.0
  }

  /** Math.random() * -300: behind the plane of the circuit, or on it. */
  function SpawnZ(r: real): (z: real)
    requires IsDraw(r)
    ensures -300.0 < z <= 0.0
  {
    r * -300.0
  }

  /** Math.random() * 5 + 2 */
  function SpawnHeight(r: real): (h: real)
    requires IsDraw(r)
    ensures 2.0 <= h < 7.0
  {
    r * 5.0 + 2.0
  }

  /** Math.random() * 0.5 + 0.2 */
  function SpawnSpeed(r: real): (s: real)
    requires IsDraw(r)
    ensures 0.2 <= s < 0.7
  {
    r * 0.5 + 0.2
  }

  /** One frame of a streak's x: add the speed; past the right edge, back to the left. */
  function StreakStep(x: real, speed: real): real {
    if x + speed > Edge then -Edge else x + speed
  }

  /** x after n frames. */
  function StreakAfter(x: real, speed: real, n: nat): real {
    if n == 0 then x else StreakStep(StreakAfter(x, speed, n - 1), speed)
  }

  /** One frame keeps a streak on screen and moves it right unless it wraps; it only
      ever moves left by wrapping to the left edge. */
  lemma StepInRange(x: real, speed: real)
    requires -Edge <= x <= Edge && speed > 0.0
    ensures -Edge <= StreakStep(x, speed) <= Edge
    ensures x + speed <= Edge ==> StreakStep(x, speed) > x
    ensures StreakStep(x, speed) < x ==> StreakStep(x, speed) == -Edge && x + speed > Edge
  {
  }

  /** A streak stays in [-Edge, Edge] on every frame. */
  lemma {:induction false} StreakStaysInRange(x: real, speed: real, n: nat)
    requires -Edge <= x <= Edge && speed > 0.0
    ensures -Edge <= StreakAfter(x, speed, n) <= Edge
  {
    if n > 0 {
      StreakStaysInRange(x, speed, n - 1);
      StepInRange(StreakAfter(x, speed, n - 1), speed);
    }
  }

  /** Until it reaches the edge a streak moves at constant speed. */
  lemma {:induction false} StreakDrifts(x: real, speed: real, n: nat)
    requires speed > 0.0 && x + n as real * speed <= Edge
    ensures StreakAfter(x, speed, n) == x + n as real * speed
  {
    if n > 0 {
      var m := n - 1;
      assert n as real * speed == m as real * speed + speed;
      assert x + m as real * speed <= Edge;
      StreakDrifts(x, speed, m);
    }
  }

  /** A streak sprite: its position, its scale (width and height) and its speed. */
  class Streak {
    var x: real
    const y: real
    const z: real
    const width: real
    const height: real
    const speed: real

    predicate Valid()
      reads this
    {
      -Edge <= x <= Edge && speed > 0.0
    }

    /** A new streak, placed and sized by its draws. */
    constructor (d: StreakDraws)
      requires ValidStreakDraws(d)
      ensures x == SpawnX(d.x) && y == SpawnY(d.y) && z == SpawnZ(d.z)
      ensures width == StreakWidth && height == SpawnHeight(d.height) && speed == SpawnSpeed(d.speed)
      ensures Valid()
    {
      x := SpawnX(d.x);
      y := SpawnY(d.y);
      z := SpawnZ(d.z);
      width := StreakWidth;
      height := SpawnHeight(d.height);
      speed := SpawnSpeed(d.speed);
    }

    /** One frame: x += speed, then back to -Edge past the right edge. */
    method Tick()
      modifies this
      ensures x == StreakStep(old(x), speed)
      ensures old(Valid()) ==> Valid()
    {
      x := x + speed;
      if x > Edge {
        x := -Edge;
      }
    }
  }
}
