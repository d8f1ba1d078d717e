/** The bird: a fixed column, a height and a vertical speed under constant gravity. */
module Flight {
  import opened Settings
  import opened Rects

  /** The bird's fixed horizontal position. */
  const BIRD_X: real := 80.0
  /** Added to the vertical speed every frame (positive is downwards). */
  const GRAVITY: real := 0.4
  /** The vertical speed a flap sets. */
  const JUMP: real := -8.0
  /** The starting height, HEIGHT // 2. */
  const START_Y: real := (HEIGHT / 2) as real

  /** The lowest live height, HEIGHT - 50. The 50 is the sprite's width, not its
      height (BIRD_H = 40): a live bird's sprite ends at most 20 pixels below this
      line, 30 pixels above the bottom edge. */
  const FLOOR_Y: int := HEIGHT - 50

  /** The bird is dead once its height leaves [0, FLOOR_Y]. */
  predicate OutOfBounds(y: real) {
    y < 0.0 || y > FLOOR_Y as real
  }

  /** The sprite rectangle of a bird at height y, centred on (BIRD_X, y). */
  function BirdRect(y: real): (b: Box)
    ensures b.NonEmpty() && b.left < BIRD_X < b.Right() && b.top < y < b.Bottom()
  {
    CenteredAt(BIRD_X, y, BIRD_W as real, BIRD_H as real)
  }

  class Bird {
    const x: real := BIRD_X
    var y: real
    var vel: real
    const gravity: real := GRAVITY
    const jump: real := JUMP
    var rect: Box

    /** The rectangle always follows the bird's position. */
    ghost predicate Valid()
      reads this
    {
      rect == BirdRect(y)
    }

    constructor ()
      ensures Valid() && y == START_Y && vel == 0.0
      ensures !Dead()
    {
      y := START_Y;
      vel := 0.0;
      rect := BirdRect(START_Y);
    }

    /** A flap overwrites the speed with the jump speed, whatever it was. */
    method Flap()
      requires Valid()
      modifies this`vel
      ensures Valid() && vel == jump
    {
      vel := jump;
    }

    /** One frame of motion: gravity first, then the new speed moves the bird. */
    method Update()
      requires Valid()
      modifies this`vel, this`y, this`rect
      ensures Valid()
      ensures vel == old(vel) + gravity && y == old(y) + vel
    {
      vel := vel + gravity;
      y := y + vel;
      rect := BirdRect(y);
    }

    /** Dead once the bird leaves the vertical screen bounds: a live bird has its
        centre on screen and its whole sprite above the bottom edge. */
    function Dead(): (dead: bool)
      reads this
      ensures !dead ==> 0.0 <= y && BirdRect(y).Bottom() <= HEIGHT as real
    {
      OutOfBounds(y)
    }
  }

  /** Height and vertical speed of a bird. */
  datatype Motion = Motion(y: real, vel: real)

  /** One frame of `Bird.Update` on values: the speed grows, and the bird moves by
      the new speed rather than the old one. */
  function Gravity(m: Motion): (r: Motion)
    ensures r.vel > m.vel && r.y - m.y == r.vel
  {
    Motion(m.y + (m.vel + GRAVITY), m.vel + GRAVITY)
  }

  /** The motion after n frames without a flap. */
  function Fall(m: Motion, n: nat): Motion {
    if n == 0 then m else Gravity(Fall(m, n - 1))
  }

  /** Closed form of free fall: after n frames the speed has grown by n * GRAVITY
      and the height by n * vel + GRAVITY * n * (n + 1) / 2. */
  lemma {:induction false} FallClosedForm(m: Motion, n: nat)
    ensures Fall(m, n).vel == m.vel + (n as real) * GRAVITY
    ensures Fall(m, n).y == m.y + (n as real) * m.vel + GRAVITY * ((n as real) * ((n + 1) as real) / 2.0)
  {
    if n > 0 {
      FallClosedForm(m, n - 1);
      var k := (n - 1) as real;
      assert (n as real) * m.vel == k * m.vel + m.vel;
      assert k * (k + 1.0) / 2.0 + k + 1.0 == (k + 1.0) * (k + 2.0) / 2.0;
    }
  }

  /** Between flaps the speed never decreases. */
  lemma FallSpeedNeverDecreases(m: Motion, n: nat)
    ensures Fall(m, n).vel >= m.vel
  {
    FallClosedForm(m, n);
  }

  /** The game only starts with a flap, so its first frames start from START_Y at
      the jump speed. A bird that flaps once and never again stays in bounds for
      59 frames: it rises to about 224 and falls back, ... */
  lemma FirstFlapSurvives(n: nat)
    requires n <= 59
    ensures !OutOfBounds(Fall(Motion(START_Y, JUMP), n).y)
  {
    FallClosedForm(Motion(START_Y, JUMP), n);
    var r := n as real;
    var y := Fall(Motion(START_Y, JUMP), n).y;
    assert (n + 1) as real == r + 1.0;
    assert y == START_Y + r * JUMP + GRAVITY * (r * (r + 1.0) / 2.0);
    FlapHeight(r);
    SquareNonNegative(r - 19.5);
    ProductOfNonNegatives(59.0 - r, r + 20.0);
  }

  /** ... and is out of bounds in the 60th. */
  lemma FirstFlapFallsOut()
    ensures OutOfBounds(Fall(Motion(START_Y, JUMP), 60).y)
  {
    FallClosedForm(Motion(START_Y, JUMP), 60);
  }

  lemma FlapHeight(r: real)
    ensures START_Y + r * JUMP + GRAVITY * (r * (r + 1.0) / 2.0) == 300.0 - 7.8 * r + 0.2 * (r * r)
  {
    assert START_Y == 300.0;
    assert r * (r + 1.0) == r * r + r;
  }

  lemma SquareNonNegative(a: real)
    ensures a * a >= 0.0
  {
    if a < 0.0 {
      ProductOfNonNegatives(-a, -a);
    }
  }

  lemma ProductOfNonNegatives(a: real, b: real)
    requires a >= 0.0 && b >= 0.0
    ensures a * b >= 0.0
  {
  }
}
