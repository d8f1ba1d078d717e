/** A pipe: a top and a bottom column with a gap between them, moving left. */
module Obstacles {
  import opened Settings
  import opened Rects
  import opened Flight

  /** Vertical size of the opening between the two columns. */
  const GAP: int := 220
  /** Pixels a pipe moves left per frame. */
  const PIPE_SPEED: real := 2.5
  /** Bounds of the random top height: at least 120 above the gap, at least 150 below it. */
  const MIN_TOP_H: int := 120
  const MAX_TOP_H: int := HEIGHT - GAP - 150
  /** A pipe is removed once its x is below this. */
  const OFFSCREEN_X: real := -80.0

  /** The range `random.randint` draws the top height from (both ends included). */
  predicate TopHInRange(h: int) {
    MIN_TOP_H <= h <= MAX_TOP_H
  }

  /** The top column: from the top of the screen down to topH. */
  function TopRect(x: real, topH: int): Box {
    Box(x, 0.0, PIPE_W as real, topH as real)
  }

  /** The bottom column: from bottomY down to the bottom of the screen. */
  function BottomRect(x: real, bottomY: int): Box {
    Box(x, bottomY as real, PIPE_W as real, (HEIGHT - bottomY) as real)
  }

  predicate PastLeftEdge(x: real) {
    x < OFFSCREEN_X
  }

  /** The box meets the top or the bottom column of a pipe at x with top height topH. */
  predicate HitsPipe(b: Box, x: real, topH: int) {
    Overlaps(b, TopRect(x, topH)) || Overlaps(b, BottomRect(x, topH + GAP))
  }

  class Pipe {
    var x: real
    const gap: int := GAP
    const speed: real := PIPE_SPEED
    const topH: int
    const bottomY: int
    var passed: bool
    var topRect: Box
    var bottomRect: Box

    /** The gap geometry is fixed at construction and the rectangles follow x. */
    ghost predicate Valid()
      reads this
    {
      && TopHInRange(topH)
      && bottomY == topH + gap
      && topRect == TopRect(x, topH)
      && bottomRect == BottomRect(x, bottomY)
    }

    /** A pipe at x0 whose top height h is the value drawn by `random.randint`. */
    constructor (x0: real, h: int)
      requires TopHInRange(h)
      ensures Valid() && x == x0 && topH == h && !passed
    {
      x := x0;
      topH := h;
      bottomY := h + GAP;
      passed := false;
      topRect := TopRect(x0, h);
      bottomRect := BottomRect(x0, h + GAP);
    }

    /** One frame: only x moves, and both rectangles move with it. */
    method Update()
      requires Valid()
      modifies this`x, this`topRect, this`bottomRect
      ensures Valid()
      ensures x == old(x) - speed
    {
      x := x - speed;
      topRect := topRect.(left := x);
      bottomRect := bottomRect.(left := x);
    }

    /** `colliderect` against either column; since the rectangles follow the
        positions, this is the geometric test on the bird's height and the pipe's x. */
    function Collide(bird: Bird): (hit: bool)
      requires Valid() && bird.Valid()
      reads this, bird
      ensures hit <==> HitsPipe(BirdRect(bird.y), x, topH)
    {
      Overlaps(bird.rect, topRect) || Overlaps(bird.rect, bottomRect)
    }

    /** Past the left edge, where neither column is visible any more. */
    function Offscreen(): (gone: bool)
      reads this
      ensures gone <==> x < OFFSCREEN_X
      ensures gone ==> TopRect(x, topH).Right() < 0.0 && BottomRect(x, topH + GAP).Right() < 0.0
    {
      PastLeftEdge(x)
    }
  }

  /** Every height the range admits leaves a gap that fits on screen: both columns
      are non-empty, the bottom one at least 150 pixels tall. */
  lemma GapFitsOnScreen(h: int)
    requires TopHInRange(h)
    ensures TopRect(0.0, h).NonEmpty() && BottomRect(0.0, h + GAP).NonEmpty()
    ensures HEIGHT - (h + GAP) >= 150
  {
  }

  /** A box collides with a pipe exactly when it is horizontally within the pipe's
      columns and reaches, on screen, above the gap or below it. */
  lemma HitsPipeIff(b: Box, x: real, topH: int)
    requires b.NonEmpty() && TopHInRange(topH)
    ensures HitsPipe(b, x, topH) <==>
      && b.left < x + PIPE_W as real && x < b.Right()
      && ((b.top < topH as real && 0.0 < b.Bottom()) ||
          ((topH + GAP) as real < b.Bottom() && b.top < HEIGHT as real))
  {
  }

  /** Every pipe can be passed: a bird centred in the gap touches neither column,
      and is not out of bounds. */
  lemma GapIsPassable(x: real, topH: int)
    requires TopHInRange(topH)
    ensures exists y: real :: !OutOfBounds(y) && !HitsPipe(BirdRect(y), x, topH)
  {
    var y := (topH + GAP / 2) as real;
    assert !OutOfBounds(y) && !HitsPipe(BirdRect(y), x, topH);
  }
}
