/** The scrolling background: two copies of the backdrop tiled side by side. */
module Scenery {
  import opened Settings

  /** Pixels the backdrop moves left per frame. */
  const SCROLL_SPEED: int := 1

  /** A tile offset after one frame: moved left, and put back at the right edge
      once it has reached -WIDTH. */
  function Scroll(x: int): (r: int)
    ensures -WIDTH < x <= WIDTH ==> -WIDTH < r <= WIDTH
    ensures r == x - SCROLL_SPEED || r == WIDTH
  {
    if x - SCROLL_SPEED <= -WIDTH then WIDTH else x - SCROLL_SPEED
  }

  /** Both offsets in (-WIDTH, WIDTH] and exactly one screen apart. */
  predicate TilesValid(x1: int, x2: int) {
    && -WIDTH < x1 <= WIDTH
    && -WIDTH < x2 <= WIDTH
    && (x2 - x1 == WIDTH || x1 - x2 == WIDTH)
  }

  class Background {
    var x1: int
    var x2: int
    const speed: int := SCROLL_SPEED

    ghost predicate Valid()
      reads this
    {
      TilesValid(x1, x2)
    }

    constructor ()
      ensures Valid() && x1 == 0 && x2 == WIDTH
    {
      x1 := 0;
      x2 := WIDTH;
    }

    /** One frame of scrolling; the tiles stay one screen apart. */
    method Update()
      requires Valid()
      modifies this
      ensures Valid()
      ensures x1 == Scroll(old(x1)) && x2 == Scroll(old(x2))
    {
      x1 := x1 - speed;
      x2 := x2 - speed;
      if x1 <= -WIDTH {
        x1 := WIDTH;
      }
      if x2 <= -WIDTH {
        x2 := WIDTH;
      }
    }
  }

  /** The offset of a tile after n frames. */
  function ScrollN(x: int, n: nat): int {
    if n == 0 then x else Scroll(ScrollN(x, n - 1))
  }

  /** The representative of v modulo 2 * WIDTH that lies in (-WIDTH, WIDTH]. */
  function Canon(v: int): (c: int)
    ensures -WIDTH < c <= WIDTH
    ensures (v - c) % (2 * WIDTH) == 0
  {
    WIDTH - (WIDTH - v) % (2 * WIDTH)
  }

  /** One frame of scrolling is subtraction of one, read modulo 2 * WIDTH. */
  lemma ScrollCanon(v: int)
    ensures Scroll(Canon(v)) == Canon(v - 1)
  {
    var r := (WIDTH - v) % (2 * WIDTH);
    if r == 2 * WIDTH - 1 {
      assert (WIDTH - (v - 1)) % (2 * WIDTH) == 0;
    } else {
      assert (WIDTH - (v - 1)) % (2 * WIDTH) == r + 1;
    }
  }

  /** Closed form: a tile that starts on screen is, after n frames, at its start
      minus n wrapped into (-WIDTH, WIDTH]. */
  lemma {:induction false} ScrollNClosedForm(x: int, n: nat)
    requires -WIDTH < x <= WIDTH
    ensures ScrollN(x, n) == Canon(x - n)
  {
    if n == 0 {
      assert (WIDTH - x) % (2 * WIDTH) == WIDTH - x;
    } else {
      ScrollNClosedForm(x, n - 1);
      ScrollCanon(x - (n - 1));
    }
  }

  /** From the initial offsets (0 and WIDTH), the two tiles stay in range and
      exactly one screen apart after any number of frames. */
  lemma TilesStayOneScreenApart(n: nat)
    ensures TilesValid(ScrollN(0, n), ScrollN(WIDTH, n))
  {
    ScrollNClosedForm(0, n);
    ScrollNClosedForm(WIDTH, n);
    var a, b := (WIDTH + n) % (2 * WIDTH), n % (2 * WIDTH);
    assert ScrollN(0, n) == WIDTH - a;
    assert ScrollN(WIDTH, n) == WIDTH - b;
    if b < WIDTH {
      assert a == b + WIDTH;
    } else {
      assert a == b - WIDTH;
    }
  }

  /** The backdrop repeats every 2 * WIDTH frames. */
  lemma ScrollPeriod(x: int)
    requires -WIDTH < x <= WIDTH
    ensures ScrollN(x, 2 * WIDTH) == x
  {
    ScrollNClosedForm(x, 2 * WIDTH);
    assert (WIDTH - (x - 2 * WIDTH)) % (2 * WIDTH) == WIDTH - x;
  }
}
