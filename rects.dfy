/** Axis-aligned rectangles standing in for pygame's Rect, with its overlap test. */
module Rects {
  /** A rectangle given by its top-left corner and its size. */
  datatype Box = Box(left: real, top: real, width: real, height: real)
  {
    function Right(): real { left + width }
    function Bottom(): real { top + height }

    predicate NonEmpty() { width > 0.0 && height > 0.0 }

    /** The point lies strictly inside the rectangle. */
    predicate Contains(px: real, py: real) {
      left < px < Right() && top < py < Bottom()
    }
  }

  /** The rectangle of the given size whose centre is (cx, cy), as `get_rect(center=...)` builds it. */
  function CenteredAt(cx: real, cy: real, w: real, h: real): (b: Box)
    ensures b.width == w && b.height == h
    ensures b.left + b.Right() == 2.0 * cx && b.top + b.Bottom() == 2.0 * cy
  {
    Box(cx - w / 2.0, cy - h / 2.0, w, h)
  }

  /** `colliderect`: the two rectangles share some area; for rectangles with area,
      their intersection has positive width and height. Touching edges do not count. */
  function Overlaps(a: Box, b: Box): (r: bool)
    ensures a.NonEmpty() && b.NonEmpty() ==>
      (r <==> (Max(a.left, b.left) < Min(a.Right(), b.Right()) &&
               Max(a.top, b.top) < Min(a.Bottom(), b.Bottom())))
  {
    a.left < b.Right() && b.left < a.Right() && a.top < b.Bottom() && b.top < a.Bottom()
  }

  function Max(u: real, v: real): real { if u < v then v else u }
  function Min(u: real, v: real): real { if u < v then u else v }

  /** For rectangles with area, overlapping means having an interior point in common. */
  lemma OverlapsIffCommonPoint(a: Box, b: Box)
    requires a.NonEmpty() && b.NonEmpty()
    ensures Overlaps(a, b) <==> exists px: real, py: real :: a.Contains(px, py) && b.Contains(px, py)
  {
    if Overlaps(a, b) {
      var px := (Max(a.left, b.left) + Min(a.Right(), b.Right())) / 2.0;
      var py := (Max(a.top, b.top) + Min(a.Bottom(), b.Bottom())) / 2.0;
      assert a.Contains(px, py) && b.Contains(px, py);
    }
  }
}
