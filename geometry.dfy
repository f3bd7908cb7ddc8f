/**
 * Points and boxes in window pixels, and the normalisation of a mouse drag
 * into the `(x_min, y_min, width, height)` box handed to the tracker
 * (ObjectTraker.py, select_roi_callback).
 */
module Geometry {

  /** A mouse position as the window reports it. */
  datatype Point = Point(x: int, y: int)

  /** An axis-aligned box: its top-left corner and its extent. */
  datatype Box = Box(x: int, y: int, width: int, height: int)

  /** A selection is accepted only when both sides exceed this many pixels. */
  const MinSide: int := 10

  function Min(a: int, b: int): (m: int)
    ensures m <= a && m <= b
    ensures m == a || m == b
  {
    if a <= b then a else b
  }

  function Abs(a: int): (r: int)
    ensures r >= 0
    ensures r == a || r == -a
  {
    if a < 0 then -a else a
  }

  /** The two coordinates a and b are the two ends of the interval [lo, lo + len]. */
  predicate EndsOf(lo: int, len: int, a: int, b: int)
  {
    (lo == a && lo + len == b) || (lo == b && lo + len == a)
  }

  /**
   * The reference meaning of a drag: b is the box whose opposite corners are
   * p and q, with a non-negative width and height.
   */
  predicate SpannedBy(b: Box, p: Point, q: Point)
  {
    b.width >= 0 && b.height >= 0 &&
    EndsOf(b.x, b.width, p.x, q.x) && EndsOf(b.y, b.height, p.y, q.y)
  }

  /** The box computed from the press point p and the release point q. */
  function BoxFromDrag(p: Point, q: Point): (b: Box)
    ensures SpannedBy(b, p, q)
    ensures b.x <= p.x <= b.x + b.width && b.x <= q.x <= b.x + b.width
    ensures b.y <= p.y <= b.y + b.height && b.y <= q.y <= b.y + b.height
  {
    Box(Min(p.x, q.x), Min(p.y, q.y), Abs(q.x - p.x), Abs(q.y - p.y))
  }

  /** The acceptance test applied to a finished drag. */
  predicate IsAcceptable(b: Box)
  {
    b.width > MinSide && b.height > MinSide
  }

  /** The computed box is the only box spanned by the two points. */
  lemma SpannedByIsBoxFromDrag(b: Box, p: Point, q: Point)
    ensures SpannedBy(b, p, q) <==> b == BoxFromDrag(p, q)
  {
    if SpannedBy(b, p, q) {
      var c := BoxFromDrag(p, q);
      assert b.x == c.x && b.width == c.width by {
        if p.x <= q.x { assert b.x == p.x || b.width == 0; }
      }
      assert b.y == c.y && b.height == c.height by {
        if p.y <= q.y { assert b.y == p.y || b.height == 0; }
      }
    }
  }

  /** Dragging from q to p gives the same box as dragging from p to q. */
  lemma BoxFromDragSymmetric(p: Point, q: Point)
    ensures BoxFromDrag(p, q) == BoxFromDrag(q, p)
  {
    SpannedByIsBoxFromDrag(BoxFromDrag(p, q), q, p);
  }

  /** A drag is accepted exactly when it moved more than MinSide pixels along both axes. */
  lemma AcceptableDrag(p: Point, q: Point)
    ensures IsAcceptable(BoxFromDrag(p, q)) <==> Abs(q.x - p.x) > MinSide && Abs(q.y - p.y) > MinSide
  {
  }

  /** Example: dragging up and to the left from (50, 50) to (10, 10). */
  lemma DragUpLeftExample()
    ensures BoxFromDrag(Point(50, 50), Point(10, 10)) == Box(10, 10, 40, 40)
    ensures IsAcceptable(BoxFromDrag(Point(50, 50), Point(10, 10)))
  {
  }
}
