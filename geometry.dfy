/**
 * Integer rectangle arithmetic of the annotator: OpenCV's `Point` and `Rect`,
 * `Rect::contains`, the rectangle a creating drag stretches, the origin a moving
 * drag computes, and the clamped keyboard translation and resizing.
 */
module Geometry {

  /** A pixel position, as OpenCV's `Point`. */
  datatype Point = Point(x: int, y: int)

  /** An axis-aligned rectangle as OpenCV's `Rect`: top-left corner, width and height. */
  datatype Rect = Rect(x: int, y: int, width: int, height: int)

  function Min(a: int, b: int): int { if a <= b then a else b }

  function Max(a: int, b: int): int { if a >= b then a else b }

  function Abs(a: int): int { if a < 0 then -a else a }

  /** `Rect::contains`: the rectangle is half-open on both axes, so a rectangle of non-positive size contains nothing. */
  predicate Contains(r: Rect, p: Point) {
    r.x <= p.x < r.x + r.width && r.y <= p.y < r.y + r.height
  }

  /** `r` lies entirely within an image of `cols` by `rows` pixels. */
  predicate Inside(r: Rect, cols: int, rows: int) {
    0 <= r.x && r.x + r.width <= cols && 0 <= r.y && r.y + r.height <= rows
  }

  // ---------------------------------------------------------------------------
  // Pointer drags

  /**
   * The rectangle a creating drag stretches between the anchor `a` and the pointer `b`:
   * the two x-edges and the two y-edges are sorted and both ends are part of it.
   */
  function Span(a: Point, b: Point): Rect {
    var x0 := Min(a.x, b.x);
    var y0 := Min(a.y, b.y);
    Rect(x0, y0, Max(a.x, b.x) - x0 + 1, Max(a.y, b.y) - y0 + 1)
  }

  /** The created rectangle starts at the smaller coordinates and is never empty: each side is the distance plus one. */
  lemma SpanShape(a: Point, b: Point)
    ensures Span(a, b).x == Min(a.x, b.x) && Span(a, b).y == Min(a.y, b.y)
    ensures Span(a, b).width == Abs(b.x - a.x) + 1 >= 1
    ensures Span(a, b).height == Abs(b.y - a.y) + 1 >= 1
  {
  }

  /** The anchor and the pointer may be exchanged: dragging past the anchor flips the rectangle and nothing else. */
  lemma SpanSymmetric(a: Point, b: Point)
    ensures Span(a, b) == Span(b, a)
  {
  }

  /** A point lies in the created rectangle exactly when each of its coordinates lies between the two drag ends. */
  lemma SpanContains(a: Point, b: Point, q: Point)
    ensures Contains(Span(a, b), q) <==>
      Min(a.x, b.x) <= q.x <= Max(a.x, b.x) && Min(a.y, b.y) <= q.y <= Max(a.y, b.y)
  {
  }

  /** The created rectangle holds both drag ends and lies within every rectangle that holds them both. */
  lemma SpanSmallest(a: Point, b: Point, r: Rect, q: Point)
    requires Contains(r, a) && Contains(r, b)
    ensures Contains(Span(a, b), a) && Contains(Span(a, b), b)
    ensures Contains(Span(a, b), q) ==> Contains(r, q)
  {
  }

  /**
   * A moving drag: `r` keeps its own width and height and takes as its corner the corner of
   * `origin` (the rectangle when the drag began) shifted by the pointer's travel from `from` to `to`.
   */
  function DragMove(r: Rect, origin: Rect, from: Point, to: Point): Rect {
    r.(x := origin.x + to.x - from.x, y := origin.y + to.y - from.y)
  }

  /**
   * When the box still has the size it had when the drag began, a moving drag is a rigid
   * translation: the box covers a point exactly when the original covered the point shifted back.
   */
  lemma DragMoveTranslates(r: Rect, origin: Rect, from: Point, to: Point, q: Point)
    requires r.width == origin.width && r.height == origin.height
    ensures DragMove(r, origin, from, to).width == origin.width
    ensures DragMove(r, origin, from, to).height == origin.height
    ensures Contains(DragMove(r, origin, from, to), q) <==>
      Contains(origin, Point(q.x - (to.x - from.x), q.y - (to.y - from.y)))
  {
  }

  /** Returning the pointer to the anchor puts the box back at the original corner. */
  lemma DragMoveBack(r: Rect, origin: Rect, p: Point, q: Point)
    ensures DragMove(DragMove(r, origin, p, q), origin, p, p) == r.(x := origin.x, y := origin.y)
  {
  }

  // ---------------------------------------------------------------------------
  // Keyboard adjustments

  /**
   * `move`: a box of positive size is translated by `unit` times `(dx, dy)` and its corner is
   * clamped to `[0, cols - width]` by `[0, rows - height]` (first raised to 0, then lowered to the
   * upper bound, as the source does); a degenerate box stays where it is.
   */
  function Moved(r: Rect, dx: int, dy: int, unit: int, cols: int, rows: int): Rect {
    if r.width > 0 && r.height > 0 then
      r.(x := Min(Max(0, r.x + unit * dx), cols - r.width),
         y := Min(Max(0, r.y + unit * dy), rows - r.height))
    else
      r
  }

  /** Only the corner moves; a degenerate box does not move at all. */
  lemma MovedKeepsSize(r: Rect, dx: int, dy: int, unit: int, cols: int, rows: int)
    ensures Moved(r, dx, dy, unit, cols, rows).width == r.width
    ensures Moved(r, dx, dy, unit, cols, rows).height == r.height
    ensures !(r.width > 0 && r.height > 0) ==> Moved(r, dx, dy, unit, cols, rows) == r
  {
  }

  /** A box that fits in the image ends up inside it, wherever it started. */
  lemma MovedInside(r: Rect, dx: int, dy: int, unit: int, cols: int, rows: int)
    requires 0 < r.width <= cols && 0 < r.height <= rows
    ensures Inside(Moved(r, dx, dy, unit, cols, rows), cols, rows)
  {
  }

  /**
   * The clamp picks, on each axis, the admissible corner nearest to the requested one; in
   * particular a requested corner that is admissible is reached exactly.
   */
  lemma MovedNearest(r: Rect, dx: int, dy: int, unit: int, cols: int, rows: int, vx: int, vy: int)
    requires 0 < r.width <= cols && 0 < r.height <= rows
    requires 0 <= vx <= cols - r.width && 0 <= vy <= rows - r.height
    ensures Abs(Moved(r, dx, dy, unit, cols, rows).x - (r.x + unit * dx)) <= Abs(vx - (r.x + unit * dx))
    ensures Abs(Moved(r, dx, dy, unit, cols, rows).y - (r.y + unit * dy)) <= Abs(vy - (r.y + unit * dy))
    ensures vx == r.x + unit * dx ==> Moved(r, dx, dy, unit, cols, rows).x == vx
    ensures vy == r.y + unit * dy ==> Moved(r, dx, dy, unit, cols, rows).y == vy
  {
  }

  /**
   * `changeSize`: for a box of positive size, the width grows by `unit * dx` only when the result
   * stays positive, and is then capped at `cols - x`; the height follows the same rule against
   * `rows - y`. The corner never changes; a degenerate box is left alone.
   */
  function Resized(r: Rect, dx: int, dy: int, unit: int, cols: int, rows: int): Rect {
    if r.width > 0 && r.height > 0 then
      var w := if r.width + dx * unit > 0 then Min(r.width + dx * unit, cols - r.x) else r.width;
      var h := if r.height + dy * unit > 0 then Min(r.height + dy * unit, rows - r.y) else r.height;
      r.(width := w, height := h)
    else
      r
  }

  /**
   * The corner is fixed; a step that would make a side non-positive is refused; otherwise the side
   * becomes the requested length, or `cols - x` (`rows - y`) when that is smaller.
   */
  lemma ResizedSides(r: Rect, dx: int, dy: int, unit: int, cols: int, rows: int)
    requires r.width > 0 && r.height > 0
    ensures Resized(r, dx, dy, unit, cols, rows).x == r.x && Resized(r, dx, dy, unit, cols, rows).y == r.y
    ensures r.width + dx * unit <= 0 ==> Resized(r, dx, dy, unit, cols, rows).width == r.width
    ensures r.height + dy * unit <= 0 ==> Resized(r, dx, dy, unit, cols, rows).height == r.height
    ensures 0 < r.width + dx * unit <= cols - r.x ==> Resized(r, dx, dy, unit, cols, rows).width == r.width + dx * unit
    ensures 0 < r.height + dy * unit <= rows - r.y ==> Resized(r, dx, dy, unit, cols, rows).height == r.height + dy * unit
    ensures 0 < r.width + dx * unit && cols - r.x < r.width + dx * unit ==> Resized(r, dx, dy, unit, cols, rows).width == cols - r.x
    ensures 0 < r.height + dy * unit && rows - r.y < r.height + dy * unit ==> Resized(r, dx, dy, unit, cols, rows).height == rows - r.y
  {
  }

  /** Resizing keeps a box that lies inside the image inside it, and keeps its sides positive. */
  lemma ResizedInside(r: Rect, dx: int, dy: int, unit: int, cols: int, rows: int)
    requires Inside(r, cols, rows) && r.width > 0 && r.height > 0
    ensures Inside(Resized(r, dx, dy, unit, cols, rows), cols, rows)
    ensures Resized(r, dx, dy, unit, cols, rows).width > 0 && Resized(r, dx, dy, unit, cols, rows).height > 0
  {
  }

  /** `changeUnitSize`: the step changes by `delta` but never drops below 1. */
  function NextUnitSize(unit: int, delta: int): (u: int)
    ensures u >= 1
    ensures u >= unit + delta
    ensures u == unit + delta || u == 1
  {
    Max(1, unit + delta)
  }

  /** Raising the step and lowering it again restores it; lowering then raising does so unless the floor was hit. */
  lemma UnitSizeRoundTrip(unit: int)
    requires unit >= 1
    ensures NextUnitSize(NextUnitSize(unit, 1), -1) == unit
    ensures unit >= 2 ==> NextUnitSize(NextUnitSize(unit, -1), 1) == unit
    ensures NextUnitSize(NextUnitSize(1, -1), 1) == 2
  {
  }
}
