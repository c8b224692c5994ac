/** The drag rectangle: how a pointer press starts it, how a move drags its end corner,
    and the box the overlay draws for it (min of the corners, absolute differences). */
module Geometry {
  import opened AnnotationTypes

  /** The box drawn on screen: left/top corner and extent. */
  datatype Box = Box(left: int, top: int, width: int, height: int)

  /** A press at `(x, y)`: a zero-area rectangle anchored there. */
  function Begin(x: int, y: int): (r: Rectangle)
    ensures Normalize(r) == Box(x, y, 0, 0)
  {
    Rectangle(x, y, x, y)
  }

  /** A move to `(x, y)`: the start corner stays, the end corner follows the pointer. */
  function Extend(r: Rectangle, x: int, y: int): (e: Rectangle)
    ensures e.startX == r.startX && e.startY == r.startY && e.endX == x && e.endY == y
  {
    r.(endX := x, endY := y)
  }

  /** The drawn box is the smallest one whose horizontal and vertical extents reach
      both captured corners, whichever way the drag went. */
  function Normalize(r: Rectangle): (b: Box)
    ensures b.width >= 0 && b.height >= 0
    ensures b.left <= r.startX && b.left <= r.endX && (b.left == r.startX || b.left == r.endX)
    ensures b.top <= r.startY && b.top <= r.endY && (b.top == r.startY || b.top == r.endY)
    ensures b.left + b.width >= r.startX && b.left + b.width >= r.endX
    ensures b.left + b.width == r.startX || b.left + b.width == r.endX
    ensures b.top + b.height >= r.startY && b.top + b.height >= r.endY
    ensures b.top + b.height == r.startY || b.top + b.height == r.endY
  {
    Box(Min(r.startX, r.endX), Min(r.startY, r.endY), Abs(r.endX - r.startX), Abs(r.endY - r.startY))
  }

  function Min(a: int, b: int): int {
    if a <= b then a else b
  }

  function Abs(a: int): int {
    if a < 0 then -a else a
  }

  /** Dragging from A to B draws the same box as dragging from B to A. */
  lemma NormalizeSymmetric(r: Rectangle)
    ensures Normalize(Rectangle(r.endX, r.endY, r.startX, r.startY)) == Normalize(r)
  {
  }
}
