/** Integer points and rectangles, as in Go's `image` package. */
module Geometry {

  datatype Point = Point(x: int, y: int) {
    /** `p.Add(q)`: component-wise sum. */
    function Add(q: Point): Point {
      Point(x + q.x, y + q.y)
    }
  }

  /** `image.Point{0, 0}` */
  const Origin := Point(0, 0)

  /** `image.Rectangle{Min, Max}`; Max is exclusive. */
  datatype Rectangle = Rectangle(min: Point, max: Point) {
    function Dx(): int { max.x - min.x }
    function Dy(): int { max.y - min.y }
    /** Min is not to the right of, nor below, Max. */
    predicate WellFormed() { min.x <= max.x && min.y <= max.y }
  }

  function Min(a: int, b: int): int { if a <= b then a else b }
  function Max(a: int, b: int): int { if a <= b then b else a }

  /** `image.Rect(x0, y0, x1, y1)`: the corners are swapped if needed, so the
      result is always well-formed and spans both given corners. */
  function Rect(x0: int, y0: int, x1: int, y1: int): (r: Rectangle)
    ensures r.WellFormed()
    ensures r.min.x in {x0, x1} && r.max.x in {x0, x1} && r.Dx() == Max(x1 - x0, x0 - x1)
    ensures r.min.y in {y0, y1} && r.max.y in {y0, y1} && r.Dy() == Max(y1 - y0, y0 - y1)
  {
    Rectangle(Point(Min(x0, x1), Min(y0, y1)), Point(Max(x0, x1), Max(y0, y1)))
  }

  /** A rectangle anchored at the origin with a non-negative size is exactly
      what `image.Rect(0, 0, w, h)` builds. */
  lemma RectAtOrigin(w: int, h: int)
    requires 0 <= w && 0 <= h
    ensures Rect(0, 0, w, h) == Rectangle(Origin, Point(w, h))
    ensures Rect(0, 0, w, h).Dx() == w && Rect(0, 0, w, h).Dy() == h
  {
  }
}
