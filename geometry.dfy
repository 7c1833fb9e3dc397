/** Screen geometry shared by the window and the primitive drawer: the engine's
    16-bit points and half-open rectangles, with the wrap-around of 16-bit
    coordinate arithmetic written out. */
module Geometry {

  /** A coordinate as the engine stores it: a signed 16-bit integer. */
  newtype int16 = x: int | -0x8000 <= x < 0x8000

  /** A C `int` argument. */
  newtype int32 = x: int | -0x8000_0000 <= x < 0x8000_0000

  /** Two's-complement truncation of an integer to 16 bits, as happens when a
      wider value is stored into a 16-bit coordinate. */
  function Wrap16(v: int): (r: int16)
    ensures -0x8000 <= v < 0x8000 ==> r as int == v
    ensures v - r as int == 0x10000 * ((v + 0x8000) / 0x10000)
  {
    ((v + 0x8000) % 0x10000 - 0x8000) as int16
  }

  datatype Point = Point(x: int16, y: int16)

  /** `p - q`, coordinate by coordinate, truncated back to 16 bits. */
  function Sub(p: Point, q: Point): Point {
    Point(Wrap16(p.x as int - q.x as int), Wrap16(p.y as int - q.y as int))
  }

  /** `p + q`, coordinate by coordinate, truncated back to 16 bits. */
  function Add(p: Point, q: Point): Point {
    Point(Wrap16(p.x as int + q.x as int), Wrap16(p.y as int + q.y as int))
  }

  /** Subtraction followed by addition of the same point is the identity, in
      spite of the 16-bit wrap-around. */
  lemma SubAddRoundTrip(p: Point, q: Point)
    ensures Add(Sub(p, q), q) == p
  {
  }

  /** A rectangle with exclusive right and bottom edges. */
  datatype Rect = Rect(left: int16, top: int16, right: int16, bottom: int16)
  {
    function TopLeft(): Point { Point(left, top) }

    /** The width and height, as long as they fit a 16-bit coordinate. */
    predicate SizeFits() {
      left <= right && top <= bottom
      && right as int - left as int < 0x8000 && bottom as int - top as int < 0x8000
    }
  }

  /** Half-open containment: the left and top edges belong to the rectangle,
      the right and bottom edges do not. */
  predicate Contains(r: Rect, p: Point) {
    r.left <= p.x < r.right && r.top <= p.y < r.bottom
  }

  /** True when `d` is an offset inside a rectangle of the size of `r`. */
  predicate WithinSize(r: Rect, d: Point) {
    0 <= d.x as int < r.right as int - r.left as int
    && 0 <= d.y as int < r.bottom as int - r.top as int
  }

  /** A point lies in the rectangle exactly when its offset from the top-left
      corner lies in [0, width) x [0, height). The offset is computed with
      16-bit wrap-around: an offset inside the size always comes from a point
      inside, and a point inside gives the exact, unwrapped offset whenever
      the size fits 16 bits. */
  lemma ContainsRelative(r: Rect, p: Point)
    ensures WithinSize(r, Sub(p, r.TopLeft())) ==> Contains(r, p)
    ensures r.SizeFits() && Contains(r, p) ==>
      Sub(p, r.TopLeft()).x as int == p.x as int - r.left as int
      && Sub(p, r.TopLeft()).y as int == p.y as int - r.top as int
    ensures r.SizeFits() ==> (Contains(r, p) <==> WithinSize(r, Sub(p, r.TopLeft())))
  {
  }
}
