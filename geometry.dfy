/** Positions on the minimap and pixels of a captured frame. */
module Geometry {

  /** A position relative to the calibrated minimap; each coordinate is normally in [0, 1]. */
  datatype Pos = Pos(x: real, y: real)

  /** A pixel coordinate of a captured frame: column first, as the template matcher reports it. */
  datatype Pixel = Pixel(col: int, row: int)

  function Abs(r: real): (a: real)
    ensures a >= 0.0 && (a == r || a == -r)
  {
    if r < 0.0 then -r else r
  }

  function Max(a: int, b: int): (m: int)
    ensures m >= a && m >= b && (m == a || m == b)
  {
    if a < b then b else a
  }

  /** The square of the Euclidean distance. Comparing it with the square of a
      non-negative tolerance is the same as comparing the distance itself. */
  function SqDist(a: Pos, b: Pos): (d: real)
    ensures d >= 0.0
  {
    var dx, dy := a.x - b.x, a.y - b.y;
    SquarePositive(dx);
    SquarePositive(dy);
    dx * dx + dy * dy
  }

  lemma SquarePositive(r: real)
    ensures r * r >= 0.0
  {
  }
}
