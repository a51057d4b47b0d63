/** Canvas coordinates. JavaScript numbers are modelled as exact reals:
    IEEE-754 rounding is not reproduced. */
module Geometry {

  datatype Position = Position(left: real, top: real)

  datatype Size = Size(width: real, height: real)

  /** The two coordinate axes of a position. */
  datatype Axis = Horizontal | Vertical

  function Coord(p: Position, axis: Axis): real
  {
    match axis
    case Horizontal => p.left
    case Vertical => p.top
  }

  /** The source's `a > b ? b : a`. */
  function Min(a: real, b: real): (r: real)
    ensures r <= a && r <= b
    ensures r == a || r == b
  {
    if a > b then b else a
  }

  /** `Math.abs`. */
  function Abs(x: real): (r: real)
    ensures r >= 0.0
    ensures r == x || r == -x
  {
    if x < 0.0 then -x else x
  }

  /** The smallest integer not below `x`. */
  function Ceil(x: real): (r: int)
    ensures x <= r as real < x + 1.0
  {
    -((-x).Floor)
  }

  /** `p` lies above and to the left of `q`, or on the same row or column. */
  predicate AboveLeft(p: Position, q: Position)
  {
    p.left <= q.left && p.top <= q.top
  }

  /** `x` lies in the closed interval spanned by `a` and `b`, in either order. */
  predicate Within(x: real, a: real, b: real)
  {
    (a <= x <= b) || (b <= x <= a)
  }
}
