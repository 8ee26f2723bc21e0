/** Small value types shared by both programs of the mouse jiggler. */
module Basics {

  /** An optional value: a command-line argument that was not given, a probe that failed. */
  datatype Option<+T> = None | Some(value: T) {

    /** The value, or `default` when there is none. */
    function GetOr(default: T): T {
      match this
      case Some(v) => v
      case None => default
    }
  }

  /** The outcome of an operation that can be refused. */
  datatype Result<+T, +E> = Ok(value: T) | Err(error: E)

  /** A screen position in pixels. */
  datatype Point = Point(x: int, y: int)

  /** `p` displaced by `d`. */
  function Shift(p: Point, d: Point): Point {
    Point(p.x + d.x, p.y + d.y)
  }

  /** How many times a Python `for i in range(n)` loop runs: `n` times, and not at all when `n` is negative. */
  function RangeCount(n: int): nat {
    if n < 0 then 0 else n
  }
}
