/** Small shared vocabulary: Python's `None`-or-value, and the integer handles
    that the canvas hands back for every item it creates. */
module Common {

  /** A value that may be absent; `None` stands for Python's `None`. */
  datatype Option<+T> = None | Some(value: T)

  /** A canvas item handle, as returned by the toolkit's `create_*` calls. */
  type ItemId = nat

  /** A point on the canvas, as the `(event.x, event.y)` pair of a mouse event. */
  datatype Point = Point(x: int, y: int)

  /** `start_pos + (x, y)`: two points flattened into the four coordinates of a drawing. */
  function Span(a: Point, b: Point): (r: seq<int>)
    ensures |r| == 4
    ensures r[..2] == [a.x, a.y] && r[2..] == [b.x, b.y]
  {
    [a.x, a.y, b.x, b.y]
  }
}
