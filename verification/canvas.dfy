/** The drawing vocabulary of the procedural icon: colours, bounding boxes
    and the primitive shapes painted onto a square canvas, in paint order.
    Pixel contents are not modelled; a shape is recorded with the integer
    coordinates and colour it is painted with. */
module Canvas {

  datatype Rgb = Rgb(r: int, g: int, b: int)

  /** Every channel is a byte value. */
  predicate IsByteColour(c: Rgb) {
    0 <= c.r <= 255 && 0 <= c.g <= 255 && 0 <= c.b <= 255
  }

  const White := Rgb(255, 255, 255)
  /** The deep blue of the gradient start (`#1A4D99`), also the heart fill. */
  const DeepBlue := Rgb(26, 77, 153)

  /** A bounding box `[x1, y1, x2, y2]` as the drawing calls take it. */
  datatype Box = Box(x1: int, y1: int, x2: int, y2: int)

  /** The square box of half-side `r` around `(x, y)`. */
  function SquareAround(x: int, y: int, r: int): (b: Box)
    ensures CenteredAt(b, x, y)
    ensures b.x2 - b.x1 == 2 * r && b.y2 - b.y1 == 2 * r
  {
    Box(x - r, y - r, x + r, y + r)
  }

  predicate CenteredAt(b: Box, x: int, y: int) {
    b.x1 + b.x2 == 2 * x && b.y1 + b.y2 == 2 * y
  }

  /** All four coordinates lie in `0..size`. */
  predicate InCanvas(b: Box, size: int) {
    0 <= b.x1 <= b.x2 <= size && 0 <= b.y1 <= b.y2 <= size
  }

  /** `b` reflected in the diagonal through `(x, y)`: x and y offsets swap. */
  function Transposed(b: Box, x: int, y: int): Box {
    Box(x + (b.y1 - y), y + (b.x1 - x), x + (b.y2 - y), y + (b.x2 - x))
  }

  datatype Shape =
    | Ellipse(box: Box, fill: Rgb)
    | RoundedRect(box: Box, radius: int, fill: Rgb)
    /** The heart glyph: its anchor, its size argument and its colour. */
    | Heart(x: int, y: int, size: int, fill: Rgb)

  /** A square canvas of side `side` filled with `background`, then
      painted with `shapes` in order. */
  datatype Icon = Icon(side: nat, background: Rgb, shapes: seq<Shape>)
}
