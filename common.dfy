/** Small value types shared by every part of the model: optional values,
    results, 8-bit bytes, grid coordinates and sizes, axes and directions. */
module Common {

  datatype Option<+T> = None | Some(value: T)

  datatype Result<+T, +E> = Ok(value: T) | Err(error: E)

  /** An unsigned 8-bit integer (Rust `u8`). */
  type U8 = x: int | 0 <= x < 256

  /** A 16-bit unsigned integer (Rust `u16`). */
  type U16 = x: int | 0 <= x < 0x1_0000

  /** A grid coordinate; may be negative or lie outside any grid. */
  datatype Coord = Coord(x: int, y: int)

  /** The size of a rectangular grid. */
  datatype Size = Size(width: nat, height: nat)

  datatype Axis = X | Y

  datatype CardinalDirection = North | East | South | West

  predicate InBounds(size: Size, c: Coord) {
    0 <= c.x < size.width && 0 <= c.y < size.height
  }

  function Area(size: Size): nat {
    size.width * size.height
  }

  /** Row-major index of an in-bounds coordinate, as a grid stores its cells. */
  function Index(size: Size, c: Coord): (i: nat)
    requires InBounds(size, c)
    ensures i < Area(size)
  {
    IndexBound(size, c);
    c.y * size.width + c.x
  }

  /** The coordinate stored at a row-major index. */
  function CoordOfIndex(size: Size, i: nat): (c: Coord)
    requires i < Area(size)
    ensures InBounds(size, c) && Index(size, c) == i
  {
    var c := Coord(i % size.width, i / size.width);
    CoordOfIndexBound(size, i);
    c
  }

  lemma IndexBound(size: Size, c: Coord)
    requires InBounds(size, c)
    ensures 0 <= c.y * size.width + c.x < Area(size)
  {
    var w := size.width;
    MulMonotone(c.y + 1, size.height, w);
    assert (c.y + 1) * w == c.y * w + w;
  }

  lemma CoordOfIndexBound(size: Size, i: nat)
    requires i < Area(size)
    ensures size.width > 0
    ensures 0 <= i / size.width < size.height
    ensures (i / size.width) * size.width + i % size.width == i
  {
    var w := size.width;
    assert w > 0;
    assert (i / w) * w <= i;
    MulLess(i / w, size.height, w);
  }

  lemma MulMonotone(a: nat, b: nat, w: nat)
    requires a <= b
    ensures a * w <= b * w
  {
  }

  lemma MulLess(q: nat, h: nat, w: nat)
    requires q * w < h * w
    ensures q < h
  {
  }

  /** Two in-bounds coordinates share a row-major index only if they are equal. */
  lemma IndexInjective(size: Size, c: Coord, d: Coord)
    requires InBounds(size, c) && InBounds(size, d)
    requires Index(size, c) == Index(size, d)
    ensures c == d
  {
    if c.y < d.y {
      RowOrder(c, d, size.width);
    } else if d.y < c.y {
      RowOrder(d, c, size.width);
    }
  }

  lemma RowOrder(c: Coord, d: Coord, w: nat)
    requires c.y < d.y && 0 <= c.x < w && 0 <= d.x && 0 <= c.y
    ensures c.y * w + c.x < d.y * w + d.x
  {
    MulMonotone(c.y + 1, d.y, w);
    assert (c.y + 1) * w == c.y * w + w;
  }

  /** Rust's `/` on signed integers truncates toward zero. */
  function TruncDiv(a: int, b: int): int
    requires b > 0
  {
    if a >= 0 then a / b else -((-a) / b)
  }
}
