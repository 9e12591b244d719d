/**
 * Row-major addressing of a width-by-height pixel grid, shared by the
 * framebuffer and the texture (both define the same `calc_offset`).
 */
module Grid {
  import opened Wrappers
  import Numerics

  predicate InBounds(width: int, height: int, x: int, y: int)
  {
    0 <= x < width && 0 <= y < height
  }

  /** The row-major index `y * width + x` of an in-range pixel; it lies inside the grid. */
  function Index(width: int, height: int, x: int, y: int): (i: nat)
    requires InBounds(width, height, x, y)
    ensures i == y * width + x && i < width * height
    ensures i % width == x && i / width == y
  {
    OffsetInside(width, height, x, y);
    y * width + x
  }

  /**
   * `calc_offset`: the flat index of an in-range pixel, and no index
   * otherwise. The index determines the pixel back (column = index mod
   * width, row = index div width).
   */
  function CalcOffset(width: int, height: int, x: int, y: int): (r: Option<nat>)
    ensures r.Some? <==> InBounds(width, height, x, y)
    ensures r.Some? ==> r.value == Index(width, height, x, y)
  {
    if x < 0 || y < 0 || x >= width || y >= height then None
    else Some(Index(width, height, x, y))
  }

  lemma OffsetInside(width: int, height: int, x: int, y: int)
    requires InBounds(width, height, x, y)
    ensures 0 <= y * width + x < width * height
    ensures (y * width + x) % width == x && (y * width + x) / width == y
  {
    Numerics.MulMonotone(y + 1, height, width);
    assert y * width + x < (y + 1) * width;
    Numerics.MulMonotone(0, y, width);
    Numerics.DivUnique(y * width + x, width, y);
  }

  /** Two pixels share an offset only if they are the same pixel. */
  lemma OffsetInjective(width: int, height: int, x: int, y: int, x': int, y': int)
    requires CalcOffset(width, height, x, y).Some?
    requires CalcOffset(width, height, x', y') == CalcOffset(width, height, x, y)
    ensures x == x' && y == y'
  {
  }

  /** Every index of the grid is the offset of exactly the pixel it encodes. */
  lemma OffsetSurjective(width: int, height: int, i: int)
    requires 0 <= width && 0 <= height && 0 <= i < width * height
    ensures width > 0
    ensures CalcOffset(width, height, i % width, i / width) == Some(i)
  {
    var x, y := i % width, i / width;
    assert i == y * width + x;
    if y >= height {
      Numerics.MulMonotone(height, y, width);
      assert false;
    }
  }
}
