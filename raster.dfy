/** Row-major numbering of the cells of a `res` by `res` raster, shared by the RGBA buffer
    (`(y * resolution + x) * 4`) and the vertex grid (`y * resolution + x`). */
module Raster {
  import opened Numerics

  /** The number of cells of a `res` by `res` raster. */
  function Pixels(res: nat): nat
  {
    res * res
  }

  /** `y * res + x`. */
  function Index(res: nat, y: int, x: int): int
  {
    y * res + x
  }

  /** The cells of the raster are numbered 0 to `res * res - 1`. */
  lemma IndexBounds(res: nat, y: int, x: int)
    requires 0 <= y < res && 0 <= x < res
    ensures 0 <= Index(res, y, x) < Pixels(res)
  {
    calc {
      y * res + x;
      <= { assert (res - 1 - y) * res >= 0; }
      (res - 1) * res + x;
      < (res - 1) * res + res;
      == res * res;
    }
    assert y * res >= 0;
  }

  /** The numbering follows the raster order of the loops, one by one. */
  lemma IndexBefore(res: nat, j: int, i: int, y: int, x: int)
    requires 0 <= i < res && 0 <= x && (j < y || (j == y && i < x))
    ensures Index(res, j, i) < Index(res, y, x)
  {
    if j < y {
      MulMono(j + 1, y, res);
      assert (j + 1) * res == j * res + res;
    }
  }

  lemma IndexRowEnd(res: nat, y: int)
    ensures Index(res, y, res) == Index(res, y + 1, 0)
  {
  }

  /** Different cells have different numbers. */
  lemma IndexInjective(res: nat, j: int, i: int, y: int, x: int)
    requires 0 <= i < res && 0 <= x < res && Index(res, j, i) == Index(res, y, x)
    ensures j == y && i == x
  {
    if j < y || (j == y && i < x) {
      IndexBefore(res, j, i, y, x);
    } else if y < j || (y == j && x < i) {
      IndexBefore(res, y, x, j, i);
    }
  }
}
