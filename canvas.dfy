/** The browser `ImageData` the image-processing functions work on: `width * height`
    pixels row by row, four bytes (R, G, B, A) each. */
module Canvas {
  import opened Numerics

  /** `imageData.data` of a `width` by `height` image. */
  predicate IsImageData(data: seq<int>, width: nat, height: nat)
  {
    |data| == 4 * (width * height) && forall i :: 0 <= i < |data| ==> IsByte(data[i])
  }

  /** The cells of a `width` by `height` raster are numbered `y * width + x`, from 0 to
      `width * height - 1`. */
  lemma CellIndex(width: nat, height: nat, y: int, x: int)
    requires 0 <= y < height && 0 <= x < width
    ensures 0 <= y * width + x < width * height
  {
    MulMono(y + 1, height, width);
    assert (y + 1) * width == y * width + width;
    MulMono(0, y, width);
  }

  /** The number of cell (x, y). */
  function Cell(width: nat, height: nat, y: int, x: int): (p: nat)
    requires 0 <= y < height && 0 <= x < width
    ensures p == y * width + x && p < width * height
  {
    CellIndex(width, height, y, x);
    y * width + x
  }

  /** Every number below `width * height` is the number of a cell. */
  lemma CellSplit(width: nat, height: nat, p: int)
    requires 0 <= p < width * height
    ensures 0 <= p / width < height && 0 <= p % width < width
    ensures Cell(width, height, p / width, p % width) == p
  {
    assert width > 0;
    var q, m := p / width, p % width;
    assert p == q * width + m && 0 <= m < width;
    if q >= height {
      MulMono(height, q, width);
      assert false;
    }
    if q < 0 {
      MulMono(q, -1, width);
      assert false;
    }
  }

  /** A cell further down, or further right on the same row, has a larger number. */
  lemma CellOrder(width: nat, y: int, x: int, y2: int, x2: int)
    requires 0 <= x < width && 0 <= x2 < width
    requires y < y2 || (y == y2 && x < x2)
    ensures y * width + x < y2 * width + x2
  {
    if y < y2 {
      MulMono(y + 1, y2, width);
      assert (y + 1) * width == y * width + width;
    }
  }

  /** Different cells have different numbers. */
  lemma CellInjective(width: nat, height: nat, y1: int, x1: int, y2: int, x2: int)
    requires 0 <= y1 < height && 0 <= x1 < width && 0 <= y2 < height && 0 <= x2 < width
    requires Cell(width, height, y1, x1) == Cell(width, height, y2, x2)
    ensures y1 == y2 && x1 == x2
  {
    if y1 < y2 || (y1 == y2 && x1 < x2) {
      CellOrder(width, y1, x1, y2, x2);
    } else if y2 < y1 || (y1 == y2 && x2 < x1) {
      CellOrder(width, y2, x2, y1, x1);
    }
  }

  /** The position of byte `c` (0 red, 1 green, 2 blue, 3 alpha) of pixel (x, y) in the
      buffer. */
  function ByteAt(width: nat, height: nat, y: int, x: int, c: int): (k: nat)
    requires 0 <= y < height && 0 <= x < width && 0 <= c < 4
    ensures k == 4 * Cell(width, height, y, x) + c && k < 4 * (width * height)
  {
    4 * Cell(width, height, y, x) + c
  }

  /** Every position in the buffer is a byte of some pixel. */
  lemma ByteSplit(width: nat, height: nat, k: int)
    requires 0 <= k < 4 * (width * height)
    ensures 0 <= (k / 4) / width < height && 0 <= (k / 4) % width < width
    ensures ByteAt(width, height, (k / 4) / width, (k / 4) % width, k % 4) == k
  {
    CellSplit(width, height, k / 4);
  }

  /** Different bytes of different pixels lie at different positions. */
  lemma ByteInjective(width: nat, height: nat, y1: int, x1: int, c1: int, y2: int, x2: int, c2: int)
    requires 0 <= y1 < height && 0 <= x1 < width && 0 <= c1 < 4
    requires 0 <= y2 < height && 0 <= x2 < width && 0 <= c2 < 4
    requires ByteAt(width, height, y1, x1, c1) == ByteAt(width, height, y2, x2, c2)
    ensures y1 == y2 && x1 == x2 && c1 == c2
  {
    if Cell(width, height, y1, x1) != Cell(width, height, y2, x2) {
      assert false;
    }
    CellInjective(width, height, y1, x1, y2, x2);
  }

  /** Pixel (x', y') comes before pixel (x, y) in row-major order. */
  predicate Earlier(y': int, x': int, y: int, x: int)
  {
    y' < y || (y' == y && x' < x)
  }

  /** A row-major pass over the image that has reached (x, y): every byte of the pixels
      before it holds its value in `goal`, every byte of the others its value in `init`. */
  ghost predicate Frontier(b: seq<int>, goal: seq<int>, init: seq<int>, width: nat, height: nat,
                           y: int, x: int)
  {
    |b| == 4 * (width * height) && |goal| == |b| && |init| == |b| &&
    forall y', x', c :: 0 <= y' < height && 0 <= x' < width && 0 <= c < 4 ==>
      b[ByteAt(width, height, y', x', c)]
      == if Earlier(y', x', y, x) then goal[ByteAt(width, height, y', x', c)]
         else init[ByteAt(width, height, y', x', c)]
  }

  /** A pass can start wherever the pixels before the start need no change. */
  lemma FrontierStart(goal: seq<int>, init: seq<int>, width: nat, height: nat, y: int, x: int)
    requires |goal| == 4 * (width * height) && |init| == |goal|
    requires forall y', x', c ::
               0 <= y' < height && 0 <= x' < width && 0 <= c < 4 && Earlier(y', x', y, x)
               ==> goal[ByteAt(width, height, y', x', c)] == init[ByteAt(width, height, y', x', c)]
    ensures Frontier(init, goal, init, width, height, y, x)
  {
  }

  /** Writing the goal bytes of pixel (x, y), and nothing else, moves the pass one pixel
      on. */
  lemma FrontierStep(b: seq<int>, b': seq<int>, goal: seq<int>, init: seq<int>, width: nat, height: nat,
                     y: int, x: int)
    requires Frontier(b, goal, init, width, height, y, x)
    requires 0 <= y < height && 0 <= x < width && |b'| == |b|
    requires forall c :: 0 <= c < 4 ==> b'[ByteAt(width, height, y, x, c)] == goal[ByteAt(width, height, y, x, c)]
    requires forall k :: 0 <= k < |b| && (k < ByteAt(width, height, y, x, 0) || ByteAt(width, height, y, x, 3) < k)
               ==> b'[k] == b[k]
    ensures Frontier(b', goal, init, width, height, y, x + 1)
  {
    forall y', x', c | 0 <= y' < height && 0 <= x' < width && 0 <= c < 4
      ensures b'[ByteAt(width, height, y', x', c)]
              == if Earlier(y', x', y, x + 1) then goal[ByteAt(width, height, y', x', c)]
                 else init[ByteAt(width, height, y', x', c)]
    {
      if (y' != y || x' != x) && Cell(width, height, y', x') == Cell(width, height, y, x) {
        CellInjective(width, height, y', x', y, x);
      }
    }
  }

  /** Writing the goal colour bytes of pixel (x, y), whose alpha byte already holds its
      goal, moves the pass one pixel on. */
  lemma FrontierColours(b: seq<int>, goal: seq<int>, init: seq<int>, width: nat, height: nat,
                        y: int, x: int)
    requires Frontier(b, goal, init, width, height, y, x)
    requires 0 <= y < height && 0 <= x < width
    requires goal[ByteAt(width, height, y, x, 3)] == init[ByteAt(width, height, y, x, 3)]
    ensures Frontier(b[ByteAt(width, height, y, x, 0) := goal[ByteAt(width, height, y, x, 0)]]
                      [ByteAt(width, height, y, x, 1) := goal[ByteAt(width, height, y, x, 1)]]
                      [ByteAt(width, height, y, x, 2) := goal[ByteAt(width, height, y, x, 2)]],
                     goal, init, width, height, y, x + 1)
  {
    var i := ByteAt(width, height, y, x, 0);
    var b' := b[i := goal[i]][i + 1 := goal[i + 1]][i + 2 := goal[i + 2]];
    forall c | 0 <= c < 4
      ensures b'[ByteAt(width, height, y, x, c)] == goal[ByteAt(width, height, y, x, c)]
    {
      if c == 3 {
        assert b[ByteAt(width, height, y, x, c)] == init[ByteAt(width, height, y, x, c)];
      }
    }
    FrontierStep(b, b', goal, init, width, height, y, x);
  }

  /** Writing the four goal bytes of pixel (x, y) moves the pass one pixel on. */
  lemma FrontierPixel(b: seq<int>, goal: seq<int>, init: seq<int>, width: nat, height: nat,
                      y: int, x: int)
    requires Frontier(b, goal, init, width, height, y, x)
    requires 0 <= y < height && 0 <= x < width
    ensures Frontier(b[ByteAt(width, height, y, x, 0) := goal[ByteAt(width, height, y, x, 0)]]
                      [ByteAt(width, height, y, x, 1) := goal[ByteAt(width, height, y, x, 1)]]
                      [ByteAt(width, height, y, x, 2) := goal[ByteAt(width, height, y, x, 2)]]
                      [ByteAt(width, height, y, x, 3) := goal[ByteAt(width, height, y, x, 3)]],
                     goal, init, width, height, y, x + 1)
  {
    var i := ByteAt(width, height, y, x, 0);
    var b' := b[i := goal[i]][i + 1 := goal[i + 1]][i + 2 := goal[i + 2]][i + 3 := goal[i + 3]];
    forall c | 0 <= c < 4
      ensures b'[ByteAt(width, height, y, x, c)] == goal[ByteAt(width, height, y, x, c)]
    {
    }
    FrontierStep(b, b', goal, init, width, height, y, x);
  }

  /** A pass can jump over pixels that need no change. */
  lemma FrontierSkip(b: seq<int>, goal: seq<int>, init: seq<int>, width: nat, height: nat,
                     y: int, x: int, y2: int, x2: int)
    requires Frontier(b, goal, init, width, height, y, x)
    requires Earlier(y, x, y2, x2) || (y == y2 && x == x2)
    requires forall y', x', c ::
               0 <= y' < height && 0 <= x' < width && 0 <= c < 4 && !Earlier(y', x', y, x) && Earlier(y', x', y2, x2)
               ==> goal[ByteAt(width, height, y', x', c)] == init[ByteAt(width, height, y', x', c)]
    ensures Frontier(b, goal, init, width, height, y2, x2)
  {
    forall y', x', c | 0 <= y' < height && 0 <= x' < width && 0 <= c < 4
      ensures b[ByteAt(width, height, y', x', c)]
              == if Earlier(y', x', y2, x2) then goal[ByteAt(width, height, y', x', c)]
                 else init[ByteAt(width, height, y', x', c)]
    {
    }
  }

  /** A pass that has gone past the last row has produced the goal. */
  lemma FrontierDone(b: seq<int>, goal: seq<int>, init: seq<int>, width: nat, height: nat, y: int, x: int)
    requires Frontier(b, goal, init, width, height, y, x) && y >= height
    ensures b == goal
  {
    forall k | 0 <= k < |b|
      ensures b[k] == goal[k]
    {
      ByteSplit(width, height, k);
      assert b[ByteAt(width, height, (k / 4) / width, (k / 4) % width, k % 4)]
             == goal[ByteAt(width, height, (k / 4) / width, (k / 4) % width, k % 4)];
    }
  }

  /** The BT.601 luma `0.299 R + 0.587 G + 0.114 B` of the pixel whose red byte is at
      `i` (section 2.5.1 of ITU-R BT.601-7). */
  function Luma(data: seq<int>, i: int): real
    requires 0 <= i && i + 2 < |data|
  {
    0.299 * (data[i] as real) + 0.587 * (data[i + 1] as real) + 0.114 * (data[i + 2] as real)
  }

  /** The luma of pixel `p` of an image. */
  function PixelLuma(data: seq<int>, width: nat, height: nat, p: int): real
    requires IsImageData(data, width, height) && 0 <= p < width * height
  {
    Luma(data, 4 * p)
  }
}
