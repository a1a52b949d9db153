/** The edge stages of the laser-engraving desktop preview's `applyEdgeDetection`
    (`app_original_backup.js`): non-maximum suppression of the gradient magnitude,
    hysteresis edge tracking with an explicit stack, dilation by a square, and the write
    back into the image. Buffers hold one value per cell, `y * width + x`. The gradient
    magnitude and direction are inputs. */
module Edges {
  import opened Numerics
  import opened Canvas

  /** A cell of a `width` by `height` grid away from the one-cell border. */
  predicate Interior(width: nat, height: nat, y: int, x: int)
  {
    1 <= y < height - 1 && 1 <= x < width - 1
  }

  /** The coordinates of a cell are recovered from its number. */
  lemma CellCoords(width: nat, height: nat, y: int, x: int)
    requires 0 <= y < height && 0 <= x < width
    ensures Cell(width, height, y, x) / width == y && Cell(width, height, y, x) % width == x
  {
    var p := Cell(width, height, y, x);
    CellSplit(width, height, p);
    CellInjective(width, height, p / width, p % width, y, x);
  }

  // ----- Non-maximum suppression -----

  /** The two neighbours a gradient direction (in degrees, [0, 180)) compares against:
      left/right, the main diagonal, up/down, or the anti-diagonal. */
  function Across(width: nat, height: nat, dir: real, y: int, x: int): (n: (int, int, int, int))
    requires Interior(width, height, y, x)
    ensures 0 <= n.0 < height && 0 <= n.1 < width && 0 <= n.2 < height && 0 <= n.3 < width
  {
    if dir >= 157.5 || dir < 22.5 then (y, x - 1, y, x + 1)
    else if dir >= 22.5 && dir < 67.5 then (y - 1, x - 1, y + 1, x + 1)
    else if dir >= 67.5 && dir < 112.5 then (y - 1, x, y + 1, x)
    else (y - 1, x + 1, y + 1, x - 1)
  }

  /** Cell (x, y) after suppression with high threshold `t` and low threshold `0.4 t`:
      255 for a strong local maximum, 127 for a weak one, 0 otherwise and on the border. */
  function NmsAt(mag: seq<real>, dir: seq<real>, width: nat, height: nat, t: real, y: int, x: int): int
    requires |mag| == width * height && |dir| == width * height && 0 <= y < height && 0 <= x < width
  {
    if !Interior(width, height, y, x) then 0
    else
      var m := mag[Cell(width, height, y, x)];
      if m < t * 0.4 then 0
      else
        var n := Across(width, height, dir[Cell(width, height, y, x)], y, x);
        var n1, n2 := mag[Cell(width, height, n.0, n.1)], mag[Cell(width, height, n.2, n.3)];
        if m >= n1 && m >= n2 then (if m >= t then 255 else 127) else 0
  }

  /** The suppressed buffer. */
  function Suppressed(mag: seq<real>, dir: seq<real>, width: nat, height: nat, t: real): (s: seq<int>)
    requires |mag| == width * height && |dir| == width * height
    ensures |s| == width * height
  {
    seq(width * height, p requires 0 <= p < width * height =>
      CellSplit(width, height, p);
      NmsAt(mag, dir, width, height, t, p / width, p % width))
  }

  lemma SuppressedCell(mag: seq<real>, dir: seq<real>, width: nat, height: nat, t: real, y: int, x: int)
    requires |mag| == width * height && |dir| == width * height && 0 <= y < height && 0 <= x < width
    ensures Suppressed(mag, dir, width, height, t)[Cell(width, height, y, x)] == NmsAt(mag, dir, width, height, t, y, x)
  {
    CellCoords(width, height, y, x);
  }

  /** Suppression marks only interior cells, only with 0, 127 or 255; a strong mark
      means a magnitude of at least `t`, a weak one a magnitude in [0.4 t, t). */
  lemma SuppressedValues(mag: seq<real>, dir: seq<real>, width: nat, height: nat, t: real)
    requires |mag| == width * height && |dir| == width * height
    ensures forall p :: 0 <= p < width * height ==> Suppressed(mag, dir, width, height, t)[p] in {0, 127, 255}
    ensures forall y, x :: 0 <= y < height && 0 <= x < width && !Interior(width, height, y, x) ==>
              Suppressed(mag, dir, width, height, t)[Cell(width, height, y, x)] == 0
    ensures forall p :: 0 <= p < width * height && Suppressed(mag, dir, width, height, t)[p] == 255 ==> mag[p] >= t
    ensures forall p :: 0 <= p < width * height && Suppressed(mag, dir, width, height, t)[p] == 127 ==>
              t * 0.4 <= mag[p] < t
  {
    var s := Suppressed(mag, dir, width, height, t);
    forall y, x | 0 <= y < height && 0 <= x < width && !Interior(width, height, y, x)
      ensures s[Cell(width, height, y, x)] == 0
    {
      SuppressedCell(mag, dir, width, height, t, y, x);
    }
    forall p | 0 <= p < width * height
      ensures s[p] != 0 ==> mag[p] >= t * 0.4
      ensures s[p] == 255 ==> mag[p] >= t
      ensures s[p] == 127 ==> mag[p] < t
    {
      CellSplit(width, height, p);
    }
  }

  /** One interior cell of the suppression loop. */
  method SuppressCell(nms: array<int>, mag: seq<real>, dir: seq<real>, width: nat, height: nat, t: real,
                      y: int, x: int)
    modifies nms
    requires |mag| == width * height && |dir| == width * height && nms.Length == width * height
    requires Interior(width, height, y, x) && nms[Cell(width, height, y, x)] == 0
    ensures nms[..] == old(nms[..])[Cell(width, height, y, x) := NmsAt(mag, dir, width, height, t, y, x)]
  {
    var idx := y * width + x;
    assert idx == Cell(width, height, y, x);
    var m := mag[idx];
    if m < t * 0.4 {
      assert NmsAt(mag, dir, width, height, t, y, x) == 0;
      return;
    }
    var angle := dir[idx];
    var n1, n2 := 0.0, 0.0;
    if angle >= 157.5 || angle < 22.5 {
      n1, n2 := mag[Cell(width, height, y, x - 1)], mag[Cell(width, height, y, x + 1)];
    } else if angle >= 22.5 && angle < 67.5 {
      n1, n2 := mag[Cell(width, height, y - 1, x - 1)], mag[Cell(width, height, y + 1, x + 1)];
    } else if angle >= 67.5 && angle < 112.5 {
      n1, n2 := mag[Cell(width, height, y - 1, x)], mag[Cell(width, height, y + 1, x)];
    } else {
      n1, n2 := mag[Cell(width, height, y - 1, x + 1)], mag[Cell(width, height, y + 1, x - 1)];
    }
    if m >= n1 && m >= n2 {
      if m >= t {
        nms[idx] := 255;
      } else {
        nms[idx] := 127;
      }
    } else {
      assert NmsAt(mag, dir, width, height, t, y, x) == 0;
    }
  }

  /** The suppression loop writes, in row-major order, the interior cells before (x, y);
      every other cell still holds 0. */
  ghost predicate SuppressedBefore(b: seq<int>, mag: seq<real>, dir: seq<real>, width: nat, height: nat, t: real,
                                   y: int, x: int)
    requires |mag| == width * height && |dir| == width * height
  {
    |b| == width * height &&
    forall y', x' :: 0 <= y' < height && 0 <= x' < width ==>
      b[Cell(width, height, y', x')] == if Earlier(y', x', y, x) then NmsAt(mag, dir, width, height, t, y', x') else 0
  }

  lemma SuppressedBeforeStep(b: seq<int>, mag: seq<real>, dir: seq<real>, width: nat, height: nat, t: real,
                             y: int, x: int)
    requires |mag| == width * height && |dir| == width * height
    requires SuppressedBefore(b, mag, dir, width, height, t, y, x) && Interior(width, height, y, x)
    ensures SuppressedBefore(b[Cell(width, height, y, x) := NmsAt(mag, dir, width, height, t, y, x)],
                             mag, dir, width, height, t, y, x + 1)
  {
    var b' := b[Cell(width, height, y, x) := NmsAt(mag, dir, width, height, t, y, x)];
    forall y', x' | 0 <= y' < height && 0 <= x' < width
      ensures b'[Cell(width, height, y', x')]
              == if Earlier(y', x', y, x + 1) then NmsAt(mag, dir, width, height, t, y', x') else 0
    {
      if Cell(width, height, y', x') == Cell(width, height, y, x) {
        CellInjective(width, height, y', x', y, x);
      }
    }
  }

  /** The border cells skipped between the end of one row and the start of the next. */
  lemma SuppressedBeforeSkip(b: seq<int>, mag: seq<real>, dir: seq<real>, width: nat, height: nat, t: real,
                             y: int, x: int, y2: int, x2: int)
    requires |mag| == width * height && |dir| == width * height
    requires SuppressedBefore(b, mag, dir, width, height, t, y, x)
    requires Earlier(y, x, y2, x2) || (y == y2 && x == x2)
    requires forall y', x' :: 0 <= y' < height && 0 <= x' < width && !Earlier(y', x', y, x) && Earlier(y', x', y2, x2)
               ==> !Interior(width, height, y', x')
    ensures SuppressedBefore(b, mag, dir, width, height, t, y2, x2)
  {
  }

  /** The suppression loop of `applyEdgeDetection`. */
  method NonMaxSuppression(mag: seq<real>, dir: seq<real>, width: nat, height: nat, t: real)
    returns (nms: seq<int>)
    requires |mag| == width * height && |dir| == width * height
    ensures nms == Suppressed(mag, dir, width, height, t)
  {
    var a := new int[width * height](k => 0);
    assert SuppressedBefore(a[..], mag, dir, width, height, t, 0, 0);
    SuppressedBeforeSkip(a[..], mag, dir, width, height, t, 0, 0, 1, 1);
    var y := 1;
    while y < height - 1
      invariant 1 <= y && (y <= height - 1 || y == 1) && a.Length == width * height
      invariant SuppressedBefore(a[..], mag, dir, width, height, t, y, 1)
    {
      var x := 1;
      while x < width - 1
        invariant 1 <= x && (x <= width - 1 || x == 1) && a.Length == width * height
        invariant SuppressedBefore(a[..], mag, dir, width, height, t, y, x)
      {
        SuppressedBeforeStep(a[..], mag, dir, width, height, t, y, x);
        assert a[Cell(width, height, y, x)] == 0;
        SuppressCell(a, mag, dir, width, height, t, y, x);
        x := x + 1;
      }
      SuppressedBeforeSkip(a[..], mag, dir, width, height, t, y, x, y + 1, 1);
      y := y + 1;
    }
    SuppressedBeforeSkip(a[..], mag, dir, width, height, t, y, 1, y + 1, 0);
    nms := a[..];
    forall p | 0 <= p < width * height
      ensures nms[p] == Suppressed(mag, dir, width, height, t)[p]
    {
      CellSplit(width, height, p);
      SuppressedCell(mag, dir, width, height, t, p / width, p % width);
    }
  }

  // ----- Hysteresis -----

  /** Cells `p` and `q` touch, diagonals included (a cell touches itself). */
  predicate Touch(width: nat, p: int, q: int)
  {
    width > 0 && -1 <= q / width - p / width <= 1 && -1 <= q % width - p % width <= 1
  }

  /** A chain of touching cells that starts at a strong cell (255) and continues
      through weak ones (127). */
  ghost predicate WeakPath(nms: seq<int>, width: nat, height: nat, path: seq<int>)
    requires |nms| == width * height
  {
    |path| >= 1 && (forall i :: 0 <= i < |path| ==> 0 <= path[i] < width * height) &&
    nms[path[0]] == 255 &&
    forall i :: 1 <= i < |path| ==> nms[path[i]] == 127 && Touch(width, path[i - 1], path[i])
  }

  /** Edge tracking keeps cell `p`: some chain of weak cells links it to a strong one. */
  ghost predicate Reachable(nms: seq<int>, width: nat, height: nat, p: int)
    requires |nms| == width * height
  {
    exists path :: WeakPath(nms, width, height, path) && path[|path| - 1] == p
  }

  /** Every weak cell touching `p` is marked in `m`. */
  ghost predicate Closed(nms: seq<int>, width: nat, height: nat, m: seq<int>, p: int)
    requires |nms| == width * height && |m| == width * height
  {
    forall q :: 0 <= q < width * height && Touch(width, p, q) && nms[q] == 127 ==> m[q] == 255
  }

  predicate Distinct(s: seq<int>)
  {
    forall i, j :: 0 <= i < j < |s| ==> s[i] != s[j]
  }

  /** Marks `m` are 0 or 255, cover every strong cell and only reachable ones. */
  ghost predicate Marks(nms: seq<int>, width: nat, height: nat, m: seq<int>)
    requires |nms| == width * height
  {
    |m| == width * height &&
    (forall p :: 0 <= p < width * height ==> m[p] == 0 || m[p] == 255) &&
    (forall p :: 0 <= p < width * height && nms[p] == 255 ==> m[p] == 255) &&
    (forall p :: 0 <= p < width * height && m[p] == 255 ==> Reachable(nms, width, height, p))
  }

  /** The stack holds marked cells. */
  predicate OnStack(width: nat, height: nat, m: seq<int>, stack: seq<int>)
  {
    |m| == width * height &&
    forall i :: 0 <= i < |stack| ==> 0 <= stack[i] < width * height && m[stack[i]] == 255
  }

  /** A marked cell off the stack has all its weak neighbours marked. */
  ghost predicate ClosedOff(nms: seq<int>, width: nat, height: nat, m: seq<int>, stack: seq<int>)
    requires |nms| == width * height
  {
    |m| == width * height &&
    forall p :: 0 <= p < width * height && m[p] == 255 && p !in stack ==> Closed(nms, width, height, m, p)
  }

  /** `pushed`, the cells pushed so far, lists every marked cell exactly once. */
  predicate Logged(width: nat, height: nat, m: seq<int>, pushed: seq<int>)
  {
    |m| == width * height &&
    Distinct(pushed) && (forall i :: 0 <= i < |pushed| ==> 0 <= pushed[i] < width * height) &&
    (forall p :: 0 <= p < width * height ==> (p in pushed <==> m[p] == 255))
  }

  /** The state of edge tracking. */
  ghost predicate Tracking(nms: seq<int>, width: nat, height: nat, m: seq<int>, stack: seq<int>, pushed: seq<int>)
    requires |nms| == width * height
  {
    Marks(nms, width, height, m) && OnStack(width, height, m, stack) &&
    ClosedOff(nms, width, height, m, stack) && Logged(width, height, m, pushed)
  }

  /** The number of cells not marked 255. */
  function Unmarked(m: seq<int>): nat
  {
    if m == [] then 0 else Unmarked(m[..|m| - 1]) + (if m[|m| - 1] == 255 then 0 else 1)
  }

  lemma {:induction false} UnmarkedMark(m: seq<int>, q: int)
    requires 0 <= q < |m| && m[q] != 255
    ensures Unmarked(m[q := 255]) == Unmarked(m) - 1
  {
    var n := |m|;
    if q == n - 1 {
      assert m[q := 255][..n - 1] == m[..n - 1];
    } else {
      assert m[q := 255][..n - 1] == m[..n - 1][q := 255];
      UnmarkedMark(m[..n - 1], q);
    }
  }

  lemma MarksGrow(nms: seq<int>, width: nat, height: nat, m: seq<int>, idx: int, q: int)
    requires |nms| == width * height && Marks(nms, width, height, m)
    requires 0 <= idx < width * height && m[idx] == 255
    requires 0 <= q < width * height && Touch(width, idx, q) && nms[q] == 127
    ensures Marks(nms, width, height, m[q := 255])
  {
    var path :| WeakPath(nms, width, height, path) && path[|path| - 1] == idx;
    assert WeakPath(nms, width, height, path + [q]);
    assert (path + [q])[|path + [q]| - 1] == q;
  }

  lemma OnStackGrow(width: nat, height: nat, m: seq<int>, stack: seq<int>, idx: int, q: int)
    requires OnStack(width, height, m, stack + [idx]) && 0 <= q < width * height
    ensures OnStack(width, height, m[q := 255], stack + [q] + [idx])
    ensures 0 <= idx < |m| && m[idx] == 255
  {
    var s, s' := stack + [idx], stack + [q] + [idx];
    assert s[|stack|] == idx;
    forall i | 0 <= i < |s'|
      ensures 0 <= s'[i] < width * height && m[q := 255][s'[i]] == 255
    {
      if i < |stack| {
        assert s'[i] == s[i];
      } else if i == |stack| + 1 {
        assert s'[i] == s[|stack|];
      }
    }
  }

  lemma ClosedOffGrow(nms: seq<int>, width: nat, height: nat, m: seq<int>, stack: seq<int>, idx: int, q: int)
    requires |nms| == width * height && ClosedOff(nms, width, height, m, stack + [idx])
    requires 0 <= q < width * height && m[q] != 255
    ensures ClosedOff(nms, width, height, m[q := 255], stack + [q] + [idx])
  {
    var m' := m[q := 255];
    forall p | 0 <= p < width * height && m'[p] == 255 && p !in stack + [q] + [idx]
      ensures Closed(nms, width, height, m', p)
    {
      assert p !in stack + [idx];
      assert Closed(nms, width, height, m, p);
    }
  }

  lemma LoggedGrow(width: nat, height: nat, m: seq<int>, pushed: seq<int>, q: int)
    requires Logged(width, height, m, pushed) && 0 <= q < width * height && m[q] == 0
    ensures Logged(width, height, m[q := 255], pushed + [q])
  {
    assert q !in pushed;
  }

  /** Marking a weak cell that touches a marked one and pushing it keeps the tracking
      state and leaves one cell fewer unmarked. */
  lemma MarkStep(nms: seq<int>, width: nat, height: nat, m: seq<int>, stack: seq<int>, pushed: seq<int>,
                 idx: int, q: int)
    requires |nms| == width * height
    requires Tracking(nms, width, height, m, stack + [idx], pushed)
    requires 0 <= idx < width * height && 0 <= q < width * height && Touch(width, idx, q)
    requires nms[q] == 127 && m[q] == 0
    ensures Tracking(nms, width, height, m[q := 255], stack + [q] + [idx], pushed + [q])
    ensures Unmarked(m[q := 255]) == Unmarked(m) - 1
  {
    OnStackGrow(width, height, m, stack, idx, q);
    MarksGrow(nms, width, height, m, idx, q);
    ClosedOffGrow(nms, width, height, m, stack, idx, q);
    LoggedGrow(width, height, m, pushed, q);
    UnmarkedMark(m, q);
  }

  /** Taking a closed cell off the top of the stack keeps the tracking state. */
  lemma PopStep(nms: seq<int>, width: nat, height: nat, m: seq<int>, stack: seq<int>, pushed: seq<int>, idx: int)
    requires |nms| == width * height
    requires Tracking(nms, width, height, m, stack + [idx], pushed)
    requires 0 <= idx < width * height && Closed(nms, width, height, m, idx)
    ensures Tracking(nms, width, height, m, stack, pushed)
  {
    forall p | 0 <= p < width * height && m[p] == 255 && p !in stack
      ensures Closed(nms, width, height, m, p)
    {
      if p != idx {
        assert p !in stack + [idx];
      }
    }
    forall i | 0 <= i < |stack|
      ensures 0 <= stack[i] < width * height && m[stack[i]] == 255
    {
      assert stack[i] == (stack + [idx])[i];
    }
  }

  /** Window (x, y) of the pixel being visited is done up to offset (dx, dy): every weak
      cell there is marked. */
  ghost predicate VisitedUpTo(nms: seq<int>, width: nat, height: nat, m: seq<int>, y: int, x: int, dy: int, dx: int)
    requires |nms| == width * height && |m| == width * height
  {
    forall ny, nx :: 0 <= ny < height && 0 <= nx < width && y - 1 <= ny <= y + 1 && x - 1 <= nx <= x + 1 &&
      Earlier(ny - y, nx - x, dy, dx) && nms[Cell(width, height, ny, nx)] == 127
      ==> m[Cell(width, height, ny, nx)] == 255
  }

  /** A fully visited window closes its centre. */
  lemma VisitedClosed(nms: seq<int>, width: nat, height: nat, m: seq<int>, idx: int)
    requires |nms| == width * height && |m| == width * height && 0 <= idx < width * height
    requires VisitedUpTo(nms, width, height, m, idx / width, idx % width, 2, -1)
    ensures Closed(nms, width, height, m, idx)
  {
    forall q | 0 <= q < width * height && Touch(width, idx, q) && nms[q] == 127
      ensures m[q] == 255
    {
      CellSplit(width, height, q);
      assert Cell(width, height, q / width, q % width) == q;
    }
  }

  /** Marks only grow. */
  predicate Grown(m: seq<int>, m': seq<int>)
  {
    |m'| == |m| && forall p :: 0 <= p < |m| && m[p] == 255 ==> m'[p] == 255
  }

  /** Visiting one offset of the window moves the visit on. */
  lemma VisitedStep(nms: seq<int>, width: nat, height: nat, m: seq<int>, m': seq<int>,
                    y: int, x: int, dy: int, dx: int)
    requires |nms| == width * height && |m| == width * height && Grown(m, m')
    requires VisitedUpTo(nms, width, height, m, y, x, dy, dx)
    requires 0 <= y + dy < height && 0 <= x + dx < width && nms[Cell(width, height, y + dy, x + dx)] == 127
             ==> m'[Cell(width, height, y + dy, x + dx)] == 255
    ensures VisitedUpTo(nms, width, height, m', y, x, dy, dx + 1)
  {
    forall ny, nx | 0 <= ny < height && 0 <= nx < width && y - 1 <= ny <= y + 1 && x - 1 <= nx <= x + 1 &&
                    Earlier(ny - y, nx - x, dy, dx + 1) && nms[Cell(width, height, ny, nx)] == 127
      ensures m'[Cell(width, height, ny, nx)] == 255
    {
      if !Earlier(ny - y, nx - x, dy, dx) {
        assert ny == y + dy && nx == x + dx;
      }
    }
  }

  /** One neighbour (nx, ny), inside the image, of the cell `idx` just popped: marked and
      pushed when it is weak and not yet marked. */
  method VisitCell(fe: array<int>, nms: seq<int>, width: nat, height: nat, idx: int, ny: int, nx: int,
                   stack0: seq<int>, ghost pushed0: seq<int>)
    returns (stack: seq<int>, ghost pushed: seq<int>)
    modifies fe
    requires |nms| == width * height && fe.Length == width * height && 0 <= idx < width * height
    requires 0 <= ny < height && 0 <= nx < width
    requires idx / width - 1 <= ny <= idx / width + 1 && idx % width - 1 <= nx <= idx % width + 1
    requires Tracking(nms, width, height, fe[..], stack0 + [idx], pushed0)
    ensures Tracking(nms, width, height, fe[..], stack + [idx], pushed)
    ensures |stack| >= |stack0| && Unmarked(fe[..]) + (|stack| - |stack0|) == Unmarked(old(fe[..]))
    ensures Grown(old(fe[..]), fe[..])
    ensures nms[Cell(width, height, ny, nx)] == 127 ==> fe[Cell(width, height, ny, nx)] == 255
  {
    stack, pushed := stack0, pushed0;
    var nIdx := ny * width + nx;
    assert nIdx == Cell(width, height, ny, nx);
    if nms[nIdx] == 127 && fe[nIdx] == 0 {
      CellCoords(width, height, ny, nx);
      MarkStep(nms, width, height, fe[..], stack, pushed, idx, nIdx);
      fe[nIdx] := 255;
      stack := stack + [nIdx];
      pushed := pushed + [nIdx];
    }
  }

  /** The 8-neighbour visit of the cell `idx` just popped: each weak neighbour not yet
      marked is marked and pushed. */
  method VisitNeighbours(fe: array<int>, nms: seq<int>, width: nat, height: nat, idx: int, rest: seq<int>,
                         ghost pushed0: seq<int>)
    returns (stack: seq<int>, ghost pushed: seq<int>)
    modifies fe
    requires |nms| == width * height && fe.Length == width * height && 0 <= idx < width * height
    requires Tracking(nms, width, height, fe[..], rest + [idx], pushed0)
    ensures Tracking(nms, width, height, fe[..], stack, pushed)
    ensures |stack| >= |rest| && Unmarked(fe[..]) + (|stack| - |rest|) == Unmarked(old(fe[..]))
  {
    var y := idx / width;
    var x := idx % width;
    stack, pushed := rest, pushed0;
    for dy := -1 to 2
      invariant Tracking(nms, width, height, fe[..], stack + [idx], pushed)
      invariant |stack| >= |rest| && Unmarked(fe[..]) + (|stack| - |rest|) == Unmarked(old(fe[..]))
      invariant VisitedUpTo(nms, width, height, fe[..], y, x, dy, -1)
    {
      for dx := -1 to 2
        invariant Tracking(nms, width, height, fe[..], stack + [idx], pushed)
        invariant |stack| >= |rest| && Unmarked(fe[..]) + (|stack| - |rest|) == Unmarked(old(fe[..]))
        invariant VisitedUpTo(nms, width, height, fe[..], y, x, dy, dx)
      {
        var nx := x + dx;
        var ny := y + dy;
        if nx < 0 || nx >= width || ny < 0 || ny >= height {
          VisitedStep(nms, width, height, fe[..], fe[..], y, x, dy, dx);
          continue;
        }
        ghost var before := fe[..];
        stack, pushed := VisitCell(fe, nms, width, height, idx, ny, nx, stack, pushed);
        VisitedStep(nms, width, height, before, fe[..], y, x, dy, dx);
      }
    }
    VisitedClosed(nms, width, height, fe[..], idx);
    PopStep(nms, width, height, fe[..], stack, pushed, idx);
  }

  /** Marks that cover the strong cells and leave no weak neighbour of a marked cell
      unmarked cover every reachable cell. */
  lemma {:induction false} ReachMarked(nms: seq<int>, width: nat, height: nat, m: seq<int>, path: seq<int>)
    requires |nms| == width * height && |m| == width * height
    requires forall p :: 0 <= p < width * height && nms[p] == 255 ==> m[p] == 255
    requires forall p :: 0 <= p < width * height && m[p] == 255 ==> Closed(nms, width, height, m, p)
    requires WeakPath(nms, width, height, path)
    ensures m[path[|path| - 1]] == 255
    decreases |path|
  {
    var n := |path|;
    if n > 1 {
      var front := path[..n - 1];
      assert WeakPath(nms, width, height, front);
      ReachMarked(nms, width, height, m, front);
      assert Closed(nms, width, height, m, path[n - 2]);
    }
  }

  /** The first loop of edge tracking: every strong cell is marked and pushed, in
      order. */
  method SeedStrong(nms: seq<int>, width: nat, height: nat) returns (fe: array<int>, stack: seq<int>)
    requires |nms| == width * height
    ensures fresh(fe) && Tracking(nms, width, height, fe[..], stack, stack)
  {
    fe := new int[width * height](k => 0);
    stack := [];
    for i := 0 to width * height
      invariant fe.Length == width * height
      invariant forall p :: 0 <= p < width * height ==> fe[p] == if p < i && nms[p] == 255 then 255 else 0
      invariant Distinct(stack) && forall j :: 0 <= j < |stack| ==> 0 <= stack[j] < i
      invariant forall p :: 0 <= p < width * height ==> (p in stack <==> fe[p] == 255)
    {
      if nms[i] == 255 {
        stack := stack + [i];
        fe[i] := 255;
      }
    }
    forall p | 0 <= p < width * height && fe[p] == 255
      ensures Reachable(nms, width, height, p)
    {
      assert WeakPath(nms, width, height, [p]);
    }
  }

  /** With the stack empty the marks are exactly the reachable cells. */
  lemma TrackingDone(nms: seq<int>, width: nat, height: nat, m: seq<int>, pushed: seq<int>)
    requires |nms| == width * height && Tracking(nms, width, height, m, [], pushed)
    ensures forall p :: 0 <= p < width * height ==> m[p] == if Reachable(nms, width, height, p) then 255 else 0
  {
    forall p | 0 <= p < width * height
      ensures m[p] == if Reachable(nms, width, height, p) then 255 else 0
    {
      if Reachable(nms, width, height, p) {
        var path :| WeakPath(nms, width, height, path) && path[|path| - 1] == p;
        ReachMarked(nms, width, height, m, path);
      }
    }
  }

  /** The cells edge tracking keeps, as 255, the others 0. */
  ghost function Tracked(nms: seq<int>, width: nat, height: nat): (e: seq<int>)
    requires |nms| == width * height
    ensures |e| == width * height
  {
    seq(width * height, p => if Reachable(nms, width, height, p) then 255 else 0)
  }

  /** Tracking keeps every strong cell, every weak cell touching a kept cell, and no
      cell that is neither strong nor weak. */
  lemma TrackedShape(nms: seq<int>, width: nat, height: nat)
    requires |nms| == width * height
    ensures forall p :: 0 <= p < width * height && nms[p] == 255 ==> Tracked(nms, width, height)[p] == 255
    ensures forall p, q :: 0 <= p < width * height && 0 <= q < width * height && Touch(width, p, q) &&
              Tracked(nms, width, height)[p] == 255 && nms[q] == 127
              ==> Tracked(nms, width, height)[q] == 255
    ensures forall p :: 0 <= p < width * height && nms[p] != 255 && nms[p] != 127 ==>
              Tracked(nms, width, height)[p] == 0
  {
    var e := Tracked(nms, width, height);
    forall p | 0 <= p < width * height && nms[p] == 255
      ensures e[p] == 255
    {
      assert WeakPath(nms, width, height, [p]);
    }
    forall p, q | 0 <= p < width * height && 0 <= q < width * height && Touch(width, p, q) &&
                  e[p] == 255 && nms[q] == 127
      ensures e[q] == 255
    {
      var path :| WeakPath(nms, width, height, path) && path[|path| - 1] == p;
      assert WeakPath(nms, width, height, path + [q]);
      assert (path + [q])[|path + [q]| - 1] == q;
    }
  }

  /** Hysteresis edge tracking of `applyEdgeDetection`: a cell ends at 255 exactly when
      it is strong or linked to a strong cell through touching weak cells, and at 0
      otherwise; no cell is pushed twice. */
  method Hysteresis(nms: seq<int>, width: nat, height: nat) returns (edges: seq<int>, ghost pushed: seq<int>)
    requires |nms| == width * height
    ensures edges == Tracked(nms, width, height)
    ensures Distinct(pushed) && forall p :: 0 <= p < width * height ==> (p in pushed <==> edges[p] == 255)
  {
    var fe, stack := SeedStrong(nms, width, height);
    pushed := stack;
    while |stack| > 0
      invariant Tracking(nms, width, height, fe[..], stack, pushed)
      decreases 2 * Unmarked(fe[..]) + |stack|
    {
      var idx := stack[|stack| - 1];
      assert stack == stack[..|stack| - 1] + [idx];
      stack, pushed := VisitNeighbours(fe, nms, width, height, idx, stack[..|stack| - 1], pushed);
    }
    edges := fe[..];
    TrackingDone(nms, width, height, edges, pushed);
  }

  // ----- Line strength (dilation) -----

  /** `Math.ceil(strength / 40)` for a positive whole `strength`. */
  function Radius(strength: int): (r: nat)
    requires strength > 0
    ensures r >= 1 && (r - 1) * 40 < strength <= r * 40
  {
    (strength + 39) / 40
  }

  /** Cell (qx, qy) lies in the square of radius `r` around (x, y). */
  predicate Within(r: int, qy: int, qx: int, y: int, x: int)
  {
    y - r <= qy <= y + r && x - r <= qx <= x + r
  }

  /** An edge cell before (x0, y0) in row-major order lies within `r` of (qx, qy). */
  ghost predicate NearBefore(edges: seq<int>, width: nat, height: nat, r: int, y0: int, x0: int, qy: int, qx: int)
    requires |edges| == width * height
  {
    exists y', x' :: 0 <= y' < height && 0 <= x' < width && Earlier(y', x', y0, x0) &&
      edges[Cell(width, height, y', x')] == 255 && Within(r, qy, qx, y', x')
  }

  /** Some edge cell lies within `r` of (qx, qy). */
  ghost predicate Near(edges: seq<int>, width: nat, height: nat, r: int, qy: int, qx: int)
    requires |edges| == width * height
  {
    exists y', x' :: 0 <= y' < height && 0 <= x' < width &&
      edges[Cell(width, height, y', x')] == 255 && Within(r, qy, qx, y', x')
  }

  /** The dilated buffer: 255 within radius `r` of an edge cell, 0 elsewhere. */
  ghost function Dilated(edges: seq<int>, width: nat, height: nat, r: int): (d: seq<int>)
    requires |edges| == width * height
    ensures |d| == width * height
  {
    seq(width * height, p requires 0 <= p < width * height =>
      if Near(edges, width, height, r, p / width, p % width) then 255 else 0)
  }

  /** Dilation keeps every edge cell, adds only cells within `r` of one, and leaves a 0/255
      buffer alone at radius 0. */
  lemma DilatedShape(edges: seq<int>, width: nat, height: nat, r: nat)
    requires |edges| == width * height
    ensures forall p :: 0 <= p < width * height ==> Dilated(edges, width, height, r)[p] in {0, 255}
    ensures forall p :: 0 <= p < width * height && edges[p] == 255 ==> Dilated(edges, width, height, r)[p] == 255
    ensures (forall p :: 0 <= p < width * height ==> edges[p] in {0, 255}) ==>
              Dilated(edges, width, height, 0) == edges
  {
    var d := Dilated(edges, width, height, r);
    forall p | 0 <= p < width * height && edges[p] == 255
      ensures d[p] == 255
    {
      CellSplit(width, height, p);
      assert Within(r, p / width, p % width, p / width, p % width);
    }
    if forall p :: 0 <= p < width * height ==> edges[p] in {0, 255} {
      var d0 := Dilated(edges, width, height, 0);
      forall p | 0 <= p < width * height
        ensures d0[p] == edges[p]
      {
        CellSplit(width, height, p);
        if Near(edges, width, height, 0, p / width, p % width) {
          var y', x' :| 0 <= y' < height && 0 <= x' < width &&
            edges[Cell(width, height, y', x')] == 255 && Within(0, p / width, p % width, y', x');
          assert Cell(width, height, y', x') == p;
        } else {
          assert Within(0, p / width, p % width, p / width, p % width);
        }
      }
    }
  }

  /** The stamp loops have written 255 over the offsets of the square before (dx, dy),
      inside the image; the rest of the buffer keeps its values in `b0`. */
  ghost predicate StampedUpTo(b: seq<int>, b0: seq<int>, width: nat, height: nat, r: int, y: int, x: int,
                              dy: int, dx: int)
  {
    |b| == width * height && |b0| == width * height &&
    forall qy, qx :: 0 <= qy < height && 0 <= qx < width ==>
      b[Cell(width, height, qy, qx)]
      == if Within(r, qy, qx, y, x) && Earlier(qy - y, qx - x, dy, dx) then 255 else b0[Cell(width, height, qy, qx)]
  }

  lemma StampedStep(b: seq<int>, b0: seq<int>, width: nat, height: nat, r: int, y: int, x: int, dy: int, dx: int)
    requires StampedUpTo(b, b0, width, height, r, y, x, dy, dx) && -r <= dy <= r && -r <= dx <= r
    ensures 0 <= y + dy < height && 0 <= x + dx < width ==>
              StampedUpTo(b[Cell(width, height, y + dy, x + dx) := 255], b0, width, height, r, y, x, dy, dx + 1)
    ensures !(0 <= y + dy < height && 0 <= x + dx < width) ==>
              StampedUpTo(b, b0, width, height, r, y, x, dy, dx + 1)
  {
    if 0 <= y + dy < height && 0 <= x + dx < width {
      var b' := b[Cell(width, height, y + dy, x + dx) := 255];
      forall qy, qx | 0 <= qy < height && 0 <= qx < width
        ensures b'[Cell(width, height, qy, qx)]
                == if Within(r, qy, qx, y, x) && Earlier(qy - y, qx - x, dy, dx + 1) then 255
                   else b0[Cell(width, height, qy, qx)]
      {
        if Cell(width, height, qy, qx) == Cell(width, height, y + dy, x + dx) {
          CellInjective(width, height, qy, qx, y + dy, x + dx);
        }
      }
    }
  }

  /** The `for dy`/`for dx` stamp around edge cell (x, y). */
  method Stamp(a: array<int>, width: nat, height: nat, r: nat, y: int, x: int)
    modifies a
    requires a.Length == width * height
    ensures StampedUpTo(a[..], old(a[..]), width, height, r, y, x, r + 1, -(r as int))
  {
    for dy: int := -(r as int) to r + 1
      invariant StampedUpTo(a[..], old(a[..]), width, height, r, y, x, dy, -(r as int))
    {
      for dx: int := -(r as int) to r + 1
        invariant StampedUpTo(a[..], old(a[..]), width, height, r, y, x, dy, dx)
      {
        StampedStep(a[..], old(a[..]), width, height, r, y, x, dy, dx);
        var nx := x + dx;
        var ny := y + dy;
        if nx >= 0 && nx < width && ny >= 0 && ny < height {
          assert ny * width + nx == Cell(width, height, ny, nx);
          a[ny * width + nx] := 255;
        }
      }
    }
  }

  /** The dilation loop has dealt with the cells before (x, y). */
  ghost predicate DilatedBefore(b: seq<int>, edges: seq<int>, width: nat, height: nat, r: int, y: int, x: int)
    requires |edges| == width * height
  {
    |b| == width * height &&
    forall qy, qx :: 0 <= qy < height && 0 <= qx < width ==>
      b[Cell(width, height, qy, qx)] == if NearBefore(edges, width, height, r, y, x, qy, qx) then 255 else 0
  }

  lemma DilatedStep(b: seq<int>, b': seq<int>, edges: seq<int>, width: nat, height: nat, r: nat, y: int, x: int)
    requires |edges| == width * height && 0 <= y < height && 0 <= x < width
    requires DilatedBefore(b, edges, width, height, r, y, x)
    requires edges[Cell(width, height, y, x)] == 255 ==> StampedUpTo(b', b, width, height, r, y, x, r + 1, -(r as int))
    requires edges[Cell(width, height, y, x)] != 255 ==> b' == b
    ensures DilatedBefore(b', edges, width, height, r, y, x + 1)
  {
    forall qy, qx | 0 <= qy < height && 0 <= qx < width
      ensures b'[Cell(width, height, qy, qx)]
              == if NearBefore(edges, width, height, r, y, x + 1, qy, qx) then 255 else 0
    {
      if NearBefore(edges, width, height, r, y, x + 1, qy, qx) && !NearBefore(edges, width, height, r, y, x, qy, qx) {
        var y', x' :| 0 <= y' < height && 0 <= x' < width && Earlier(y', x', y, x + 1) &&
          edges[Cell(width, height, y', x')] == 255 && Within(r, qy, qx, y', x');
        assert y' == y && x' == x;
      }
      if edges[Cell(width, height, y, x)] == 255 && Within(r, qy, qx, y, x) {
        assert Earlier(y, x, y, x + 1);
      }
    }
  }

  lemma DilatedNextRow(b: seq<int>, edges: seq<int>, width: nat, height: nat, r: int, y: int)
    requires |edges| == width * height && DilatedBefore(b, edges, width, height, r, y, width)
    ensures DilatedBefore(b, edges, width, height, r, y + 1, 0)
  {
    forall qy, qx | 0 <= qy < height && 0 <= qx < width
      ensures NearBefore(edges, width, height, r, y, width, qy, qx) == NearBefore(edges, width, height, r, y + 1, 0, qy, qx)
    {
      if NearBefore(edges, width, height, r, y + 1, 0, qy, qx) {
        var y', x' :| 0 <= y' < height && 0 <= x' < width && Earlier(y', x', y + 1, 0) &&
          edges[Cell(width, height, y', x')] == 255 && Within(r, qy, qx, y', x');
        assert Earlier(y', x', y, width);
      }
    }
  }

  /** The line-strength dilation of `applyEdgeDetection` with radius `r`. */
  method Dilate(edges: seq<int>, width: nat, height: nat, r: nat) returns (result: seq<int>)
    requires |edges| == width * height
    ensures result == Dilated(edges, width, height, r)
  {
    var a := new int[width * height](k => 0);
    for y := 0 to height
      invariant DilatedBefore(a[..], edges, width, height, r, y, 0)
    {
      for x := 0 to width
        invariant DilatedBefore(a[..], edges, width, height, r, y, x)
      {
        ghost var before := a[..];
        assert y * width + x == Cell(width, height, y, x);
        if edges[y * width + x] == 255 {
          Stamp(a, width, height, r, y, x);
        }
        DilatedStep(before, a[..], edges, width, height, r, y, x);
      }
      DilatedNextRow(a[..], edges, width, height, r, y);
    }
    result := a[..];
    forall p | 0 <= p < width * height
      ensures result[p] == Dilated(edges, width, height, r)[p]
    {
      CellSplit(width, height, p);
      var qy, qx := p / width, p % width;
      assert result[Cell(width, height, qy, qx)]
             == if NearBefore(edges, width, height, r, height, 0, qy, qx) then 255 else 0;
      if Near(edges, width, height, r, qy, qx) {
        var y', x' :| 0 <= y' < height && 0 <= x' < width &&
          edges[Cell(width, height, y', x')] == 255 && Within(r, qy, qx, y', x');
        assert Earlier(y', x', height, 0);
      }
    }
  }

  // ----- Write back -----

  /** The image written from an edge buffer: R = G = B = the cell's value, A = 255. */
  function EdgeImage(result: seq<int>): (d: seq<int>)
    ensures |d| == 4 * |result|
  {
    seq(4 * |result|, k requires 0 <= k < 4 * |result| => if k % 4 == 3 then 255 else result[k / 4])
  }

  /** The write-back loop of `applyEdgeDetection`. */
  method WriteEdges(data: array<int>, result: seq<int>)
    modifies data
    requires data.Length == 4 * |result|
    ensures data[..] == EdgeImage(result)
  {
    for i := 0 to |result|
      invariant forall k :: 0 <= k < 4 * i ==> data[k] == EdgeImage(result)[k]
    {
      var v := result[i];
      data[i * 4] := v;
      data[i * 4 + 1] := v;
      data[i * 4 + 2] := v;
      data[i * 4 + 3] := 255;
    }
  }

  /** The edge image `applyEdgeDetection` leaves, from gradient magnitude `mag` and
      direction `dir`, threshold `t` and line strength `strength`. */
  ghost function EdgeDetected(mag: seq<real>, dir: seq<real>, width: nat, height: nat, t: real, strength: int): seq<int>
    requires |mag| == width * height && |dir| == width * height
  {
    var tracked := Tracked(Suppressed(mag, dir, width, height, t), width, height);
    EdgeImage(if strength > 0 then Dilated(tracked, width, height, Radius(strength)) else tracked)
  }

  /** Suppression, tracking, dilation and write back, in the order of
      `applyEdgeDetection`. */
  method EdgeStages(data: array<int>, mag: seq<real>, dir: seq<real>, width: nat, height: nat, t: real, strength: int)
    modifies data
    requires data.Length == 4 * (width * height) && |mag| == width * height && |dir| == width * height
    ensures data[..] == EdgeDetected(mag, dir, width, height, t, strength)
  {
    var nms := NonMaxSuppression(mag, dir, width, height, t);
    var finalEdges, _ := Hysteresis(nms, width, height);
    var result := finalEdges;
    if strength > 0 {
      result := Dilate(finalEdges, width, height, Radius(strength));
    }
    WriteEdges(data, result);
  }

  /** The image of a 0/255 buffer is black and white: R = G = B, each 0 or 255, and
      A = 255. */
  lemma EdgeImageShape(result: seq<int>)
    requires forall p :: 0 <= p < |result| ==> result[p] in {0, 255}
    ensures var d := EdgeImage(result);
      forall p :: 0 <= p < |result| ==>
        d[4 * p] == result[p] && d[4 * p + 1] == d[4 * p] && d[4 * p + 2] == d[4 * p] && d[4 * p + 3] == 255
  {
    var d := EdgeImage(result);
    forall p | 0 <= p < |result|
      ensures d[4 * p] == result[p] && d[4 * p + 1] == d[4 * p] && d[4 * p + 2] == d[4 * p] && d[4 * p + 3] == 255
    {
      assert (4 * p) / 4 == p && (4 * p + 1) / 4 == p && (4 * p + 2) / 4 == p && (4 * p + 3) % 4 == 3;
    }
  }

  /** The edge image is black and white: R = G = B, each 0 or 255, and A = 255. */
  lemma EdgeDetectedShape(mag: seq<real>, dir: seq<real>, width: nat, height: nat, t: real, strength: int)
    requires |mag| == width * height && |dir| == width * height
    ensures var d := EdgeDetected(mag, dir, width, height, t, strength);
      |d| == 4 * (width * height) &&
      forall p :: 0 <= p < width * height ==>
        d[4 * p] in {0, 255} && d[4 * p + 1] == d[4 * p] && d[4 * p + 2] == d[4 * p] && d[4 * p + 3] == 255
  {
    var tracked := Tracked(Suppressed(mag, dir, width, height, t), width, height);
    var result := if strength > 0 then Dilated(tracked, width, height, Radius(strength)) else tracked;
    if strength > 0 {
      DilatedShape(tracked, width, height, Radius(strength));
    }
    assert forall p :: 0 <= p < |result| ==> result[p] in {0, 255};
    EdgeImageShape(result);
  }
}
