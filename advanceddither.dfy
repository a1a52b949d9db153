/** `applyAdvancedDither` of the laser-engraving desktop preview (`app_original_backup.js`):
    error diffusion in place on the RGBA bytes, reading each pixel's red byte, drawing
    it black or white and pushing the error into the red bytes of later pixels, whose
    green and blue bytes follow their red one. */
module LaserDither {
  import opened Numerics
  import opened Canvas
  import opened Dithering

  /** `kernels[type] || kernels['floyd']`: the kernel the mode names, Floyd–Steinberg for
      any other mode. The four tables are the ones of the browser library's dithers. */
  function KernelFor(kind: string): seq<Tap>
  {
    if kind == "floyd" then FloydSteinbergTaps
    else if kind == "atkinson" then AtkinsonTaps
    else if kind == "sierra" then SierraLiteTaps
    else if kind == "stucki" then StuckiTaps
    else FloydSteinbergTaps
  }

  /** Every mode's kernel aims at later pixels; an unknown mode gets Floyd–Steinberg,
      whose weights make up the whole error. */
  lemma KernelForShape(kind: string)
    ensures Forward(KernelFor(kind))
    ensures kind !in {"floyd", "atkinson", "sierra", "stucki"} ==> KernelFor(kind) == FloydSteinbergTaps
    ensures WeightSum(KernelFor(kind)) == if kind == "atkinson" then 6.0 / 8.0 else 1.0
  {
    KernelsForward();
    FloydSteinbergWeights();
    AtkinsonWeights();
    SierraLiteWeights();
    StuckiWeights();
  }

  /** `oldPixel < 128 ? 0 : 255`. */
  function Level(v: int): (q: int)
    ensures q == 0 || q == 255
    ensures (q == 255) <==> v >= 128
  {
    if v < 128 then 0 else 255
  }

  /** The stored neighbour value `min(255, max(0, v + error * weight))`, rounded into a
      byte by the clamped array. */
  function Diffused(v: int, err: int, weight: real): (r: int)
    ensures IsByte(r)
  {
    ClampRound(MinReal(255.0, MaxReal(0.0, v as real + (err as real) * weight)))
  }

  /** The buffer after the first `n` taps of (x, y) have pushed their share of `err`
      into the red byte of the neighbour and copied it to its green and blue bytes. */
  function PushError(taps: seq<Tap>, d: seq<int>, width: nat, height: nat, y: int, x: int, err: int, n: nat)
    : (r: seq<int>)
    requires |d| == 4 * (width * height) && 0 <= y && 0 <= x && n <= |taps|
    ensures |r| == |d|
  {
    if n == 0 then d
    else
      var r := PushError(taps, d, width, height, y, x, err, n - 1);
      var t := taps[n - 1];
      if Lands(width, height, y, x, t) then
        var k := ByteAt(width, height, y + t.dy, x + t.dx, 0);
        var v := Diffused(r[k], err, t.weight);
        r[k := v][k + 1 := v][k + 2 := v]
      else r
  }

  /** One step of the dither at (x, y). */
  function DitherPixel(taps: seq<Tap>, d: seq<int>, width: nat, height: nat, y: int, x: int): (r: seq<int>)
    requires |d| == 4 * (width * height) && 0 <= y < height && 0 <= x < width
    ensures |r| == |d|
  {
    var i := ByteAt(width, height, y, x, 0);
    var q := Level(d[i]);
    PushError(taps, d[i := q][i + 1 := q][i + 2 := q], width, height, y, x, d[i] - q, |taps|)
  }

  /** The buffer when the dither reaches (x, y): every earlier pixel has been visited. */
  function Reached(taps: seq<Tap>, d0: seq<int>, width: nat, height: nat, y: int, x: int): (r: seq<int>)
    requires |d0| == 4 * (width * height) && 0 <= y < height && 0 <= x <= width
    ensures |r| == |d0|
    decreases y, x
  {
    if x > 0 then DitherPixel(taps, Reached(taps, d0, width, height, y, x - 1), width, height, y, x - 1)
    else if y == 0 then d0
    else Reached(taps, d0, width, height, y - 1, width)
  }

  /** The buffer the dither leaves. */
  function AdvancedDithered(taps: seq<Tap>, d0: seq<int>, width: nat, height: nat): (r: seq<int>)
    requires |d0| == 4 * (width * height)
    ensures |r| == |d0|
  {
    if height == 0 then d0 else Reached(taps, d0, width, height, height - 1, width)
  }

  // ----- The loops -----

  /** The `for (const k of kernel)` loop of one pixel. */
  method PushErrorLoop(taps: seq<Tap>, data: array<int>, width: nat, height: nat, y: int, x: int, err: int)
    modifies data
    requires data.Length == 4 * (width * height) && 0 <= y && 0 <= x
    ensures data[..] == PushError(taps, old(data[..]), width, height, y, x, err, |taps|)
  {
    ghost var d := data[..];
    for n := 0 to |taps|
      invariant data[..] == PushError(taps, d, width, height, y, x, err, n)
    {
      var t := taps[n];
      var nx := x + t.dx;
      var ny := y + t.dy;
      if nx >= 0 && nx < width && ny >= 0 && ny < height {
        var nidx := (ny * width + nx) * 4;
        assert nidx == ByteAt(width, height, ny, nx, 0);
        data[nidx] := Diffused(data[nidx], err, t.weight);
        data[nidx + 1] := data[nidx];
        data[nidx + 2] := data[nidx];
      }
    }
  }

  /** The body of the pixel loop at (x, y). */
  method DitherPixelStep(taps: seq<Tap>, data: array<int>, width: nat, height: nat, y: int, x: int)
    modifies data
    requires data.Length == 4 * (width * height) && 0 <= y < height && 0 <= x < width
    ensures data[..] == DitherPixel(taps, old(data[..]), width, height, y, x)
  {
    var idx := (y * width + x) * 4;
    assert idx == ByteAt(width, height, y, x, 0);
    var oldPixel := data[idx];
    var newPixel := if oldPixel < 128 then 0 else 255;
    data[idx] := newPixel;
    data[idx + 1] := newPixel;
    data[idx + 2] := newPixel;
    var quantError := oldPixel - newPixel;
    PushErrorLoop(taps, data, width, height, y, x, quantError);
  }

  /** `applyAdvancedDither(imgData, kind)`. */
  method AdvancedDither(data: array<int>, width: nat, height: nat, kind: string)
    modifies data
    requires data.Length == 4 * (width * height)
    ensures data[..] == AdvancedDithered(KernelFor(kind), old(data[..]), width, height)
  {
    var kernel := KernelFor(kind);
    ghost var d0 := data[..];
    for y := 0 to height
      invariant data[..] == if y == 0 then d0 else Reached(kernel, d0, width, height, y - 1, width)
    {
      for x := 0 to width
        invariant data[..] == Reached(kernel, d0, width, height, y, x)
      {
        DitherPixelStep(kernel, data, width, height, y, x);
      }
    }
  }

  // ----- Properties -----

  /** Pushing the error of (x, y) along forward taps leaves the bytes of (x, y) and of
      every earlier pixel alone, and every alpha byte. */
  lemma {:induction false} PushErrorKeeps(taps: seq<Tap>, d: seq<int>, width: nat, height: nat,
                                          y: int, x: int, err: int, n: nat)
    requires |d| == 4 * (width * height) && 0 <= y < height && 0 <= x < width && n <= |taps|
    requires Forward(taps)
    ensures var r := PushError(taps, d, width, height, y, x, err, n);
      (forall k :: 0 <= k <= ByteAt(width, height, y, x, 3) ==> r[k] == d[k]) &&
      (forall k :: 0 <= k < |d| && k % 4 == 3 ==> r[k] == d[k])
  {
    if n > 0 {
      PushErrorKeeps(taps, d, width, height, y, x, err, n - 1);
      var r := PushError(taps, d, width, height, y, x, err, n - 1);
      var t := taps[n - 1];
      if Lands(width, height, y, x, t) {
        CellOrder(width, y, x, y + t.dy, x + t.dx);
        var k := ByteAt(width, height, y + t.dy, x + t.dx, 0);
        GreyStoreKeeps(r, k, Diffused(r[k], err, t.weight), ByteAt(width, height, y, x, 3));
      }
    }
  }

  /** Writing one value into the red, green and blue bytes of the pixel at `k` leaves
      every byte before `k` alone, and every alpha byte. */
  lemma GreyStoreKeeps(r: seq<int>, k: int, v: int, lo: int)
    requires 0 <= k && k + 2 < |r| && k % 4 == 0 && lo < k
    ensures forall j :: 0 <= j <= lo ==> r[k := v][k + 1 := v][k + 2 := v][j] == r[j]
    ensures forall j :: 0 <= j < |r| && j % 4 == 3 ==> r[k := v][k + 1 := v][k + 2 := v][j] == r[j]
  {
  }

  /** Pushing the error keeps every byte a byte. */
  lemma {:induction false} PushErrorBytes(taps: seq<Tap>, d: seq<int>, width: nat, height: nat,
                                          y: int, x: int, err: int, n: nat)
    requires IsImageData(d, width, height) && 0 <= y && 0 <= x && n <= |taps|
    ensures IsImageData(PushError(taps, d, width, height, y, x, err, n), width, height)
  {
    if n > 0 {
      PushErrorBytes(taps, d, width, height, y, x, err, n - 1);
    }
  }

  /** A visited pixel is drawn black or white, R = G = B: its accumulated red byte read
      against 128; the step keeps earlier pixels, every alpha byte, and bytes in range. */
  lemma DitherPixelShape(taps: seq<Tap>, d: seq<int>, width: nat, height: nat, y: int, x: int)
    requires |d| == 4 * (width * height) && 0 <= y < height && 0 <= x < width && Forward(taps)
    ensures var r := DitherPixel(taps, d, width, height, y, x);
      var i := ByteAt(width, height, y, x, 0);
      r[i] == Level(d[i]) && r[i + 1] == r[i] && r[i + 2] == r[i] &&
      (forall k :: 0 <= k < i ==> r[k] == d[k]) &&
      (forall k :: 0 <= k < |d| && k % 4 == 3 ==> r[k] == d[k]) &&
      (IsImageData(d, width, height) ==> IsImageData(r, width, height))
  {
    var i := ByteAt(width, height, y, x, 0);
    var q := Level(d[i]);
    var d1 := d[i := q][i + 1 := q][i + 2 := q];
    GreyStoreKeeps(d, i, q, i as int - 1);
    PushErrorKeeps(taps, d1, width, height, y, x, d[i] - q, |taps|);
    var r := PushError(taps, d1, width, height, y, x, d[i] - q, |taps|);
    assert r[i] == d1[i] && r[i + 1] == d1[i + 1] && r[i + 2] == d1[i + 2];
    if IsImageData(d, width, height) {
      PushErrorBytes(taps, d1, width, height, y, x, d[i] - q, |taps|);
    }
  }

  /** Once the dither has passed pixel (x, y), its bytes never change again. */
  lemma {:induction false} Settled(taps: seq<Tap>, d0: seq<int>, width: nat, height: nat,
                                   y: int, x: int, y2: int, x2: int)
    requires |d0| == 4 * (width * height) && Forward(taps)
    requires 0 <= y && 0 <= x < width && 0 <= y2 < height && 0 <= x2 <= width
    requires Earlier(y, x, y2, x2)
    ensures forall c :: 0 <= c < 4 ==>
              Reached(taps, d0, width, height, y2, x2)[ByteAt(width, height, y, x, c)]
              == Reached(taps, d0, width, height, y, x + 1)[ByteAt(width, height, y, x, c)]
    decreases y2, x2
  {
    if x2 > 0 {
      if y != y2 || x != x2 - 1 {
        var b := Reached(taps, d0, width, height, y2, x2 - 1);
        DitherPixelShape(taps, b, width, height, y2, x2 - 1);
        CellOrder(width, y, x, y2, x2 - 1);
        Settled(taps, d0, width, height, y, x, y2, x2 - 1);
      }
    } else {
      Settled(taps, d0, width, height, y, x, y2 - 1, width);
    }
  }

  /** The dither keeps every alpha byte, and bytes in range. */
  lemma {:induction false} ReachedShape(taps: seq<Tap>, d0: seq<int>, width: nat, height: nat, y: int, x: int)
    requires |d0| == 4 * (width * height) && Forward(taps) && 0 <= y < height && 0 <= x <= width
    ensures var r := Reached(taps, d0, width, height, y, x);
      (forall k :: 0 <= k < |d0| && k % 4 == 3 ==> r[k] == d0[k]) &&
      (IsImageData(d0, width, height) ==> IsImageData(r, width, height))
    decreases y, x
  {
    if x > 0 {
      ReachedShape(taps, d0, width, height, y, x - 1);
      DitherPixelShape(taps, Reached(taps, d0, width, height, y, x - 1), width, height, y, x - 1);
    } else if y > 0 {
      ReachedShape(taps, d0, width, height, y - 1, width);
    }
  }

  /** The pixel whose red byte is at `i` is drawn in `r` from its red byte in `b`:
      R = G = B = `Level(b[i])`. */
  predicate Drawn(r: seq<int>, b: seq<int>, i: int)
  {
    0 <= i && i + 2 < |r| && i < |b| && r[i] == Level(b[i]) && r[i + 1] == r[i] && r[i + 2] == r[i]
  }

  /** `r` keeps every alpha byte of `d`. */
  predicate AlphaKept(r: seq<int>, d: seq<int>)
  {
    |r| == |d| && forall k :: 0 <= k < |d| && k % 4 == 3 ==> r[k] == d[k]
  }

  /** The dither keeps the bytes of a pixel once it has passed it. */
  lemma SettledFinal(taps: seq<Tap>, d0: seq<int>, width: nat, height: nat, y: int, x: int, c: int)
    requires |d0| == 4 * (width * height) && Forward(taps) && 0 <= y < height && 0 <= x < width && 0 <= c < 4
    ensures AdvancedDithered(taps, d0, width, height)[ByteAt(width, height, y, x, c)]
            == Reached(taps, d0, width, height, y, x + 1)[ByteAt(width, height, y, x, c)]
  {
    DitheredLast(taps, d0, width, height);
    if y < height - 1 || x < width - 1 {
      Settled(taps, d0, width, height, y, x, height - 1, width);
    }
  }

  lemma DitheredLast(taps: seq<Tap>, d0: seq<int>, width: nat, height: nat)
    requires |d0| == 4 * (width * height) && height > 0
    ensures AdvancedDithered(taps, d0, width, height) == Reached(taps, d0, width, height, height - 1, width)
  {
  }

  lemma DrawnKept(r: seq<int>, next: seq<int>, b: seq<int>, i: int)
    requires Drawn(next, b, i) && |r| == |next|
    requires r[i] == next[i] && r[i + 1] == next[i + 1] && r[i + 2] == next[i + 2]
    ensures Drawn(r, b, i)
  {
  }

  /** Pixel (x, y) of the dithered image is drawn from its red byte as the dither
      reached it. */
  lemma FinalPixel(taps: seq<Tap>, d0: seq<int>, width: nat, height: nat, y: int, x: int)
    requires |d0| == 4 * (width * height) && Forward(taps) && 0 <= y < height && 0 <= x < width
    ensures Drawn(AdvancedDithered(taps, d0, width, height), Reached(taps, d0, width, height, y, x),
                  ByteAt(width, height, y, x, 0))
  {
    var b := Reached(taps, d0, width, height, y, x);
    var i := ByteAt(width, height, y, x, 0);
    var next := Reached(taps, d0, width, height, y, x + 1);
    DitherPixelShape(taps, b, width, height, y, x);
    SettledFinal(taps, d0, width, height, y, x, 0);
    SettledFinal(taps, d0, width, height, y, x, 1);
    SettledFinal(taps, d0, width, height, y, x, 2);
    DrawnKept(AdvancedDithered(taps, d0, width, height), next, b, i);
  }

  /** The dithered image: every pixel drawn from its red byte as the dither reached
      it. */
  lemma DitheredDrawn(taps: seq<Tap>, d0: seq<int>, width: nat, height: nat)
    requires |d0| == 4 * (width * height) && Forward(taps)
    ensures forall y, x :: 0 <= y < height && 0 <= x < width ==>
              Drawn(AdvancedDithered(taps, d0, width, height), Reached(taps, d0, width, height, y, x),
                    ByteAt(width, height, y, x, 0))
  {
    forall y, x | 0 <= y < height && 0 <= x < width
      ensures Drawn(AdvancedDithered(taps, d0, width, height), Reached(taps, d0, width, height, y, x),
                    ByteAt(width, height, y, x, 0))
    {
      FinalPixel(taps, d0, width, height, y, x);
    }
  }

  /** The dither keeps every alpha byte, and a byte image stays one. */
  lemma DitheredKept(taps: seq<Tap>, d0: seq<int>, width: nat, height: nat)
    requires |d0| == 4 * (width * height) && Forward(taps)
    ensures AlphaKept(AdvancedDithered(taps, d0, width, height), d0)
    ensures IsImageData(d0, width, height) ==> IsImageData(AdvancedDithered(taps, d0, width, height), width, height)
  {
    if height > 0 {
      ReachedShape(taps, d0, width, height, height - 1, width);
    }
  }

  /** The pixel whose red byte is at `i` is black or white, R = G = B. */
  predicate BlackWhite(r: seq<int>, i: int)
  {
    0 <= i && i + 2 < |r| && (r[i] == 0 || r[i] == 255) && r[i + 1] == r[i] && r[i + 2] == r[i]
  }

  lemma DitheredBlackWhite(taps: seq<Tap>, d0: seq<int>, width: nat, height: nat)
    requires |d0| == 4 * (width * height) && Forward(taps)
    ensures forall y, x :: 0 <= y < height && 0 <= x < width ==>
              BlackWhite(AdvancedDithered(taps, d0, width, height), ByteAt(width, height, y, x, 0))
  {
    DitheredDrawn(taps, d0, width, height);
  }

  /** What `applyAdvancedDither` leaves, whatever the mode: every pixel black or white
      with R = G = B, alpha kept, bytes in range. */
  lemma AdvancedDitheredShape(kind: string, d0: seq<int>, width: nat, height: nat)
    requires |d0| == 4 * (width * height)
    ensures forall y, x :: 0 <= y < height && 0 <= x < width ==>
              BlackWhite(AdvancedDithered(KernelFor(kind), d0, width, height), ByteAt(width, height, y, x, 0))
    ensures AlphaKept(AdvancedDithered(KernelFor(kind), d0, width, height), d0)
    ensures IsImageData(d0, width, height) ==>
              IsImageData(AdvancedDithered(KernelFor(kind), d0, width, height), width, height)
  {
    var taps := KernelFor(kind);
    KernelForShape(kind);
    DitheredBlackWhite(taps, d0, width, height);
    DitheredKept(taps, d0, width, height);
  }
}
