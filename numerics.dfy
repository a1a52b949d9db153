/** Numeric helpers shared by every module: JavaScript's rounding and clamping
    operators, the conversions performed by stores into typed arrays, and the
    transcendental functions the program calls, passed in as a `MathLib`. */
module Numerics {

  /** The transcendental functions of `Math` the program calls. They are inputs of
      the model; `Sound` states the only facts about them that the proofs use. */
  datatype MathLib = MathLib(
    sqrt: real -> real,
    exp: real -> real,
    pow: (real, real) -> real,
    cos: real -> real,
    sin: real -> real,
    atan2Deg: (real, real) -> real,
    pi: real)

  /** `x * x`. Squares are written with this function throughout, so that the solver
      treats every square the same way. */
  function Sq(x: real): real { x * x }

  /** `sqrt` is the nonnegative square root on nonnegative arguments, `exp` is positive
      and at most 1 on nonpositive arguments, and `pow` maps [0,1] x (0, inf) into [0,1]. */
  ghost predicate Sound(m: MathLib)
  {
    (forall x: real :: x >= 0.0 ==> m.sqrt(x) >= 0.0 && Sq(m.sqrt(x)) == x) &&
    (forall x: real :: m.exp(x) > 0.0) &&
    (forall x: real :: x <= 0.0 ==> m.exp(x) <= 1.0) &&
    (forall x: real, e: real :: 0.0 <= x <= 1.0 && e > 0.0 ==> 0.0 <= m.pow(x, e) <= 1.0)
  }

  /** A square is nonnegative, and positive unless its root is 0. */
  lemma SquareSign(x: real)
    ensures Sq(x) >= 0.0
    ensures x != 0.0 ==> Sq(x) > 0.0
  {
    if x > 0.0 {
      calc { Sq(x); == x * x; > 0.0; }
    } else if x < 0.0 {
      calc { Sq(x); == (-x) * (-x); > 0.0; }
    }
  }

  /** A sum of three squares vanishes only when all three roots do. */
  lemma SumOfSquaresZero(a: real, b: real, c: real)
    requires Sq(a) + Sq(b) + Sq(c) <= 0.0
    ensures a == 0.0 && b == 0.0 && c == 0.0
  {
    SquareSign(a);
    SquareSign(b);
    SquareSign(c);
  }

  /** The square root of 0 is 0, and square roots of positive numbers are positive. */
  lemma SqrtSign(m: MathLib, x: real)
    requires Sound(m) && x >= 0.0
    ensures m.sqrt(x) == 0.0 <==> x == 0.0
    ensures x > 0.0 ==> m.sqrt(x) > 0.0
  {
    var s := m.sqrt(x);
    assert s >= 0.0 && Sq(s) == x;
    SquareSign(s);
  }

  lemma MulLeRight(a: real, b: real, c: real)
    requires a <= b && c >= 0.0
    ensures a * c <= b * c
  {
    calc { b * c - a * c; == (b - a) * c; >= 0.0; }
  }

  /** Multiplying by a natural number keeps the order of integers. */
  lemma MulMono(a: int, b: int, c: nat)
    requires a <= b
    ensures a * c <= b * c
  {
    var d := b - a;
    assert b * c == a * c + d * c;
    assert d * c >= 0;
  }

  lemma MulNonNeg(a: real, b: real)
    requires a >= 0.0 && b >= 0.0
    ensures a * b >= 0.0
  {
  }

  lemma MulPos(a: real, b: real)
    requires a > 0.0 && b > 0.0
    ensures a * b > 0.0
  {
  }

  /** A quotient of a sum by a positive mass lies between the bounds the sum has per unit mass. */
  lemma DivBounds(s: real, m: real, lo: real, hi: real)
    requires m > 0.0 && lo * m <= s <= hi * m
    ensures lo <= s / m <= hi
  {
    calc { lo; == (lo * m) / m; <= s / m; }
    calc { s / m; <= (hi * m) / m; == hi; }
  }

  function MinInt(a: int, b: int): int { if a < b then a else b }

  function MaxInt(a: int, b: int): int { if a > b then a else b }

  function MinReal(a: real, b: real): real { if a < b then a else b }

  function MaxReal(a: real, b: real): real { if a > b then a else b }

  function AbsReal(a: real): real { if a < 0.0 then -a else a }

  function AbsInt(a: int): int { if a < 0 then -a else a }

  /** `Math.min(hi, Math.max(lo, v))`. */
  function Clamp(v: real, lo: real, hi: real): (r: real)
    requires lo <= hi
    ensures lo <= r <= hi
    ensures lo <= v <= hi ==> r == v
    ensures v < lo ==> r == lo
    ensures v > hi ==> r == hi
  {
    MinReal(hi, MaxReal(lo, v))
  }

  /** `Math.min(1, Math.max(0, v))`. */
  function Clamp01(v: real): (r: real)
    ensures 0.0 <= r <= 1.0
    ensures 0.0 <= v <= 1.0 ==> r == v
  {
    Clamp(v, 0.0, 1.0)
  }

  /** Clamping into [0, 1] is monotone. */
  lemma Clamp01Monotone(u: real, v: real)
    requires u <= v
    ensures Clamp01(u) <= Clamp01(v)
  {
  }

  /** `Math.min(255, Math.max(0, v))`. */
  function Clamp255(v: real): (r: real)
    ensures 0.0 <= r <= 255.0
    ensures 0.0 <= v <= 255.0 ==> r == v
  {
    Clamp(v, 0.0, 255.0)
  }

  /** JavaScript's `Math.round`: the nearest integer, halves rounded up. */
  function JsRound(v: real): int
  {
    (v + 0.5).Floor
  }

  /** `Math.round` moves its argument by at most one half. */
  lemma JsRoundBounds(v: real)
    ensures v - 0.5 < JsRound(v) as real <= v + 0.5
  {
  }

  /** JavaScript's `a / b` at the call sites modelled, where the divisor is never 0 (the
      0 case, which yields NaN or an infinity in JavaScript, is fixed at 0 here). */
  function Quotient(a: real, b: real): real
  {
    if b == 0.0 then 0.0 else a / b
  }

  /** A byte value. */
  predicate IsByte(v: int) { 0 <= v <= 255 }

  /** The conversion performed by a store into a `Uint8ClampedArray`: clamp to
      [0,255], then round to the nearest integer with halves going to the even neighbour. */
  function ClampRound(v: real): (r: int)
    ensures IsByte(r)
    ensures v <= 0.0 ==> r == 0
    ensures v >= 255.0 ==> r == 255
    ensures 0.0 <= v <= 255.0 ==> v - 0.5 <= r as real <= v + 0.5
  {
    if v <= 0.0 then 0
    else if v >= 255.0 then 255
    else
      var f := v.Floor;
      if f as real + 0.5 < v then f + 1
      else if v < f as real + 0.5 then f
      else if f % 2 == 0 then f else f + 1
  }

  /** Storing a byte value into a `Uint8ClampedArray` keeps it. */
  lemma ClampRoundOfByte(n: int)
    requires IsByte(n)
    ensures ClampRound(n as real) == n
  {
  }

  /** The conversion performed by a store into a `Uint8Array`: truncate toward zero,
      then reduce modulo 256. */
  function ToUint8(v: real): (r: int)
    ensures IsByte(r)
    ensures 0.0 <= v < 256.0 ==> r == v.Floor
  {
    var t := if v >= 0.0 then v.Floor else -((-v).Floor);
    t % 256
  }
}
