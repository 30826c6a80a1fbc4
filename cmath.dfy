/** The parts of <cmath> that easyAD calls on plain double values.

    Doubles are modelled as reals. The rounding functions, abs, copysign, fmod
    and modf are exact over the reals and are defined here. The transcendental
    primitives (sqrt, pow, log, sin, ...) are foreign calls whose values the
    model does not fix: they are the fields of a `Libm` record that every
    elementary function of easyAD receives as a parameter. */
module CMath {

  /** The foreign <cmath> primitives, one total function per library entry. */
  datatype Libm = Libm(
    acos: real -> real, acosh: real -> real, asin: real -> real, asinh: real -> real,
    atan: real -> real, cos: real -> real, cosh: real -> real, erf: real -> real,
    erfc: real -> real, exp: real -> real, exp2: real -> real, expm1: real -> real,
    log: real -> real, log2: real -> real, log10: real -> real, log1p: real -> real,
    sin: real -> real, sinh: real -> real, sqrt: real -> real, cbrt: real -> real,
    tan: real -> real, tanh: real -> real,
    hypot: (real, real) -> real, atan2: (real, real) -> real, pow: (real, real) -> real)

  /** M_PI, the double constant used by the erf and erfc rules. */
  const Pi: real := 3.14159265358979323846

  predicate IsIntegral(x: real) {
    x.Floor as real == x
  }

  lemma IntegerIsIntegral(n: int)
    ensures IsIntegral(n as real)
  {
  }

  predicate IsEven(x: real)
    requires IsIntegral(x)
  {
    x.Floor % 2 == 0
  }

  /** abs and fabs on a double. */
  function Abs(x: real): (r: real)
    ensures 0.0 <= r && (r == x || r == -x)
  {
    if x >= 0.0 then x else -x
  }

  /** floor: the greatest integral value not above x. */
  function Floor(x: real): (r: real)
    ensures IsIntegral(r) && r <= x < r + 1.0
  {
    x.Floor as real
  }

  /** ceil: the least integral value not below x. */
  function Ceil(x: real): (r: real)
    ensures IsIntegral(r) && r - 1.0 < x <= r
  {
    IntegerIsIntegral(-((-x).Floor));
    -Floor(-x)
  }

  /** trunc: x rounded towards zero. */
  function Trunc(x: real): (r: real)
    ensures IsIntegral(r)
    ensures 0.0 <= x ==> 0.0 <= r <= x < r + 1.0
    ensures x < 0.0 ==> r - 1.0 < x <= r <= 0.0
  {
    if x >= 0.0 then Floor(x) else Ceil(x)
  }

  /** round: to the nearest integral value, halfway cases away from zero. */
  function RoundHalfAway(x: real): (r: real)
    ensures IsIntegral(r) && Abs(x - r) <= 0.5
    ensures Abs(x - r) == 0.5 ==> Abs(r) > Abs(x)
  {
    if x >= 0.0 then Floor(x + 0.5)
    else
      IntegerIsIntegral(-((-x + 0.5).Floor));
      -Floor(-x + 0.5)
  }

  /** nearbyint and rint in the default rounding mode (to nearest, ties to even). */
  function RoundHalfEven(x: real): (r: real)
    ensures IsIntegral(r) && Abs(x - r) <= 0.5
    ensures Abs(x - r) == 0.5 ==> IsEven(r)
  {
    var f := Floor(x);
    if x - f < 0.5 then f
    else if x - f > 0.5 then f + 1.0
    else if IsEven(f) then f
    else
      assert (f + 1.0).Floor == f.Floor + 1;
      f + 1.0
  }

  /** copysign(x, y): the magnitude of x with the sign of y (a zero y counts as +0.0). */
  function CopySign(x: real, y: real): (r: real)
    ensures Abs(r) == Abs(x)
    ensures y < 0.0 ==> r <= 0.0
    ensures 0.0 <= y ==> 0.0 <= r
  {
    if y < 0.0 then -Abs(x) else Abs(x)
  }

  /** copysign(1.0, x*y): by the sign rule of a floating-point product, -1 exactly
      when one operand is negative, also when the product is zero. */
  function ProductSign(x: real, y: real): (r: real)
    ensures r == 1.0 || r == -1.0
    ensures x * y != 0.0 ==> r == CopySign(1.0, x * y)
    ensures r == -1.0 <==> (x < 0.0) != (y < 0.0)
  {
    if (x < 0.0) != (y < 0.0) then -1.0 else 1.0
  }

  /** fmod(x, y) = x - trunc(x/y)*y: the remainder whose sign follows x and whose
      magnitude is below that of y. */
  function Fmod(x: real, y: real): (r: real)
    requires y != 0.0
    ensures Abs(r) < Abs(y)
    ensures 0.0 <= x ==> 0.0 <= r
    ensures x < 0.0 ==> r <= 0.0
    ensures x - r == Trunc(x / y) * y
  {
    FractionBounds(x / y, Trunc(x / y));
    Remainder(x, y, x / y, Trunc(x / y))
  }

  /** fmod is the remainder left by the truncated quotient. */
  lemma FmodIsTruncatedRemainder(x: real, y: real)
    requires y != 0.0
    ensures Fmod(x, y) == x - Trunc(x / y) * y
  {
  }

  /** The remainder `x - t*y` left by a quotient `t` that is `q = x/y` with its
      fraction, of `q`'s sign, dropped. */
  function Remainder(x: real, y: real, q: real, t: real): (r: real)
    requires y != 0.0 && q == x / y
    requires -1.0 < q - t < 1.0
    requires 0.0 <= q ==> 0.0 <= q - t
    requires q <= 0.0 ==> q - t <= 0.0
    ensures Abs(r) < Abs(y)
    ensures 0.0 <= x ==> 0.0 <= r
    ensures x < 0.0 ==> r <= 0.0
    ensures x - r == t * y
  {
    RemainderFacts(x, y, q, t);
    x - t * y
  }

  lemma RemainderFacts(x: real, y: real, q: real, t: real)
    requires y != 0.0 && q == x / y
    requires -1.0 < q - t < 1.0
    requires 0.0 <= q ==> 0.0 <= q - t
    requires q <= 0.0 ==> q - t <= 0.0
    ensures Abs(x - t * y) < Abs(y)
    ensures 0.0 <= x ==> 0.0 <= x - t * y
    ensures x < 0.0 ==> x - t * y <= 0.0
  {
    FractionTimesDivisor(x, y, t);
    ScaledBelow(q - t, y);
    RemainderSign(x, y, q - t);
  }

  /** What `trunc` leaves of `q` lies strictly between -1 and 1 and has `q`'s sign. */
  lemma FractionBounds(q: real, t: real)
    requires 0.0 <= q ==> 0.0 <= t <= q < t + 1.0
    requires q < 0.0 ==> t - 1.0 < q <= t <= 0.0
    ensures -1.0 < q - t < 1.0
    ensures 0.0 <= q ==> 0.0 <= q - t
    ensures q <= 0.0 ==> q - t <= 0.0
  {
  }

  /** A fraction with the sign of `x / y`, scaled by `y`, has the sign of `x`. */
  lemma RemainderSign(x: real, y: real, f: real)
    requires y != 0.0
    requires 0.0 <= x / y ==> 0.0 <= f
    requires x / y <= 0.0 ==> f <= 0.0
    ensures 0.0 <= x ==> 0.0 <= f * y
    ensures x < 0.0 ==> f * y <= 0.0
  {
    SignOfQuotient(x, y);
    SignOfProduct(f, y);
  }

  /** `x - t*y` is the fractional part of the quotient times the divisor, and
      dividing what it removes from `x` by `y` gives back `t`. */
  lemma FractionTimesDivisor(x: real, y: real, t: real)
    requires y != 0.0
    ensures x - t * y == (x / y - t) * y
    ensures (x - (x - t * y)) / y == t
  {
    assert x == (x / y) * y;
    assert x - (x - t * y) == t * y;
  }

  /** A factor strictly between -1 and 1 shrinks a non-zero value. */
  lemma ScaledBelow(f: real, y: real)
    requires -1.0 < f < 1.0 && y != 0.0
    ensures Abs(f * y) < Abs(y)
  {
    var p := f * y;
    if 0.0 < y {
      ProductBelow(f, 1.0, y);
      ProductBelow(-1.0, f, y);
      AbsBelow(p, y);
    } else {
      ProductAbove(f, 1.0, y);
      ProductAbove(-1.0, f, y);
      AbsBelow(p, y);
    }
  }

  lemma AbsBelow(p: real, y: real)
    requires (0.0 < y && -1.0 * y < p < 1.0 * y) || (y < 0.0 && 1.0 * y < p < -1.0 * y)
    ensures Abs(p) < Abs(y)
  {
  }

  lemma ProductBelow(g: real, h: real, z: real)
    requires g < h && 0.0 < z
    ensures g * z < h * z
  {
    assert (h - g) * z > 0.0;
  }

  lemma ProductAbove(g: real, h: real, z: real)
    requires g < h && z < 0.0
    ensures h * z < g * z
  {
    assert (h - g) * z < 0.0;
  }

  lemma SignOfQuotient(x: real, y: real)
    requires y != 0.0
    ensures 0.0 < y ==> (0.0 <= x <==> 0.0 <= x / y)
    ensures y < 0.0 ==> (0.0 <= x <==> x / y <= 0.0)
  {
    assert x == (x / y) * y;
  }

  lemma SignOfProduct(f: real, y: real)
    ensures 0.0 <= f && 0.0 <= y ==> 0.0 <= f * y
    ensures f <= 0.0 && y <= 0.0 ==> 0.0 <= f * y
    ensures 0.0 <= f && y <= 0.0 ==> f * y <= 0.0
    ensures f <= 0.0 && 0.0 <= y ==> f * y <= 0.0
  {
  }

  /** modf(x, &i): the fractional part, returned, and the integral part, stored in i. */
  function Modf(x: real): (r: (real, real))
    ensures r.0 + r.1 == x
    ensures IsIntegral(r.1) && Abs(r.0) < 1.0
    ensures 0.0 <= x ==> 0.0 <= r.0 && 0.0 <= r.1
    ensures x < 0.0 ==> r.0 <= 0.0 && r.1 <= 0.0
  {
    (x - Trunc(x), Trunc(x))
  }
}
