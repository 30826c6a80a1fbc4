/** The `std::` math overloads of easyAD on `Forward`. Each returns the library
    function of the value and a tangent that is the chain rule formula of the
    source: a factor computed from the value(s) times the operand tangent(s).

    The transcendental primitives come from the `lib` parameter and stay
    uninterpreted. The lemmas at the end relate the rules to one another through
    the identities between the functions (inverse pairs, sums that are constant,
    quotients): an identity that holds of the library values at a point carries
    over to the tangents computed by the rules. */
module EasyADMath {
  import opened EasyAD
  import CMath

  type Libm = CMath.Libm

  /** `x*x`, written once so that the argument of a library call is the same
      term wherever it occurs. */
  function Square(x: real): real {
    x * x
  }

  // ---- sign selection and rounding ----

  function Abs(a: Forward): (r: Forward)
    ensures r == if a.val >= 0.0 then a else Neg(a)
  {
    Forward(CMath.Abs(a.val), if a.val >= 0.0 then a.dot else -a.dot)
  }

  function Fabs(a: Forward): (r: Forward)
    ensures r == if a.val > 0.0 then a else Neg(a)
  {
    Forward(CMath.Abs(a.val), (if a.val > 0.0 then 1.0 else -1.0) * a.dot)
  }

  /** `copysign(a, b)`: `a` itself when the signs agree, `-a` otherwise; `b`'s
      tangent never contributes. */
  function Copysign(a: Forward, b: Forward): (r: Forward)
    ensures r == if (a.val < 0.0) == (b.val < 0.0) then a else Neg(a)
  {
    Forward(CMath.CopySign(a.val, b.val), CMath.ProductSign(a.val, b.val) * a.dot)
  }

  function Floor(a: Forward): (r: Forward)
    ensures r.dot == 0.0
    ensures CMath.IsIntegral(r.val) && r.val <= a.val < r.val + 1.0
  {
    Forward(CMath.Floor(a.val), 0.0)
  }

  function Ceil(a: Forward): (r: Forward)
    ensures r.dot == 0.0
    ensures CMath.IsIntegral(r.val) && r.val - 1.0 < a.val <= r.val
  {
    Forward(CMath.Ceil(a.val), 0.0)
  }

  function Trunc(a: Forward): (r: Forward)
    ensures r.dot == 0.0
    ensures CMath.IsIntegral(r.val)
    ensures 0.0 <= a.val ==> 0.0 <= r.val <= a.val < r.val + 1.0
    ensures a.val < 0.0 ==> r.val - 1.0 < a.val <= r.val <= 0.0
  {
    Forward(CMath.Trunc(a.val), 0.0)
  }

  function Round(a: Forward): (r: Forward)
    ensures r.dot == 0.0
    ensures CMath.IsIntegral(r.val) && CMath.Abs(a.val - r.val) <= 0.5
    ensures CMath.Abs(a.val - r.val) == 0.5 ==> CMath.Abs(r.val) > CMath.Abs(a.val)
  {
    Forward(CMath.RoundHalfAway(a.val), 0.0)
  }

  function NearbyInt(a: Forward): (r: Forward)
    ensures r.dot == 0.0
    ensures CMath.IsIntegral(r.val) && CMath.Abs(a.val - r.val) <= 0.5
    ensures CMath.Abs(a.val - r.val) == 0.5 ==> CMath.IsEven(r.val)
  {
    Forward(CMath.RoundHalfEven(a.val), 0.0)
  }

  /** `rint(a)`: in the default rounding mode the same rounding as `nearbyint`. */
  function Rint(a: Forward): (r: Forward)
    ensures r.dot == 0.0
    ensures CMath.IsIntegral(r.val) && CMath.Abs(a.val - r.val) <= 0.5
    ensures CMath.Abs(a.val - r.val) == 0.5 ==> CMath.IsEven(r.val)
  {
    NearbyInt(a)
  }

  /** `fmod(a, b)`: the rule of `a - q*b` with the integer quotient `q` held
      constant. */
  function Fmod(a: Forward, b: Forward): (r: Forward)
    requires b.val != 0.0
    ensures r == Sub(a, ScalarMul(CMath.Trunc(a.val / b.val), b))
    ensures CMath.Abs(r.val) < CMath.Abs(b.val)
  {
    RemainderDual(a, b, CMath.Trunc(a.val / b.val))
  }

  /** The dual number `a - q*b` for the truncated quotient `q`, whose value is
      the library remainder. */
  function RemainderDual(a: Forward, b: Forward, q: real): (r: Forward)
    requires b.val != 0.0 && q == CMath.Trunc(a.val / b.val)
    ensures r == Sub(a, ScalarMul(q, b))
    ensures CMath.Abs(r.val) < CMath.Abs(b.val)
  {
    var v := CMath.Fmod(a.val, b.val);
    RemainderAsDual(a, b, q, v);
    Forward(v, 1.0 * a.dot - q * b.dot)
  }

  /** A remainder `v = a.val - q*b.val` with tangent `a.dot - q*b.dot` is the
      dual number `a - q*b`. */
  lemma RemainderAsDual(a: Forward, b: Forward, q: real, v: real)
    requires a.val - v == q * b.val
    ensures Forward(v, 1.0 * a.dot - q * b.dot) == Sub(a, ScalarMul(q, b))
  {
    var m := ScalarMul(q, b);
    assert m == Mul(Forward(q, 0.0), b);
    assert m.val == q * b.val && m.dot == 0.0 * b.val + q * b.dot;
  }

  // ---- transcendental functions ----

  function Acos(lib: Libm, a: Forward): (r: Forward)
    requires lib.sqrt(1.0 - Square(a.val)) != 0.0
    ensures r.val == lib.acos(a.val)
    ensures r.dot * lib.sqrt(1.0 - Square(a.val)) == -a.dot
  {
    Forward(lib.acos(a.val), -1.0 / lib.sqrt(1.0 - Square(a.val)) * a.dot)
  }

  function Acosh(lib: Libm, a: Forward): (r: Forward)
    requires lib.sqrt(Square(a.val) - 1.0) != 0.0
    ensures r.val == lib.acosh(a.val)
    ensures r.dot * lib.sqrt(Square(a.val) - 1.0) == a.dot
  {
    Forward(lib.acosh(a.val), 1.0 / lib.sqrt(Square(a.val) - 1.0) * a.dot)
  }

  function Asin(lib: Libm, a: Forward): (r: Forward)
    requires lib.sqrt(1.0 - Square(a.val)) != 0.0
    ensures r.val == lib.asin(a.val)
    ensures r.dot * lib.sqrt(1.0 - Square(a.val)) == a.dot
  {
    Forward(lib.asin(a.val), 1.0 / lib.sqrt(1.0 - Square(a.val)) * a.dot)
  }

  function Asinh(lib: Libm, a: Forward): (r: Forward)
    requires lib.sqrt(Square(a.val) + 1.0) != 0.0
    ensures r.val == lib.asinh(a.val)
    ensures r.dot * lib.sqrt(Square(a.val) + 1.0) == a.dot
  {
    Forward(lib.asinh(a.val), 1.0 / lib.sqrt(Square(a.val) + 1.0) * a.dot)
  }

  function Atan(lib: Libm, a: Forward): (r: Forward)
    ensures r.val == lib.atan(a.val)
    ensures r.dot * (1.0 + Square(a.val)) == a.dot
  {
    SquareIsNonNegative(a.val);
    Forward(lib.atan(a.val), 1.0 / (1.0 + Square(a.val)) * a.dot)
  }

  function Cos(lib: Libm, a: Forward): (r: Forward)
    ensures r.val == lib.cos(a.val)
    ensures a.dot == 0.0 ==> r.dot == 0.0
  {
    Forward(lib.cos(a.val), -lib.sin(a.val) * a.dot)
  }

  function Cosh(lib: Libm, a: Forward): (r: Forward)
    ensures r.val == lib.cosh(a.val)
    ensures a.dot == 0.0 ==> r.dot == 0.0
  {
    Forward(lib.cosh(a.val), lib.sinh(a.val) * a.dot)
  }

  function Erf(lib: Libm, a: Forward): (r: Forward)
    requires lib.sqrt(CMath.Pi) != 0.0
    ensures r.val == lib.erf(a.val)
    ensures a.dot == 0.0 ==> r.dot == 0.0
  {
    Forward(lib.erf(a.val), 2.0 / lib.sqrt(CMath.Pi) * lib.exp(-Square(a.val)) * a.dot)
  }

  function Erfc(lib: Libm, a: Forward): (r: Forward)
    requires lib.sqrt(CMath.Pi) != 0.0
    ensures r.val == lib.erfc(a.val)
    ensures a.dot == 0.0 ==> r.dot == 0.0
  {
    Forward(lib.erfc(a.val), -2.0 / lib.sqrt(CMath.Pi) * lib.exp(-Square(a.val)) * a.dot)
  }

  function Exp(lib: Libm, a: Forward): (r: Forward)
    ensures r.val == lib.exp(a.val)
    ensures r.dot == r.val * a.dot
  {
    Forward(lib.exp(a.val), lib.exp(a.val) * a.dot)
  }

  function Exp2(lib: Libm, a: Forward): (r: Forward)
    ensures r.val == lib.exp2(a.val)
    ensures r.dot == r.val * lib.log(2.0) * a.dot
  {
    Forward(lib.exp2(a.val), lib.exp2(a.val) * lib.log(2.0) * a.dot)
  }

  function Expm1(lib: Libm, a: Forward): (r: Forward)
    ensures r.val == lib.expm1(a.val)
    ensures r.dot == Exp(lib, a).dot
  {
    Forward(lib.expm1(a.val), lib.exp(a.val) * a.dot)
  }

  function Log(lib: Libm, a: Forward): (r: Forward)
    requires a.val != 0.0
    ensures r.val == lib.log(a.val)
    ensures r.dot * a.val == a.dot
  {
    Forward(lib.log(a.val), 1.0 / a.val * a.dot)
  }

  function Log2(lib: Libm, a: Forward): (r: Forward)
    requires a.val * lib.log(2.0) != 0.0
    ensures r.val == lib.log2(a.val)
    ensures r.dot * a.val * lib.log(2.0) == a.dot
  {
    Forward(lib.log2(a.val), 1.0 / (a.val * lib.log(2.0)) * a.dot)
  }

  function Log10(lib: Libm, a: Forward): (r: Forward)
    requires a.val * lib.log(10.0) != 0.0
    ensures r.val == lib.log10(a.val)
    ensures r.dot * a.val * lib.log(10.0) == a.dot
  {
    Forward(lib.log10(a.val), 1.0 / (a.val * lib.log(10.0)) * a.dot)
  }

  function Log1p(lib: Libm, a: Forward): (r: Forward)
    requires a.val + 1.0 != 0.0
    ensures r.val == lib.log1p(a.val)
    ensures r.dot * (a.val + 1.0) == a.dot
  {
    Forward(lib.log1p(a.val), 1.0 / (a.val + 1.0) * a.dot)
  }

  function Sin(lib: Libm, a: Forward): (r: Forward)
    ensures r.val == lib.sin(a.val)
    ensures a.dot == 0.0 ==> r.dot == 0.0
  {
    Forward(lib.sin(a.val), lib.cos(a.val) * a.dot)
  }

  function Sinh(lib: Libm, a: Forward): (r: Forward)
    ensures r.val == lib.sinh(a.val)
    ensures a.dot == 0.0 ==> r.dot == 0.0
  {
    Forward(lib.sinh(a.val), lib.cosh(a.val) * a.dot)
  }

  /** `sqrt(a)` with its guard: exactly `(0, 0)` at a zero value, whatever the
      tangent. */
  function Sqrt(lib: Libm, a: Forward): (r: Forward)
    requires a.val != 0.0 ==> lib.sqrt(a.val) != 0.0
    ensures a.val == 0.0 ==> r == Zero()
    ensures a.val != 0.0 ==> r.val == lib.sqrt(a.val) && 2.0 * r.val * r.dot == a.dot
  {
    if a.val == 0.0 then Forward(0.0, 0.0)
    else Forward(lib.sqrt(a.val), 0.5 / lib.sqrt(a.val) * a.dot)
  }

  function Cbrt(lib: Libm, a: Forward): (r: Forward)
    requires a.val != 0.0
    ensures r.val == lib.cbrt(a.val)
    ensures 3.0 * a.val * r.dot == r.val * a.dot
  {
    Forward(lib.cbrt(a.val), lib.cbrt(a.val) / (3.0 * a.val) * a.dot)
  }

  function Tan(lib: Libm, a: Forward): (r: Forward)
    requires lib.cos(a.val) != 0.0
    ensures r.val == lib.tan(a.val)
    ensures r.dot * Square(lib.cos(a.val)) == a.dot
  {
    SquareIsPositive(lib.cos(a.val));
    Forward(lib.tan(a.val), 1.0 / Square(lib.cos(a.val)) * a.dot)
  }

  function Tanh(lib: Libm, a: Forward): (r: Forward)
    ensures r.val == lib.tanh(a.val)
    ensures a.dot == 0.0 ==> r.dot == 0.0
  {
    Forward(lib.tanh(a.val), (1.0 - lib.tanh(a.val) * lib.tanh(a.val)) * a.dot)
  }

  // ---- functions of two operands ----

  function Hypot(lib: Libm, a: Forward, b: Forward): (r: Forward)
    requires lib.hypot(a.val, b.val) != 0.0
    ensures r.val == lib.hypot(a.val, b.val)
    ensures r.val * r.dot == a.val * a.dot + b.val * b.dot
  {
    var h := lib.hypot(a.val, b.val);
    Forward(h, a.val / h * a.dot + b.val / h * b.dot)
  }

  /** `atan2(a, b)` as written. */
  function Atan2(lib: Libm, a: Forward, b: Forward): (r: Forward)
    requires a.val != 0.0 || b.val != 0.0
    ensures r.val == lib.atan2(a.val, b.val)
    ensures a.dot == 0.0 && b.dot == 0.0 ==> r.dot == 0.0
  {
    SumOfSquaresIsPositive(a.val, b.val);
    var n := Square(a.val) + Square(b.val);
    Forward(lib.atan2(a.val, b.val), -b.val / n * a.dot + a.val / n * b.dot)
  }

  /** `atan2(a, b)` with the partial derivatives of `atan2(y, x)`:
      `x/(x*x + y*y)` for `y` and `-y/(x*x + y*y)` for `x`. */
  function Atan2Intended(lib: Libm, a: Forward, b: Forward): (r: Forward)
    requires a.val != 0.0 || b.val != 0.0
    ensures r.val == lib.atan2(a.val, b.val)
    ensures r.dot == -Atan2(lib, a, b).dot
  {
    SumOfSquaresIsPositive(a.val, b.val);
    var n := Square(a.val) + Square(b.val);
    Forward(lib.atan2(a.val, b.val), b.val / n * a.dot - a.val / n * b.dot)
  }

  /** `pow(a, b)`'s factor for `a`'s tangent: `b * a^(b-1)`, 0 when `b` is 0. */
  function PowBaseSlope(lib: Libm, x: real, y: real): (s: real)
    ensures y == 0.0 ==> s == 0.0
    ensures y != 0.0 ==> s == y * lib.pow(x, y - 1.0)
  {
    if y != 0.0 then y * lib.pow(x, y - 1.0) else 0.0
  }

  /** `pow(a, b)`'s factor for `b`'s tangent as written: `a^b * log(a)`, but
      only when `a <= 0`, where the logarithm is undefined. */
  function PowExponentSlope(lib: Libm, x: real, y: real): (s: real)
    ensures 0.0 < x ==> s == 0.0
    ensures x <= 0.0 ==> s == lib.pow(x, y) * lib.log(x)
  {
    if x <= 0.0 then lib.pow(x, y) * lib.log(x) else 0.0
  }

  /** `pow(a, b)` as written. */
  function Pow(lib: Libm, a: Forward, b: Forward): (r: Forward)
    ensures r.val == lib.pow(a.val, b.val)
    ensures r.dot == PowBaseSlope(lib, a.val, b.val) * a.dot + PowExponentSlope(lib, a.val, b.val) * b.dot
    ensures 0.0 < a.val ==> r.dot == PowBaseSlope(lib, a.val, b.val) * a.dot
  {
    var da := PowBaseSlope(lib, a.val, b.val);
    var db := PowExponentSlope(lib, a.val, b.val);
    Forward(lib.pow(a.val, b.val), da * a.dot + db * b.dot)
  }

  /** `pow(a, x)` for a plain exponent: the power rule. */
  function PowScalar(lib: Libm, a: Forward, x: real): (r: Forward)
    ensures r.val == lib.pow(a.val, x)
    ensures r.dot == PowBaseSlope(lib, a.val, x) * a.dot
  {
    Pow(lib, a, Const(x))
  }

  /** `pow(x, b)` for a plain base: only the guarded exponent term remains. */
  function ScalarPow(lib: Libm, x: real, b: Forward): (r: Forward)
    ensures r.val == lib.pow(x, b.val)
    ensures r.dot == PowExponentSlope(lib, x, b.val) * b.dot
    ensures 0.0 < x ==> r.dot == 0.0
  {
    Pow(lib, Const(x), b)
  }

  /** The exponent factor the rule evidently means: `a^b * log(a)` where the
      logarithm is defined, `a > 0`. */
  function PowExponentSlopeIntended(lib: Libm, x: real, y: real): (s: real)
    ensures x <= 0.0 ==> s == 0.0
    ensures 0.0 < x ==> s == lib.pow(x, y) * lib.log(x)
  {
    if 0.0 < x then lib.pow(x, y) * lib.log(x) else 0.0
  }

  function PowIntended(lib: Libm, a: Forward, b: Forward): (r: Forward)
    ensures r.val == lib.pow(a.val, b.val)
    ensures r.dot == PowBaseSlope(lib, a.val, b.val) * a.dot + PowExponentSlopeIntended(lib, a.val, b.val) * b.dot
  {
    Forward(lib.pow(a.val, b.val),
      PowBaseSlope(lib, a.val, b.val) * a.dot + PowExponentSlopeIntended(lib, a.val, b.val) * b.dot)
  }

  // ---- arithmetic helpers ----

  /** The product `x*y` as a function term, for stating `v*v` of one `v`. */
  function Times(x: real, y: real): real {
    x * y
  }

  lemma SameSignProductIsPositive(x: real, y: real)
    requires (x > 0.0 && y > 0.0) || (x < 0.0 && y < 0.0)
    ensures Times(x, y) > 0.0
  {
    if x < 0.0 {
      assert x * y == (-x) * (-y);
    }
  }

  lemma SquareIsPositive(v: real)
    requires v != 0.0
    ensures Square(v) > 0.0
  {
    SameSignProductIsPositive(v, v);
  }

  lemma SquareIsNonNegative(v: real)
    ensures Square(v) >= 0.0
  {
    if v != 0.0 {
      SquareIsPositive(v);
    }
  }

  lemma SumOfSquaresIsPositive(x: real, y: real)
    requires x != 0.0 || y != 0.0
    ensures Square(x) + Square(y) > 0.0
  {
    SquareIsNonNegative(x);
    SquareIsNonNegative(y);
    if x != 0.0 {
      SquareIsPositive(x);
    } else {
      SquareIsPositive(y);
    }
  }
}
