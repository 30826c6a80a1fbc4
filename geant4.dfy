/** The float-named functions that easyAD adds for Geant4 on `ForwardFloat`, a
    `Forward` under another name. Most repeat the corresponding `std::` rule;
    `sqrtf` drops the zero guard of `sqrt`, and `fabsf` is the `fabs` rule, which
    negates the tangent at zero where `abs` keeps it. */
module Geant4Extensions {
  import opened EasyAD
  import CMath
  import opened EasyADMath

  /** `struct ForwardFloat : public Forward` adds no fields. */
  type ForwardFloat = Forward

  /** `ForwardFloat(x)`, forwarded to `Forward(double)`. */
  function FloatFromValue(x: real): (r: ForwardFloat)
    ensures r == Const(x)
  {
    Forward(x, 0.0)
  }

  /** `ForwardFloat(v, d)`, forwarded to `Forward(double, double)`. */
  function FloatFromPair(v: real, d: real): (r: ForwardFloat)
    ensures r.val == v && r.dot == d
  {
    Forward(v, d)
  }

  /** `ForwardFloat()`, the defaulted constructor, which runs `Forward()`. */
  function FloatDefault(): (r: ForwardFloat)
    ensures r == Zero()
  {
    Forward(0.0, 0.0)
  }

  /** The three constructors agree with one another as the `Forward` ones do. */
  lemma FloatConstructorsForward(v: real, d: real)
    ensures FloatFromPair(v, d) == Forward(v, d)
    ensures FloatFromPair(v, 0.0) == FloatFromValue(v)
    ensures FloatFromPair(0.0, 0.0) == FloatDefault()
  {
  }

  function Cosf(lib: Libm, a: ForwardFloat): (r: ForwardFloat)
    ensures r == Cos(lib, a)
  {
    Forward(lib.cos(a.val), -lib.sin(a.val) * a.dot)
  }

  function Sinf(lib: Libm, a: ForwardFloat): (r: ForwardFloat)
    ensures r == Sin(lib, a)
  {
    Forward(lib.sin(a.val), lib.cos(a.val) * a.dot)
  }

  /** `sqrtf(a)`: the tangent formula of `sqrt` at every input, zero included. */
  function Sqrtf(lib: Libm, a: ForwardFloat): (r: ForwardFloat)
    requires lib.sqrt(a.val) != 0.0
    ensures r.val == lib.sqrt(a.val) && 2.0 * r.val * r.dot == a.dot
    ensures a.val != 0.0 ==> r == Sqrt(lib, a)
  {
    Forward(lib.sqrt(a.val), 0.5 / lib.sqrt(a.val) * a.dot)
  }

  function Atan2f(lib: Libm, a: ForwardFloat, b: ForwardFloat): (r: ForwardFloat)
    requires a.val != 0.0 || b.val != 0.0
    ensures r == Atan2(lib, a, b)
  {
    SumOfSquaresIsPositive(a.val, b.val);
    Forward(lib.atan2(a.val, b.val),
      -b.val / (Square(a.val) + Square(b.val)) * a.dot + a.val / (Square(a.val) + Square(b.val)) * b.dot)
  }

  function Fabsf(a: ForwardFloat): (r: ForwardFloat)
    ensures r == Fabs(a)
    ensures a.val == 0.0 ==> r.dot == -a.dot
  {
    Forward(CMath.Abs(a.val), (if a.val > 0.0 then 1.0 else -1.0) * a.dot)
  }

  function Acosf(lib: Libm, a: ForwardFloat): (r: ForwardFloat)
    requires lib.sqrt(1.0 - Square(a.val)) != 0.0
    ensures r == Acos(lib, a)
  {
    Forward(lib.acos(a.val), -1.0 / lib.sqrt(1.0 - Square(a.val)) * a.dot)
  }

  function Floorf(a: ForwardFloat): (r: ForwardFloat)
    ensures r == Floor(a) && r.dot == 0.0
  {
    Forward(CMath.Floor(a.val), 0.0)
  }

  function Ceilf(a: ForwardFloat): (r: ForwardFloat)
    ensures r == Ceil(a) && r.dot == 0.0
  {
    Forward(CMath.Ceil(a.val), 0.0)
  }

  /** `fabsf` and `abs` part at zero: seeded at 0, `abs` gives tangent 1 and
      `fabsf` gives -1. */
  lemma FabsfDiffersFromAbsAtZero()
    ensures Fabsf(Forward(0.0, 1.0)).dot == -1.0
    ensures Abs(Forward(0.0, 1.0)).dot == 1.0
  {
  }

  /** For a library whose `sqrt` is 0 at 0 and only there, `sqrtf`'s divisor
      `sqrt(a.val)` is 0 exactly at a zero value, where the guarded `sqrt`
      returns `(0, 0)` instead; at every other value the two rules agree. */
  lemma SqrtfHasNoZeroGuard(lib: Libm, a: ForwardFloat)
    requires lib.sqrt(0.0) == 0.0 && (a.val != 0.0 ==> lib.sqrt(a.val) != 0.0)
    ensures lib.sqrt(a.val) == 0.0 <==> a.val == 0.0
    ensures a.val == 0.0 ==> Sqrt(lib, a) == Zero()
    ensures a.val != 0.0 ==> Sqrtf(lib, a) == Sqrt(lib, a)
  {
  }

  /** Every float function maps a constant input to a constant output. */
  lemma ConstantsStayConstantInFloat(lib: Libm, x: real, y: real)
    ensures Cosf(lib, Const(x)).dot == 0.0 && Sinf(lib, Const(x)).dot == 0.0
    ensures lib.sqrt(x) != 0.0 ==> Sqrtf(lib, Const(x)).dot == 0.0
    ensures x != 0.0 || y != 0.0 ==> Atan2f(lib, Const(x), Const(y)).dot == 0.0
    ensures Fabsf(Const(x)).dot == 0.0
    ensures lib.sqrt(1.0 - Square(x)) != 0.0 ==> Acosf(lib, Const(x)).dot == 0.0
    ensures Floorf(Const(x)).dot == 0.0 && Ceilf(Const(x)).dot == 0.0
  {
  }
}
