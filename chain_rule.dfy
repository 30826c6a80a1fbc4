/** The shape shared by every elementary rule of easyAD: the value depends on the
    operand values alone, and the tangent is linear in the operand tangents, a
    factor computed from the values times each tangent. The factor for one
    operand is the tangent the rule returns when that operand is seeded with 1 and
    the others with 0, so forward mode computes the slope at the point times the
    input tangent. */
module ChainRule {
  import opened EasyAD
  import CMath
  import opened EasyADMath

  /** The `std::` overloads with one `Forward` operand. */
  datatype Unary =
    | AbsOp | FabsOp | FloorOp | CeilOp | TruncOp | RoundOp | NearbyIntOp | RintOp
    | AcosOp | AcoshOp | AsinOp | AsinhOp | AtanOp | CosOp | CoshOp | ErfOp | ErfcOp
    | ExpOp | Exp2Op | Expm1Op | LogOp | Log2Op | Log10Op | Log1pOp | SinOp | SinhOp
    | SqrtOp | CbrtOp | TanOp | TanhOp

  /** Where the rule's formula is defined: its divisors are not zero. */
  predicate Defined(lib: Libm, f: Unary, x: real) {
    match f
    case AcosOp => lib.sqrt(1.0 - Square(x)) != 0.0
    case AcoshOp => lib.sqrt(Square(x) - 1.0) != 0.0
    case AsinOp => lib.sqrt(1.0 - Square(x)) != 0.0
    case AsinhOp => lib.sqrt(Square(x) + 1.0) != 0.0
    case ErfOp => lib.sqrt(CMath.Pi) != 0.0
    case ErfcOp => lib.sqrt(CMath.Pi) != 0.0
    case LogOp => x != 0.0
    case Log2Op => x * lib.log(2.0) != 0.0
    case Log10Op => x * lib.log(10.0) != 0.0
    case Log1pOp => x + 1.0 != 0.0
    case SqrtOp => x != 0.0 ==> lib.sqrt(x) != 0.0
    case CbrtOp => x != 0.0
    case TanOp => lib.cos(x) != 0.0
    case AbsOp | FabsOp | FloorOp | CeilOp | TruncOp | RoundOp | NearbyIntOp | RintOp => true
    case AtanOp | CosOp | CoshOp | ExpOp | Exp2Op | Expm1Op | SinOp | SinhOp | TanhOp => true
  }

  function Apply(lib: Libm, f: Unary, a: Forward): Forward
    requires Defined(lib, f, a.val)
  {
    match f
    case AbsOp => Abs(a)
    case FabsOp => Fabs(a)
    case FloorOp => Floor(a)
    case CeilOp => Ceil(a)
    case TruncOp => Trunc(a)
    case RoundOp => Round(a)
    case NearbyIntOp => NearbyInt(a)
    case RintOp => Rint(a)
    case AcosOp => Acos(lib, a)
    case AcoshOp => Acosh(lib, a)
    case AsinOp => Asin(lib, a)
    case AsinhOp => Asinh(lib, a)
    case AtanOp => Atan(lib, a)
    case CosOp => Cos(lib, a)
    case CoshOp => Cosh(lib, a)
    case ErfOp => Erf(lib, a)
    case ErfcOp => Erfc(lib, a)
    case ExpOp => Exp(lib, a)
    case Exp2Op => Exp2(lib, a)
    case Expm1Op => Expm1(lib, a)
    case LogOp => Log(lib, a)
    case Log2Op => Log2(lib, a)
    case Log10Op => Log10(lib, a)
    case Log1pOp => Log1p(lib, a)
    case SinOp => Sin(lib, a)
    case SinhOp => Sinh(lib, a)
    case SqrtOp => Sqrt(lib, a)
    case CbrtOp => Cbrt(lib, a)
    case TanOp => Tan(lib, a)
    case TanhOp => Tanh(lib, a)
  }

  /** The slope of `f` at `x`: the tangent of the rule seeded with 1. */
  function Slope(lib: Libm, f: Unary, x: real): real
    requires Defined(lib, f, x)
  {
    Apply(lib, f, Forward(x, 1.0)).dot
  }

  /** Every one-operand rule: the value ignores the tangent, and the tangent is
      the slope at the value times the input tangent. */
  lemma UnaryTangentIsSlopeTimesInput(lib: Libm, f: Unary, a: Forward)
    requires Defined(lib, f, a.val)
    ensures Apply(lib, f, a).val == Apply(lib, f, Const(a.val)).val
    ensures Apply(lib, f, a).dot == Slope(lib, f, a.val) * a.dot
  {
    match f
    case AbsOp => AbsShape(lib, f, a);
    case FabsOp => FabsShape(lib, f, a);
    case FloorOp => FloorShape(lib, f, a);
    case CeilOp => CeilShape(lib, f, a);
    case TruncOp => TruncShape(lib, f, a);
    case RoundOp => RoundShape(lib, f, a);
    case NearbyIntOp => NearbyIntShape(lib, f, a);
    case RintOp => RintShape(lib, f, a);
    case AcosOp => AcosShape(lib, f, a);
    case AcoshOp => AcoshShape(lib, f, a);
    case AsinOp => AsinShape(lib, f, a);
    case AsinhOp => AsinhShape(lib, f, a);
    case AtanOp => AtanShape(lib, f, a);
    case CosOp => CosShape(lib, f, a);
    case CoshOp => CoshShape(lib, f, a);
    case ErfOp => ErfShape(lib, f, a);
    case ErfcOp => ErfcShape(lib, f, a);
    case ExpOp => ExpShape(lib, f, a);
    case Exp2Op => Exp2Shape(lib, f, a);
    case Expm1Op => Expm1Shape(lib, f, a);
    case LogOp => LogShape(lib, f, a);
    case Log2Op => Log2Shape(lib, f, a);
    case Log10Op => Log10Shape(lib, f, a);
    case Log1pOp => Log1pShape(lib, f, a);
    case SinOp => SinShape(lib, f, a);
    case SinhOp => SinhShape(lib, f, a);
    case SqrtOp => SqrtShape(lib, f, a);
    case CbrtOp => CbrtShape(lib, f, a);
    case TanOp => TanShape(lib, f, a);
    case TanhOp => TanhShape(lib, f, a);
  }

  lemma AbsShape(lib: Libm, f: Unary, a: Forward)
    requires f == AbsOp
    ensures Apply(lib, f, a).val == Apply(lib, f, Const(a.val)).val
    ensures Apply(lib, f, a).dot == Slope(lib, f, a.val) * a.dot
  {
    var s, c := Forward(a.val, 1.0), Const(a.val);
    assert Apply(lib, f, a) == Abs(a) && Apply(lib, f, c) == Abs(c);
    assert Apply(lib, f, s) == Abs(s);
    var k := if a.val >= 0.0 then 1.0 else -1.0;
    assert Abs(a).dot == k * a.dot && Abs(s).dot == k;
  }

  lemma FabsShape(lib: Libm, f: Unary, a: Forward)
    requires f == FabsOp
    ensures Apply(lib, f, a).val == Apply(lib, f, Const(a.val)).val
    ensures Apply(lib, f, a).dot == Slope(lib, f, a.val) * a.dot
  {
    var s, c := Forward(a.val, 1.0), Const(a.val);
    assert Apply(lib, f, a) == Fabs(a) && Apply(lib, f, c) == Fabs(c);
    assert Apply(lib, f, s) == Fabs(s);
    var k := if a.val > 0.0 then 1.0 else -1.0;
    assert Fabs(a).dot == k * a.dot && Fabs(s).dot == k;
  }

  lemma FloorShape(lib: Libm, f: Unary, a: Forward)
    requires f == FloorOp
    ensures Apply(lib, f, a).val == Apply(lib, f, Const(a.val)).val
    ensures Apply(lib, f, a).dot == Slope(lib, f, a.val) * a.dot
  {
    var s, c := Forward(a.val, 1.0), Const(a.val);
    assert Apply(lib, f, a) == Floor(a) && Apply(lib, f, c) == Floor(c);
    assert Apply(lib, f, s) == Floor(s);
    assert Floor(a).dot == 0.0 && Floor(s).dot == 0.0;
  }

  lemma CeilShape(lib: Libm, f: Unary, a: Forward)
    requires f == CeilOp
    ensures Apply(lib, f, a).val == Apply(lib, f, Const(a.val)).val
    ensures Apply(lib, f, a).dot == Slope(lib, f, a.val) * a.dot
  {
    var s, c := Forward(a.val, 1.0), Const(a.val);
    assert Apply(lib, f, a) == Ceil(a) && Apply(lib, f, c) == Ceil(c);
    assert Apply(lib, f, s) == Ceil(s);
    assert Ceil(a).dot == 0.0 && Ceil(s).dot == 0.0;
  }

  lemma TruncShape(lib: Libm, f: Unary, a: Forward)
    requires f == TruncOp
    ensures Apply(lib, f, a).val == Apply(lib, f, Const(a.val)).val
    ensures Apply(lib, f, a).dot == Slope(lib, f, a.val) * a.dot
  {
    var s, c := Forward(a.val, 1.0), Const(a.val);
    assert Apply(lib, f, a) == Trunc(a) && Apply(lib, f, c) == Trunc(c);
    assert Apply(lib, f, s) == Trunc(s);
    assert Trunc(a).dot == 0.0 && Trunc(s).dot == 0.0;
  }

  lemma RoundShape(lib: Libm, f: Unary, a: Forward)
    requires f == RoundOp
    ensures Apply(lib, f, a).val == Apply(lib, f, Const(a.val)).val
    ensures Apply(lib, f, a).dot == Slope(lib, f, a.val) * a.dot
  {
    var s, c := Forward(a.val, 1.0), Const(a.val);
    assert Apply(lib, f, a) == Round(a) && Apply(lib, f, c) == Round(c);
    assert Apply(lib, f, s) == Round(s);
    assert Round(a).dot == 0.0 && Round(s).dot == 0.0;
  }

  lemma NearbyIntShape(lib: Libm, f: Unary, a: Forward)
    requires f == NearbyIntOp
    ensures Apply(lib, f, a).val == Apply(lib, f, Const(a.val)).val
    ensures Apply(lib, f, a).dot == Slope(lib, f, a.val) * a.dot
  {
    var s, c := Forward(a.val, 1.0), Const(a.val);
    assert Apply(lib, f, a) == NearbyInt(a) && Apply(lib, f, c) == NearbyInt(c);
    assert Apply(lib, f, s) == NearbyInt(s);
    assert NearbyInt(a).dot == 0.0 && NearbyInt(s).dot == 0.0;
  }

  lemma RintShape(lib: Libm, f: Unary, a: Forward)
    requires f == RintOp
    ensures Apply(lib, f, a).val == Apply(lib, f, Const(a.val)).val
    ensures Apply(lib, f, a).dot == Slope(lib, f, a.val) * a.dot
  {
    var s, c := Forward(a.val, 1.0), Const(a.val);
    assert Apply(lib, f, a) == Rint(a) && Apply(lib, f, c) == Rint(c);
    assert Apply(lib, f, s) == Rint(s);
    assert Rint(a).dot == 0.0 && Rint(s).dot == 0.0;
  }

  lemma AcosShape(lib: Libm, f: Unary, a: Forward)
    requires f == AcosOp && lib.sqrt(1.0 - Square(a.val)) != 0.0
    ensures Apply(lib, f, a).val == Apply(lib, f, Const(a.val)).val
    ensures Apply(lib, f, a).dot == Slope(lib, f, a.val) * a.dot
  {
    var s, c := Forward(a.val, 1.0), Const(a.val);
    assert Apply(lib, f, a) == Acos(lib, a) && Apply(lib, f, c) == Acos(lib, c);
    assert Apply(lib, f, s) == Acos(lib, s);
    var k := -1.0 / lib.sqrt(1.0 - Square(a.val));
    assert Acos(lib, a).dot == k * a.dot && Acos(lib, s).dot == k * 1.0;
  }

  lemma AcoshShape(lib: Libm, f: Unary, a: Forward)
    requires f == AcoshOp && lib.sqrt(Square(a.val) - 1.0) != 0.0
    ensures Apply(lib, f, a).val == Apply(lib, f, Const(a.val)).val
    ensures Apply(lib, f, a).dot == Slope(lib, f, a.val) * a.dot
  {
    var s, c := Forward(a.val, 1.0), Const(a.val);
    assert Apply(lib, f, a) == Acosh(lib, a) && Apply(lib, f, c) == Acosh(lib, c);
    assert Apply(lib, f, s) == Acosh(lib, s);
    var k := 1.0 / lib.sqrt(Square(a.val) - 1.0);
    assert Acosh(lib, a).dot == k * a.dot && Acosh(lib, s).dot == k * 1.0;
  }

  lemma AsinShape(lib: Libm, f: Unary, a: Forward)
    requires f == AsinOp && lib.sqrt(1.0 - Square(a.val)) != 0.0
    ensures Apply(lib, f, a).val == Apply(lib, f, Const(a.val)).val
    ensures Apply(lib, f, a).dot == Slope(lib, f, a.val) * a.dot
  {
    var s, c := Forward(a.val, 1.0), Const(a.val);
    assert Apply(lib, f, a) == Asin(lib, a) && Apply(lib, f, c) == Asin(lib, c);
    assert Apply(lib, f, s) == Asin(lib, s);
    var k := 1.0 / lib.sqrt(1.0 - Square(a.val));
    assert Asin(lib, a).dot == k * a.dot && Asin(lib, s).dot == k * 1.0;
  }

  lemma AsinhShape(lib: Libm, f: Unary, a: Forward)
    requires f == AsinhOp && lib.sqrt(Square(a.val) + 1.0) != 0.0
    ensures Apply(lib, f, a).val == Apply(lib, f, Const(a.val)).val
    ensures Apply(lib, f, a).dot == Slope(lib, f, a.val) * a.dot
  {
    var s, c := Forward(a.val, 1.0), Const(a.val);
    assert Apply(lib, f, a) == Asinh(lib, a) && Apply(lib, f, c) == Asinh(lib, c);
    assert Apply(lib, f, s) == Asinh(lib, s);
    var k := 1.0 / lib.sqrt(Square(a.val) + 1.0);
    assert Asinh(lib, a).dot == k * a.dot && Asinh(lib, s).dot == k * 1.0;
  }

  lemma AtanShape(lib: Libm, f: Unary, a: Forward)
    requires f == AtanOp
    ensures Apply(lib, f, a).val == Apply(lib, f, Const(a.val)).val
    ensures Apply(lib, f, a).dot == Slope(lib, f, a.val) * a.dot
  {
    var s, c := Forward(a.val, 1.0), Const(a.val);
    assert Apply(lib, f, a) == Atan(lib, a) && Apply(lib, f, c) == Atan(lib, c);
    assert Apply(lib, f, s) == Atan(lib, s);
    var k := 1.0 / (1.0 + Square(a.val));
    assert Atan(lib, a).dot == k * a.dot && Atan(lib, s).dot == k * 1.0;
  }

  lemma CosShape(lib: Libm, f: Unary, a: Forward)
    requires f == CosOp
    ensures Apply(lib, f, a).val == Apply(lib, f, Const(a.val)).val
    ensures Apply(lib, f, a).dot == Slope(lib, f, a.val) * a.dot
  {
    var s, c := Forward(a.val, 1.0), Const(a.val);
    assert Apply(lib, f, a) == Cos(lib, a) && Apply(lib, f, c) == Cos(lib, c);
    assert Apply(lib, f, s) == Cos(lib, s);
    var k := -lib.sin(a.val);
    assert Cos(lib, a).dot == k * a.dot && Cos(lib, s).dot == k * 1.0;
  }

  lemma CoshShape(lib: Libm, f: Unary, a: Forward)
    requires f == CoshOp
    ensures Apply(lib, f, a).val == Apply(lib, f, Const(a.val)).val
    ensures Apply(lib, f, a).dot == Slope(lib, f, a.val) * a.dot
  {
    var s, c := Forward(a.val, 1.0), Const(a.val);
    assert Apply(lib, f, a) == Cosh(lib, a) && Apply(lib, f, c) == Cosh(lib, c);
    assert Apply(lib, f, s) == Cosh(lib, s);
    var k := lib.sinh(a.val);
    assert Cosh(lib, a).dot == k * a.dot && Cosh(lib, s).dot == k * 1.0;
  }

  lemma ErfShape(lib: Libm, f: Unary, a: Forward)
    requires f == ErfOp && lib.sqrt(CMath.Pi) != 0.0
    ensures Apply(lib, f, a).val == Apply(lib, f, Const(a.val)).val
    ensures Apply(lib, f, a).dot == Slope(lib, f, a.val) * a.dot
  {
    var s, c := Forward(a.val, 1.0), Const(a.val);
    assert Apply(lib, f, a) == Erf(lib, a) && Apply(lib, f, c) == Erf(lib, c);
    assert Apply(lib, f, s) == Erf(lib, s);
    var k := 2.0 / lib.sqrt(CMath.Pi) * lib.exp(-Square(a.val));
    assert Erf(lib, a).dot == k * a.dot && Erf(lib, s).dot == k * 1.0;
  }

  lemma ErfcShape(lib: Libm, f: Unary, a: Forward)
    requires f == ErfcOp && lib.sqrt(CMath.Pi) != 0.0
    ensures Apply(lib, f, a).val == Apply(lib, f, Const(a.val)).val
    ensures Apply(lib, f, a).dot == Slope(lib, f, a.val) * a.dot
  {
    var s, c := Forward(a.val, 1.0), Const(a.val);
    assert Apply(lib, f, a) == Erfc(lib, a) && Apply(lib, f, c) == Erfc(lib, c);
    assert Apply(lib, f, s) == Erfc(lib, s);
    var k := -2.0 / lib.sqrt(CMath.Pi) * lib.exp(-Square(a.val));
    assert Erfc(lib, a).dot == k * a.dot && Erfc(lib, s).dot == k * 1.0;
  }

  lemma ExpShape(lib: Libm, f: Unary, a: Forward)
    requires f == ExpOp
    ensures Apply(lib, f, a).val == Apply(lib, f, Const(a.val)).val
    ensures Apply(lib, f, a).dot == Slope(lib, f, a.val) * a.dot
  {
    var s, c := Forward(a.val, 1.0), Const(a.val);
    assert Apply(lib, f, a) == Exp(lib, a) && Apply(lib, f, c) == Exp(lib, c);
    assert Apply(lib, f, s) == Exp(lib, s);
    var k := lib.exp(a.val);
    assert Exp(lib, a).dot == k * a.dot && Exp(lib, s).dot == k * 1.0;
  }

  lemma Exp2Shape(lib: Libm, f: Unary, a: Forward)
    requires f == Exp2Op
    ensures Apply(lib, f, a).val == Apply(lib, f, Const(a.val)).val
    ensures Apply(lib, f, a).dot == Slope(lib, f, a.val) * a.dot
  {
    var s, c := Forward(a.val, 1.0), Const(a.val);
    assert Apply(lib, f, a) == Exp2(lib, a) && Apply(lib, f, c) == Exp2(lib, c);
    assert Apply(lib, f, s) == Exp2(lib, s);
    var k := lib.exp2(a.val) * lib.log(2.0);
    assert Exp2(lib, a).dot == k * a.dot && Exp2(lib, s).dot == k * 1.0;
  }

  lemma Expm1Shape(lib: Libm, f: Unary, a: Forward)
    requires f == Expm1Op
    ensures Apply(lib, f, a).val == Apply(lib, f, Const(a.val)).val
    ensures Apply(lib, f, a).dot == Slope(lib, f, a.val) * a.dot
  {
    var s, c := Forward(a.val, 1.0), Const(a.val);
    assert Apply(lib, f, a) == Expm1(lib, a) && Apply(lib, f, c) == Expm1(lib, c);
    assert Apply(lib, f, s) == Expm1(lib, s);
    var k := lib.exp(a.val);
    assert Expm1(lib, a).dot == k * a.dot && Expm1(lib, s).dot == k * 1.0;
  }

  lemma LogShape(lib: Libm, f: Unary, a: Forward)
    requires f == LogOp && a.val != 0.0
    ensures Apply(lib, f, a).val == Apply(lib, f, Const(a.val)).val
    ensures Apply(lib, f, a).dot == Slope(lib, f, a.val) * a.dot
  {
    var s, c := Forward(a.val, 1.0), Const(a.val);
    assert Apply(lib, f, a) == Log(lib, a) && Apply(lib, f, c) == Log(lib, c);
    assert Apply(lib, f, s) == Log(lib, s);
    var k := 1.0 / a.val;
    assert Log(lib, a).dot == k * a.dot && Log(lib, s).dot == k * 1.0;
  }

  lemma Log2Shape(lib: Libm, f: Unary, a: Forward)
    requires f == Log2Op && a.val * lib.log(2.0) != 0.0
    ensures Apply(lib, f, a).val == Apply(lib, f, Const(a.val)).val
    ensures Apply(lib, f, a).dot == Slope(lib, f, a.val) * a.dot
  {
    var s, c := Forward(a.val, 1.0), Const(a.val);
    assert Apply(lib, f, a) == Log2(lib, a) && Apply(lib, f, c) == Log2(lib, c);
    assert Apply(lib, f, s) == Log2(lib, s);
    var k := 1.0 / (a.val * lib.log(2.0));
    assert Log2(lib, a).dot == k * a.dot && Log2(lib, s).dot == k * 1.0;
  }

  lemma Log10Shape(lib: Libm, f: Unary, a: Forward)
    requires f == Log10Op && a.val * lib.log(10.0) != 0.0
    ensures Apply(lib, f, a).val == Apply(lib, f, Const(a.val)).val
    ensures Apply(lib, f, a).dot == Slope(lib, f, a.val) * a.dot
  {
    var s, c := Forward(a.val, 1.0), Const(a.val);
    assert Apply(lib, f, a) == Log10(lib, a) && Apply(lib, f, c) == Log10(lib, c);
    assert Apply(lib, f, s) == Log10(lib, s);
    var k := 1.0 / (a.val * lib.log(10.0));
    assert Log10(lib, a).dot == k * a.dot && Log10(lib, s).dot == k * 1.0;
  }

  lemma Log1pShape(lib: Libm, f: Unary, a: Forward)
    requires f == Log1pOp && a.val + 1.0 != 0.0
    ensures Apply(lib, f, a).val == Apply(lib, f, Const(a.val)).val
    ensures Apply(lib, f, a).dot == Slope(lib, f, a.val) * a.dot
  {
    var s, c := Forward(a.val, 1.0), Const(a.val);
    assert Apply(lib, f, a) == Log1p(lib, a) && Apply(lib, f, c) == Log1p(lib, c);
    assert Apply(lib, f, s) == Log1p(lib, s);
    var k := 1.0 / (a.val + 1.0);
    assert Log1p(lib, a).dot == k * a.dot && Log1p(lib, s).dot == k * 1.0;
  }

  lemma SinShape(lib: Libm, f: Unary, a: Forward)
    requires f == SinOp
    ensures Apply(lib, f, a).val == Apply(lib, f, Const(a.val)).val
    ensures Apply(lib, f, a).dot == Slope(lib, f, a.val) * a.dot
  {
    var s, c := Forward(a.val, 1.0), Const(a.val);
    assert Apply(lib, f, a) == Sin(lib, a) && Apply(lib, f, c) == Sin(lib, c);
    assert Apply(lib, f, s) == Sin(lib, s);
    var k := lib.cos(a.val);
    assert Sin(lib, a).dot == k * a.dot && Sin(lib, s).dot == k * 1.0;
  }

  lemma SinhShape(lib: Libm, f: Unary, a: Forward)
    requires f == SinhOp
    ensures Apply(lib, f, a).val == Apply(lib, f, Const(a.val)).val
    ensures Apply(lib, f, a).dot == Slope(lib, f, a.val) * a.dot
  {
    var s, c := Forward(a.val, 1.0), Const(a.val);
    assert Apply(lib, f, a) == Sinh(lib, a) && Apply(lib, f, c) == Sinh(lib, c);
    assert Apply(lib, f, s) == Sinh(lib, s);
    var k := lib.cosh(a.val);
    assert Sinh(lib, a).dot == k * a.dot && Sinh(lib, s).dot == k * 1.0;
  }

  lemma SqrtShape(lib: Libm, f: Unary, a: Forward)
    requires f == SqrtOp && (a.val != 0.0 ==> lib.sqrt(a.val) != 0.0)
    ensures Apply(lib, f, a).val == Apply(lib, f, Const(a.val)).val
    ensures Apply(lib, f, a).dot == Slope(lib, f, a.val) * a.dot
  {
    var s, c := Forward(a.val, 1.0), Const(a.val);
    assert Apply(lib, f, a) == Sqrt(lib, a) && Apply(lib, f, c) == Sqrt(lib, c);
    assert Apply(lib, f, s) == Sqrt(lib, s);
    if a.val != 0.0 {
      var k := 0.5 / lib.sqrt(a.val);
      assert Sqrt(lib, s).dot == k * 1.0;
    }
  }

  lemma CbrtShape(lib: Libm, f: Unary, a: Forward)
    requires f == CbrtOp && a.val != 0.0
    ensures Apply(lib, f, a).val == Apply(lib, f, Const(a.val)).val
    ensures Apply(lib, f, a).dot == Slope(lib, f, a.val) * a.dot
  {
    var s, c := Forward(a.val, 1.0), Const(a.val);
    assert Apply(lib, f, a) == Cbrt(lib, a) && Apply(lib, f, c) == Cbrt(lib, c);
    assert Apply(lib, f, s) == Cbrt(lib, s);
    var k := lib.cbrt(a.val) / (3.0 * a.val);
    assert Cbrt(lib, a).dot == k * a.dot && Cbrt(lib, s).dot == k * 1.0;
  }

  lemma TanShape(lib: Libm, f: Unary, a: Forward)
    requires f == TanOp && lib.cos(a.val) != 0.0
    ensures Apply(lib, f, a).val == Apply(lib, f, Const(a.val)).val
    ensures Apply(lib, f, a).dot == Slope(lib, f, a.val) * a.dot
  {
    var s, c := Forward(a.val, 1.0), Const(a.val);
    assert Apply(lib, f, a) == Tan(lib, a) && Apply(lib, f, c) == Tan(lib, c);
    assert Apply(lib, f, s) == Tan(lib, s);
    var k := 1.0 / Square(lib.cos(a.val));
    assert Tan(lib, a).dot == k * a.dot && Tan(lib, s).dot == k * 1.0;
  }

  lemma TanhShape(lib: Libm, f: Unary, a: Forward)
    requires f == TanhOp
    ensures Apply(lib, f, a).val == Apply(lib, f, Const(a.val)).val
    ensures Apply(lib, f, a).dot == Slope(lib, f, a.val) * a.dot
  {
    var s, c := Forward(a.val, 1.0), Const(a.val);
    assert Apply(lib, f, a) == Tanh(lib, a) && Apply(lib, f, c) == Tanh(lib, c);
    assert Apply(lib, f, s) == Tanh(lib, s);
    var k := 1.0 - lib.tanh(a.val) * lib.tanh(a.val);
    assert Tanh(lib, a).dot == k * a.dot && Tanh(lib, s).dot == k * 1.0;
  }

  /** Hence a constant input gives a constant output. */
  lemma UnaryConstantStaysConstant(lib: Libm, f: Unary, x: real)
    requires Defined(lib, f, x)
    ensures Apply(lib, f, Const(x)).dot == 0.0
  {
    UnaryTangentIsSlopeTimesInput(lib, f, Const(x));
  }

  /** The `std::` overloads with two `Forward` operands. */
  datatype Binary = HypotOp | Atan2Op | PowOp | CopysignOp | FmodOp

  predicate Defined2(lib: Libm, f: Binary, x: real, y: real) {
    match f
    case HypotOp => lib.hypot(x, y) != 0.0
    case Atan2Op => x != 0.0 || y != 0.0
    case FmodOp => y != 0.0
    case PowOp | CopysignOp => true
  }

  function Apply2(lib: Libm, f: Binary, a: Forward, b: Forward): Forward
    requires Defined2(lib, f, a.val, b.val)
  {
    match f
    case HypotOp => Hypot(lib, a, b)
    case Atan2Op => Atan2(lib, a, b)
    case PowOp => Pow(lib, a, b)
    case CopysignOp => Copysign(a, b)
    case FmodOp => Fmod(a, b)
  }

  /** Every two-operand rule: the value ignores the tangents, and the tangent is
      the sum of the two partial slopes times the two input tangents. */
  lemma BinaryTangentIsLinear(lib: Libm, f: Binary, a: Forward, b: Forward)
    requires Defined2(lib, f, a.val, b.val)
    ensures Apply2(lib, f, a, b).val == Apply2(lib, f, Const(a.val), Const(b.val)).val
    ensures Apply2(lib, f, a, b).dot
      == Apply2(lib, f, Forward(a.val, 1.0), Const(b.val)).dot * a.dot
       + Apply2(lib, f, Const(a.val), Forward(b.val, 1.0)).dot * b.dot
  {
    match f
    case HypotOp => HypotShape(lib, f, a, b);
    case Atan2Op => Atan2Shape(lib, f, a, b);
    case PowOp => PowShape(lib, f, a, b);
    case CopysignOp => CopysignShape(lib, f, a, b);
    case FmodOp => FmodShape(lib, f, a, b);
  }

  lemma HypotShape(lib: Libm, f: Binary, a: Forward, b: Forward)
    requires f == HypotOp && lib.hypot(a.val, b.val) != 0.0
    ensures Apply2(lib, f, a, b).val == Apply2(lib, f, Const(a.val), Const(b.val)).val
    ensures Apply2(lib, f, a, b).dot
      == Apply2(lib, f, Forward(a.val, 1.0), Const(b.val)).dot * a.dot
       + Apply2(lib, f, Const(a.val), Forward(b.val, 1.0)).dot * b.dot
  {
    var sa, sb, ca, cb := Forward(a.val, 1.0), Forward(b.val, 1.0), Const(a.val), Const(b.val);
    HypotSeeded(lib, a, b);
    ApplyHypot(lib, a, b);
    ApplyHypot(lib, ca, cb);
    ApplyHypot(lib, sa, cb);
    ApplyHypot(lib, ca, sb);
  }

  lemma ApplyHypot(lib: Libm, a: Forward, b: Forward)
    requires lib.hypot(a.val, b.val) != 0.0
    ensures Apply2(lib, HypotOp, a, b) == Hypot(lib, a, b)
  {
  }

  lemma Atan2Shape(lib: Libm, f: Binary, a: Forward, b: Forward)
    requires f == Atan2Op && (a.val != 0.0 || b.val != 0.0)
    ensures Apply2(lib, f, a, b).val == Apply2(lib, f, Const(a.val), Const(b.val)).val
    ensures Apply2(lib, f, a, b).dot
      == Apply2(lib, f, Forward(a.val, 1.0), Const(b.val)).dot * a.dot
       + Apply2(lib, f, Const(a.val), Forward(b.val, 1.0)).dot * b.dot
  {
    var sa, sb, ca, cb := Forward(a.val, 1.0), Forward(b.val, 1.0), Const(a.val), Const(b.val);
    Atan2Seeded(lib, a, b);
    ApplyAtan2(lib, a, b);
    ApplyAtan2(lib, ca, cb);
    ApplyAtan2(lib, sa, cb);
    ApplyAtan2(lib, ca, sb);
  }

  lemma ApplyAtan2(lib: Libm, a: Forward, b: Forward)
    requires a.val != 0.0 || b.val != 0.0
    ensures Apply2(lib, Atan2Op, a, b) == Atan2(lib, a, b)
  {
  }

  lemma PowShape(lib: Libm, f: Binary, a: Forward, b: Forward)
    requires f == PowOp
    ensures Apply2(lib, f, a, b).val == Apply2(lib, f, Const(a.val), Const(b.val)).val
    ensures Apply2(lib, f, a, b).dot
      == Apply2(lib, f, Forward(a.val, 1.0), Const(b.val)).dot * a.dot
       + Apply2(lib, f, Const(a.val), Forward(b.val, 1.0)).dot * b.dot
  {
    var sa, sb, ca, cb := Forward(a.val, 1.0), Forward(b.val, 1.0), Const(a.val), Const(b.val);
    PowSeeded(lib, a, b);
    ApplyPow(lib, a, b);
    ApplyPow(lib, ca, cb);
    ApplyPow(lib, sa, cb);
    ApplyPow(lib, ca, sb);
  }

  lemma ApplyPow(lib: Libm, a: Forward, b: Forward)
    ensures Apply2(lib, PowOp, a, b) == Pow(lib, a, b)
  {
  }

  lemma CopysignShape(lib: Libm, f: Binary, a: Forward, b: Forward)
    requires f == CopysignOp
    ensures Apply2(lib, f, a, b).val == Apply2(lib, f, Const(a.val), Const(b.val)).val
    ensures Apply2(lib, f, a, b).dot
      == Apply2(lib, f, Forward(a.val, 1.0), Const(b.val)).dot * a.dot
       + Apply2(lib, f, Const(a.val), Forward(b.val, 1.0)).dot * b.dot
  {
    var sa, sb, ca, cb := Forward(a.val, 1.0), Forward(b.val, 1.0), Const(a.val), Const(b.val);
    CopysignSeeded(a, b);
    ApplyCopysign(lib, a, b);
    ApplyCopysign(lib, ca, cb);
    ApplyCopysign(lib, sa, cb);
    ApplyCopysign(lib, ca, sb);
  }

  lemma ApplyCopysign(lib: Libm, a: Forward, b: Forward)
    ensures Apply2(lib, CopysignOp, a, b) == Copysign(a, b)
  {
  }

  lemma FmodShape(lib: Libm, f: Binary, a: Forward, b: Forward)
    requires f == FmodOp && b.val != 0.0
    ensures Apply2(lib, f, a, b).val == Apply2(lib, f, Const(a.val), Const(b.val)).val
    ensures Apply2(lib, f, a, b).dot
      == Apply2(lib, f, Forward(a.val, 1.0), Const(b.val)).dot * a.dot
       + Apply2(lib, f, Const(a.val), Forward(b.val, 1.0)).dot * b.dot
  {
    var sa, sb, ca, cb := Forward(a.val, 1.0), Forward(b.val, 1.0), Const(a.val), Const(b.val);
    var q := CMath.Trunc(a.val / b.val);
    ApplyFmod(lib, a, b);
    ApplyFmod(lib, ca, cb);
    ApplyFmod(lib, sa, cb);
    ApplyFmod(lib, ca, sb);
    SlopeSum(Apply2(lib, f, a, b).dot, Apply2(lib, f, sa, cb).dot, Apply2(lib, f, ca, sb).dot,
      a.dot, b.dot, q);
  }

  /** `Apply2` at `FmodOp` is `fmod`: the library remainder with the tangent
      `a.dot - q*b.dot` for the truncated quotient `q`. */
  lemma ApplyFmod(lib: Libm, a: Forward, b: Forward)
    requires b.val != 0.0
    ensures Apply2(lib, FmodOp, a, b).val == CMath.Fmod(a.val, b.val)
    ensures Apply2(lib, FmodOp, a, b).dot == a.dot - CMath.Trunc(a.val / b.val) * b.dot
  {
    FmodSeeded(a, b);
  }

  /** `hypot`'s slopes are `a.val/h` and `b.val/h` for the value `h`. */
  lemma HypotSeeded(lib: Libm, a: Forward, b: Forward)
    requires lib.hypot(a.val, b.val) != 0.0
    ensures Hypot(lib, a, b).val == Hypot(lib, Const(a.val), Const(b.val)).val
    ensures Hypot(lib, a, b).dot
      == Hypot(lib, Forward(a.val, 1.0), Const(b.val)).dot * a.dot
       + Hypot(lib, Const(a.val), Forward(b.val, 1.0)).dot * b.dot
  {
    var h := lib.hypot(a.val, b.val);
    assert Hypot(lib, Forward(a.val, 1.0), Const(b.val)).dot == a.val / h * 1.0 + b.val / h * 0.0;
    assert Hypot(lib, Const(a.val), Forward(b.val, 1.0)).dot == a.val / h * 0.0 + b.val / h * 1.0;
  }

  /** `atan2`'s slopes as written are `-b.val/n` and `a.val/n` for `n = a.val² + b.val²`. */
  lemma Atan2Seeded(lib: Libm, a: Forward, b: Forward)
    requires a.val != 0.0 || b.val != 0.0
    ensures Atan2(lib, a, b).val == Atan2(lib, Const(a.val), Const(b.val)).val
    ensures Atan2(lib, a, b).dot
      == Atan2(lib, Forward(a.val, 1.0), Const(b.val)).dot * a.dot
       + Atan2(lib, Const(a.val), Forward(b.val, 1.0)).dot * b.dot
  {
    SumOfSquaresIsPositive(a.val, b.val);
    var n := Square(a.val) + Square(b.val);
    assert Atan2(lib, Forward(a.val, 1.0), Const(b.val)).dot == -b.val / n * 1.0 + a.val / n * 0.0;
    assert Atan2(lib, Const(a.val), Forward(b.val, 1.0)).dot == -b.val / n * 0.0 + a.val / n * 1.0;
  }

  /** `pow`'s slopes are the base and exponent factors. */
  lemma PowSeeded(lib: Libm, a: Forward, b: Forward)
    ensures Pow(lib, a, b).val == Pow(lib, Const(a.val), Const(b.val)).val
    ensures Pow(lib, a, b).dot
      == Pow(lib, Forward(a.val, 1.0), Const(b.val)).dot * a.dot
       + Pow(lib, Const(a.val), Forward(b.val, 1.0)).dot * b.dot
  {
    var da, db := PowBaseSlope(lib, a.val, b.val), PowExponentSlope(lib, a.val, b.val);
    assert Pow(lib, Forward(a.val, 1.0), Const(b.val)).dot == da * 1.0 + db * 0.0;
    assert Pow(lib, Const(a.val), Forward(b.val, 1.0)).dot == da * 0.0 + db * 1.0;
  }

  /** `copysign`'s tangent is the sign factor of `a.val*b.val` times `a.dot`:
      seeding `a` gives that factor, seeding `b` gives 0. */
  lemma CopysignSeeded(a: Forward, b: Forward)
    ensures Copysign(a, b).val == Copysign(Const(a.val), Const(b.val)).val
    ensures Copysign(a, b).dot
      == Copysign(Forward(a.val, 1.0), Const(b.val)).dot * a.dot
       + Copysign(Const(a.val), Forward(b.val, 1.0)).dot * b.dot
  {
  }

  /** `fmod`'s tangent is `a.dot - q*b.dot` for the truncated quotient `q`:
      seeding `a` gives the slope 1, seeding `b` the slope `-q`, and constants
      keep the value. */
  lemma FmodSeeded(a: Forward, b: Forward)
    requires b.val != 0.0
    ensures Fmod(a, b).val == Fmod(Const(a.val), Const(b.val)).val
    ensures Fmod(Forward(a.val, 1.0), Const(b.val)).dot == 1.0
    ensures Fmod(Const(a.val), Forward(b.val, 1.0)).dot == -CMath.Trunc(a.val / b.val)
    ensures Fmod(a, b).dot == a.dot - CMath.Trunc(a.val / b.val) * b.dot
  {
  }

  /** A tangent `da - q*db` is the slope 1 times `da` plus the slope `-q` times `db`. */
  lemma SlopeSum(r: real, ra: real, rb: real, da: real, db: real, q: real)
    requires r == da - q * db && ra == 1.0 && rb == -q
    ensures r == ra * da + rb * db
  {
  }

  /** Hence constant operands give a constant result. */
  lemma BinaryConstantStaysConstant(lib: Libm, f: Binary, x: real, y: real)
    requires Defined2(lib, f, x, y)
    ensures Apply2(lib, f, Const(x), Const(y)).dot == 0.0
  {
    BinaryTangentIsLinear(lib, f, Const(x), Const(y));
  }
}
