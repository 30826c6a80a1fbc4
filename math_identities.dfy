/** How the chain-rule formulas of easyAD's `std::` overloads fit together.

    An identity between library functions that holds at a point (an inverse pair,
    `sin^2 + cos^2 == 1`, `tan == sin/cos`, ...) is handed to each lemma as a
    precondition on the `lib` values there; the lemma shows that the dual numbers
    computed by the rules satisfy the same identity, tangent included. These
    lemmas tie the rules to one another; they do not fix the factor of any one
    rule. Flipping the signs of the `sin` and `cos` rules together, or of the
    `exp` and `log` rules together, keeps them true, and `erf + erfc` stays
    constant for any pair of factors `k` and `-k`. The factor of those rules is
    fixed only by the rule itself. */
module MathIdentities {
  import opened EasyAD
  import CMath
  import opened EasyADMath

  // ---- constant sums ----

  /** `sin(a)^2 + cos(a)^2` is the constant 1: its tangent vanishes. */
  lemma PythagoreanIdentity(lib: Libm, a: Forward)
    requires lib.sin(a.val) * lib.sin(a.val) + lib.cos(a.val) * lib.cos(a.val) == 1.0
    ensures Add(Mul(Sin(lib, a), Sin(lib, a)), Mul(Cos(lib, a), Cos(lib, a))) == Const(1.0)
  {
    var s, c, d := lib.sin(a.val), lib.cos(a.val), a.dot;
    assert Sin(lib, a) == Forward(s, c * d) && Cos(lib, a) == Forward(c, -s * d);
    CrossTermsCancel(s, c, d);
  }

  /** The tangents of `sin^2` and `cos^2` cancel. */
  lemma CrossTermsCancel(s: real, c: real, d: real)
    ensures (c * d) * s + s * (c * d) + ((-s * d) * c + c * (-s * d)) == 0.0
  {
  }

  /** `cosh(a)^2 - sinh(a)^2` is the constant 1. */
  lemma HyperbolicIdentity(lib: Libm, a: Forward)
    requires lib.cosh(a.val) * lib.cosh(a.val) - lib.sinh(a.val) * lib.sinh(a.val) == 1.0
    ensures Sub(Mul(Cosh(lib, a), Cosh(lib, a)), Mul(Sinh(lib, a), Sinh(lib, a))) == Const(1.0)
  {
    var s, c := lib.sinh(a.val), lib.cosh(a.val);
    assert (s * a.dot) * c + c * (s * a.dot) - ((c * a.dot) * s + s * (c * a.dot)) == 0.0;
  }

  /** `erf(a) + erfc(a)` is the constant 1. */
  lemma ErfPlusErfc(lib: Libm, a: Forward)
    requires lib.sqrt(CMath.Pi) != 0.0
    requires lib.erf(a.val) + lib.erfc(a.val) == 1.0
    ensures Add(Erf(lib, a), Erfc(lib, a)) == Const(1.0)
  {
  }

  /** `acos(a) + asin(a)` is the constant pi/2. */
  lemma AcosPlusAsin(lib: Libm, a: Forward)
    requires lib.sqrt(1.0 - Square(a.val)) != 0.0
    requires lib.acos(a.val) + lib.asin(a.val) == CMath.Pi / 2.0
    ensures Add(Acos(lib, a), Asin(lib, a)) == Const(CMath.Pi / 2.0)
  {
  }

  // ---- quotients ----

  /** `tan == sin/cos` carries over to the dual numbers. */
  lemma TanIsSinOverCos(lib: Libm, a: Forward)
    requires lib.cos(a.val) != 0.0
    requires lib.tan(a.val) * lib.cos(a.val) == lib.sin(a.val)
    requires lib.sin(a.val) * lib.sin(a.val) + lib.cos(a.val) * lib.cos(a.val) == 1.0
    ensures Tan(lib, a) == Div(Sin(lib, a), Cos(lib, a))
  {
    var t, s, c, d := lib.tan(a.val), lib.sin(a.val), lib.cos(a.val), a.dot;
    var q := Tan(lib, a);
    assert q.dot * c * c == d;
    assert (q.dot * c - t * s * d) * c == d - s * s * d by {
      assert t * s * d * c == s * s * d;
    }
    assert d - s * s * d == c * d * c;
    TimesNonZero(q.dot * c - t * s * d, c * d, c);
    assert Mul(q, Cos(lib, a)) == Sin(lib, a);
    DivIsUniqueInverse(Sin(lib, a), Cos(lib, a), q);
  }

  /** `tanh == sinh/cosh` carries over to the dual numbers. */
  lemma TanhIsSinhOverCosh(lib: Libm, a: Forward)
    requires lib.cosh(a.val) != 0.0
    requires lib.tanh(a.val) * lib.cosh(a.val) == lib.sinh(a.val)
    ensures Tanh(lib, a) == Div(Sinh(lib, a), Cosh(lib, a))
  {
    var t, s, c, d := lib.tanh(a.val), lib.sinh(a.val), lib.cosh(a.val), a.dot;
    var q := Tanh(lib, a);
    assert q.dot * c + t * (s * d) == c * d by {
      assert t * t * c == t * s;
    }
    assert Mul(q, Cosh(lib, a)) == Sinh(lib, a);
    DivIsUniqueInverse(Sinh(lib, a), Cosh(lib, a), q);
  }

  // ---- inverse pairs: composing a function with its inverse gives the input back ----

  lemma LogOfExp(lib: Libm, a: Forward)
    requires lib.exp(a.val) != 0.0 && lib.log(lib.exp(a.val)) == a.val
    ensures Log(lib, Exp(lib, a)) == a
  {
  }

  lemma ExpOfLog(lib: Libm, a: Forward)
    requires a.val != 0.0 && lib.exp(lib.log(a.val)) == a.val
    ensures Exp(lib, Log(lib, a)) == a
  {
  }

  lemma Log2OfExp2(lib: Libm, a: Forward)
    requires lib.exp2(a.val) * lib.log(2.0) != 0.0 && lib.log2(lib.exp2(a.val)) == a.val
    ensures Log2(lib, Exp2(lib, a)) == a
  {
    var r := Log2(lib, Exp2(lib, a));
    var k := lib.exp2(a.val) * lib.log(2.0);
    assert r.dot * k == a.dot * k;
    TimesNonZero(r.dot, a.dot, k);
  }

  lemma Log1pOfExpm1(lib: Libm, a: Forward)
    requires lib.expm1(a.val) + 1.0 == lib.exp(a.val) && lib.exp(a.val) != 0.0
    requires lib.log1p(lib.expm1(a.val)) == a.val
    ensures Log1p(lib, Expm1(lib, a)) == a
  {
    var r := Log1p(lib, Expm1(lib, a));
    var k := lib.exp(a.val);
    assert r.dot * k == a.dot * k;
    TimesNonZero(r.dot, a.dot, k);
  }

  /** On the branch where `sqrt(cosh(x)^2 - 1) == sinh(x)`, that is `x > 0`. */
  lemma AcoshOfCosh(lib: Libm, a: Forward)
    requires lib.sinh(a.val) != 0.0
    requires lib.sqrt(Square(lib.cosh(a.val)) - 1.0) == lib.sinh(a.val)
    requires lib.acosh(lib.cosh(a.val)) == a.val
    ensures Acosh(lib, Cosh(lib, a)) == a
  {
    var r := Acosh(lib, Cosh(lib, a));
    var k := lib.sinh(a.val);
    assert r.dot * k == a.dot * k;
    TimesNonZero(r.dot, a.dot, k);
  }

  lemma AsinhOfSinh(lib: Libm, a: Forward)
    requires lib.cosh(a.val) != 0.0
    requires lib.sqrt(Square(lib.sinh(a.val)) + 1.0) == lib.cosh(a.val)
    requires lib.asinh(lib.sinh(a.val)) == a.val
    ensures Asinh(lib, Sinh(lib, a)) == a
  {
    var r := Asinh(lib, Sinh(lib, a));
    var k := lib.cosh(a.val);
    assert r.dot * k == a.dot * k;
    TimesNonZero(r.dot, a.dot, k);
  }

  /** On the principal branch, where `sqrt(1 - sin(x)^2) == cos(x)`. */
  lemma AsinOfSin(lib: Libm, a: Forward)
    requires lib.cos(a.val) != 0.0
    requires lib.sqrt(1.0 - Square(lib.sin(a.val))) == lib.cos(a.val)
    requires lib.asin(lib.sin(a.val)) == a.val
    ensures Asin(lib, Sin(lib, a)) == a
  {
    var r := Asin(lib, Sin(lib, a));
    var k := lib.cos(a.val);
    assert r.dot * k == a.dot * k;
    TimesNonZero(r.dot, a.dot, k);
  }

  /** On the principal branch, where `sqrt(1 - cos(x)^2) == sin(x)`. */
  lemma AcosOfCos(lib: Libm, a: Forward)
    requires lib.sin(a.val) != 0.0
    requires lib.sqrt(1.0 - Square(lib.cos(a.val))) == lib.sin(a.val)
    requires lib.acos(lib.cos(a.val)) == a.val
    ensures Acos(lib, Cos(lib, a)) == a
  {
    var r := Acos(lib, Cos(lib, a));
    var k := lib.sin(a.val);
    assert r.dot * k == a.dot * k;
    TimesNonZero(r.dot, a.dot, k);
  }

  lemma AtanOfTan(lib: Libm, a: Forward)
    requires lib.cos(a.val) != 0.0
    requires lib.tan(a.val) * lib.cos(a.val) == lib.sin(a.val)
    requires lib.sin(a.val) * lib.sin(a.val) + lib.cos(a.val) * lib.cos(a.val) == 1.0
    requires lib.atan(lib.tan(a.val)) == a.val
    ensures Atan(lib, Tan(lib, a)) == a
  {
    var t, s, c := lib.tan(a.val), lib.sin(a.val), lib.cos(a.val);
    var u := Tan(lib, a);
    var r := Atan(lib, u);
    assert (1.0 + t * t) * (c * c) == 1.0 by {
      assert t * t * (c * c) == s * s;
    }
    assert r.dot * (1.0 + t * t) == u.dot;
    assert u.dot * c * c == a.dot;
    assert r.dot == a.dot by {
      assert r.dot * ((1.0 + t * t) * (c * c)) == u.dot * (c * c);
    }
  }

  /** The square of `sqrt(a)` is `a` away from zero. */
  lemma SqrtSquared(lib: Libm, a: Forward)
    requires a.val != 0.0 && lib.sqrt(a.val) * lib.sqrt(a.val) == a.val
    ensures Mul(Sqrt(lib, a), Sqrt(lib, a)) == a
  {
    var r := Sqrt(lib, a);
    assert r.val == lib.sqrt(a.val);
    assert 2.0 * r.val * r.dot == a.dot;
    assert r.dot * r.val + r.val * r.dot == a.dot;
  }

  /** At zero the guard of `sqrt` returns `(0, 0)`, so squaring gives `a` back
      only when `a` is a constant. */
  lemma SqrtGuardDropsTangent(lib: Libm, d: real)
    ensures Mul(Sqrt(lib, Forward(0.0, d)), Sqrt(lib, Forward(0.0, d))) == Zero()
    ensures d != 0.0 ==> Mul(Sqrt(lib, Forward(0.0, d)), Sqrt(lib, Forward(0.0, d))) != Forward(0.0, d)
  {
  }

  lemma CbrtCubed(lib: Libm, a: Forward)
    requires a.val != 0.0 && lib.cbrt(a.val) * lib.cbrt(a.val) * lib.cbrt(a.val) == a.val
    ensures Mul(Mul(Cbrt(lib, a), Cbrt(lib, a)), Cbrt(lib, a)) == a
  {
    var r := Cbrt(lib, a);
    var c, x := r.val, a.val;
    var p := Mul(Mul(r, r), r);
    assert p.dot == 3.0 * c * c * r.dot;
    assert 3.0 * x * r.dot == c * a.dot;
    assert p.dot * x == a.dot * x by {
      assert p.dot * x == c * c * (3.0 * x * r.dot);
    }
    TimesNonZero(p.dot, a.dot, x);
  }

  /** The square of `hypot(a, b)` is `a*a + b*b`. */
  lemma HypotSquared(lib: Libm, a: Forward, b: Forward)
    requires lib.hypot(a.val, b.val) != 0.0
    requires lib.hypot(a.val, b.val) * lib.hypot(a.val, b.val) == a.val * a.val + b.val * b.val
    ensures Mul(Hypot(lib, a, b), Hypot(lib, a, b)) == Add(Mul(a, a), Mul(b, b))
  {
    var h := Hypot(lib, a, b);
    assert h.val * h.dot == a.val * a.dot + b.val * b.dot;
  }

  // ---- the variants expressed through the basic functions ----

  lemma Expm1IsExpMinusOne(lib: Libm, a: Forward)
    requires lib.expm1(a.val) == lib.exp(a.val) - 1.0
    ensures Expm1(lib, a) == SubScalar(Exp(lib, a), 1.0)
  {
  }

  lemma Log1pIsLogOfSuccessor(lib: Libm, a: Forward)
    requires a.val + 1.0 != 0.0 && lib.log1p(a.val) == lib.log(a.val + 1.0)
    ensures Log1p(lib, a) == Log(lib, AddScalar(a, 1.0))
  {
  }

  lemma Exp2IsExpOfScaled(lib: Libm, a: Forward)
    requires lib.exp2(a.val) == lib.exp(a.val * lib.log(2.0))
    ensures Exp2(lib, a) == Exp(lib, MulScalar(a, lib.log(2.0)))
  {
    var m := MulScalar(a, lib.log(2.0));
    assert m.val == a.val * lib.log(2.0);
    assert m.dot == a.dot * lib.log(2.0);
  }

  lemma Log2IsScaledLog(lib: Libm, a: Forward)
    requires a.val != 0.0 && lib.log(2.0) != 0.0
    requires lib.log2(a.val) * lib.log(2.0) == lib.log(a.val)
    ensures Log2(lib, a) == DivScalar(Log(lib, a), lib.log(2.0))
  {
    var r := Log2(lib, a);
    var l := Log(lib, a);
    assert r.dot * lib.log(2.0) * a.val == l.dot * a.val;
    TimesNonZero(r.dot * lib.log(2.0), l.dot, a.val);
    assert Mul(r, Const(lib.log(2.0))) == l;
    DivIsUniqueInverse(l, Const(lib.log(2.0)), r);
  }

  lemma Log10IsScaledLog(lib: Libm, a: Forward)
    requires a.val != 0.0 && lib.log(10.0) != 0.0
    requires lib.log10(a.val) * lib.log(10.0) == lib.log(a.val)
    ensures Log10(lib, a) == DivScalar(Log(lib, a), lib.log(10.0))
  {
    var r := Log10(lib, a);
    var l := Log(lib, a);
    assert r.dot * lib.log(10.0) * a.val == l.dot * a.val;
    TimesNonZero(r.dot * lib.log(10.0), l.dot, a.val);
    assert Mul(r, Const(lib.log(10.0))) == l;
    DivIsUniqueInverse(l, Const(lib.log(10.0)), r);
  }

  // ---- atan2 ----

  /** Where `b != 0`, `atan2(a, b)` and `atan(a/b)` differ by a constant, so the
      corrected rule has the tangent of `atan(a/b)`. */
  lemma Atan2IntendedIsAtanOfQuotient(lib: Libm, a: Forward, b: Forward)
    requires b.val != 0.0
    ensures Atan2Intended(lib, a, b).dot == Atan(lib, Div(a, b)).dot
  {
    SumOfSquaresIsPositive(a.val, b.val);
    var n := Square(a.val) + Square(b.val);
    var q := Div(a, b);
    var u := Atan(lib, q);
    var i := Atan2Intended(lib, a, b);
    assert Mul(q, b) == a;
    assert n > 0.0;
    assert i.dot == b.val / n * a.dot - a.val / n * b.dot;
    assert q.val * b.val == a.val && q.dot * b.val + q.val * b.dot == a.dot;
    AtanOfQuotientTimesNorm(b.val, a.val, q.val, q.dot, u.dot, a.dot, b.dot);
    QuotientRuleOverNorm(u.dot, b.val, a.val, a.dot, b.dot, n);
  }

  /** Dividing `ud*n == x*dy - y*dx` through by `n` term by term. */
  lemma QuotientRuleOverNorm(ud: real, x: real, y: real, dy: real, dx: real, n: real)
    requires n != 0.0 && ud * n == x * dy - y * dx
    ensures ud == x / n * dy - y / n * dx
  {
    assert ud == (x * dy - y * dx) / n;
    assert x / n * dy == (x * dy) / n;
    assert y / n * dx == (y * dx) / n;
  }

  /** With `q = y/x` as a dual number (`q*x == y` in value and tangent) and `u`
      the atan rule's tangent at `q`, `u*(y*y + x*x) == x*dy - y*dx`. */
  lemma AtanOfQuotientTimesNorm(x: real, y: real, qv: real, qd: real, ud: real, dy: real, dx: real)
    requires x != 0.0 && qv * x == y && qd * x + qv * dx == dy
    requires ud * (1.0 + Square(qv)) == qd
    ensures ud * (Square(y) + Square(x)) == x * dy - y * dx
  {
    assert (1.0 + Square(qv)) * Square(x) == Square(y) + Square(x) by {
      assert Square(qv) * Square(x) == (qv * x) * (qv * x);
    }
    assert ud * (Square(y) + Square(x)) == qd * Square(x);
    assert qd * Square(x) == x * (dy - qv * dx);
  }

  /** The rule as written has the opposite tangent to `atan(a/b)`. */
  lemma Atan2IsNegatedAtanOfQuotient(lib: Libm, a: Forward, b: Forward)
    requires b.val != 0.0
    ensures Atan2(lib, a, b).dot == -Atan(lib, Div(a, b)).dot
  {
    Atan2IntendedIsAtanOfQuotient(lib, a, b);
  }

  /** `atan2(y, 1)` with `y` seeded at 0: the slope of `atan(y)` there is 1, the rule
      as written gives -1 and the corrected rule 1, whatever the library values. */
  lemma Atan2SignAtSeed(lib: Libm)
    ensures Atan2(lib, Forward(0.0, 1.0), Const(1.0)).dot == -1.0
    ensures Atan2Intended(lib, Forward(0.0, 1.0), Const(1.0)).dot == 1.0
    ensures Atan(lib, Forward(0.0, 1.0)).dot == 1.0
  {
  }

  // ---- pow ----

  /** For a whole exponent `n >= 1`, and a library `pow` that agrees with repeated
      multiplication at the value, `pow(a, n)` is the product `a*a*...*a`. */
  lemma PowMatchesPower(lib: Libm, a: Forward, n: nat)
    requires lib.pow(a.val, n as real) == RealPower(a.val, n)
    requires n >= 1 ==> lib.pow(a.val, n as real - 1.0) == RealPower(a.val, n - 1)
    ensures PowScalar(lib, a, n as real) == Power(a, n)
  {
    if n >= 1 {
      PowerRule(a, n);
    }
  }

  /** `pow(x, 3)` at the seed `x = 2` has value 8 and tangent `3 * 2^2 = 12`. */
  lemma PowAtSeed(lib: Libm)
    requires lib.pow(2.0, 3.0) == 8.0 && lib.pow(2.0, 2.0) == 4.0
    ensures Pow(lib, Forward(2.0, 1.0), Const(3.0)) == Forward(8.0, 12.0)
  {
  }

  /** For a positive base the rule as written ignores the exponent's tangent: it
      is the corrected rule applied to a constant exponent. */
  lemma PowDropsExponentTangent(lib: Libm, a: Forward, b: Forward)
    requires 0.0 < a.val
    ensures Pow(lib, a, b) == PowIntended(lib, a, Const(b.val))
  {
  }

  /** `2^y` with `y` seeded at 3: the rule as written gives tangent 0, the corrected
      rule `8 * log(2)`, which is not 0 when `log(2)` is not. */
  lemma PowExponentAtSeed(lib: Libm)
    requires lib.pow(2.0, 3.0) == 8.0 && lib.log(2.0) != 0.0
    ensures ScalarPow(lib, 2.0, Forward(3.0, 1.0)).dot == 0.0
    ensures PowIntended(lib, Const(2.0), Forward(3.0, 1.0)).dot == 8.0 * lib.log(2.0)
    ensures PowIntended(lib, Const(2.0), Forward(3.0, 1.0)).dot != 0.0
  {
  }

  /** For a positive base the corrected rule is the rule of `exp(b * log(a))`. */
  lemma PowIntendedIsExpOfLog(lib: Libm, a: Forward, b: Forward)
    requires 0.0 < a.val
    requires lib.exp(b.val * lib.log(a.val)) == lib.pow(a.val, b.val)
    requires lib.pow(a.val, b.val - 1.0) * a.val == lib.pow(a.val, b.val)
    ensures PowIntended(lib, a, b) == Exp(lib, Mul(b, Log(lib, a)))
  {
    var x, y, p := a.val, b.val, lib.pow(a.val, b.val);
    var l := Log(lib, a);
    var m := Mul(b, l);
    assert m.val == y * lib.log(x);
    assert m.dot == b.dot * lib.log(x) + y * l.dot;
    assert l.dot * x == a.dot;
    var e := Exp(lib, m);
    var t := b.val * lib.log(a.val);
    assert lib.exp(t) == p;
    assert m.val == t;
    assert lib.exp(m.val) == p;
    assert e.dot == lib.exp(m.val) * m.dot;
    assert lib.exp(m.val) * m.dot == p * m.dot;
    assert e.dot == p * (b.dot * lib.log(x) + y * l.dot);
    var k := PowBaseSlope(lib, x, y);
    if y != 0.0 {
      assert k == y * lib.pow(x, y - 1.0);
      assert k * a.dot == y * (lib.pow(x, y - 1.0) * x) * l.dot by {
        assert a.dot == x * l.dot;
      }
    }
    assert k * a.dot == p * y * l.dot;
    assert e.dot == k * a.dot + p * lib.log(x) * b.dot;
    assert PowIntended(lib, a, b).dot == k * a.dot + PowExponentSlopeIntended(lib, x, y) * b.dot;
  }

  // ---- sign selection and rounding ----

  /** `abs` and `fabs` agree except at zero, where `abs` keeps the tangent and
      `fabs` negates it. */
  lemma AbsAndFabs(a: Forward)
    ensures a.val != 0.0 ==> Abs(a) == Fabs(a)
    ensures Abs(Forward(0.0, 1.0)) == Forward(0.0, 1.0)
    ensures Fabs(Forward(0.0, 1.0)) == Forward(0.0, -1.0)
  {
  }

  /** `copysign(a, b)` has the magnitude of `a` and, away from zero, the sign of `b`. */
  lemma CopysignSign(a: Forward, b: Forward)
    ensures CMath.Abs(Copysign(a, b).val) == CMath.Abs(a.val)
    ensures a.val != 0.0 ==> (Copysign(a, b).val < 0.0 <==> b.val < 0.0)
    ensures CMath.Abs(Copysign(a, b).dot) == CMath.Abs(a.dot)
  {
  }

  /** Rounding an integral value changes nothing but the tangent. */
  lemma RoundingIsIdempotent(a: Forward)
    ensures Floor(Floor(a)) == Floor(a) && Ceil(Ceil(a)) == Ceil(a)
    ensures Trunc(Trunc(a)) == Trunc(a) && Round(Round(a)) == Round(a)
    ensures NearbyInt(NearbyInt(a)) == NearbyInt(a) && Rint(Rint(a)) == Rint(a)
  {
    IntegralIsFixed(Floor(a).val);
    IntegralIsFixed(Ceil(a).val);
    IntegralIsFixed(Trunc(a).val);
    IntegralIsFixed(Round(a).val);
    IntegralIsFixed(NearbyInt(a).val);
  }

  lemma IntegralIsFixed(x: real)
    requires CMath.IsIntegral(x)
    ensures CMath.Floor(x) == x && CMath.Ceil(x) == x && CMath.Trunc(x) == x
    ensures CMath.RoundHalfAway(x) == x && CMath.RoundHalfEven(x) == x
  {
    var n := x.Floor;
    assert x == n as real;
    assert (-x).Floor == -n;
    assert (x + 0.5).Floor == n;
    assert (-x + 0.5).Floor == -n;
  }

  /** At `2.5` seeded with tangent 1: `floor` gives 2, `round` rounds the tie away
      from zero to 3, `nearbyint` rounds it to the even 2, all with tangent 0. */
  lemma RoundingAtSeed()
    ensures Floor(Forward(2.5, 1.0)) == Forward(2.0, 0.0)
    ensures Ceil(Forward(2.5, 1.0)) == Forward(3.0, 0.0)
    ensures Round(Forward(2.5, 1.0)) == Forward(3.0, 0.0)
    ensures NearbyInt(Forward(2.5, 1.0)) == Forward(2.0, 0.0)
    ensures Round(Forward(-2.5, 1.0)) == Forward(-3.0, 0.0)
  {
    assert (2.5).Floor == 2;
    assert (-2.5).Floor == -3;
    assert (3.0).Floor == 3;
  }

  /** With a constant divisor the remainder moves with the dividend. */
  lemma FmodByConstant(a: Forward, y: real)
    requires y != 0.0
    ensures Fmod(a, Const(y)).dot == a.dot
    ensures Fmod(a, Const(y)).val == CMath.Fmod(a.val, y)
  {
  }

  /** Cancelling a non-zero factor. */
  lemma TimesNonZero(x: real, y: real, c: real)
    requires c != 0.0 && x * c == y * c
    ensures x == y
  {
    assert (x - y) * c == 0.0;
  }
}
