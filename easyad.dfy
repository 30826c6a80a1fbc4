/** The dual number of easyAD: a value and its tangent, the derivative of the value
    with respect to the one variable that was seeded with tangent 1.

    Every contract below is stated against the first-order expansion of a dual
    number: `Forward(v, d)` stands for the line `v + d*t` in a small offset `t` of
    the seeded variable (the dual number `v + d*e` with `e*e == 0`). Sums and
    differences of dual numbers are sums and differences of their expansions;
    a product is the product of the expansions with the `t*t` term dropped; a
    quotient `q = a/b` is the dual number whose product with `b` is `a`. */
module EasyAD {

  datatype Forward = Forward(val: real, dot: real)

  /** The first-order expansion of `a` at offset `t` from the seed point. */
  ghost function Expansion(a: Forward, t: real): real {
    a.val + a.dot * t
  }

  /** Two dual numbers with the same expansion everywhere are the same. */
  lemma ExpansionDetermines(a: Forward, b: Forward)
    requires forall t :: Expansion(a, t) == Expansion(b, t)
    ensures a == b
  {
    assert Expansion(a, 0.0) == Expansion(b, 0.0);
    assert Expansion(a, 1.0) == Expansion(b, 1.0);
  }

  /** The one-argument constructor `Forward(double)`: a constant, tangent 0. */
  function Const(x: real): (r: Forward)
    ensures forall t :: Expansion(r, t) == x
  {
    Forward(x, 0.0)
  }

  /** The default constructor `Forward()`. */
  function Zero(): (r: Forward)
    ensures r == Const(0.0)
  {
    Forward(0.0, 0.0)
  }

  /** The explicit conversion `(double)a`: the value alone. Converting back with
      the one-argument constructor gives `a` exactly when `a` is a constant. */
  function ToScalar(a: Forward): (r: real)
    ensures Const(r) == Forward(a.val, 0.0)
    ensures Const(r) == a <==> a.dot == 0.0
  {
    a.val
  }

  /** Promoting a scalar and converting back gives the scalar; converting a dual
      number and promoting the result keeps it exactly when it is a constant. */
  lemma ConversionRoundTrip(x: real, a: Forward)
    ensures ToScalar(Const(x)) == x
    ensures Const(ToScalar(a)) == a <==> a.dot == 0.0
    ensures ToScalar(a) == ToScalar(Const(a.val))
  {
  }

  // ---- basic arithmetic with two operands ----

  function Add(a: Forward, b: Forward): (r: Forward)
    ensures forall t :: Expansion(r, t) == Expansion(a, t) + Expansion(b, t)
  {
    Forward(a.val + b.val, a.dot + b.dot)
  }

  function Sub(a: Forward, b: Forward): (r: Forward)
    ensures forall t :: Expansion(r, t) == Expansion(a, t) - Expansion(b, t)
  {
    Forward(a.val - b.val, a.dot - b.dot)
  }

  function Mul(a: Forward, b: Forward): (r: Forward)
    ensures forall t :: Expansion(a, t) * Expansion(b, t) == Expansion(r, t) + a.dot * b.dot * t * t
  {
    Forward(a.val * b.val, a.dot * b.val + a.val * b.dot)
  }

  function Div(a: Forward, b: Forward): (r: Forward)
    requires b.val != 0.0
    ensures Mul(r, b) == a
  {
    var r := Forward(a.val / b.val, a.dot / b.val - a.val * b.dot / (b.val * b.val));
    DivTimesDivisor(a, b, r);
    r
  }

  lemma DivTimesDivisor(a: Forward, b: Forward, r: Forward)
    requires b.val != 0.0
    requires r == Forward(a.val / b.val, a.dot / b.val - a.val * b.dot / (b.val * b.val))
    ensures Mul(r, b) == a
  {
    var v := b.val;
    assert r.val * v == a.val;
    calc {
      r.dot * v + r.val * b.dot;
      (a.dot / v) * v - (a.val * b.dot / (v * v)) * v + (a.val / v) * b.dot;
      { assert (a.val * b.dot / (v * v)) * v == (a.val / v) * b.dot; }
      a.dot;
    }
  }

  /** The quotient is the only dual number whose product with the divisor is the
      dividend. */
  lemma {:induction false} DivIsUniqueInverse(a: Forward, b: Forward, q: Forward)
    requires b.val != 0.0 && Mul(q, b) == a
    ensures q == Div(a, b)
  {
    var d := Div(a, b);
    assert Mul(d, b) == a;
    assert q.val * b.val == d.val * b.val;
    assert q.val == d.val;
    assert q.dot * b.val == d.dot * b.val;
  }

  // ---- overloads with one plain scalar operand ----
  // Each promotes the scalar with Const and calls the operator above.

  function AddScalar(a: Forward, x: real): (r: Forward)
    ensures forall t :: Expansion(r, t) == Expansion(a, t) + x
  {
    Add(a, Const(x))
  }

  function ScalarAdd(x: real, b: Forward): (r: Forward)
    ensures forall t :: Expansion(r, t) == x + Expansion(b, t)
  {
    Add(Const(x), b)
  }

  function SubScalar(a: Forward, x: real): (r: Forward)
    ensures forall t :: Expansion(r, t) == Expansion(a, t) - x
  {
    Sub(a, Const(x))
  }

  function ScalarSub(x: real, b: Forward): (r: Forward)
    ensures forall t :: Expansion(r, t) == x - Expansion(b, t)
  {
    Sub(Const(x), b)
  }

  function MulScalar(a: Forward, x: real): (r: Forward)
    ensures forall t :: Expansion(r, t) == Expansion(a, t) * x
  {
    Mul(a, Const(x))
  }

  function ScalarMul(x: real, b: Forward): (r: Forward)
    ensures forall t :: Expansion(r, t) == x * Expansion(b, t)
  {
    Mul(Const(x), b)
  }

  function DivScalar(a: Forward, x: real): (r: Forward)
    requires x != 0.0
    ensures forall t :: Expansion(r, t) * x == Expansion(a, t)
  {
    Div(a, Const(x))
  }

  function ScalarDiv(x: real, b: Forward): (r: Forward)
    requires b.val != 0.0
    ensures Mul(r, b) == Const(x)
  {
    Div(Const(x), b)
  }

  // ---- basic arithmetic with one operand ----

  function Neg(a: Forward): (r: Forward)
    ensures Add(a, r) == Zero()
  {
    Forward(-a.val, -a.dot)
  }

  function Plus(a: Forward): (r: Forward)
    ensures r == a
  {
    a
  }

  /** The dual numbers form a commutative ring into which the reals embed as
      constants, and subtraction and negation are the additive inverse. */
  lemma RingLaws(a: Forward, b: Forward, c: Forward)
    ensures Add(a, b) == Add(b, a) && Mul(a, b) == Mul(b, a)
    ensures Add(Add(a, b), c) == Add(a, Add(b, c))
    ensures Mul(Mul(a, b), c) == Mul(a, Mul(b, c))
    ensures Mul(a, Add(b, c)) == Add(Mul(a, b), Mul(a, c))
    ensures Add(a, Zero()) == a && Mul(a, Const(1.0)) == a
    ensures Sub(a, b) == Add(a, Neg(b)) && Sub(Add(a, b), b) == a
    ensures Neg(Neg(a)) == a && Neg(a) == Mul(Const(-1.0), a)
  {
    AddIsCommutativeAndAssociative(a, b, c);
    MulIsCommutative(a, b);
    MulIsAssociative(a, b, c);
    MulDistributesOverAdd(a, b, c);
    Units(a);
    SubIsAddNeg(a, b);
  }

  lemma AddIsCommutativeAndAssociative(a: Forward, b: Forward, c: Forward)
    ensures Add(a, b) == Add(b, a)
    ensures Add(Add(a, b), c) == Add(a, Add(b, c))
  {
  }

  lemma MulIsCommutative(a: Forward, b: Forward)
    ensures Mul(a, b) == Mul(b, a)
  {
    assert Mul(a, b) == Forward(a.val * b.val, a.dot * b.val + a.val * b.dot);
    assert Mul(b, a) == Forward(b.val * a.val, b.dot * a.val + b.val * a.dot);
  }

  lemma MulIsAssociative(a: Forward, b: Forward, c: Forward)
    ensures Mul(Mul(a, b), c) == Mul(a, Mul(b, c))
  {
    var x, y, z, dx, dy, dz := a.val, b.val, c.val, a.dot, b.dot, c.dot;
    assert Mul(Mul(a, b), c) == Forward((x * y) * z, (dx * y + x * dy) * z + (x * y) * dz);
    assert Mul(a, Mul(b, c)) == Forward(x * (y * z), dx * (y * z) + x * (dy * z + y * dz));
    ProductIsAssociative(x, y, z, dx, dy, dz);
  }

  /** The value and tangent of `(a*b)*c` and `a*(b*c)` on reals. */
  lemma ProductIsAssociative(x: real, y: real, z: real, dx: real, dy: real, dz: real)
    ensures (x * y) * z == x * (y * z)
    ensures (dx * y + x * dy) * z + (x * y) * dz == dx * (y * z) + x * (dy * z + y * dz)
  {
  }

  lemma MulDistributesOverAdd(a: Forward, b: Forward, c: Forward)
    ensures Mul(a, Add(b, c)) == Add(Mul(a, b), Mul(a, c))
  {
    var x, y, z, dx, dy, dz := a.val, b.val, c.val, a.dot, b.dot, c.dot;
    assert Mul(a, Add(b, c)) == Forward(x * (y + z), dx * (y + z) + x * (dy + dz));
    assert Add(Mul(a, b), Mul(a, c)) == Forward(x * y + x * z, (dx * y + x * dy) + (dx * z + x * dz));
    ProductDistributes(x, y, z, dx, dy, dz);
  }

  /** The value and tangent of `a*(b+c)` and `a*b + a*c` on reals. */
  lemma ProductDistributes(x: real, y: real, z: real, dx: real, dy: real, dz: real)
    ensures x * (y + z) == x * y + x * z
    ensures dx * (y + z) + x * (dy + dz) == (dx * y + x * dy) + (dx * z + x * dz)
  {
  }

  lemma Units(a: Forward)
    ensures Add(a, Zero()) == a && Mul(a, Const(1.0)) == a
    ensures Neg(Neg(a)) == a && Neg(a) == Mul(Const(-1.0), a)
  {
    assert Mul(a, Const(1.0)) == Forward(a.val * 1.0, a.dot * 1.0 + a.val * 0.0);
    assert Mul(Const(-1.0), a) == Forward(-1.0 * a.val, 0.0 * a.val + -1.0 * a.dot);
  }

  lemma SubIsAddNeg(a: Forward, b: Forward)
    ensures Sub(a, b) == Add(a, Neg(b)) && Sub(Add(a, b), b) == a
  {
  }

  /** Operations on constants give the constant of the plain result. */
  lemma ConstantsStayConstant(x: real, y: real)
    ensures Add(Const(x), Const(y)) == Const(x + y)
    ensures Sub(Const(x), Const(y)) == Const(x - y)
    ensures Mul(Const(x), Const(y)) == Const(x * y)
    ensures y != 0.0 ==> Div(Const(x), Const(y)) == Const(x / y)
    ensures Neg(Const(x)) == Const(-x)
  {
  }

  // ---- comparisons: on the value alone ----

  // Each of the six operators is the same comparison of the doubles that the
  // explicit conversion yields; the tangents take no part.

  predicate Eq(a: Forward, b: Forward): (r: bool)
    ensures r <==> ToScalar(a) == ToScalar(b)
  {
    a.val == b.val
  }

  predicate Ne(a: Forward, b: Forward): (r: bool)
    ensures r <==> ToScalar(a) != ToScalar(b)
  {
    a.val != b.val
  }

  predicate Gt(a: Forward, b: Forward): (r: bool)
    ensures r <==> ToScalar(a) > ToScalar(b)
  {
    a.val > b.val
  }

  predicate Lt(a: Forward, b: Forward): (r: bool)
    ensures r <==> ToScalar(a) < ToScalar(b)
  {
    a.val < b.val
  }

  predicate Ge(a: Forward, b: Forward): (r: bool)
    ensures r <==> ToScalar(a) >= ToScalar(b)
  {
    a.val >= b.val
  }

  predicate Le(a: Forward, b: Forward): (r: bool)
    ensures r <==> ToScalar(a) <= ToScalar(b)
  {
    a.val <= b.val
  }

  /** Changing only the tangents never changes the outcome of a comparison. */
  lemma ComparisonsIgnoreTangent(a: Forward, b: Forward, da: real, db: real)
    ensures var a', b' := Forward(a.val, da), Forward(b.val, db);
      && (Eq(a, b) <==> Eq(a', b')) && (Ne(a, b) <==> Ne(a', b'))
      && (Gt(a, b) <==> Gt(a', b')) && (Lt(a, b) <==> Lt(a', b'))
      && (Ge(a, b) <==> Ge(a', b')) && (Le(a, b) <==> Le(a', b'))
  {
  }

  /** The six comparisons are the total order of the values: exactly one of
      `<`, `==`, `>` holds and the other three are their combinations. */
  lemma ComparisonsAreATotalOrder(a: Forward, b: Forward, c: Forward)
    ensures Lt(a, b) || Eq(a, b) || Gt(a, b)
    ensures !(Lt(a, b) && Eq(a, b)) && !(Lt(a, b) && Gt(a, b)) && !(Eq(a, b) && Gt(a, b))
    ensures Ne(a, b) <==> !Eq(a, b)
    ensures Le(a, b) <==> Lt(a, b) || Eq(a, b)
    ensures Ge(a, b) <==> Le(b, a)
    ensures Gt(a, b) <==> Lt(b, a)
    ensures Lt(a, b) && Lt(b, c) ==> Lt(a, c)
    ensures Eq(a, b) && Eq(b, c) ==> Eq(a, c)
  {
  }

  /** Equal under `==` is not being the same dual number. */
  lemma EqualityIgnoresTangent()
    ensures Eq(Forward(5.0, 1.0), Forward(5.0, -3.0))
    ensures Forward(5.0, 1.0) != Forward(5.0, -3.0)
  {
  }

  // ---- std::max and std::min: selection of a whole argument ----

  function Max(a: Forward, b: Forward): (r: Forward)
    ensures r == a || r == b
    ensures Ge(r, a) && Ge(r, b)
    ensures Gt(a, b) ==> r == a
    ensures !Gt(a, b) ==> r == b
  {
    if Gt(a, b) then a else b
  }

  function Min(a: Forward, b: Forward): (r: Forward)
    ensures r == a || r == b
    ensures Le(r, a) && Le(r, b)
    ensures Lt(a, b) ==> r == a
    ensures !Lt(a, b) ==> r == b
  {
    if Lt(a, b) then a else b
  }

  // ---- the product rule, applied repeatedly ----

  function RealPower(v: real, n: nat): real {
    if n == 0 then 1.0 else RealPower(v, n - 1) * v
  }

  /** `a*a*...*a` with `n` factors. */
  function Power(a: Forward, n: nat): Forward {
    if n == 0 then Const(1.0) else Mul(Power(a, n - 1), a)
  }

  /** Repeated products obey the power rule: the tangent of `a^n` is
      `n * a.val^(n-1) * a.dot`. */
  lemma PowerRule(a: Forward, n: nat)
    requires n >= 1
    ensures Power(a, n) == Forward(RealPower(a.val, n), (n as real) * RealPower(a.val, n - 1) * a.dot)
  {
    PowerValue(a, n);
    PowerTangent(a, n);
  }

  /** The value of `a^n` is `a.val^n`. */
  lemma {:induction false} PowerValue(a: Forward, n: nat)
    ensures Power(a, n).val == RealPower(a.val, n)
  {
    if n > 0 {
      PowerValue(a, n - 1);
    }
  }

  /** The tangent of `a^n` is `n * a.val^(n-1) * a.dot`, by the product rule at
      each factor. */
  lemma {:induction false} PowerTangent(a: Forward, n: nat)
    requires n >= 1
    ensures Power(a, n).dot == (n as real) * RealPower(a.val, n - 1) * a.dot
  {
    if n > 1 {
      var m, p, v, d := (n - 1) as real, RealPower(a.val, n - 2), a.val, a.dot;
      PowerTangent(a, n - 1);
      PowerValue(a, n - 1);
      assert RealPower(v, n - 1) == p * v;
      calc {
        Power(a, n).dot;
        Power(a, n - 1).dot * v + Power(a, n - 1).val * d;
        (m * p * d) * v + (p * v) * d;
        { PowerRuleStep(m, p, v, d); }
        (m + 1.0) * (p * v) * d;
      }
    }
  }

  /** The inductive step of the power rule on reals: the tangent `e*v + q*d` of
      `a^(n-1) * a`, with `e = m*p*d` and `q = p*v`, is `(m + 1)*q*d`. */
  lemma PowerRuleStep(m: real, p: real, v: real, d: real)
    ensures (m * p * d) * v + (p * v) * d == (m + 1.0) * (p * v) * d
  {
  }

  /** The expression `x*x + 3.0*x` at the seed `x = 2` has value 10 and tangent 7,
      the derivative `2x + 3` at 2. */
  lemma SeededPolynomial()
    ensures var x := Forward(2.0, 1.0);
      Add(Mul(x, x), ScalarMul(3.0, x)) == Forward(10.0, 7.0)
  {
  }
}
