# easyAD in Dafny

easyAD is a header-only C++ library for forward-mode automatic
differentiation. A `Forward` value is a dual number `(val, dot)`: `val` is the
value of an expression and `dot` is its derivative along one seed direction.
Every operator and every `std::` math overload computes the value with the
ordinary `<cmath>` function and the tangent with the chain rule. This project
models that core on exact real numbers and proves what each rule computes
and how the rules fit together.

Modules:

- `CMath` (cmath.dfy). The `<cmath>` primitives the library calls. The
  transcendental ones (`sin`, `exp`, `log`, `pow`, `atan2`, …) are fields of
  the record `Libm`. Every operation that uses them takes the record as the
  parameter `lib`, so no proof depends on how they are computed. Where a
  lemma needs a fact such as `sin² + cos² = 1`, it states that fact as a
  `requires` on `lib`. The functions that are exact on reals are defined
  outright: `abs`, `floor`, `ceil`, `trunc`, `round`, `nearbyint`/`rint`
  (round half to even), `copysign`, `fmod` and `modf`.
- `EasyAD` (easyad.dfy). The `Forward` datatype, its constructors and
  conversion, the arithmetic operators with two `Forward` operands and with a
  scalar on either side, unary `-`/`+`, the comparisons, and `std::max`/`std::min`.
  A dual number stands for the first-order expansion `val + dot·t` (the ghost
  `Expansion`). The operator contracts say that `+`, `-` and the scalar forms
  act on that expansion, and that `*` acts on it modulo `t²`. They also say
  that `/` is the unique inverse of `*`.
- `EasyADState` (easyad_state.dfy). The operators that change a variable in
  place (`++`, `--`, `+=`, `-=`, `*=`, `/=`, assignment from a scalar,
  `operator>>`, and `modf` through a pointer). They are methods of the class
  `ForwardVar`.
- `EasyADMath` (easyad_math.dfy). The `std::` overloads from `abs` to `pow`.
- `MathIdentities` (math_identities.dfy). Lemmas that pair each overload with
  a partner. The partners are:
  - the identity its scalar function obeys, lifted to dual numbers (`sin²+cos²`,
    `erf+erfc`, `acos+asin`);
  - its inverse (`log∘exp`, `asin∘sin`, `atan∘tan`, …);
  - an equivalent composition (`tan = sin/cos`, `expm1 = exp − 1`,
    `pow = exp(b·log a)`).
- `ChainRule` (chain_rule.dfy). Every unary and binary overload has the
  forward-mode shape: the value depends only on the operand values, and the
  tangent is the slope at the point times the input tangent.
- `Traits` (traits.dfy). `ForwardIfPossible` and the `_easyAD` literal.
- `Geant4Extensions` (geant4.dfy). `ForwardFloat` and its `…f` functions.

`double` is modelled as `real`. Rounding error, NaN, infinities and signed
zero are therefore outside the model, as listed below. Where a rule divides by
a quantity, the model requires that quantity to be non-zero. That keeps each
formula in the real numbers.

## Model

| member | source | states |
|---|---|---|
| EasyAD.ExpansionDetermines | easyAD.hpp:11-13 | a dual number is determined by its expansion `val + dot·t` |
| EasyAD.Const | easyAD.hpp:15 | the one-argument constructor gives a constant: its expansion is `x` for every `t` |
| EasyAD.Zero | easyAD.hpp:16 | the default constructor gives the constant 0 |
| EasyAD.ToScalar | easyAD.hpp:25-28 | the explicit conversion yields `a.val`: promoting the result back gives `(a.val, 0)`, which is `a` exactly when `a.dot == 0`, so the tangent is what the conversion drops |
| EasyAD.ConversionRoundTrip | easyAD.hpp:25-28 | converting a constant back gives its value; `Forward(T(a)) == a` exactly when `a.dot == 0`; the conversion ignores the tangent (`T(a) == T(Forward(a.val))`) |
| EasyAD.Add | easyAD.hpp:36-38 | the expansion of `a + b` is the sum of the expansions |
| EasyAD.Sub | easyAD.hpp:39-41 | the expansion of `a - b` is the difference of the expansions |
| EasyAD.Mul | easyAD.hpp:42-44 | the product of the expansions equals the expansion of `a * b` plus the dropped `dot·dot·t²` term (product rule) |
| EasyAD.Div | easyAD.hpp:45-47 | for a non-zero divisor value, `(a / b) * b == a` (quotient rule) |
| EasyAD.DivTimesDivisor | easyAD.hpp:45-47 | the formula of `operator/` times the divisor gives back the dividend |
| EasyAD.DivIsUniqueInverse | easyAD.hpp:45-47 | any `q` with `q * b == a` is `a / b` |
| EasyAD.AddScalar | easyAD.hpp:51-53 | `a + x` adds `x` to the expansion |
| EasyAD.ScalarAdd | easyAD.hpp:55-57 | `x + b` adds `x` to the expansion |
| EasyAD.SubScalar | easyAD.hpp:59-61 | `a - x` subtracts `x` from the expansion |
| EasyAD.ScalarSub | easyAD.hpp:63-65 | `x - b` is `x` minus the expansion |
| EasyAD.MulScalar | easyAD.hpp:67-69 | `a * x` scales the expansion by `x` |
| EasyAD.ScalarMul | easyAD.hpp:71-73 | `x * b` scales the expansion by `x` |
| EasyAD.DivScalar | easyAD.hpp:75-77 | for `x != 0`, the expansion of `a / x` times `x` is the expansion of `a` |
| EasyAD.ScalarDiv | easyAD.hpp:79-81 | for a non-zero divisor value, `(x / b) * b` is the constant `x`; by `DivIsUniqueInverse` that fixes the result, tangent included |
| EasyAD.Neg | easyAD.hpp:122-124 | `-a` is the additive inverse of `a` |
| EasyAD.Plus | easyAD.hpp:125-127 | unary `+` is the identity |
| EasyAD.RingLaws | easyAD.hpp:36-47 | `+` and `*` are commutative, associative and distributive, with units `Zero()` and `Const(1)`; `a - b == a + (-b)`; `(a + b) - b == a`; `-(-a) == a`; `-a == (-1) * a` |
| EasyAD.ConstantsStayConstant | easyAD.hpp:36-47 | arithmetic on constants gives the constant of the scalar result |
| EasyAD.Eq | easyAD.hpp:130-132 | `a == b` holds exactly when `(double)a == (double)b`: only the values are compared |
| EasyAD.Ne | easyAD.hpp:133-135 | `a != b` holds exactly when `(double)a != (double)b`: only the values are compared |
| EasyAD.Gt | easyAD.hpp:136-138 | `a > b` holds exactly when `(double)a > (double)b`: only the values are compared |
| EasyAD.Lt | easyAD.hpp:139-141 | `a < b` holds exactly when `(double)a < (double)b`: only the values are compared |
| EasyAD.Ge | easyAD.hpp:142-144 | `a >= b` holds exactly when `(double)a >= (double)b`: only the values are compared |
| EasyAD.Le | easyAD.hpp:145-147 | `a <= b` holds exactly when `(double)a <= (double)b`: only the values are compared |
| EasyAD.ComparisonsIgnoreTangent | easyAD.hpp:130-147 | each of the six comparisons gives the same answer whatever the tangents are |
| EasyAD.ComparisonsAreATotalOrder | easyAD.hpp:130-147 | `<`, `==`, `>` are trichotomous; `!=`, `<=`, `>=` are their complements and converses; `<` and `==` are transitive |
| EasyAD.EqualityIgnoresTangent | easyAD.hpp:130-132 | two different dual numbers with the same value compare equal |
| EasyAD.Max | easyAD.hpp:163-169 | the result is one of the operands and is not below either; it is `a` exactly when `a > b` and `b` otherwise, so ties return `b` |
| EasyAD.Min | easyAD.hpp:170-176 | the result is one of the operands and is not above either; it is `a` exactly when `a < b` and `b` otherwise |
| EasyAD.PowerRule | easyAD.hpp:42-44 | repeated `*` computes `xⁿ` and the power rule `n·xⁿ⁻¹·dot` |
| EasyAD.PowerValue | easyAD.hpp:42-44 | the value of `a·a·…·a` with `n` factors is `a.valⁿ` |
| EasyAD.PowerTangent | easyAD.hpp:42-44 | the tangent of `a·a·…·a` with `n ≥ 1` factors is `n·a.valⁿ⁻¹·a.dot` |
| EasyAD.SeededPolynomial | easyAD.hpp:36-44 | seeding `x = (2, 1)` in `x·x + 3x` gives value 10 and derivative 7, the slope `2x + 3` at 2 |
| EasyADState.ForwardVar.constructor | easyAD.hpp:14 | the two-argument constructor stores the value and the tangent |
| EasyADState.ForwardVar.PreIncrement | easyAD.hpp:84-87 | `++a` adds 1 to the value, keeps the tangent and returns the new `a` |
| EasyADState.ForwardVar.PreDecrement | easyAD.hpp:88-91 | `--a` as written also adds 1 to the value (see Findings) |
| EasyADState.ForwardVar.PostIncrement | easyAD.hpp:92-94 | `a++` adds 1 and returns the old value as a constant, with tangent 0 |
| EasyADState.ForwardVar.PostDecrement | easyAD.hpp:95-97 | `a--` as written is `a++` |
| EasyADState.ForwardVar.AssignScalar | easyAD.hpp:17-20 | assigning a scalar stores its constant |
| EasyADState.ForwardVar.AddAssign | easyAD.hpp:100-104 | `a += b` leaves `a + b` in `a` and returns it |
| EasyADState.ForwardVar.SubAssign | easyAD.hpp:105-109 | `a -= b` leaves `a - b` in `a` and returns it |
| EasyADState.ForwardVar.MulAssign | easyAD.hpp:110-114 | `a *= b` leaves `a * b` in `a` and returns it |
| EasyADState.ForwardVar.DivAssign | easyAD.hpp:115-119 | `a /= b` leaves `a / b` in `a` and returns it |
| EasyADState.ForwardVar.ReadFrom | easyAD.hpp:154-157 | `in >> a` resets the tangent and stores the value read |
| EasyADState.Modf | easyAD.hpp:250-253 | `*b` receives the integral part with tangent 0; the result is the fractional part with `a`'s tangent; the two add up to `a` |
| EasyADState.DecrementStepsUp | easyAD.hpp:88-91 | `--a` gives `a + 1` and never `a - 1` |
| EasyADState.Decremented | easyAD.hpp:88-91 | the intended decrement is `a - 1` and undoes `+ 1` |
| EasyADState.DecrementedUndoesIncrement | easyAD.hpp:84-91 | the intended `--` and `++` are inverse to each other |
| EasyADState.StreamRoundTrip | easyAD.hpp:151-157 | writing `a` and reading it back gives the constant of the number the text of `a.val` parses to, whatever `a.dot` was: the tangent comes back 0 |
| EasyADMath.Abs | easyAD.hpp:178-180 | `abs(a)` is `a` when `a.val >= 0` and `-a` otherwise |
| EasyADMath.Fabs | easyAD.hpp:220-222 | `fabs(a)` is `a` when `a.val > 0` and `-a` otherwise, including at 0 |
| EasyADMath.Copysign | easyAD.hpp:202-204 | `copysign(a, b)` is `a` when the signs of `a.val` and `b.val` agree and `-a` otherwise |
| EasyADMath.Floor | easyAD.hpp:223-225 | the value is the greatest integer not above `a.val`; tangent 0 |
| EasyADMath.Ceil | easyAD.hpp:226-228 | the value is the least integer not below `a.val`; tangent 0 |
| EasyADMath.Trunc | easyAD.hpp:229-231 | the value is the integer towards zero within 1 of `a.val`; tangent 0 |
| EasyADMath.Round | easyAD.hpp:232-234 | the value is the nearest integer, with halves away from zero; tangent 0 |
| EasyADMath.NearbyInt | easyAD.hpp:235-237 | the value is the nearest integer, with halves to even; tangent 0 |
| EasyADMath.Rint | easyAD.hpp:238-240 | the same rule as `nearbyint` in the default rounding mode: the nearest integer, with halves to even; tangent 0 |
| EasyADMath.Fmod | easyAD.hpp:247-249 | `fmod(a, b)` is `a - trunc(a.val/b.val)·b` as a dual number, with value below `b.val` in magnitude |
| EasyADMath.Acos | easyAD.hpp:181-183 | the tangent times `sqrt(1 - x²)` is `-a.dot` |
| EasyADMath.Acosh | easyAD.hpp:184-186 | the tangent times `sqrt(x² - 1)` is `a.dot` |
| EasyADMath.Asin | easyAD.hpp:187-189 | the tangent times `sqrt(1 - x²)` is `a.dot` |
| EasyADMath.Asinh | easyAD.hpp:190-192 | the tangent times `sqrt(x² + 1)` is `a.dot` |
| EasyADMath.Atan | easyAD.hpp:193-195 | the tangent times `1 + x²` is `a.dot` |
| EasyADMath.Cos | easyAD.hpp:196-198 | value `cos(a.val)`; a constant stays constant; the tangent factor is fixed only by the body (MathIdentities.PythagoreanIdentity ties it to the `sin` rule) |
| EasyADMath.Cosh | easyAD.hpp:199-201 | value `cosh(a.val)`; a constant stays constant; the tangent factor is fixed only by the body (MathIdentities.HyperbolicIdentity ties it to its partner rule) |
| EasyADMath.Erf | easyAD.hpp:205-207 | value `erf(a.val)`; a constant stays constant; the tangent factor is fixed only by the body (MathIdentities.ErfPlusErfc ties it to its partner rule) |
| EasyADMath.Erfc | easyAD.hpp:208-210 | value `erfc(a.val)`; a constant stays constant; the tangent factor is fixed only by the body (MathIdentities.ErfPlusErfc ties it to its partner rule) |
| EasyADMath.Exp | easyAD.hpp:211-213 | the tangent is the result's own value times `a.dot` |
| EasyADMath.Exp2 | easyAD.hpp:214-216 | the tangent is the result's value times `log 2` times `a.dot` |
| EasyADMath.Expm1 | easyAD.hpp:217-219 | the tangent is that of `exp(a)` |
| EasyADMath.Log | easyAD.hpp:254-256 | the tangent times `a.val` is `a.dot` |
| EasyADMath.Log2 | easyAD.hpp:257-259 | the tangent times `a.val·log 2` is `a.dot` |
| EasyADMath.Log10 | easyAD.hpp:260-262 | the tangent times `a.val·log 10` is `a.dot` |
| EasyADMath.Log1p | easyAD.hpp:263-265 | the tangent times `a.val + 1` is `a.dot` |
| EasyADMath.Sin | easyAD.hpp:266-268 | value `sin(a.val)`; a constant stays constant; the tangent factor is fixed only by the body (MathIdentities.PythagoreanIdentity ties it to its partner rule) |
| EasyADMath.Sinh | easyAD.hpp:269-271 | value `sinh(a.val)`; a constant stays constant; the tangent factor is fixed only by the body (MathIdentities.HyperbolicIdentity ties it to its partner rule) |
| EasyADMath.Sqrt | easyAD.hpp:272-275 | at 0 the result is `(0, 0)`; elsewhere `2·result·tangent == a.dot` |
| EasyADMath.Cbrt | easyAD.hpp:276-278 | `3·a.val·tangent == result·a.dot` |
| EasyADMath.Tan | easyAD.hpp:282-284 | the tangent times `cos²(a.val)` is `a.dot` |
| EasyADMath.Tanh | easyAD.hpp:285-287 | value `tanh(a.val)`; a constant stays constant; the tangent factor is fixed only by the body (MathIdentities.TanhIsSinhOverCosh ties it to its partner rule) |
| EasyADMath.Hypot | easyAD.hpp:279-281 | `result·tangent == a.val·a.dot + b.val·b.dot` |
| EasyADMath.Atan2 | easyAD.hpp:288-290 | value `atan2(a.val, b.val)`; constants stay constant; as written (see Findings) |
| EasyADMath.Atan2Intended | easyAD.hpp:288-290 | the corrected rule: the tangent is the negation of the one written |
| EasyADMath.PowBaseSlope | easyAD.hpp:292-295 | the factor of `a.dot` is 0 for exponent 0 and `y·pow(x, y-1)` otherwise |
| EasyADMath.PowExponentSlope | easyAD.hpp:296-298 | as written, the factor of `b.dot` is `pow(x,y)·log(x)` for `x <= 0` and 0 for `x > 0` |
| EasyADMath.Pow | easyAD.hpp:291-300 | the tangent is `da·a.dot + db·b.dot`; for a positive base the exponent's tangent is dropped |
| EasyADMath.PowScalar | easyAD.hpp:301-303 | `pow(a, x)` carries only the base term |
| EasyADMath.ScalarPow | easyAD.hpp:304-306 | `pow(x, b)` carries only the exponent term, which is 0 for a positive base |
| EasyADMath.PowExponentSlopeIntended | easyAD.hpp:296-298 | the corrected guard: `pow(x,y)·log(x)` for `x > 0` and 0 otherwise |
| EasyADMath.PowIntended | easyAD.hpp:291-300 | `pow` with the corrected exponent factor |
| MathIdentities.PythagoreanIdentity | easyAD.hpp:196-198 | where `sin² + cos² = 1`, `sin(a)² + cos(a)²` is the constant 1: the `sin` and `cos` rules are consistent with each other, though flipping both signs together would keep it true |
| MathIdentities.HyperbolicIdentity | easyAD.hpp:199-201 | where `cosh² - sinh² = 1`, `cosh(a)² - sinh(a)²` is the constant 1 |
| MathIdentities.ErfPlusErfc | easyAD.hpp:205-210 | where `erf + erfc = 1`, `erf(a) + erfc(a)` is the constant 1; this ties the two factors to each other only |
| MathIdentities.AcosPlusAsin | easyAD.hpp:181-189 | where `acos + asin = π/2`, `acos(a) + asin(a)` is the constant `π/2` |
| MathIdentities.TanIsSinOverCos | easyAD.hpp:282-284 | `tan(a) == sin(a) / cos(a)` as dual numbers |
| MathIdentities.TanhIsSinhOverCosh | easyAD.hpp:285-287 | `tanh(a) == sinh(a) / cosh(a)` as dual numbers |
| MathIdentities.LogOfExp | easyAD.hpp:211-213 | `log(exp(a)) == a` wherever the scalars are inverse |
| MathIdentities.ExpOfLog | easyAD.hpp:254-256 | `exp(log(a)) == a` wherever the scalars are inverse |
| MathIdentities.Log2OfExp2 | easyAD.hpp:214-216 | `log2(exp2(a)) == a` |
| MathIdentities.Log1pOfExpm1 | easyAD.hpp:263-265 | `log1p(expm1(a)) == a` |
| MathIdentities.AcoshOfCosh | easyAD.hpp:184-186 | `acosh(cosh(a)) == a` |
| MathIdentities.AsinhOfSinh | easyAD.hpp:190-192 | `asinh(sinh(a)) == a` |
| MathIdentities.AsinOfSin | easyAD.hpp:187-189 | `asin(sin(a)) == a` |
| MathIdentities.AcosOfCos | easyAD.hpp:181-183 | `acos(cos(a)) == a` |
| MathIdentities.AtanOfTan | easyAD.hpp:193-195 | `atan(tan(a)) == a` |
| MathIdentities.SqrtSquared | easyAD.hpp:272-275 | away from 0, `sqrt(a) * sqrt(a) == a` |
| MathIdentities.SqrtGuardDropsTangent | easyAD.hpp:273 | at value 0 the guard returns `(0, 0)`, so `sqrt(a)²` loses a non-zero tangent |
| MathIdentities.CbrtCubed | easyAD.hpp:276-278 | `cbrt(a)³ == a` |
| MathIdentities.HypotSquared | easyAD.hpp:279-281 | `hypot(a, b)² == a² + b²` |
| MathIdentities.Expm1IsExpMinusOne | easyAD.hpp:217-219 | `expm1(a) == exp(a) - 1` |
| MathIdentities.Log1pIsLogOfSuccessor | easyAD.hpp:263-265 | `log1p(a) == log(a + 1)` |
| MathIdentities.Exp2IsExpOfScaled | easyAD.hpp:214-216 | `exp2(a) == exp(a·log 2)` |
| MathIdentities.Log2IsScaledLog | easyAD.hpp:257-259 | `log2(a) == log(a) / log 2` |
| MathIdentities.Log10IsScaledLog | easyAD.hpp:260-262 | `log10(a) == log(a) / log 10` |
| MathIdentities.Atan2IntendedIsAtanOfQuotient | easyAD.hpp:288-290 | the corrected atan2 tangent is that of `atan(a / b)` |
| MathIdentities.Atan2IsNegatedAtanOfQuotient | easyAD.hpp:288-290 | the written atan2 tangent is the negation of that of `atan(a / b)` |
| MathIdentities.Atan2SignAtSeed | easyAD.hpp:288-290 | `atan2((0,1), 1)` gets tangent -1 as written and 1 when corrected; `atan((0,1))` gets 1 |
| MathIdentities.PowMatchesPower | easyAD.hpp:291-303 | for every natural exponent `n`, including 0, `pow(a, n)` equals `n` repeated multiplications |
| MathIdentities.PowAtSeed | easyAD.hpp:291-300 | `pow((2,1), 3) == (8, 12)` |
| MathIdentities.PowDropsExponentTangent | easyAD.hpp:296-298 | for a positive base the written rule ignores `b.dot` entirely |
| MathIdentities.PowExponentAtSeed | easyAD.hpp:304-306 | `pow(2, (3,1))` gets tangent 0 as written and `8·log 2` when corrected |
| MathIdentities.PowIntendedIsExpOfLog | easyAD.hpp:291-300 | for a positive base the corrected `pow(a, b)` is `exp(b·log a)` |
| MathIdentities.AbsAndFabs | easyAD.hpp:220-222 | `abs` and `fabs` agree away from 0 and differ in tangent sign at 0 |
| MathIdentities.CopysignSign | easyAD.hpp:202-204 | the value has `a`'s magnitude and `b`'s sign; the tangent has `a.dot`'s magnitude |
| MathIdentities.RoundingIsIdempotent | easyAD.hpp:223-240 | applying each rounding overload twice is applying it once |
| MathIdentities.RoundingAtSeed | easyAD.hpp:223-237 | at 2.5, floor 2, ceil 3, round 3, nearbyint 2; round(-2.5) is -3; tangents are 0 |
| MathIdentities.FmodByConstant | easyAD.hpp:247-249 | with a constant divisor, `fmod` keeps `a`'s tangent |
| ChainRule.UnaryTangentIsSlopeTimesInput | easyAD.hpp:178-287 | for every unary overload, the value depends only on `a.val` and the tangent is the seeded slope times `a.dot` |
| ChainRule.UnaryConstantStaysConstant | easyAD.hpp:178-287 | every unary overload maps a constant to a constant |
| ChainRule.BinaryTangentIsLinear | easyAD.hpp:202-300 | for `hypot`, `atan2`, `pow`, `copysign` and `fmod`, the tangent is the sum of the two seeded slopes times the operand tangents |
| ChainRule.BinaryConstantStaysConstant | easyAD.hpp:202-300 | every binary overload maps constants to a constant |
| Traits.ForwardIfPossible | traits.hpp:6-9 | an arithmetic argument becomes a `Forward` with its value and tangent 0; any other argument is returned unchanged |
| Traits.ForwardIfPossibleIsIdempotent | traits.hpp:6-9 | promoting twice is promoting once |
| Traits.ForwardIfPossibleKeepsValue | traits.hpp:6-9 | converting a promoted value back gives the value |
| Traits.ForwardIfPossibleInC | easyAD.hpp:419-420 | outside C++ `ForwardIfPossible(x)` is the macro `(x)`: the argument itself, unpromoted |
| Traits.FallbackAgreesWithTemplate | easyAD.hpp:419-420 | outside C++ the macro is the identity, and it agrees with the template except in the type of an arithmetic result |
| Traits.EasyADLiteral | traits.hpp:12-14 | the literal is a constant with its value |
| Traits.LiteralIsPromotion | traits.hpp:12-14 | the literal is the promotion of its value, so `x_easyAD * b == x * b` |
| Geant4Extensions.FloatFromValue | easyAD_geant4extensions.hpp:18-20 | construction from one value forwards to `Forward(x)` |
| Geant4Extensions.FloatDefault | easyAD_geant4extensions.hpp:21 | default construction gives zero |
| Geant4Extensions.FloatFromPair | easyAD_geant4extensions.hpp:18-22 | `ForwardFloat(v, d)` forwards to `Forward(v, d)`: value `v`, tangent `d` |
| Geant4Extensions.FloatConstructorsForward | easyAD_geant4extensions.hpp:18-22 | every constructor forwards its arguments to `Forward`'s |
| Geant4Extensions.Cosf | easyAD_geant4extensions.hpp:25-27 | `cosf` is `cos` |
| Geant4Extensions.Sinf | easyAD_geant4extensions.hpp:28-30 | `sinf` is `sin` |
| Geant4Extensions.Sqrtf | easyAD_geant4extensions.hpp:31-33 | `2·result·tangent == a.dot`; it equals `sqrt` away from 0 |
| Geant4Extensions.Atan2f | easyAD_geant4extensions.hpp:34-36 | `atan2f` is `atan2`, including its sign |
| Geant4Extensions.Fabsf | easyAD_geant4extensions.hpp:37-39 | `fabsf` is `fabs`, so at 0 it negates the tangent |
| Geant4Extensions.Acosf | easyAD_geant4extensions.hpp:40-42 | `acosf` is `acos` |
| Geant4Extensions.Floorf | easyAD_geant4extensions.hpp:43-45 | `floorf` is `floor`, tangent 0 |
| Geant4Extensions.Ceilf | easyAD_geant4extensions.hpp:46-48 | `ceilf` is `ceil`, tangent 0 |
| Geant4Extensions.FabsfDiffersFromAbsAtZero | easyAD_geant4extensions.hpp:37-39 | at `(0, 1)`, `fabsf` gives tangent -1 and `abs` gives 1 |
| Geant4Extensions.SqrtfHasNoZeroGuard | easyAD_geant4extensions.hpp:31-33 | for a `sqrt` that is 0 only at 0, `sqrtf` divides by zero exactly at a zero value, where the guarded `sqrt` returns `(0, 0)`; elsewhere the two agree |
| Geant4Extensions.ConstantsStayConstantInFloat | easyAD_geant4extensions.hpp:25-48 | every `…f` function maps constants to constants |

## Left out

- IEEE 754 behaviour: rounding error, NaN, infinities and the sign of zero. `double` is `real`, so `b.val != 0.0 && b.val != -0.0` in `pow` is one test.
- The values of the `<cmath>` functions. They are the opaque fields of `CMath.Libm`, and lemmas state the facts they need as preconditions.
- `tgamma` and `lgamma` (easyAD.hpp:307-314): their tangent is a finite-difference estimate marked TODO in the source, which says nothing to prove on reals.
- `isfinite`, `isinf`, `isnan`, `lrint`, `llrint`: they return the scalar function of `a.val` and there is no NaN or infinity on reals.
- `numeric_limits<Forward>`: floating-point constants, outside a real-number model.
- `operator<<` and `to_string`: the decimal text itself. `EasyADState.StreamRoundTrip` takes the stream's formatting as the parameter `fmt` and models only that `<<` writes `a.val` alone.
- `operator>>` when the read fails: the stream state is I/O. The model takes the number read as a parameter.
- The `std::complex<Forward>` operators (easyAD_geant4extensions.hpp:8-16): complex arithmetic lives in the standard library, which is not part of this model.
- Templates, `enable_if` and the `Gorward` alias: a scalar of any arithmetic type is a `real`.
- The `long double` parameter of the literal operator, and its narrowing to `double`.
- Rounding modes other than round-to-nearest: `nearbyint` and `rint` use the default mode, with halves to even.
- EasyADMath.Cos: the contract gives the value, the shape `factor·a.dot` (ChainRule) and constant preservation only; the factor `-sin(a.val)` is fixed only by the body, since MathIdentities.PythagoreanIdentity relates the `cos` rule to the `sin` rule and also holds with both signs flipped.
- EasyADMath.Cosh: as for Cos; MathIdentities.HyperbolicIdentity relates it to the `sinh` rule without fixing the factor.
- EasyADMath.Sin: as for Cos; MathIdentities.PythagoreanIdentity relates it to the `cos` rule without fixing the factor.
- EasyADMath.Sinh: as for Cos; MathIdentities.HyperbolicIdentity relates it to the `cosh` rule without fixing the factor.
- EasyADMath.Erf: as for Cos; MathIdentities.ErfPlusErfc holds for any factors `k` and `-k`, `k = 0` included, so it fixes only that the `erfc` factor is the negation of this one.
- EasyADMath.Erfc: as for Erf.
- EasyADMath.Tanh: as for Cos; MathIdentities.TanhIsSinhOverCosh relates it to the `sinh` and `cosh` rules.
- EasyADMath.Atan2: requires the point not to be the origin, where the source divides by zero; its tangent is related to `atan` in MathIdentities.
- Geant4Extensions.Atan2f: the same precondition as `EasyADMath.Atan2`.
- Geant4Extensions.Sqrtf: requires `sqrt(a.val) != 0`; at 0 the source divides by zero and produces an infinite or NaN tangent (NaN for a constant input, `inf·0`).
- EasyADState.ForwardVar: prefix `++`/`--` and the compound assignments return a copy of the new value, not a `Forward&` to the variable; chained updates through the returned reference, such as `(a += b) *= c`, are not modelled.
- `ForwardIfPossible`'s result type is a compile-time choice. The model shows it as the variant of the `Traits.Arg` value.

## Findings

Where a rule's code differs from the derivative of the function it
differentiates, or from what the operator's name says, the model follows the
code and puts a corrected member beside it. `atan2f`
(easyAD_geant4extensions.hpp:34-36) repeats the
third row's formula.

| source | as written | input that shows it | evidently intended | confidence | as-written member | corrected member |
|---|---|---|---|---|---|---|
| easyAD.hpp:88-97 | `--a` and `a--` execute `++a.val` / `a.val++` | `a = (5, 1)`: `--a` leaves `(6, 1)` | subtract 1 from the value | high, not executed | EasyADState.DecrementStepsUp | EasyADState.Decremented |
| easyAD.hpp:296-298 | the exponent tangent `pow(a,b)·log(a)` is used when `a.val <= 0` | `pow(2, (3, 1))` gets tangent 0; `log(a)` is undefined where the guard admits it | use it when `a.val > 0` | high, not executed | MathIdentities.PowExponentAtSeed | EasyADMath.PowIntended |
| easyAD.hpp:288-290 | the tangent is `-b/(a²+b²)·a.dot + a/(a²+b²)·b.dot` | `atan2((0, 1), 1)` gets tangent -1, but `atan2(y, 1) = atan(y)` has slope 1 at 0 | `b/(a²+b²)·a.dot - a/(a²+b²)·b.dot` | high, not executed | MathIdentities.Atan2SignAtSeed | EasyADMath.Atan2Intended |
