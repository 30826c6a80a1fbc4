/** The promotion helpers of easyAD: `ForwardIfPossible`, which turns a plain
    arithmetic value into a constant dual number and passes every other value
    through, and the `_easyAD` literal suffix. */
module Traits {
  import opened EasyAD

  /** An argument of `ForwardIfPossible`: a value of an arithmetic type, a
      `Forward`, or a value of any other type `T`. */
  datatype Arg<T> = Arithmetic(x: real) | Active(f: Forward) | Other(v: T)

  /** `ForwardIfPossible(t)`: the result type is `Forward` when `t` is arithmetic,
      and `t`'s own type otherwise. */
  function ForwardIfPossible<T>(t: Arg<T>): (r: Arg<T>)
    ensures !r.Arithmetic?
    ensures t.Arithmetic? ==> r.Active? && r.f.val == t.x && r.f.dot == 0.0
    ensures !t.Arithmetic? ==> r == t
  {
    match t
    case Arithmetic(x) => Active(Const(x))
    case _ => t
  }

  /** Promoting twice is promoting once: the result is never arithmetic again. */
  lemma ForwardIfPossibleIsIdempotent<T>(t: Arg<T>)
    ensures ForwardIfPossible(ForwardIfPossible(t)) == ForwardIfPossible(t)
  {
  }

  /** Promotion keeps the value: converting back gives the argument. */
  lemma ForwardIfPossibleKeepsValue<T>(x: real)
    ensures ToScalar(ForwardIfPossible<T>(Arithmetic(x)).f) == x
  {
  }

  /** Outside C++ the helper is the macro `ForwardIfPossible(x) (x)`. */
  function ForwardIfPossibleInC<T>(t: T): (r: T)
    ensures r == t
  {
    t
  }

  /** The C macro is the identity. It agrees with the C++ template on every
      argument that is not arithmetic, and on an arithmetic one in value. */
  lemma FallbackAgreesWithTemplate<T>(t: Arg<T>)
    ensures ForwardIfPossibleInC(t) == t
    ensures !t.Arithmetic? ==> ForwardIfPossibleInC(t) == ForwardIfPossible(t)
    ensures t.Arithmetic? ==> ForwardIfPossible(t).f.val == ForwardIfPossibleInC(t.x)
  {
  }

  /** `operator "" _easyAD`: the literal as a constant dual number. */
  function EasyADLiteral(literal: real): (r: Forward)
    ensures r.val == literal && r.dot == 0.0
  {
    Const(literal)
  }

  /** The literal is the promotion of its value: `2.0_easyAD` is
      `ForwardIfPossible(2.0)`, so `3.0_easyAD * x` is `3.0 * x`. */
  lemma LiteralIsPromotion<T>(literal: real, x: Forward)
    ensures Active(EasyADLiteral(literal)) == ForwardIfPossible<T>(Arithmetic(literal))
    ensures Mul(EasyADLiteral(literal), x) == ScalarMul(literal, x)
  {
  }
}
