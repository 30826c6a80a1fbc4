/** The easyAD operators that update a `Forward` variable in place: they take
    the variable by reference (`Forward&`) or through a pointer (`Forward*`). */
module EasyADState {
  import opened EasyAD
  import CMath

  /** A `Forward` variable that operators change through a reference. */
  class ForwardVar {
    var val: real
    var dot: real

    /** The dual number currently held. */
    function Value(): Forward
      reads this
    {
      Forward(val, dot)
    }

    constructor (v: real, d: real)
      ensures Value() == Forward(v, d)
    {
      val, dot := v, d;
    }

    /** `++a`: the value goes up by one, the tangent stays. */
    method PreIncrement() returns (r: Forward)
      modifies this
      ensures val == old(val) + 1.0 && dot == old(dot)
      ensures Value() == AddScalar(old(Value()), 1.0)
      ensures r == Value()
    {
      val := val + 1.0;
      r := Value();
    }

    /** `--a` as written: it also adds one to the value. */
    method PreDecrement() returns (r: Forward)
      modifies this
      ensures val == old(val) + 1.0 && dot == old(dot)
      ensures Value() == AddScalar(old(Value()), 1.0)
      ensures r == Value()
    {
      val := val + 1.0;
      r := Value();
    }

    /** `a++`: adds one to the value and returns the old value converted with
        the one-argument constructor, so the result has tangent 0. */
    method PostIncrement() returns (r: Forward)
      modifies this
      ensures val == old(val) + 1.0 && dot == old(dot)
      ensures r == Const(old(val))
    {
      r := Const(val);
      val := val + 1.0;
    }

    /** `a--` as written: the same as `a++`. */
    method PostDecrement() returns (r: Forward)
      modifies this
      ensures val == old(val) + 1.0 && dot == old(dot)
      ensures r == Const(old(val))
    {
      r := Const(val);
      val := val + 1.0;
    }

    /** `a = x` for a plain scalar `x`: assignment of the promoted constant. */
    method AssignScalar(x: real) returns (r: Forward)
      modifies this
      ensures Value() == Const(x) && r == Value()
    {
      val, dot := x, 0.0;
      r := Value();
    }

    /** `a += b`: `a` becomes `a + b`. A scalar `b` is passed as `Const(b)`. */
    method AddAssign(b: Forward) returns (r: Forward)
      modifies this
      ensures Value() == Add(old(Value()), b) && r == Value()
    {
      var s := Add(Value(), b);
      val, dot := s.val, s.dot;
      r := Value();
    }

    /** `a -= b`: `a` becomes `a - b`. */
    method SubAssign(b: Forward) returns (r: Forward)
      modifies this
      ensures Value() == Sub(old(Value()), b) && r == Value()
    {
      var s := Sub(Value(), b);
      val, dot := s.val, s.dot;
      r := Value();
    }

    /** `a *= b`: `a` becomes `a * b`. */
    method MulAssign(b: Forward) returns (r: Forward)
      modifies this
      ensures Value() == Mul(old(Value()), b) && r == Value()
    {
      var s := Mul(Value(), b);
      val, dot := s.val, s.dot;
      r := Value();
    }

    /** `a /= b`: `a` becomes `a / b`. */
    method DivAssign(b: Forward) returns (r: Forward)
      requires b.val != 0.0
      modifies this
      ensures Value() == Div(old(Value()), b) && r == Value()
    {
      var s := Div(Value(), b);
      val, dot := s.val, s.dot;
      r := Value();
    }

    /** `in >> a`: the tangent is reset and the value is the number read,
        given here as `x`. */
    method ReadFrom(x: real)
      modifies this
      ensures val == x && dot == 0.0
      ensures Value() == Const(x)
    {
      dot := 0.0;
      val := x;
    }
  }

  /** `modf(a, b)`: stores the integral part of `a.val` in `*b`, with tangent 0,
      and returns the fractional part carrying `a`'s tangent. */
  method Modf(a: Forward, b: ForwardVar) returns (r: Forward)
    modifies b
    ensures b.Value() == Const(CMath.Modf(a.val).1)
    ensures r == Forward(CMath.Modf(a.val).0, a.dot)
    ensures Add(r, b.Value()) == a
  {
    b.dot := 0.0;
    var parts := CMath.Modf(a.val);
    b.val := parts.1;
    r := Forward(parts.0, a.dot);
  }

  /** Whatever `a` was, `--a` leaves it one above where it started, so it never
      gives `a - 1`. */
  method DecrementStepsUp(v: real, d: real) returns (after: Forward)
    ensures after == AddScalar(Forward(v, d), 1.0)
    ensures after != SubScalar(Forward(v, d), 1.0)
  {
    var a := new ForwardVar(v, d);
    after := a.PreDecrement();
  }

  /** The decrement the operator evidently means: one less in value, the same
      tangent, and the inverse of `++`. */
  function Decremented(a: Forward): (r: Forward)
    ensures r == SubScalar(a, 1.0)
    ensures AddScalar(r, 1.0) == a
  {
    Forward(a.val - 1.0, a.dot)
  }

  /** The intended `--` undoes `++` and the other way round. */
  lemma DecrementedUndoesIncrement(a: Forward)
    ensures Decremented(AddScalar(a, 1.0)) == a
    ensures AddScalar(Decremented(a), 1.0) == a
  {
  }

  /** Writing `a` and reading it back: `operator<<` writes `a.val` alone and
      `operator>>` resets `dot`. The stream's decimal formatting (six
      significant digits by default) is the parameter `fmt`: the number that
      text written for a value parses back to. */
  method StreamRoundTrip(fmt: real -> real, v: real, d: real) returns (back: Forward)
    ensures back == Const(fmt(v))
    ensures back.dot == 0.0
  {
    var a := new ForwardVar(v, d);
    var written := ToScalar(a.Value());
    var b := new ForwardVar(0.0, 0.0);
    b.ReadFrom(fmt(written));
    back := b.Value();
  }
}
