/** The exponential function, as far as the heating curve depends on it.
    Dafny's reals have no transcendental functions, so the curve takes the
    exponential as a parameter and asks only for the three laws below. */
module ExpLaws {

  /** `exp` maps 0 to 1, is positive everywhere and is strictly increasing. */
  ghost predicate IsExp(exp: real -> real) {
    && exp(0.0) == 1.0
    && (forall x :: exp(x) > 0.0)
    && (forall x, y :: x < y ==> exp(x) < exp(y))
  }

  /** Below zero an exponential lies strictly between 0 and 1. */
  lemma ExpOfNegative(exp: real -> real, x: real)
    requires IsExp(exp) && x < 0.0
    ensures 0.0 < exp(x) < 1.0
  {
    assert exp(x) < exp(0.0);
  }

  /** An exponential takes the value 1 at 0 and nowhere else. */
  lemma ExpIsOneOnlyAtZero(exp: real -> real, x: real)
    requires IsExp(exp)
    ensures exp(x) == 1.0 <==> x == 0.0
  {
    if x < 0.0 {
      ExpOfNegative(exp, x);
    } else if x > 0.0 {
      assert exp(0.0) < exp(x);
    }
  }

  /** A rational function with the three laws: 1 + x on the right, 1 / (1 - x) on the left. */
  function RationalExp(x: real): (r: real)
    ensures r > 0.0
    ensures x < 0.0 ==> r < 1.0
  {
    if x >= 0.0 then 1.0 + x else 1.0 / (1.0 - x)
  }

  /** The laws are consistent: some function satisfies them, so every member
      that requires `IsExp` can be called. */
  lemma IsExpSatisfiable()
    ensures IsExp(RationalExp)
  {
    forall x: real, y: real | x < y
      ensures RationalExp(x) < RationalExp(y)
    {
      if y < 0.0 {
        ReciprocalAntitone(1.0 - x, 1.0 - y);
      }
    }
  }

  /** Of two positive numbers the larger has the smaller reciprocal. */
  lemma ReciprocalAntitone(a: real, b: real)
    requires a > b > 0.0
    ensures 1.0 / a < 1.0 / b
  {
    assert (1.0 / a) * a == 1.0 && (1.0 / b) * b == 1.0;
    assert (1.0 / a) * b < (1.0 / a) * a;
    assert (1.0 / a) * b < (1.0 / b) * b;
  }
}
