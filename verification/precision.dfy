/** Floating point comparison (precision.h). `long double` is modelled as `real`. */
module Precision {

  /** Largest difference for which two numbers still count as equal. */
  const EPSILON: real := 0.00000001

  function Abs(x: real): (r: real)
    ensures 0.0 <= r && (r == x || r == -x)
  {
    if x < 0.0 then -x else x
  }

  /** `equal`: false exactly when the difference is greater than EPSILON. */
  predicate Equal(first: real, second: real)
  {
    !(Abs(first - second) > EPSILON)
  }

  /** `equal` accepts exactly the closed EPSILON-interval around its first argument. */
  lemma EqualIsInterval(first: real, second: real)
    ensures Equal(first, second) <==> first - EPSILON <= second <= first + EPSILON
  {
  }

  lemma EqualReflexive(a: real)
    ensures Equal(a, a)
  {
  }

  lemma EqualSymmetric(a: real, b: real)
    ensures Equal(a, b) <==> Equal(b, a)
  {
  }

  /** Unlike `==`, `equal` is not transitive: EPSILON-steps add up. */
  lemma EqualNotTransitive()
    ensures Equal(0.0, EPSILON) && Equal(EPSILON, 2.0 * EPSILON) && !Equal(0.0, 2.0 * EPSILON)
  {
  }
}
