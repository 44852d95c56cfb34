/** The sine and cosine of the C math library, which the physics calls on float
    angles. The model does not compute them: every operation that needs them takes
    a pair of total functions as a parameter, and a property that depends on them
    names the identities of sin and cos it relies on. */
module Trigonometry {
  datatype Trig = Trig(sin: real -> real, cos: real -> real)

  /** sin 0 == 0 */
  predicate SinOfZero(t: Trig) {
    t.sin(0.0) == 0.0
  }

  /** cos 0 == 1 */
  predicate CosOfZero(t: Trig) {
    t.cos(0.0) == 1.0
  }

  /** cos(-a) == cos(a) */
  ghost predicate CosIsEven(t: Trig) {
    forall a, b :: a == -b ==> t.cos(a) == t.cos(b)
  }

  /** sin^2 a + cos^2 a == 1 */
  ghost predicate Pythagorean(t: Trig) {
    forall a :: t.sin(a) * t.sin(a) + t.cos(a) * t.cos(a) == 1.0
  }
}
