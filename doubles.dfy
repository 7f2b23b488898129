/** Doubles: equality of doubles up to an absolute tolerance. Doubles are modelled as reals. */
module Doubles {

  /** The absolute tolerance, 1E-12. */
  const Epsilon: real := 0.000000000001

  function Abs(x: real): (r: real)
    ensures r >= 0.0 && (r == x || r == -x)
  {
    if x < 0.0 then -x else x
  }

  /** `equals`: true when the two values differ by at most Epsilon. */
  predicate Equals(a: real, b: real) {
    Abs(a - b) <= Epsilon
  }

  lemma EqualsReflexive(a: real)
    ensures Equals(a, a)
  {
  }

  lemma EqualsSymmetric(a: real, b: real)
    ensures Equals(a, b) == Equals(b, a)
  {
  }

  /** The tolerance is inclusive on both sides, and a larger difference is unequal. */
  lemma EqualsIsInclusiveTolerance(a: real, b: real)
    ensures b - a == Epsilon ==> Equals(a, b)
    ensures a - b == Epsilon ==> Equals(a, b)
    ensures Equals(a, b) <==> -Epsilon <= a - b <= Epsilon
  {
  }

  /** The relation is not transitive: 0 ~ eps and eps ~ 2 eps, but not 0 ~ 2 eps. */
  lemma EqualsNotTransitive()
    ensures Equals(0.0, Epsilon) && Equals(Epsilon, 2.0 * Epsilon) && !Equals(0.0, 2.0 * Epsilon)
  {
  }
}
