/**
 The transcendental functions the network calls. The model never fixes
 `exp` or `tanh`; they are passed in as function values, and the facts the
 proofs rely on are stated as hypotheses about them.
 */
module Activations {

  /** The exponential is strictly positive everywhere. */
  ghost predicate ExpPositive(exp: real -> real)
  {
    forall x :: exp(x) > 0.0
  }

  /** exp(a - b) * exp(b) == exp(a) for one pair (a, b). */
  ghost predicate ShiftHolds(exp: real -> real, a: real, b: real)
  {
    exp(a - b) * exp(b) == exp(a)
  }

  /**
   The exponential turns subtraction into division. Instances are drawn only
   where a proof names `ShiftHolds` explicitly.
   */
  ghost predicate ExpShiftLaw(exp: real -> real)
  {
    forall a, b :: ShiftHolds(exp, a, b)
  }

  /** The hyperbolic tangent lies strictly between -1 and 1. */
  ghost predicate TanhBounded(tanh: real -> real)
  {
    forall x :: -1.0 < tanh(x) < 1.0
  }
}
