/**
 * JavaScript numbers as far as the modelled code can observe them: a finite
 * value, NaN, or one of the two infinities. Finite values are exact reals;
 * the sign of zero and binary64 rounding are not modelled.
 */
module JsNum {

  datatype Num = Fin(value: real) | NaN | PosInf | NegInf

  /** `a > b` for a finite `b`; every comparison with NaN is false. */
  predicate Greater(a: Num, b: real) {
    match a
    case Fin(v) => v > b
    case PosInf => true
    case _ => false
  }

  /** A number used as a condition: everything but 0 and NaN is true. */
  predicate Truthy(a: Num) {
    match a
    case Fin(v) => v != 0.0
    case NaN => false
    case _ => true
  }

  /** `x >= k` for a finite `x`. */
  predicate AtLeast(x: real, k: Num) {
    match k
    case Fin(v) => x >= v
    case NegInf => true
    case _ => false
  }

  /** `x < k` for a finite `x`. */
  predicate Below(x: real, k: Num) {
    match k
    case Fin(v) => x < v
    case PosInf => true
    case _ => false
  }

  /** `x > k` for a finite `x`. */
  predicate Above(x: real, k: Num) {
    match k
    case Fin(v) => x > v
    case NegInf => true
    case _ => false
  }

  /** `Math.ceil(x)` of a finite value. */
  function Ceil(x: real): int {
    -((-x).Floor)
  }

  lemma CeilBounds(x: real)
    ensures x <= Ceil(x) as real < x + 1.0
  {
  }

  /** `Math.round(x)` of a finite value: the nearest integer, ties toward +∞. */
  function Round(x: real): int {
    (x + 0.5).Floor
  }

  lemma RoundBounds(x: real)
    ensures x - 0.5 < Round(x) as real <= x + 0.5
  {
  }
}
