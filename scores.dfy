/**
 * Validation scores. The trainer keeps its running best score in a Python
 * float that starts at -inf or +inf; the only operations it performs on
 * scores are `<=`, `>=` and assignment, so a score is a real number extended
 * with the two infinities.
 */
module Scores {

  datatype Score = NegInf | Fin(value: real) | PosInf

  /** Python's `a <= b` on extended reals. */
  predicate Le(a: Score, b: Score) {
    match (a, b)
    case (NegInf, _) => true
    case (_, PosInf) => true
    case (Fin(x), Fin(y)) => x <= y
    case _ => false
  }

  /** Python's `a >= b` on extended reals. */
  predicate Ge(a: Score, b: Score) {
    Le(b, a)
  }

  /** On finite scores the two comparisons are those of the reals. */
  lemma FiniteComparisons(x: real, y: real)
    ensures Le(Fin(x), Fin(y)) <==> x <= y
    ensures Ge(Fin(x), Fin(y)) <==> x >= y
  {
  }

  /**
   * -inf is below and +inf above every score, and nothing else is as low
   * as -inf or as high as +inf.
   */
  lemma InfinitiesAreExtremes(a: Score)
    ensures Le(NegInf, a) && Ge(a, NegInf)
    ensures Le(a, PosInf) && Ge(PosInf, a)
    ensures Le(a, NegInf) <==> a == NegInf
    ensures Ge(a, PosInf) <==> a == PosInf
  {
  }

  lemma LeReflexive(a: Score)
    ensures Le(a, a)
  {
  }

  lemma LeTotal(a: Score, b: Score)
    ensures Le(a, b) || Le(b, a)
  {
  }

  lemma LeTransitive(a: Score, b: Score, c: Score)
    requires Le(a, b) && Le(b, c)
    ensures Le(a, c)
  {
  }
}
