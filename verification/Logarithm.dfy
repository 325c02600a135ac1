/** The laws of the natural logarithm that the source's formulas rely on. */
module Logarithm {
  ghost predicate ProductLaw(ln: real -> real, x: real, y: real)
  {
    0.0 < x && 0.0 < y ==> ln(x * y) == ln(x) + ln(y)
  }

  ghost predicate IncreasingLaw(ln: real -> real, x: real, y: real)
  {
    0.0 < x < y ==> ln(x) < ln(y)
  }

  /** `ln` turns products into sums and is strictly increasing on the positive reals. */
  ghost predicate IsLogarithm(ln: real -> real)
  {
    && (forall x, y :: ProductLaw(ln, x, y))
    && (forall x, y :: IncreasingLaw(ln, x, y))
  }

  lemma {:induction false} LnProduct(ln: real -> real, x: real, y: real, product: real)
    requires IsLogarithm(ln) && 0.0 < x && 0.0 < y && product == x * y
    ensures ln(product) == ln(x) + ln(y)
  {
    assert ProductLaw(ln, x, y);
  }

  lemma {:induction false} LnOne(ln: real -> real)
    requires IsLogarithm(ln)
    ensures ln(1.0) == 0.0
  {
    LnProduct(ln, 1.0, 1.0, 1.0);
  }

  lemma {:induction false} LnComparesLikeArguments(ln: real -> real, x: real, y: real)
    requires IsLogarithm(ln) && 0.0 < x && 0.0 < y
    ensures ln(x) < ln(y) <==> x < y
  {
    assert IncreasingLaw(ln, x, y);
    assert IncreasingLaw(ln, y, x);
  }
}
