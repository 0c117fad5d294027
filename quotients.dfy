/** Facts about a quotient of a non-negative real by a positive one, used
    for the ratios of computeRQA and the rescaling of generateLorenz. */
module Quotients {

  lemma QuotientFacts(a: real, c: real)
    requires 0.0 <= a && 0.0 < c
    ensures 0.0 <= a / c
    ensures a / c == 0.0 <==> a == 0.0
    ensures a / c <= 1.0 <==> a <= c
    ensures a / c == 1.0 <==> a == c
  {
    assert a / c * c == a;
  }
}
