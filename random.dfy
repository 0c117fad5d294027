/** Math.random as an injected source: `draw(k)` is the value of the k-th
    call, and every generator takes the index of its first call and returns
    the index of the first call it left unused. */
module Random {

  /** Every draw lies in [0, 1), as Math.random promises. */
  ghost predicate IsUnit(draw: nat -> real)
  {
    forall k: nat {:trigger draw(k)} :: 0.0 <= draw(k) < 1.0
  }
}
