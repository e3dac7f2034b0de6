/** Small facts about the real-valued arrays the kernels read. */
module Reals {

  /** A safe read of a flat array: out-of-range positions read as zero.
      Every contract that relies on a value read this way states the size
      that keeps the read in range. */
  function Get(s: seq<real>, i: nat): real
  {
    if i < |s| then s[i] else 0.0
  }

  /** Products of equal factors are equal. The solver does not always see
      this when the factors are written differently. */
  lemma MulCongruence(a: real, b: real, c: real, d: real)
    requires a == c && b == d
    ensures a * b == c * d && b * a == c * d
  {
  }

  /** `c * v` kept as one term. Linear facts about long sums are stated with
      it, so that matching them is plain congruence rather than arithmetic on
      products of large terms. */
  function Scale(c: real, v: real): real
  {
    c * v
  }

  lemma ScaleEq(c: real, a: real, b: real)
    requires a == b
    ensures c * a == Scale(c, b)
  {
  }
}
