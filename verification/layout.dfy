/** Column-major index arithmetic of `Reshape(p, n0, n1, ...)`: the entry
    `(i0, i1, i2, ...)` lives at `i0 + n0*(i1 + n1*(i2 + ...))`. */
module Layout {

  /** Flat position of `(i0, i1)` in an `n0 x _` view, `i0 + n0*i1`, written
      as repeated addition so that positions stay linear for the solver;
      `Idx2Value` gives the closed form. */
  function Idx2(i0: nat, i1: nat, n0: nat): nat {
    if i1 == 0 then i0 else Idx2(i0, i1 - 1, n0) + n0
  }

  /** Flat position of `(i0, i1, i2)` in an `n0 x n1 x _` view. */
  function Idx3(i0: nat, i1: nat, i2: nat, n0: nat, n1: nat): nat {
    Idx2(i0, Idx2(i1, i2, n1), n0)
  }

  /** Flat position of `(i0, i1, i2, i3)` in an `n0 x n1 x n2 x _` view. */
  function Idx4(i0: nat, i1: nat, i2: nat, i3: nat, n0: nat, n1: nat, n2: nat): nat {
    Idx2(i0, Idx3(i1, i2, i3, n1, n2), n0)
  }

  lemma {:induction false} Idx2Value(i0: nat, i1: nat, n0: nat)
    ensures Idx2(i0, i1, n0) == i0 + n0 * i1
  {
    if i1 > 0 {
      Idx2Value(i0, i1 - 1, n0);
    }
  }

  lemma Idx3Value(i0: nat, i1: nat, i2: nat, n0: nat, n1: nat)
    ensures Idx3(i0, i1, i2, n0, n1) == i0 + n0 * (i1 + n1 * i2)
  {
    Idx2Value(i1, i2, n1);
    Idx2Value(i0, Idx2(i1, i2, n1), n0);
  }

  lemma Idx4Value(i0: nat, i1: nat, i2: nat, i3: nat, n0: nat, n1: nat, n2: nat)
    ensures Idx4(i0, i1, i2, i3, n0, n1, n2) == i0 + n0 * (i1 + n1 * (i2 + n2 * i3))
  {
    Idx3Value(i1, i2, i3, n1, n2);
    Idx2Value(i0, Idx3(i1, i2, i3, n1, n2), n0);
  }

  /** The first component (`i3 = 0`) of a 4-index view is the 3-index view. */
  lemma Idx4FirstComponent(i0: nat, i1: nat, i2: nat, n0: nat, n1: nat, n2: nat)
    ensures Idx4(i0, i1, i2, 0, n0, n1, n2) == Idx3(i0, i1, i2, n0, n1)
  {
    assert Idx2(i2, 0, n2) == i2;
  }

  lemma MulMonotone(a: nat, b: nat, c: nat)
    requires a <= b
    ensures a * c <= b * c
  {
  }

  /** An in-range 2-index lands inside the `n0*n1` entries of the view. */
  lemma Idx2InRange(i0: nat, i1: nat, n0: nat, n1: nat)
    requires i0 < n0 && i1 < n1
    ensures Idx2(i0, i1, n0) < n0 * n1
  {
    Idx2Value(i0, i1, n0);
    MulMonotone(i1 + 1, n1, n0);
    assert n0 * (i1 + 1) == n0 * i1 + n0;
  }

  /** An in-range 3-index lands inside the `n0*n1*n2` entries of the view. */
  lemma Idx3InRange(i0: nat, i1: nat, i2: nat, n0: nat, n1: nat, n2: nat)
    requires i0 < n0 && i1 < n1 && i2 < n2
    ensures Idx3(i0, i1, i2, n0, n1) < n0 * n1 * n2
  {
    Idx2InRange(i1, i2, n1, n2);
    Idx2InRange(i0, Idx2(i1, i2, n1), n0, n1 * n2);
    MulAssoc3(n0, n1, n2);
  }

  /** Euclidean division recovers the two digits of `r + n*q`. */
  lemma DivModDigits(r: nat, q: nat, n: nat)
    requires r < n
    ensures (r + n * q) / n == q && (r + n * q) % n == r
  {
    var k := r + n * q;
    var q' := k / n;
    assert k == n * q' + k % n;
    if q' > q {
      MulMonotone(q + 1, q', n);
    } else if q' < q {
      MulMonotone(q' + 1, q, n);
    }
  }

  /** Decoding of a flat position of an `n0 x n1 x _` view. */
  function Split3(k: nat, n0: nat, n1: nat): (r: (nat, nat, nat))
    requires n0 > 0 && n1 > 0
    ensures r.0 < n0 && r.1 < n1
  {
    (k % n0, (k / n0) % n1, (k / n0) / n1)
  }

  /** `Idx3` and `Split3` are mutually inverse: every flat position is the
      image of exactly one triple, so the view neither aliases nor skips entries. */
  lemma Idx3Split3RoundTrip(i0: nat, i1: nat, i2: nat, n0: nat, n1: nat)
    requires i0 < n0 && i1 < n1
    ensures Split3(Idx3(i0, i1, i2, n0, n1), n0, n1) == (i0, i1, i2)
  {
    Idx3Value(i0, i1, i2, n0, n1);
    DivModDigits(i0, i1 + n1 * i2, n0);
    DivModDigits(i1, i2, n1);
  }

  lemma Split3Idx3RoundTrip(k: nat, n0: nat, n1: nat)
    requires n0 > 0 && n1 > 0
    ensures var t := Split3(k, n0, n1); Idx3(t.0, t.1, t.2, n0, n1) == k
  {
    var t := Split3(k, n0, n1);
    Idx3Value(t.0, t.1, t.2, n0, n1);
    var a := k / n0;
    assert k == n0 * a + k % n0;
    assert a == n1 * (a / n1) + a % n1;
  }

  /** A flat position below `n0*n1*n2` decodes to a triple inside the view. */
  lemma Split3InRange(k: nat, n0: nat, n1: nat, n2: nat)
    requires n0 > 0 && n1 > 0 && k < n0 * n1 * n2
    ensures Split3(k, n0, n1).2 < n2
  {
    var t := Split3(k, n0, n1);
    Split3Idx3RoundTrip(k, n0, n1);
    Idx3Slab(t.0, t.1, t.2, n0, n1);
  }

  /** A flat position inside slab `i2` of an `n0 x n1 x _` view decodes to that slab. */
  lemma Split3InSlab(k: nat, n0: nat, n1: nat, i2: nat)
    requires n0 > 0 && n1 > 0 && n0 * n1 * i2 <= k < n0 * n1 * (i2 + 1)
    ensures Split3(k, n0, n1).2 == i2
  {
    var t := Split3(k, n0, n1);
    Split3Idx3RoundTrip(k, n0, n1);
    Idx3Slab(t.0, t.1, t.2, n0, n1);
    if t.2 < i2 {
      MulMonotone(t.2 + 1, i2, n0 * n1);
    }
  }

  /** Two in-range triples with the same flat position are equal. */
  lemma Idx3Injective(a0: nat, a1: nat, a2: nat, b0: nat, b1: nat, b2: nat, n0: nat, n1: nat)
    requires a0 < n0 && a1 < n1 && b0 < n0 && b1 < n1
    requires Idx3(a0, a1, a2, n0, n1) == Idx3(b0, b1, b2, n0, n1)
    ensures a0 == b0 && a1 == b1 && a2 == b2
  {
    Idx3Split3RoundTrip(a0, a1, a2, n0, n1);
    Idx3Split3RoundTrip(b0, b1, b2, n0, n1);
  }

  /** The entries of slab `i2` of an `n0 x n1 x _` view occupy the
      contiguous range `[n0*n1*i2, n0*n1*(i2+1))`. */
  lemma Idx3Slab(i0: nat, i1: nat, i2: nat, n0: nat, n1: nat)
    requires i0 < n0 && i1 < n1
    ensures n0 * n1 * i2 <= Idx3(i0, i1, i2, n0, n1) < n0 * n1 * (i2 + 1)
  {
    Idx2InRange(i0, i1, n0, n1);
    Idx2Value(i0, i1, n0);
    Idx3Value(i0, i1, i2, n0, n1);
    assert Idx3(i0, i1, i2, n0, n1) == Idx2(i0, i1, n0) + n0 * n1 * i2;
    assert n0 * n1 * (i2 + 1) == n0 * n1 * i2 + n0 * n1;
  }

  /** A 4-index is a 3-index whose middle digit merges `i1` and `i2`. */
  lemma Idx4AsIdx3(i0: nat, i1: nat, i2: nat, i3: nat, n0: nat, n1: nat, n2: nat)
    ensures Idx4(i0, i1, i2, i3, n0, n1, n2) == Idx3(i0, i1 + n1 * i2, i3, n0, n1 * n2)
  {
    Idx4Value(i0, i1, i2, i3, n0, n1, n2);
    Idx3Value(i0, i1 + n1 * i2, i3, n0, n1 * n2);
    MulDistrib(n1, i2, n2, i3);
  }

  lemma Idx4InRange(i0: nat, i1: nat, i2: nat, i3: nat, n0: nat, n1: nat, n2: nat, n3: nat)
    requires i0 < n0 && i1 < n1 && i2 < n2 && i3 < n3
    ensures Idx4(i0, i1, i2, i3, n0, n1, n2) < n0 * n1 * n2 * n3
  {
    Idx3InRange(i1, i2, i3, n1, n2, n3);
    Idx2InRange(i0, Idx3(i1, i2, i3, n1, n2), n0, n1 * n2 * n3);
    MulAssoc4(n0, n1, n2, n3);
  }

  lemma MulAssoc3(a: nat, b: nat, c: nat)
    ensures a * (b * c) == a * b * c
  {
  }

  lemma MulDistrib(a: nat, b: nat, c: nat, d: nat)
    ensures a * (b + c * d) == a * b + a * c * d
  {
  }

  lemma MulAssoc4(a: nat, b: nat, c: nat, d: nat)
    ensures a * (b * c * d) == a * b * c * d
  {
  }

  /** Entry `(i0, i1, i2)` of the `(n0, n1, n2)` view of `s`. */
  function At3(s: seq<real>, i0: nat, i1: nat, i2: nat, n0: nat, n1: nat, n2: nat): real
    requires i0 < n0 && i1 < n1 && i2 < n2 && |s| >= n0 * n1 * n2
  {
    Idx3InRange(i0, i1, i2, n0, n1, n2);
    s[Idx3(i0, i1, i2, n0, n1)]
  }
}
