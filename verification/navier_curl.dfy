/** The curl reconstruction of the Navier solver (`NavierSolver::ComputeCurl3D`
    and `ComputeCurl2D`, miniapps/fluids/navier_solver.cpp): at every node of
    every element the curl is formed from the physical velocity gradient,
    written into a per-element value vector, accumulated into the shared
    degrees of freedom, and finally averaged over the elements that touched
    each degree of freedom. The gradients themselves come from the finite
    element library and are inputs here. */
module NavierCurl {
  import opened Adjugate
  import opened Layout

  // ---- The curl formulas; `grad(i, j)` is `aIJ` with 1-based names.

  /** The 3D curl `(g21 - g12, g02 - g20, g10 - g01)` (0-based indices). */
  function Curl3D(g: Mat3): (c: seq<real>)
    ensures |c| == 3
  {
    [g.a32 - g.a23, g.a13 - g.a31, g.a21 - g.a12]
  }

  /** The 2D curl of component 0 taken as a scalar: `(g01, -g00)`. */
  function Curl2DScalar(g: Mat2): (c: seq<real>)
    ensures |c| == 2
  {
    [g.a12, -g.a11]
  }

  /** The 2D curl of a vector field, stored as `(g10 - g01, 0)`. */
  function Curl2DVector(g: Mat2): (c: seq<real>)
    ensures |c| == 2
  {
    [g.a21 - g.a12, 0.0]
  }

  function Transpose3(g: Mat3): Mat3 {
    Mat3(g.a11, g.a21, g.a31, g.a12, g.a22, g.a32, g.a13, g.a23, g.a33)
  }

  /** The sign of the permutation `(i, j, k)` of `(0, 1, 2)`, 0 for a repeated index. */
  function Epsilon(i: nat, j: nat, k: nat): real {
    if (i, j, k) in {(0, 1, 2), (1, 2, 0), (2, 0, 1)} then 1.0
    else if (i, j, k) in {(0, 2, 1), (2, 1, 0), (1, 0, 2)} then -1.0
    else 0.0
  }

  /** Entry `(r, c)` of a gradient, 0-based. */
  function Grad(g: Mat3, r: nat, c: nat): real
    requires r < 3 && c < 3
  {
    g.Entry(3 * r + c)
  }

  /** Component `i` of the curl as the textbook sum `sum_jk eps(i,j,k) d u_k / d x_j`. */
  function LeviCivitaCurl(g: Mat3, i: nat): real
    requires i < 3
  {
    Epsilon(i, 0, 0) * Grad(g, 0, 0) + Epsilon(i, 0, 1) * Grad(g, 1, 0) + Epsilon(i, 0, 2) * Grad(g, 2, 0)
    + Epsilon(i, 1, 0) * Grad(g, 0, 1) + Epsilon(i, 1, 1) * Grad(g, 1, 1) + Epsilon(i, 1, 2) * Grad(g, 2, 1)
    + Epsilon(i, 2, 0) * Grad(g, 0, 2) + Epsilon(i, 2, 1) * Grad(g, 1, 2) + Epsilon(i, 2, 2) * Grad(g, 2, 2)
  }

  /** The source's three component formulas are the Levi-Civita curl. */
  lemma Curl3DIsLeviCivita(g: Mat3)
    ensures forall i :: 0 <= i < 3 ==> Curl3D(g)[i] == LeviCivitaCurl(g, i)
  {
    assert Curl3D(g)[0] == LeviCivitaCurl(g, 0);
    assert Curl3D(g)[1] == LeviCivitaCurl(g, 1);
    assert Curl3D(g)[2] == LeviCivitaCurl(g, 2);
  }

  /** The curl vanishes exactly for a symmetric gradient. */
  lemma Curl3DZeroIffSymmetric(g: Mat3)
    ensures Curl3D(g) == [0.0, 0.0, 0.0] <==> g == Transpose3(g)
  {
    if Curl3D(g) == [0.0, 0.0, 0.0] {
      assert Curl3D(g)[0] == 0.0 && Curl3D(g)[1] == 0.0 && Curl3D(g)[2] == 0.0;
    }
  }

  /** Transposing the gradient flips the sign of the curl. */
  lemma Curl3DTranspose(g: Mat3)
    ensures Curl3D(Transpose3(g)) == [-Curl3D(g)[0], -Curl3D(g)[1], -Curl3D(g)[2]]
  {
  }

  /** The gradient of a planar field `(u0(x, y), u1(x, y), 0)` in 3D. */
  function Embed(g: Mat2): Mat3 {
    Mat3(g.a11, g.a12, 0.0, g.a21, g.a22, 0.0, 0.0, 0.0, 0.0)
  }

  /** The stored 2D vector curl is the out-of-plane component of the 3D
      curl of the planar field, whose in-plane components vanish. */
  lemma Curl2DVectorIsPlanarCurl(g: Mat2)
    ensures Curl3D(Embed(g)) == [0.0, 0.0, Curl2DVector(g)[0]]
    ensures Curl2DVector(g)[1] == 0.0
  {
  }

  /** The scalar 2D curl is the gradient of component 0 turned by a right
      angle: orthogonal to it and of the same length. */
  lemma Curl2DScalarIsRotatedGradient(g: Mat2)
    ensures var c := Curl2DScalar(g);
            && c[0] * g.a11 + c[1] * g.a12 == 0.0
            && c[0] * c[0] + c[1] * c[1] == g.a11 * g.a11 + g.a12 * g.a12
  {
  }

  // ---- The per-element value vector.

  /** `vals(elndofs * j + dof) = curl_dof(j)`: component-major, one block of
      `elndofs` values per component. */
  function ElementValues(curls: seq<seq<real>>, ncomp: nat): (vals: seq<real>)
    requires forall d :: 0 <= d < |curls| ==> |curls[d]| == ncomp
    ensures |vals| == |curls| * ncomp
    ensures forall d, j :: 0 <= d < |curls| && 0 <= j < ncomp ==>
              Idx2(d, j, |curls|) < |vals| && vals[Idx2(d, j, |curls|)] == curls[d][j]
  {
    var n := |curls|;
    var vals := seq(n * ncomp, k requires 0 <= k < n * ncomp => ValueAt(curls, ncomp, k));
    forall d, j | 0 <= d < n && 0 <= j < ncomp
      ensures Idx2(d, j, n) < n * ncomp && vals[Idx2(d, j, n)] == curls[d][j]
    {
      Idx2InRange(d, j, n, ncomp);
      Idx2Decode(d, j, n);
    }
    vals
  }

  /** Component `k / n` of node `k % n`, for a position `k` of the value vector. */
  function ValueAt(curls: seq<seq<real>>, ncomp: nat, k: nat): real
    requires forall d :: 0 <= d < |curls| ==> |curls[d]| == ncomp
    requires k < |curls| * ncomp
  {
    DecodeInRange(|curls|, ncomp, k);
    curls[k % |curls|][k / |curls|]
  }

  lemma DecodeInRange(n: nat, m: nat, k: nat)
    requires k < n * m
    ensures n > 0 && k % n < n && k / n < m
  {
    if k / n >= m {
      MulMonotone(m, k / n, n);
    }
  }

  lemma Idx2Decode(d: nat, j: nat, n: nat)
    requires d < n
    ensures Idx2(d, j, n) % n == d && Idx2(d, j, n) / n == j
  {
    Idx2Value(d, j, n);
    DivModDigits(d, j, n);
  }

  /** Every position of the value vector is written: position `k` holds
      component `k / elndofs` of node `k % elndofs`. */
  lemma ElementValuesCover(curls: seq<seq<real>>, ncomp: nat, k: nat)
    requires forall d :: 0 <= d < |curls| ==> |curls[d]| == ncomp
    requires k < |curls| * ncomp
    ensures |curls| > 0 && k / |curls| < ncomp
    ensures ElementValues(curls, ncomp)[k] == curls[k % |curls|][k / |curls|]
  {
    DecodeInRange(|curls|, ncomp, k);
  }

  /** The values of one element in 3D. */
  function ElementCurls3D(grads: seq<Mat3>): (vals: seq<real>)
    ensures |vals| == 3 * |grads|
  {
    ElementValues(seq(|grads|, d requires 0 <= d < |grads| => Curl3D(grads[d])), 3)
  }

  /** The values of one element in 2D; `assumeScalar` selects the formula. */
  function ElementCurls2D(grads: seq<Mat2>, assumeScalar: bool): (vals: seq<real>)
    ensures |vals| == 2 * |grads|
  {
    ElementValues(seq(|grads|, d requires 0 <= d < |grads| =>
                    if assumeScalar then Curl2DScalar(grads[d]) else Curl2DVector(grads[d])), 2)
  }

  // ---- Accumulation into the shared degrees of freedom.

  /** What one element adds: its vdofs and the value at each of them. */
  datatype Contribution = Contribution(vdofs: seq<nat>, vals: seq<real>)

  predicate WellFormed(c: Contribution, size: nat) {
    |c.vdofs| == |c.vals| && forall j :: 0 <= j < |c.vdofs| ==> c.vdofs[j] < size
  }

  predicate AllWellFormed(es: seq<Contribution>, size: nat) {
    forall e :: 0 <= e < |es| ==> WellFormed(es[e], size)
  }

  /** The sum of the first `n` values an element adds at dof `i`. */
  function DofSum(c: Contribution, i: nat, n: nat): real
    requires n <= |c.vdofs| && n <= |c.vals|
  {
    if n == 0 then 0.0 else DofSum(c, i, n - 1) + (if c.vdofs[n - 1] == i then c.vals[n - 1] else 0.0)
  }

  /** How many of the first `n` vdofs of an element are `i`. */
  function DofCount(c: Contribution, i: nat, n: nat): nat
    requires n <= |c.vdofs|
  {
    if n == 0 then 0 else DofCount(c, i, n - 1) + (if c.vdofs[n - 1] == i then 1 else 0)
  }

  /** The sum of everything the elements add at dof `i`. */
  function Total(es: seq<Contribution>, i: nat): real
    requires forall e :: 0 <= e < |es| ==> |es[e].vdofs| == |es[e].vals|
  {
    if |es| == 0 then 0.0
    else Total(es[..|es| - 1], i) + DofSum(es[|es| - 1], i, |es[|es| - 1].vdofs|)
  }

  /** `zones_per_vdof[i]`: how often the elements touch dof `i`. */
  function Count(es: seq<Contribution>, i: nat): nat {
    if |es| == 0 then 0
    else Count(es[..|es| - 1], i) + DofCount(es[|es| - 1], i, |es[|es| - 1].vdofs|)
  }

  /** The accumulation loops: `cu(ldof) += vals[j]` and `zones_per_vdof[ldof]++`. */
  method AccumulateAndCount(size: nat, es: seq<Contribution>) returns (cu: seq<real>, zones: seq<nat>)
    requires AllWellFormed(es, size)
    ensures |cu| == size && |zones| == size
    ensures forall i :: 0 <= i < size ==> cu[i] == Total(es, i) && zones[i] == Count(es, i)
  {
    cu := seq(size, _ => 0.0);
    zones := seq(size, _ => 0);
    var e := 0;
    while e < |es|
      invariant 0 <= e <= |es| && |cu| == size && |zones| == size
      invariant forall i :: 0 <= i < size ==> cu[i] == Total(es[..e], i) && zones[i] == Count(es[..e], i)
    {
      var c := es[e];
      var j := 0;
      while j < |c.vdofs|
        invariant 0 <= j <= |c.vdofs| && |cu| == size && |zones| == size
        invariant forall i :: 0 <= i < size ==>
                    cu[i] == Total(es[..e], i) + DofSum(c, i, j)
                    && zones[i] == Count(es[..e], i) + DofCount(c, i, j)
      {
        var d := c.vdofs[j];
        cu := cu[d := cu[d] + c.vals[j]];
        zones := zones[d := zones[d] + 1];
        j := j + 1;
      }
      assert es[..e + 1][..e] == es[..e];
      e := e + 1;
    }
    assert es[..|es|] == es;
  }

  /** The averaging loop: `cu(i) /= nz` where `nz != 0`. */
  method ComputeMeans(cu: seq<real>, zones: seq<nat>) returns (r: seq<real>)
    requires |zones| == |cu|
    ensures |r| == |cu|
    ensures forall i :: 0 <= i < |cu| ==> r[i] == if zones[i] != 0 then cu[i] / zones[i] as real else cu[i]
  {
    r := cu;
    var i := 0;
    while i < |r|
      invariant 0 <= i <= |r| && |r| == |cu|
      invariant forall k :: 0 <= k < i ==> r[k] == if zones[k] != 0 then cu[k] / zones[k] as real else cu[k]
      invariant forall k :: i <= k < |r| ==> r[k] == cu[k]
    {
      var nz := zones[i];
      if nz != 0 {
        r := r[i := r[i] / nz as real];
      }
      i := i + 1;
    }
  }

  /** The whole reconstruction on one rank (the group reductions are the
      identity there): every dof holds the mean of what the elements
      contributed to it, and an untouched dof holds 0. */
  method AverageContributions(size: nat, es: seq<Contribution>) returns (cu: seq<real>)
    requires AllWellFormed(es, size)
    ensures |cu| == size
    ensures forall i :: 0 <= i < size ==>
              cu[i] == if Count(es, i) > 0 then Total(es, i) / Count(es, i) as real else 0.0
  {
    var sums, zones := AccumulateAndCount(size, es);
    forall i | 0 <= i < size && Count(es, i) == 0
      ensures Total(es, i) == 0.0
    {
      UntouchedIsZero(es, i);
    }
    cu := ComputeMeans(sums, zones);
  }

  /** A dof no element touches receives nothing. */
  lemma {:induction false} UntouchedIsZero(es: seq<Contribution>, i: nat)
    requires forall e :: 0 <= e < |es| ==> |es[e].vdofs| == |es[e].vals|
    requires Count(es, i) == 0
    ensures Total(es, i) == 0.0
  {
    if |es| > 0 {
      var c := es[|es| - 1];
      UntouchedIsZero(es[..|es| - 1], i);
      UntouchedElementIsZero(c, i, |c.vdofs|);
    }
  }

  lemma {:induction false} UntouchedElementIsZero(c: Contribution, i: nat, n: nat)
    requires n <= |c.vdofs| == |c.vals| && DofCount(c, i, n) == 0
    ensures DofSum(c, i, n) == 0.0
  {
    if n > 0 {
      UntouchedElementIsZero(c, i, n - 1);
    }
  }

  /** Every value contributed at dof `i` equals `v`. */
  predicate Agree(es: seq<Contribution>, i: nat, v: real)
    requires forall e :: 0 <= e < |es| ==> |es[e].vdofs| == |es[e].vals|
  {
    forall e, j :: 0 <= e < |es| && 0 <= j < |es[e].vdofs| && es[e].vdofs[j] == i ==> es[e].vals[j] == v
  }

  /** `n` copies of `v`. */
  function Times(n: nat, v: real): real {
    n as real * v
  }

  lemma TimesAdd(a: nat, b: nat, v: real)
    ensures Times(a + b, v) == Times(a, v) + Times(b, v)
  {
  }

  /** When all elements agree on the value at a dof, the sum is count times it. */
  lemma {:induction false} AgreeingTotal(es: seq<Contribution>, i: nat, v: real)
    requires forall e :: 0 <= e < |es| ==> |es[e].vdofs| == |es[e].vals|
    requires Agree(es, i, v)
    ensures Total(es, i) == Times(Count(es, i), v)
  {
    if |es| > 0 {
      var p, c := es[..|es| - 1], es[|es| - 1];
      forall e, j | 0 <= e < |p| && 0 <= j < |p[e].vdofs| && p[e].vdofs[j] == i
        ensures p[e].vals[j] == v
      {
        assert p[e] == es[e];
      }
      AgreeingTotal(p, i, v);
      AgreeingElement(c, i, v, |c.vdofs|);
      var a, b := Count(p, i), DofCount(c, i, |c.vdofs|);
      assert Total(es, i) == Total(p, i) + DofSum(c, i, |c.vdofs|);
      assert Count(es, i) == a + b;
      TimesAdd(a, b, v);
    }
  }

  lemma {:induction false} AgreeingElement(c: Contribution, i: nat, v: real, n: nat)
    requires n <= |c.vdofs| == |c.vals|
    requires forall j :: 0 <= j < n && c.vdofs[j] == i ==> c.vals[j] == v
    ensures DofSum(c, i, n) == Times(DofCount(c, i, n), v)
  {
    if n > 0 {
      AgreeingElement(c, i, v, n - 1);
      TimesAdd(DofCount(c, i, n - 1), if c.vdofs[n - 1] == i then 1 else 0, v);
    }
  }

  /** A field the elements agree on is reproduced exactly by the averaging:
      the mean of equal contributions is their common value. */
  lemma MeanOfAgreeingValues(es: seq<Contribution>, i: nat, v: real)
    requires forall e :: 0 <= e < |es| ==> |es[e].vdofs| == |es[e].vals|
    requires Agree(es, i, v) && Count(es, i) > 0
    ensures Total(es, i) / Count(es, i) as real == v
  {
    AgreeingTotal(es, i, v);
    CopiesMean(Total(es, i), Count(es, i), v);
  }

  lemma CopiesMean(t: real, n: nat, v: real)
    requires n > 0 && t == Times(n, v)
    ensures t / n as real == v
  {
  }

  // ---- The two entry points.

  /** One element as the reconstruction sees it: its vdofs (component-major,
      `GetElementVDofs`) and the physical velocity gradient at each node. */
  datatype Element<M> = Element(vdofs: seq<nat>, grads: seq<M>)

  function Contributions3D(els: seq<Element<Mat3>>): (es: seq<Contribution>)
    ensures |es| == |els|
    ensures forall e :: 0 <= e < |els| ==> es[e] == Contribution(els[e].vdofs, ElementCurls3D(els[e].grads))
    ensures (forall e :: 0 <= e < |els| ==> |els[e].vdofs| == 3 * |els[e].grads|) ==>
            forall e :: 0 <= e < |es| ==> |es[e].vdofs| == |es[e].vals|
  {
    seq(|els|, e requires 0 <= e < |els| => Contribution(els[e].vdofs, ElementCurls3D(els[e].grads)))
  }

  function Contributions2D(els: seq<Element<Mat2>>, assumeScalar: bool): (es: seq<Contribution>)
    ensures |es| == |els|
    ensures forall e :: 0 <= e < |els| ==> es[e] == Contribution(els[e].vdofs, ElementCurls2D(els[e].grads, assumeScalar))
    ensures (forall e :: 0 <= e < |els| ==> |els[e].vdofs| == 2 * |els[e].grads|) ==>
            forall e :: 0 <= e < |es| ==> |es[e].vdofs| == |es[e].vals|
  {
    seq(|els|, e requires 0 <= e < |els| => Contribution(els[e].vdofs, ElementCurls2D(els[e].grads, assumeScalar)))
  }

  /** `ComputeCurl3D(u, cu)` on one rank: every dof of `cu` is the mean of
      the curl values the elements sharing it computed there. */
  method ComputeCurl3D(size: nat, els: seq<Element<Mat3>>) returns (cu: seq<real>)
    requires forall e :: 0 <= e < |els| ==> |els[e].vdofs| == 3 * |els[e].grads|
    requires forall e, j :: 0 <= e < |els| && 0 <= j < |els[e].vdofs| ==> els[e].vdofs[j] < size
    ensures |cu| == size
    ensures var es := Contributions3D(els);
            forall i :: 0 <= i < size ==>
              cu[i] == if Count(es, i) > 0 then Total(es, i) / Count(es, i) as real else 0.0
  {
    var es := Contributions3D(els);
    assert AllWellFormed(es, size) by {
      forall e | 0 <= e < |es|
        ensures WellFormed(es[e], size)
      {
      }
    }
    cu := AverageContributions(size, es);
  }

  /** `ComputeCurl2D(u, cu, assume_scalar)` on one rank. */
  method ComputeCurl2D(size: nat, els: seq<Element<Mat2>>, assumeScalar: bool) returns (cu: seq<real>)
    requires forall e :: 0 <= e < |els| ==> |els[e].vdofs| == 2 * |els[e].grads|
    requires forall e, j :: 0 <= e < |els| && 0 <= j < |els[e].vdofs| ==> els[e].vdofs[j] < size
    ensures |cu| == size
    ensures var es := Contributions2D(els, assumeScalar);
            forall i :: 0 <= i < size ==>
              cu[i] == if Count(es, i) > 0 then Total(es, i) / Count(es, i) as real else 0.0
  {
    var es := Contributions2D(els, assumeScalar);
    assert AllWellFormed(es, size) by {
      forall e | 0 <= e < |es|
        ensures WellFormed(es[e], size)
      {
      }
    }
    cu := AverageContributions(size, es);
  }
}
