/** The PML material coefficients of examples/ex25.cpp. With the stretch
    factors `dxs` of a point and `det = dxs[0] * ... * dxs[dim-1]`,
    `detJ_JT_J_inv_Re/Im` give the real or imaginary part of the diagonal
    matrix `det / dxs[i]^2` (the mass term) and `detJ_inv_JT_J_Re/Im` that of
    `dxs[i]^2 / det`, or of the scalar `1 / det` in 2D where the curl is a
    scalar (the curl-curl term). */
module PmlCoeff {
  import opened Complex
  import opened Pml

  /** Every stretch factor can be divided by. */
  predicate AllInvertible(dxs: seq<Complex>) {
    forall i :: 0 <= i < |dxs| ==> Invertible(dxs[i])
  }

  /** `det = 1; det *= dxs[i]` for each axis in turn. */
  function Det(dxs: seq<Complex>): Complex {
    if |dxs| == 0 then One else Mul(Det(dxs[..|dxs| - 1]), dxs[|dxs| - 1])
  }

  /** A product of invertible factors is invertible. */
  lemma {:induction false} DetInvertible(dxs: seq<Complex>)
    requires AllInvertible(dxs)
    ensures Invertible(Det(dxs))
    decreases |dxs|
  {
    if |dxs| == 0 {
      assert NormSq(One) == 1.0;
    } else {
      var init := dxs[..|dxs| - 1];
      assert AllInvertible(init) by {
        forall i | 0 <= i < |init|
          ensures Invertible(init[i])
        {
          assert init[i] == dxs[i];
        }
      }
      DetInvertible(init);
      MulInvertible(Det(init), dxs[|dxs| - 1]);
    }
  }

  /** The diagonal entry `det / pow(dxs[i], 2)` of `detJ_JT_J_inv`. */
  function JacobianFactor(dxs: seq<Complex>, i: nat): Complex
    requires AllInvertible(dxs) && i < |dxs|
  {
    MulInvertible(dxs[i], dxs[i]);
    Div(Det(dxs), Sq(dxs[i]))
  }

  /** The diagonal entry `pow(dxs[i], 2) / det` of `detJ_inv_JT_J` in 3D. */
  function InverseFactor(dxs: seq<Complex>, i: nat): Complex
    requires AllInvertible(dxs) && i < |dxs|
  {
    DetInvertible(dxs);
    Div(Sq(dxs[i]), Det(dxs))
  }

  /** The scalar `1.0 / det` of `detJ_inv_JT_J` in 2D. */
  function ScalarFactor(dxs: seq<Complex>): Complex
    requires AllInvertible(dxs)
  {
    DetInvertible(dxs);
    Div(One, Det(dxs))
  }

  /** A square matrix, as rows, of the given size. */
  predicate Square(m: seq<seq<real>>, size: nat) {
    |m| == size && forall i :: 0 <= i < |m| ==> |m[i]| == size
  }

  /** `M = 0.0` followed by `M(i,i) = ...` for each axis. */
  function Diagonal(d: seq<real>): (m: seq<seq<real>>)
    ensures Square(m, |d|)
    ensures forall i, j :: 0 <= i < |d| && 0 <= j < |d| ==> m[i][j] == (if i == j then d[i] else 0.0)
  {
    seq(|d|, i requires 0 <= i < |d| => seq(|d|, j requires 0 <= j < |d| => if i == j then d[i] else 0.0))
  }

  /** `detJ_JT_J_inv_Re/Im` on the stretch factors of a point; the
      coefficient is built with height `dim`. */
  function DetJJtJInv(dxs: seq<Complex>, part: Part): (m: seq<seq<real>>)
    requires AllInvertible(dxs)
    ensures Square(m, |dxs|)
    ensures forall i, j :: 0 <= i < |dxs| && 0 <= j < |dxs| ==>
              m[i][j] == (if i == j then PartOf(JacobianFactor(dxs, i), part) else 0.0)
  {
    Diagonal(seq(|dxs|, i requires 0 <= i < |dxs| => PartOf(JacobianFactor(dxs, i), part)))
  }

  /** The height of the curl-curl coefficient: the curl is a scalar in 2D. */
  function CurlDim(dim: nat): nat {
    if dim == 2 then 1 else dim
  }

  /** `detJ_inv_JT_J_Re/Im`: in 2D `M = (1.0 / det).real()` sets the single
      entry of the 1x1 coefficient, otherwise the diagonal is written. */
  function DetJInvJtJ(dxs: seq<Complex>, part: Part): (m: seq<seq<real>>)
    requires AllInvertible(dxs)
    ensures Square(m, CurlDim(|dxs|))
    ensures |dxs| == 2 ==> m == [[PartOf(ScalarFactor(dxs), part)]]
    ensures |dxs| != 2 ==> forall i, j :: 0 <= i < |dxs| && 0 <= j < |dxs| ==>
              m[i][j] == (if i == j then PartOf(InverseFactor(dxs, i), part) else 0.0)
  {
    if |dxs| == 2 then [[PartOf(ScalarFactor(dxs), part)]]
    else Diagonal(seq(|dxs|, i requires 0 <= i < |dxs| => PartOf(InverseFactor(dxs, i), part)))
  }

  // ---- What the entries are.

  /** `det / dxs[i]^2` times `dxs[i]^2` is the determinant. */
  lemma JacobianFactorScales(dxs: seq<Complex>, i: nat)
    requires AllInvertible(dxs) && i < |dxs|
    ensures Mul(JacobianFactor(dxs, i), Sq(dxs[i])) == Det(dxs)
  {
    MulInvertible(dxs[i], dxs[i]);
    DivTimes(Det(dxs), Sq(dxs[i]));
  }

  /** In 3D the curl-curl and mass entries of an axis are reciprocal. */
  lemma FactorsReciprocal(dxs: seq<Complex>, i: nat)
    requires AllInvertible(dxs) && i < |dxs|
    ensures Mul(JacobianFactor(dxs, i), InverseFactor(dxs, i)) == One
  {
    MulInvertible(dxs[i], dxs[i]);
    DetInvertible(dxs);
    ReciprocalQuotients(Det(dxs), Sq(dxs[i]));
  }

  /** In 2D the scalar curl-curl coefficient inverts the determinant. */
  lemma ScalarFactorInverts(dxs: seq<Complex>)
    requires AllInvertible(dxs)
    ensures Mul(ScalarFactor(dxs), Det(dxs)) == One
  {
    DetInvertible(dxs);
    DivTimes(One, Det(dxs));
  }

  // ---- What the coefficient matrices mean.

  /** Diagonal entry `i` of a coefficient, from its `_Re` and `_Im` matrices. */
  function Recombined(re: seq<seq<real>>, im: seq<seq<real>>, i: nat): Complex
    requires i < |re| && i < |im| && i < |re[i]| && i < |im[i]|
  {
    Complex(re[i][i], im[i][i])
  }

  /** The `_Re` and `_Im` mass coefficients together hold, on axis `i`, the
      number that `dxs[i]^2` scales to the determinant. */
  lemma MassCoefficientScales(dxs: seq<Complex>, i: nat)
    requires AllInvertible(dxs) && i < |dxs|
    ensures Mul(Recombined(DetJJtJInv(dxs, Real), DetJJtJInv(dxs, Imag), i), Sq(dxs[i])) == Det(dxs)
  {
    assert Recombined(DetJJtJInv(dxs, Real), DetJJtJInv(dxs, Imag), i) == JacobianFactor(dxs, i);
    JacobianFactorScales(dxs, i);
  }

  /** Away from 2D, the curl-curl coefficient is the entrywise reciprocal
      of the mass coefficient on every axis. */
  lemma CoefficientsReciprocal(dxs: seq<Complex>, i: nat)
    requires AllInvertible(dxs) && |dxs| != 2 && i < |dxs|
    ensures Mul(Recombined(DetJJtJInv(dxs, Real), DetJJtJInv(dxs, Imag), i),
                Recombined(DetJInvJtJ(dxs, Real), DetJInvJtJ(dxs, Imag), i)) == One
  {
    assert Recombined(DetJJtJInv(dxs, Real), DetJJtJInv(dxs, Imag), i) == JacobianFactor(dxs, i);
    assert Recombined(DetJInvJtJ(dxs, Real), DetJInvJtJ(dxs, Imag), i) == InverseFactor(dxs, i);
    FactorsReciprocal(dxs, i);
  }

  /** In 2D the single curl-curl entry inverts the determinant. */
  lemma CurlCoefficientInverts2D(dxs: seq<Complex>)
    requires AllInvertible(dxs) && |dxs| == 2
    ensures Mul(Recombined(DetJInvJtJ(dxs, Real), DetJInvJtJ(dxs, Imag), 0), Det(dxs)) == One
  {
    assert Recombined(DetJInvJtJ(dxs, Real), DetJInvJtJ(dxs, Imag), 0) == ScalarFactor(dxs);
    ScalarFactorInverts(dxs);
  }

  /** In 2D the mass coefficient is `diag(s1 / s0, s0 / s1)`. */
  lemma JacobianFactor2D(dxs: seq<Complex>)
    requires AllInvertible(dxs) && |dxs| == 2
    ensures JacobianFactor(dxs, 0) == Div(dxs[1], dxs[0])
    ensures JacobianFactor(dxs, 1) == Div(dxs[0], dxs[1])
  {
    var s0, s1 := dxs[0], dxs[1];
    assert dxs[..1][..0] == [] && dxs[..1][0] == s0;
    assert Det(dxs[..1]) == Mul(One, s0);
    assert Det(dxs) == Mul(Mul(One, s0), s1);
    MulOne(s0);
    QuotientOfSquare(s1, s0);
    MulCommutes(s0, s1);
    QuotientOfSquare(s0, s1);
  }

  /** `(a b) / (b b) == a / b`. */
  lemma QuotientOfSquare(a: Complex, b: Complex)
    requires Invertible(b)
    ensures Invertible(Sq(b)) && Div(Mul(b, a), Sq(b)) == Div(a, b)
  {
    MulInvertible(b, b);
    var q := Div(a, b);
    DivTimes(a, b);
    // q (b b) == (q b) b == a b == b a.
    MulAssociates(q, b, b);
    MulCommutes(a, b);
    TimesDiv(q, Sq(b));
  }

  // ---- Outside the layer.

  /** The identity matrix of size `n`. */
  predicate IsIdentity(m: seq<seq<real>>, n: nat) {
    Square(m, n) && forall i, j :: 0 <= i < n && 0 <= j < n ==> m[i][j] == (if i == j then 1.0 else 0.0)
  }

  /** The zero matrix of size `n`. */
  predicate IsZero(m: seq<seq<real>>, n: nat) {
    Square(m, n) && forall i, j :: 0 <= i < n && 0 <= j < n ==> m[i][j] == 0.0
  }

  /** With no stretch (`dxs` all 1) both coefficients are the identity in
      their real part and zero in their imaginary part. */
  lemma UnstretchedCoefficients(dxs: seq<Complex>)
    requires forall i :: 0 <= i < |dxs| ==> dxs[i] == One
    ensures AllInvertible(dxs)
    ensures IsIdentity(DetJJtJInv(dxs, Real), |dxs|) && IsZero(DetJJtJInv(dxs, Imag), |dxs|)
    ensures IsIdentity(DetJInvJtJ(dxs, Real), CurlDim(|dxs|)) && IsZero(DetJInvJtJ(dxs, Imag), CurlDim(|dxs|))
  {
    assert NormSq(One) == 1.0;
    forall i | 0 <= i < |dxs|
      ensures JacobianFactor(dxs, i) == One && InverseFactor(dxs, i) == One && ScalarFactor(dxs) == One
    {
      UnitFactors(dxs, i);
    }
    if |dxs| == 2 {
      UnitFactors(dxs, 0);
    }
  }

  /** Unit stretch factors give unit entries. */
  lemma UnitFactors(dxs: seq<Complex>, i: nat)
    requires forall j :: 0 <= j < |dxs| ==> dxs[j] == One
    requires i < |dxs|
    ensures AllInvertible(dxs)
    ensures JacobianFactor(dxs, i) == One && InverseFactor(dxs, i) == One && ScalarFactor(dxs) == One
  {
    UnitInvertible();
    UnitJacobian(dxs, i);
    UnitInverse(dxs, i);
    UnitScalar(dxs);
  }

  lemma UnitJacobian(dxs: seq<Complex>, i: nat)
    requires forall j :: 0 <= j < |dxs| ==> dxs[j] == One
    requires i < |dxs| && AllInvertible(dxs)
    ensures JacobianFactor(dxs, i) == One
  {
    UnitDet(dxs);
    MulOne(One);
    UnitQuotients(Det(dxs), Sq(dxs[i]));
  }

  lemma UnitInverse(dxs: seq<Complex>, i: nat)
    requires forall j :: 0 <= j < |dxs| ==> dxs[j] == One
    requires i < |dxs| && AllInvertible(dxs)
    ensures InverseFactor(dxs, i) == One
  {
    UnitDet(dxs);
    MulOne(One);
    UnitQuotients(Det(dxs), Sq(dxs[i]));
  }

  lemma UnitScalar(dxs: seq<Complex>)
    requires forall j :: 0 <= j < |dxs| ==> dxs[j] == One
    requires AllInvertible(dxs)
    ensures ScalarFactor(dxs) == One
  {
    UnitDet(dxs);
    UnitQuotients(Det(dxs), One);
  }

  lemma UnitInvertible()
    ensures Invertible(One)
  {
    assert NormSq(One) == 1.0;
  }

  lemma UnitQuotients(d: Complex, q: Complex)
    requires d == One && q == One
    ensures Invertible(d) && Invertible(q)
    ensures Div(d, q) == One && Div(q, d) == One && Div(One, d) == One
  {
    assert NormSq(One) == 1.0;
  }

  lemma {:induction false} UnitDet(dxs: seq<Complex>)
    requires forall i :: 0 <= i < |dxs| ==> dxs[i] == One
    ensures Det(dxs) == One
    decreases |dxs|
  {
    if |dxs| > 0 {
      UnitDet(dxs[..|dxs| - 1]);
      MulOne(One);
    }
  }

  /** At a point inside the computational box, or on its faces, the PML
      coefficients reduce to those of the unstretched problem. */
  lemma InteriorCoefficients(p: CartesianPml, k: real, x: seq<real>)
    requires StretchDefinedAt(p, k, x)
    requires forall i :: 0 <= i < |p.comp| ==> p.comp[i].lower <= p.comp[i].upper
    requires !Outside(p.comp, x)
    ensures var dxs := StretchFunction(p, k, x);
            IsIdentity(DetJJtJInv(dxs, Real), |p.length|) && IsZero(DetJJtJInv(dxs, Imag), |p.length|)
    ensures var dxs := StretchFunction(p, k, x);
            IsIdentity(DetJInvJtJ(dxs, Real), CurlDim(|p.length|)) && IsZero(DetJInvJtJ(dxs, Imag), CurlDim(|p.length|))
  {
    UnstretchedIffInside(p, k, x);
    UnstretchedCoefficients(StretchFunction(p, k, x));
  }
}
