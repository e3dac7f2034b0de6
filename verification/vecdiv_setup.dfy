/** Partial assembly setup of the vector divergence integrator
    (fem/bilininteg_vecdivergence.cpp): for every element `e` and
    quadrature point `q`, `pa_data` receives `W[q] * COEFF * adj(J(q, e))`,
    row-major, in the `(NQ, dim*dim, NE)` layout. */
module VecDivSetup {
  import opened Wrappers
  import opened Reals
  import opened Layout
  import opened Adjugate

  /** The fatal errors of setup: `MFEM_ABORT`, `MFEM_VERIFY` and the
      debug-build `MFEM_ASSERT`. */
  datatype SetupError = InvalidDimension | UnsupportedCoefficient | UnsupportedOrdering

  /** Only `ConstantCoefficient` carries a value the setup can use. */
  datatype Coefficient = Constant(value: real) | NonConstant

  datatype Ordering = ByNodes | ByVDim

  /** Jacobian of element `e` at point `q`, read through the
      `(NQ, 2, 2, NE)` view: `Jrc = J(q, r-1, c-1, e)`. */
  function JAt2(j: seq<real>, nq: nat, ne: nat, q: nat, e: nat): Mat2
    requires q < nq && e < ne && |j| >= nq * 2 * 2 * ne
  {
    Idx4InRange(q, 0, 0, e, nq, 2, 2, ne);
    Idx4InRange(q, 1, 0, e, nq, 2, 2, ne);
    Idx4InRange(q, 0, 1, e, nq, 2, 2, ne);
    Idx4InRange(q, 1, 1, e, nq, 2, 2, ne);
    Mat2(j[Idx4(q, 0, 0, e, nq, 2, 2)], j[Idx4(q, 0, 1, e, nq, 2, 2)],
         j[Idx4(q, 1, 0, e, nq, 2, 2)], j[Idx4(q, 1, 1, e, nq, 2, 2)])
  }

  /** Jacobian of element `e` at point `q` through the `(NQ, 3, 3, NE)` view. */
  function JAt3(j: seq<real>, nq: nat, ne: nat, q: nat, e: nat): Mat3
    requires q < nq && e < ne && |j| >= nq * 3 * 3 * ne
  {
    Mat3(JEntry3(j, nq, ne, q, 0, 0, e), JEntry3(j, nq, ne, q, 0, 1, e), JEntry3(j, nq, ne, q, 0, 2, e),
         JEntry3(j, nq, ne, q, 1, 0, e), JEntry3(j, nq, ne, q, 1, 1, e), JEntry3(j, nq, ne, q, 1, 2, e),
         JEntry3(j, nq, ne, q, 2, 0, e), JEntry3(j, nq, ne, q, 2, 1, e), JEntry3(j, nq, ne, q, 2, 2, e))
  }

  function JEntry3(j: seq<real>, nq: nat, ne: nat, q: nat, r: nat, c: nat, e: nat): real
    requires q < nq && r < 3 && c < 3 && e < ne && |j| >= nq * 3 * 3 * ne
  {
    Idx4InRange(q, r, c, e, nq, 3, 3, ne);
    j[Idx4(q, r, c, e, nq, 3, 3)]
  }

  /** The block the 2D setup stores at `(q, e)`: `W[q]*COEFF*adj(J)`. */
  function Stored2(w: seq<real>, j: seq<real>, coeff: real, nq: nat, ne: nat, q: nat, e: nat): Mat2
    requires q < nq && e < ne && |w| >= nq && |j| >= nq * 2 * 2 * ne
  {
    Scale2(w[q] * coeff, Adj2(JAt2(j, nq, ne, q, e)))
  }

  /** The block the 3D setup stores at `(q, e)`: `cw*adj(J)` with `cw = W[q]*COEFF`. */
  function Stored3(w: seq<real>, j: seq<real>, coeff: real, nq: nat, ne: nat, q: nat, e: nat): Mat3
    requires q < nq && e < ne && |w| >= nq && |j| >= nq * 3 * 3 * ne
  {
    Scale3(w[q] * coeff, Adj3(JAt3(j, nq, ne, q, e)))
  }

  /** The first three row-major entries of a stored 2D block: `cw*J22`,
      `-cw*J12` and `-cw*J21`. */
  lemma Stored2Entries(w: seq<real>, j: seq<real>, coeff: real, nq: nat, ne: nat, q: nat, e: nat)
    requires q < nq && e < ne && |w| >= nq && |j| >= nq * 2 * 2 * ne
    ensures var jm := JAt2(j, nq, ne, q, e);
            var m := Stored2(w, j, coeff, nq, ne, q, e);
            m.Entry(0) == Scale(Scale(w[q], coeff), jm.a22)
            && m.Entry(1) == -Scale(Scale(w[q], coeff), jm.a12)
            && m.Entry(2) == -Scale(Scale(w[q], coeff), jm.a21)
  {
  }

  /** Value the 2D setup writes at flat position `i < nq*4*ne`. */
  function Setup2DEntry(w: seq<real>, j: seq<real>, coeff: real, nq: nat, ne: nat, i: nat): real
    requires nq > 0 && i < nq * 4 * ne && |w| >= nq && |j| >= nq * 2 * 2 * ne
  {
    Split3InRange(i, nq, 4, ne);
    var t := Split3(i, nq, 4);
    Stored2(w, j, coeff, nq, ne, t.0, t.2).Entry(t.1)
  }

  /** `PAVectorDivergenceSetup2D` with `NQ = nq`: the `(NQ, 4, NE)` view of
      `op` is overwritten; entries past `NQ*4*NE` keep their old values. */
  function Setup2D(nq: nat, ne: nat, w: seq<real>, j: seq<real>, coeff: real, op: seq<real>): (r: seq<real>)
    requires |w| >= nq && |j| >= nq * 2 * 2 * ne && |op| >= nq * 4 * ne
    ensures |r| == |op|
    ensures forall i | nq * 4 * ne <= i < |op| :: r[i] == op[i]
  {
    seq(|op|, i requires 0 <= i < |op| =>
      if i < nq * 4 * ne then Setup2DEntry(w, j, coeff, nq, ne, i) else op[i])
  }

  /** Value the 3D setup writes at flat position `i < nq*9*ne`. */
  function Setup3DEntry(w: seq<real>, j: seq<real>, coeff: real, nq: nat, ne: nat, i: nat): real
    requires nq > 0 && i < nq * 9 * ne && |w| >= nq && |j| >= nq * 3 * 3 * ne
  {
    Split3InRange(i, nq, 9, ne);
    var t := Split3(i, nq, 9);
    Stored3(w, j, coeff, nq, ne, t.0, t.2).Entry(t.1)
  }

  /** `PAVectorDivergenceSetup3D` with `NQ = nq`. */
  function Setup3D(nq: nat, ne: nat, w: seq<real>, j: seq<real>, coeff: real, op: seq<real>): (r: seq<real>)
    requires |w| >= nq && |j| >= nq * 3 * 3 * ne && |op| >= nq * 9 * ne
    ensures |r| == |op|
    ensures forall i | nq * 9 * ne <= i < |op| :: r[i] == op[i]
  {
    seq(|op|, i requires 0 <= i < |op| =>
      if i < nq * 9 * ne then Setup3DEntry(w, j, coeff, nq, ne, i) else op[i])
  }

  /** Entry `(q, k, e)` of the 2D setup output is entry `k` (row-major) of
      `W[q]*COEFF*adj(J(q, e))`. */
  lemma Setup2DStores(nq: nat, ne: nat, w: seq<real>, j: seq<real>, coeff: real, op: seq<real>,
                      q: nat, k: nat, e: nat)
    requires |w| >= nq && |j| >= nq * 2 * 2 * ne && |op| >= nq * 4 * ne
    requires q < nq && k < 4 && e < ne
    ensures At3(Setup2D(nq, ne, w, j, coeff, op), q, k, e, nq, 4, ne)
            == Stored2(w, j, coeff, nq, ne, q, e).Entry(k)
  {
    Idx3InRange(q, k, e, nq, 4, ne);
    Idx3Split3RoundTrip(q, k, e, nq, 4);
  }

  lemma Setup3DStores(nq: nat, ne: nat, w: seq<real>, j: seq<real>, coeff: real, op: seq<real>,
                      q: nat, k: nat, e: nat)
    requires |w| >= nq && |j| >= nq * 3 * 3 * ne && |op| >= nq * 9 * ne
    requires q < nq && k < 9 && e < ne
    ensures At3(Setup3D(nq, ne, w, j, coeff, op), q, k, e, nq, 9, ne)
            == Stored3(w, j, coeff, nq, ne, q, e).Entry(k)
  {
    Idx3InRange(q, k, e, nq, 9, ne);
    Idx3Split3RoundTrip(q, k, e, nq, 9);
  }

  /** The 2x2 block stored at `(q, e)` of an `(nq, 4, ne)` view, read row-major. */
  function Block2(r: seq<real>, nq: nat, ne: nat, q: nat, e: nat): Mat2
    requires q < nq && e < ne && |r| >= nq * 4 * ne
  {
    Mat2(At3(r, q, 0, e, nq, 4, ne), At3(r, q, 1, e, nq, 4, ne),
         At3(r, q, 2, e, nq, 4, ne), At3(r, q, 3, e, nq, 4, ne))
  }

  /** The 3x3 block stored at `(q, e)` of an `(nq, 9, ne)` view, read row-major. */
  function Block3(r: seq<real>, nq: nat, ne: nat, q: nat, e: nat): Mat3
    requires q < nq && e < ne && |r| >= nq * 9 * ne
  {
    Mat3(At3(r, q, 0, e, nq, 9, ne), At3(r, q, 1, e, nq, 9, ne), At3(r, q, 2, e, nq, 9, ne),
         At3(r, q, 3, e, nq, 9, ne), At3(r, q, 4, e, nq, 9, ne), At3(r, q, 5, e, nq, 9, ne),
         At3(r, q, 6, e, nq, 9, ne), At3(r, q, 7, e, nq, 9, ne), At3(r, q, 8, e, nq, 9, ne))
  }

  /** A block whose stored entries are those of `m`, row-major, reads back as `m`. */
  lemma BlockOf2(r: seq<real>, nq: nat, ne: nat, q: nat, e: nat, m: Mat2)
    requires q < nq && e < ne && |r| >= nq * 4 * ne
    requires forall k: nat | k < 4 :: At3(r, q, k, e, nq, 4, ne) == m.Entry(k)
    ensures Block2(r, nq, ne, q, e) == m
  {
    assert At3(r, q, 0, e, nq, 4, ne) == m.Entry(0);
    assert At3(r, q, 1, e, nq, 4, ne) == m.Entry(1);
    assert At3(r, q, 2, e, nq, 4, ne) == m.Entry(2);
    assert At3(r, q, 3, e, nq, 4, ne) == m.Entry(3);
  }

  lemma BlockOf3(r: seq<real>, nq: nat, ne: nat, q: nat, e: nat, m: Mat3)
    requires q < nq && e < ne && |r| >= nq * 9 * ne
    requires forall k: nat | k < 9 :: At3(r, q, k, e, nq, 9, ne) == m.Entry(k)
    ensures Block3(r, nq, ne, q, e) == m
  {
    assert At3(r, q, 0, e, nq, 9, ne) == m.Entry(0);
    assert At3(r, q, 1, e, nq, 9, ne) == m.Entry(1);
    assert At3(r, q, 2, e, nq, 9, ne) == m.Entry(2);
    assert At3(r, q, 3, e, nq, 9, ne) == m.Entry(3);
    assert At3(r, q, 4, e, nq, 9, ne) == m.Entry(4);
    assert At3(r, q, 5, e, nq, 9, ne) == m.Entry(5);
    assert At3(r, q, 6, e, nq, 9, ne) == m.Entry(6);
    assert At3(r, q, 7, e, nq, 9, ne) == m.Entry(7);
    assert At3(r, q, 8, e, nq, 9, ne) == m.Entry(8);
  }

  /** Read back as a matrix, the 2D block at `(q, e)` is `W[q]*COEFF*adj(J)`
      (so, by `ScaledAdj2IsScaledInverse`, `W[q]*COEFF*det(J)` times a left
      inverse of `J`). */
  lemma Setup2DBlock(nq: nat, ne: nat, w: seq<real>, j: seq<real>, coeff: real, op: seq<real>,
                     q: nat, e: nat)
    requires |w| >= nq && |j| >= nq * 2 * 2 * ne && |op| >= nq * 4 * ne
    requires q < nq && e < ne
    ensures Block2(Setup2D(nq, ne, w, j, coeff, op), nq, ne, q, e)
            == Scale2(w[q] * coeff, Adj2(JAt2(j, nq, ne, q, e)))
  {
    var r := Setup2D(nq, ne, w, j, coeff, op);
    var s := Stored2(w, j, coeff, nq, ne, q, e);
    forall k: nat | k < 4
      ensures At3(r, q, k, e, nq, 4, ne) == s.Entry(k)
    {
      Setup2DStores(nq, ne, w, j, coeff, op, q, k, e);
    }
    BlockOf2(r, nq, ne, q, e, s);
  }

  /** Read back as a matrix, the 3D block at `(q, e)` is `cw*adj(J)` with
      `cw = W[q]*COEFF`, the nine cofactors of `J` scaled by the weight. It
      depends on nothing but `W[q]`, `COEFF` and `J` at the same `(q, e)`:
      not on other points or elements, and not on what `op` held before. */
  lemma Setup3DBlock(nq: nat, ne: nat, w: seq<real>, j: seq<real>, coeff: real, op: seq<real>,
                     q: nat, e: nat)
    requires |w| >= nq && |j| >= nq * 3 * 3 * ne && |op| >= nq * 9 * ne
    requires q < nq && e < ne
    ensures Block3(Setup3D(nq, ne, w, j, coeff, op), nq, ne, q, e)
            == Scale3(w[q] * coeff, Adj3(JAt3(j, nq, ne, q, e)))
  {
    var r := Setup3D(nq, ne, w, j, coeff, op);
    var s := Stored3(w, j, coeff, nq, ne, q, e);
    forall k: nat | k < 9
      ensures At3(r, q, k, e, nq, 9, ne) == s.Entry(k)
    {
      Setup3DStores(nq, ne, w, j, coeff, op, q, k, e);
    }
    BlockOf3(r, nq, ne, q, e, s);
  }

  /** With `J = I` and `W[q]*COEFF = 1` the 2D setup stores `(1, 0, 0, 1)`. */
  lemma Setup2DIdentity(nq: nat, ne: nat, w: seq<real>, j: seq<real>, coeff: real, op: seq<real>,
                        q: nat, e: nat)
    requires |w| >= nq && |j| >= nq * 2 * 2 * ne && |op| >= nq * 4 * ne
    requires q < nq && e < ne
    requires JAt2(j, nq, ne, q, e) == Identity2 && w[q] * coeff == 1.0
    ensures Block2(Setup2D(nq, ne, w, j, coeff, op), nq, ne, q, e) == Mat2(1.0, 0.0, 0.0, 1.0)
  {
    Setup2DBlock(nq, ne, w, j, coeff, op, q, e);
  }

  /** With `J = I` the 3D setup stores `W[q]*COEFF*I`. */
  lemma Setup3DIdentity(nq: nat, ne: nat, w: seq<real>, j: seq<real>, coeff: real, op: seq<real>,
                        q: nat, e: nat)
    requires |w| >= nq && |j| >= nq * 3 * 3 * ne && |op| >= nq * 9 * ne
    requires q < nq && e < ne
    requires JAt3(j, nq, ne, q, e) == Identity3
    ensures Block3(Setup3D(nq, ne, w, j, coeff, op), nq, ne, q, e)
            == Mat3(w[q] * coeff, 0.0, 0.0, 0.0, w[q] * coeff, 0.0, 0.0, 0.0, w[q] * coeff)
  {
    Setup3DBlock(nq, ne, w, j, coeff, op, q, e);
    Adj3OfIdentity();
    var c := w[q] * coeff;
    assert Scale3(c, Identity3) == Mat3(c, 0.0, 0.0, 0.0, c, 0.0, 0.0, 0.0, c);
  }

  /** Every block of the 2D setup's output is its point's weighted adjugate. */
  lemma Setup2DAllBlocks(nq: nat, ne: nat, w: seq<real>, j: seq<real>, coeff: real, op: seq<real>)
    requires |w| >= nq && |j| >= nq * 2 * 2 * ne && |op| >= nq * 4 * ne
    ensures forall q: nat, e: nat | q < nq && e < ne ::
              Block2(Setup2D(nq, ne, w, j, coeff, op), nq, ne, q, e) == Scale2(w[q] * coeff, Adj2(JAt2(j, nq, ne, q, e)))
  {
    forall q: nat, e: nat | q < nq && e < ne
      ensures Block2(Setup2D(nq, ne, w, j, coeff, op), nq, ne, q, e) == Scale2(w[q] * coeff, Adj2(JAt2(j, nq, ne, q, e)))
    {
      Setup2DBlock(nq, ne, w, j, coeff, op, q, e);
    }
  }

  /** Every block of the 3D setup's output is its point's weighted adjugate. */
  lemma Setup3DAllBlocks(nq: nat, ne: nat, w: seq<real>, j: seq<real>, coeff: real, op: seq<real>)
    requires |w| >= nq && |j| >= nq * 3 * 3 * ne && |op| >= nq * 9 * ne
    ensures forall q: nat, e: nat | q < nq && e < ne ::
              Block3(Setup3D(nq, ne, w, j, coeff, op), nq, ne, q, e) == Scale3(w[q] * coeff, Adj3(JAt3(j, nq, ne, q, e)))
  {
    forall q: nat, e: nat | q < nq && e < ne
      ensures Block3(Setup3D(nq, ne, w, j, coeff, op), nq, ne, q, e) == Scale3(w[q] * coeff, Adj3(JAt3(j, nq, ne, q, e)))
    {
      Setup3DBlock(nq, ne, w, j, coeff, op, q, e);
    }
  }

  /** `PAVectorDivergenceSetup`: mesh dimension 1 is a fatal error, 2 and 3
      run the matching kernel with `NQ = Q1D^dim`, and any other dimension
      leaves `op` untouched. `D1D` only matters to the OCCA kernels, which
      are not modelled. */
  function Setup(dim: int, q1d: nat, ne: nat, w: seq<real>, j: seq<real>, coeff: real,
                 op: seq<real>): (r: Result<seq<real>, SetupError>)
    requires dim == 2 ==> |w| >= q1d * q1d && |j| >= q1d * q1d * 2 * 2 * ne
                          && |op| >= q1d * q1d * 4 * ne
    requires dim == 3 ==> |w| >= q1d * q1d * q1d && |j| >= q1d * q1d * q1d * 3 * 3 * ne
                          && |op| >= q1d * q1d * q1d * 9 * ne
    ensures r.Failure? <==> dim == 1
    ensures r.Failure? ==> r.error == InvalidDimension
    ensures r.Success? ==> |r.value| == |op|
    ensures dim == 2 ==> r.Success? && forall q: nat, e: nat | q < q1d * q1d && e < ne ::
              Block2(r.value, q1d * q1d, ne, q, e) == Scale2(w[q] * coeff, Adj2(JAt2(j, q1d * q1d, ne, q, e)))
    ensures dim == 3 ==> r.Success? && forall q: nat, e: nat | q < q1d * q1d * q1d && e < ne ::
              Block3(r.value, q1d * q1d * q1d, ne, q, e)
              == Scale3(w[q] * coeff, Adj3(JAt3(j, q1d * q1d * q1d, ne, q, e)))
    ensures dim != 1 && dim != 2 && dim != 3 ==> r == Success(op)
  {
    if dim == 1 then Failure(InvalidDimension)
    else if dim == 2 then
      Setup2DAllBlocks(q1d * q1d, ne, w, j, coeff, op);
      Success(Setup2D(q1d * q1d, ne, w, j, coeff, op))
    else if dim == 3 then
      Setup3DAllBlocks(q1d * q1d * q1d, ne, w, j, coeff, op);
      Success(Setup3D(q1d * q1d * q1d, ne, w, j, coeff, op))
    else Success(op)
  }

  /** The buffer `pa_data` right after `SetSize`: its contents are whatever
      the allocator returned, modelled by `stale`. */
  function Allocate(size: nat, stale: nat -> real): (r: seq<real>)
    ensures |r| == size && forall i: nat | i < size :: r[i] == stale(i)
  {
    seq(size, i requires 0 <= i < size => stale(i))
  }

  /** `VectorDivergenceIntegrator::AssemblePA`. `dims` is the trial element
      dimension (so `pa_data` holds `dims*dims*nq*ne` entries), `dim` the mesh
      dimension that selects the kernel, `q1d` the trial quadrature points per
      direction. `debugChecks` says whether `MFEM_ASSERT` is compiled in. */
  function AssemblePA(debugChecks: bool, ordering: Ordering, dims: nat, dim: int, nq: nat, ne: nat,
                      q1d: nat, w: seq<real>, j: seq<real>, coeff: Coefficient,
                      stale: nat -> real): (r: Result<seq<real>, SetupError>)
    requires dim == 2 ==> |w| >= q1d * q1d && |j| >= q1d * q1d * 2 * 2 * ne
                          && dims * dims * nq * ne >= q1d * q1d * 4 * ne
    requires dim == 3 ==> |w| >= q1d * q1d * q1d && |j| >= q1d * q1d * q1d * 3 * 3 * ne
                          && dims * dims * nq * ne >= q1d * q1d * q1d * 9 * ne
    ensures r.Failure? <==> (debugChecks && ordering != ByNodes) || coeff.NonConstant? || dim == 1
    ensures r.Failure? ==> r.error == (if debugChecks && ordering != ByNodes then UnsupportedOrdering
                                       else if coeff.NonConstant? then UnsupportedCoefficient
                                       else InvalidDimension)
    ensures r.Success? ==> |r.value| == dims * dims * nq * ne
    ensures r.Success? && dim != 2 && dim != 3 ==>
              forall i: nat | i < |r.value| :: r.value[i] == stale(i)
  {
    if debugChecks && ordering != ByNodes then Failure(UnsupportedOrdering)
    else
      var paData := Allocate(dims * dims * nq * ne, stale);
      if coeff.NonConstant? then Failure(UnsupportedCoefficient)
      else Setup(dim, q1d, ne, w, j, coeff.value, paData)
  }

  /** On a 2D mesh, a successful assembly stores at every `(q, e)` the
      weighted adjugate `W[q]*COEFF*adj(J)` of the Jacobian. */
  lemma AssemblePA2D(debugChecks: bool, ordering: Ordering, dims: nat, nq: nat, ne: nat,
                     q1d: nat, w: seq<real>, j: seq<real>, c: real, stale: nat -> real,
                     q: nat, e: nat)
    requires |w| >= q1d * q1d && |j| >= q1d * q1d * 2 * 2 * ne
    requires dims * dims * nq * ne >= q1d * q1d * 4 * ne
    requires !debugChecks || ordering == ByNodes
    requires q < q1d * q1d && e < ne
    ensures var r := AssemblePA(debugChecks, ordering, dims, 2, nq, ne, q1d, w, j, Constant(c), stale);
            r.Success?
            && Block2(r.value, q1d * q1d, ne, q, e) == Scale2(w[q] * c, Adj2(JAt2(j, q1d * q1d, ne, q, e)))
  {
    var buf := Allocate(dims * dims * nq * ne, stale);
    var r := AssemblePA(debugChecks, ordering, dims, 2, nq, ne, q1d, w, j, Constant(c), stale);
    assert r == Success(Setup2D(q1d * q1d, ne, w, j, c, buf));
    Setup2DBlock(q1d * q1d, ne, w, j, c, buf, q, e);
  }

  /** On a 3D mesh, a successful assembly stores `W[q]*COEFF*adj(J)` at every `(q, e)`. */
  lemma AssemblePA3D(debugChecks: bool, ordering: Ordering, dims: nat, nq: nat, ne: nat,
                     q1d: nat, w: seq<real>, j: seq<real>, c: real, stale: nat -> real,
                     q: nat, e: nat)
    requires |w| >= q1d * q1d * q1d && |j| >= q1d * q1d * q1d * 3 * 3 * ne
    requires dims * dims * nq * ne >= q1d * q1d * q1d * 9 * ne
    requires !debugChecks || ordering == ByNodes
    requires q < q1d * q1d * q1d && e < ne
    ensures var r := AssemblePA(debugChecks, ordering, dims, 3, nq, ne, q1d, w, j, Constant(c), stale);
            r.Success?
            && Block3(r.value, q1d * q1d * q1d, ne, q, e)
               == Scale3(w[q] * c, Adj3(JAt3(j, q1d * q1d * q1d, ne, q, e)))
  {
    var buf := Allocate(dims * dims * nq * ne, stale);
    var r := AssemblePA(debugChecks, ordering, dims, 3, nq, ne, q1d, w, j, Constant(c), stale);
    assert r == Success(Setup3D(q1d * q1d * q1d, ne, w, j, c, buf));
    Setup3DBlock(q1d * q1d * q1d, ne, w, j, c, buf, q, e);
  }
}
