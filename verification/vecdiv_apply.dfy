/** The generic 2D apply kernel of the vector divergence integrator
    (`PAVectorDivergenceApply2D`, fem/bilininteg_vecdivergence.cpp): a
    sum-factorised evaluation of the reference gradient at the quadrature
    points, a pointwise 2x2 transformation by the stored `op` entries, and
    a sum-factorised transposed evaluation accumulated into `y`. */
module VecDivApply {
  import opened Wrappers
  import opened Layout
  import opened Reals
  import opened Tables

  /** `MFEM_VERIFY(D1D <= MAX_D1D)` or `MFEM_VERIFY(Q1D <= MAX_Q1D)` failed. */
  datatype ApplyError = SizeCeilingExceeded

  /** The arrays and resolved sizes one call of the kernel works on.
      `b`, `g` are viewed as `(Q1D, D1D)`, `bt`, `gt` as `(D1D, Q1D)`,
      `op` as `(Q1D*Q1D, 3, NE)` and `x` as `(D1D, D1D, NE, 2)`. */
  datatype Input = Input(d1d: nat, q1d: nat, ne: nat,
                         b: seq<real>, g: seq<real>, bt: seq<real>, gt: seq<real>,
                         op: seq<real>, x: seq<real>)

  /** The sizes the `Reshape` views of the kernel assume. */
  predicate WellSized(k: Input)
  {
    && |k.b| >= k.q1d * k.d1d && |k.g| >= k.q1d * k.d1d
    && |k.bt| >= k.d1d * k.q1d && |k.gt| >= k.d1d * k.q1d
    && |k.op| >= k.q1d * k.q1d * 3 * k.ne
    && |k.x| >= k.d1d * k.d1d * k.ne * 2
  }

  /** What the kernel sees of one element `e` through its views, as tables:
      `b[q][d] = B(q,d)`, `g[q][d] = G(q,d)`, `bt[d][q] = Bt(d,q)`,
      `gt[d][q] = Gt(d,q)`, `op[qy][qx][c] = op(qx + qy*Q1D, c, e)` and
      `x[dy][dx] = x(dx, dy, e)`. */
  datatype Element = Element(d1d: nat, q1d: nat, b: Table, g: Table, bt: Table, gt: Table,
                             op: seq<Table>, x: Table)

  /** `op(qx + qy*Q1D, c, e)`: `c = 0, 1, 2` are `O11`, `O12`, `O22`. */
  function O(el: Element, qx: nat, qy: nat, c: nat): real {
    if qy < |el.op| then Tab(el.op[qy], qx, c) else 0.0
  }

  /** The `(n0, n1)` view of a flat array as a table indexed `[i0][i1]`. */
  function View2(s: seq<real>, n0: nat, n1: nat): (t: Table)
    ensures IsTable(t, n0, n1)
    ensures forall i: nat, j: nat | i < n0 && j < n1 :: t[i][j] == Get(s, Idx2(i, j, n0))
  {
    seq(n0, i requires 0 <= i < n0 => seq(n1, j requires 0 <= j < n1 => Get(s, Idx2(i, j, n0))))
  }

  /** Element `e`'s slice of `op`'s `(Q1D*Q1D, 3, NE)` view, by quadrature point. */
  function OpView(op: seq<real>, q1d: nat, e: nat): (t: seq<Table>)
    ensures |t| == q1d && forall qy: nat | qy < q1d :: IsTable(t[qy], q1d, 3)
    ensures forall qy: nat, qx: nat, c: nat | qy < q1d && qx < q1d && c < 3 ::
              Tab(t[qy], qx, c) == Get(op, Idx3(Idx2(qx, qy, q1d), c, e, q1d * q1d, 3))
  {
    seq(q1d, qy requires 0 <= qy < q1d =>
      seq(q1d, qx requires 0 <= qx < q1d =>
        seq(3, c requires 0 <= c < 3 => Get(op, Idx3(Idx2(qx, qy, q1d), c, e, q1d * q1d, 3)))))
  }

  /** Element `e`'s slice of the first component of `x`'s `(D1D, D1D, NE, 2)`
      view, indexed `[dy][dx]`; the kernel never reads the second component. */
  function XView(x: seq<real>, d1d: nat, ne: nat, e: nat): (t: Table)
    ensures IsTable(t, d1d, d1d)
    ensures forall dy: nat, dx: nat | dy < d1d && dx < d1d ::
              t[dy][dx] == Get(x, Idx4(dx, dy, e, 0, d1d, d1d, ne))
  {
    seq(d1d, dy requires 0 <= dy < d1d =>
      seq(d1d, dx requires 0 <= dx < d1d => Get(x, Idx4(dx, dy, e, 0, d1d, d1d, ne))))
  }

  /** Element `e` as the kernel's views present it. */
  function ElementOf(k: Input, e: nat): (el: Element)
    ensures el.d1d == k.d1d && el.q1d == k.q1d
  {
    Element(k.d1d, k.q1d,
            View2(k.b, k.q1d, k.d1d), View2(k.g, k.q1d, k.d1d),
            View2(k.bt, k.d1d, k.q1d), View2(k.gt, k.d1d, k.q1d),
            OpView(k.op, k.q1d, e), XView(k.x, k.d1d, k.ne, e))
  }

  // ---- The stages of the kernel, each a table computed from the previous one.

  /** `gradX[qx][0]` for row `dy`, as `[dy][qx]`: `sum over dx of x(dx,dy)*B(qx,dx)`. */
  function XBTab(el: Element): Table {
    RowDots(el.x, el.b, el.d1d, el.q1d, el.d1d)
  }

  /** `gradX[qx][1]` for row `dy`, as `[dy][qx]`: `sum over dx of x(dx,dy)*G(qx,dx)`. */
  function XGTab(el: Element): Table {
    RowDots(el.x, el.g, el.d1d, el.q1d, el.d1d)
  }

  /** `grad[qy][qx][0]`, the derivative along the first axis:
      `sum over dy of gradX[qx][1]*B(qy,dy)`. */
  function GradTab0(el: Element): Table {
    ColDots(XGTab(el), el.b, el.q1d, el.q1d, el.d1d)
  }

  /** `grad[qy][qx][1]`, the derivative along the second axis:
      `sum over dy of gradX[qx][0]*G(qy,dy)`. */
  function GradTab1(el: Element): Table {
    ColDots(XBTab(el), el.g, el.q1d, el.q1d, el.d1d)
  }

  /** `op(q, c0, e) * a + op(q, c1, e) * b` at the point `(qx, qy)`. */
  function Mix(el: Element, qx: nat, qy: nat, c0: nat, c1: nat, a: real, b: real): real {
    O(el, qx, qy, c0) * a + O(el, qx, qy, c1) * b
  }

  /** The pointwise transformation of a gradient table pair `(g0, g1)` with
      the `op` entries `c0`, `c1`: `(0, 1)` gives `O11*g0 + O12*g1`, `(1, 2)`
      gives `O12*g0 + O22*g1`. */
  function Transformed(el: Element, g0: Table, g1: Table, c0: nat, c1: nat): (t: Table)
    ensures IsTable(t, el.q1d, el.q1d)
    ensures forall qy: nat, qx: nat | qy < el.q1d && qx < el.q1d ::
              t[qy][qx] == Mix(el, qx, qy, c0, c1, Tab(g0, qy, qx), Tab(g1, qy, qx))
  {
    seq(el.q1d, qy requires 0 <= qy < el.q1d =>
      seq(el.q1d, qx requires 0 <= qx < el.q1d => Mix(el, qx, qy, c0, c1, Tab(g0, qy, qx), Tab(g1, qy, qx))))
  }

  function FluxTab0(el: Element): Table {
    Transformed(el, GradTab0(el), GradTab1(el), 0, 1)
  }

  function FluxTab1(el: Element): Table {
    Transformed(el, GradTab0(el), GradTab1(el), 1, 2)
  }

  /** The second `gradX[dx][0]` for quadrature row `qy`, as `[qy][dx]`:
      `sum over qx of flux0(qx,qy)*Gt(dx,qx)`. */
  function BackTab0(el: Element): Table {
    RowDots(FluxTab0(el), el.gt, el.q1d, el.d1d, el.q1d)
  }

  /** The second `gradX[dx][1]`: `sum over qx of flux1(qx,qy)*Bt(dx,qx)`. */
  function BackTab1(el: Element): Table {
    RowDots(FluxTab1(el), el.bt, el.q1d, el.d1d, el.q1d)
  }

  /** What the kernel adds to `y(dx, dy, e)`:
      `sum over qy of back0(qy,dx)*Bt(dy,qy) + back1(qy,dx)*Gt(dy,qy)`. */
  function Contrib(el: Element, dx: nat, dy: nat): real {
    ColDot(BackTab0(el), dx, el.bt, dy, el.q1d) + ColDot(BackTab1(el), dx, el.gt, dy, el.q1d)
  }

  /** The full contribution to the flat position `i` of `y`'s `(D1D, D1D, NE)` view. */
  function ContribAt(k: Input, i: nat): real {
    if k.d1d == 0 then 0.0
    else
      var t := Split3(i, k.d1d, k.d1d);
      Contrib(ElementOf(k, t.2), t.0, t.1)
  }

  // ---- The kernel, one loop nest per method.

  /** First loop nest of the element body for one `dy`: over `dx`,
      `gradX[qx][0] += s*B(qx,dx)` and `gradX[qx][1] += s*G(qx,dx)` with
      `s = x(dx,dy,e)`. */
  method ForwardX(el: Element, dy: nat) returns (gx0: seq<real>, gx1: seq<real>)
    ensures |gx0| == el.q1d && |gx1| == el.q1d
    ensures forall qx: nat | qx < el.q1d ::
              gx0[qx] == RowDot(el.x, dy, el.b, qx, el.d1d) && gx1[qx] == RowDot(el.x, dy, el.g, qx, el.d1d)
  {
    gx0 := seq(el.q1d, _ => 0.0);
    gx1 := seq(el.q1d, _ => 0.0);
    var dx := 0;
    while dx < el.d1d
      invariant dx <= el.d1d && |gx0| == el.q1d && |gx1| == el.q1d
      invariant forall qx: nat | qx < el.q1d ::
                  gx0[qx] == RowDot(el.x, dy, el.b, qx, dx) && gx1[qx] == RowDot(el.x, dy, el.g, qx, dx)
    {
      var s := Tab(el.x, dy, dx);
      var n0 := Axpy(gx0, Column(el.b, dx, el.q1d), s);
      var n1 := Axpy(gx1, Column(el.g, dx, el.q1d), s);
      RowDotsStep(el.x, dy, el.b, gx0, n0, Column(el.b, dx, el.q1d), s, el.q1d, dx);
      RowDotsStep(el.x, dy, el.g, gx1, n1, Column(el.g, dx, el.q1d), s, el.q1d, dx);
      gx0, gx1 := n0, n1;
      dx := dx + 1;
    }
  }

  /** One row `dy` of the first contraction: `ForwardX`, then
      `grad[qy][qx][0] += gradX[qx][1]*B(qy,dy)` and
      `grad[qy][qx][1] += gradX[qx][0]*G(qy,dy)`. */
  method ForwardRow(el: Element, dy: nat, ghost xg: Table, ghost xb: Table, g0: Table, g1: Table)
    returns (n0: Table, n1: Table)
    requires xg == XGTab(el) && xb == XBTab(el) && dy < el.d1d
    requires IsTable(g0, el.q1d, el.q1d) && IsTable(g1, el.q1d, el.q1d)
    requires forall qy: nat, qx: nat | qy < el.q1d && qx < el.q1d :: g0[qy][qx] == ColDot(xg, qx, el.b, qy, dy)
    requires forall qy: nat, qx: nat | qy < el.q1d && qx < el.q1d :: g1[qy][qx] == ColDot(xb, qx, el.g, qy, dy)
    ensures IsTable(n0, el.q1d, el.q1d) && IsTable(n1, el.q1d, el.q1d)
    ensures forall qy: nat, qx: nat | qy < el.q1d && qx < el.q1d :: n0[qy][qx] == ColDot(xg, qx, el.b, qy, dy + 1)
    ensures forall qy: nat, qx: nat | qy < el.q1d && qx < el.q1d :: n1[qy][qx] == ColDot(xb, qx, el.g, qy, dy + 1)
  {
    var gx0, gx1 := ForwardX(el, dy);
    n0 := RankOne(g0, gx1, Column(el.b, dy, el.q1d));
    n1 := RankOne(g1, gx0, Column(el.g, dy, el.q1d));
    ColDotsStep(xg, el.b, g0, n0, gx1, Column(el.b, dy, el.q1d), el.q1d, el.q1d, dy);
    ColDotsStep(xb, el.g, g1, n1, gx0, Column(el.g, dy, el.q1d), el.q1d, el.q1d, dy);
  }

  /** The gradient at the quadrature points, `grad[qy][qx][0]` and
      `grad[qy][qx][1]`, by contraction over `dx` and then over `dy`. */
  method Forward(el: Element) returns (g0: Table, g1: Table)
    ensures g0 == GradTab0(el) && g1 == GradTab1(el)
  {
    g0 := seq(el.q1d, _ => seq(el.q1d, _ => 0.0));
    g1 := seq(el.q1d, _ => seq(el.q1d, _ => 0.0));
    ghost var xg, xb := XGTab(el), XBTab(el);
    var dy := 0;
    while dy < el.d1d
      invariant dy <= el.d1d && IsTable(g0, el.q1d, el.q1d) && IsTable(g1, el.q1d, el.q1d)
      invariant forall qy: nat, qx: nat | qy < el.q1d && qx < el.q1d :: g0[qy][qx] == ColDot(xg, qx, el.b, qy, dy)
      invariant forall qy: nat, qx: nat | qy < el.q1d && qx < el.q1d :: g1[qy][qx] == ColDot(xb, qx, el.g, qy, dy)
    {
      g0, g1 := ForwardRow(el, dy, xg, xb, g0, g1);
      dy := dy + 1;
    }
    TableExt(g0, GradTab0(el), el.q1d, el.q1d);
    TableExt(g1, GradTab1(el), el.q1d, el.q1d);
  }

  /** One row `qy` of the pointwise transformation: `(gradX, gradY)` becomes
      `(O11*gradX + O12*gradY, O12*gradX + O22*gradY)` with the three
      entries read from `op` at `q = qx + qy*Q1D`. */
  method TransformRow(el: Element, qy: nat, r0: seq<real>, r1: seq<real>)
    returns (f0: seq<real>, f1: seq<real>)
    requires |r0| == el.q1d && |r1| == el.q1d
    ensures |f0| == el.q1d && |f1| == el.q1d
    ensures forall qx: nat | qx < el.q1d ::
              f0[qx] == Mix(el, qx, qy, 0, 1, r0[qx], r1[qx]) && f1[qx] == Mix(el, qx, qy, 1, 2, r0[qx], r1[qx])
  {
    f0, f1 := r0, r1;
    var qx := 0;
    while qx < el.q1d
      invariant qx <= el.q1d && |f0| == el.q1d && |f1| == el.q1d
      invariant forall i: nat | i < qx :: f0[i] == Mix(el, i, qy, 0, 1, r0[i], r1[i])
      invariant forall i: nat | i < qx :: f1[i] == Mix(el, i, qy, 1, 2, r0[i], r1[i])
      invariant forall i: nat | qx <= i < el.q1d :: f0[i] == r0[i] && f1[i] == r1[i]
    {
      // entry qx is still the untransformed one
      var gradX, gradY := f0[qx], f1[qx];
      f0 := f0[qx := Mix(el, qx, qy, 0, 1, gradX, gradY)];
      f1 := f1[qx := Mix(el, qx, qy, 1, 2, gradX, gradY)];
      qx := qx + 1;
    }
  }

  /** The pointwise transformation of the whole `grad` table. */
  method Transform(el: Element, g0: Table, g1: Table) returns (f0: Table, f1: Table)
    requires IsTable(g0, el.q1d, el.q1d) && IsTable(g1, el.q1d, el.q1d)
    ensures f0 == Transformed(el, g0, g1, 0, 1) && f1 == Transformed(el, g0, g1, 1, 2)
  {
    f0, f1 := g0, g1;
    var qy := 0;
    while qy < el.q1d
      invariant qy <= el.q1d && IsTable(f0, el.q1d, el.q1d) && IsTable(f1, el.q1d, el.q1d)
      invariant forall j: nat, qx: nat | j < qy && qx < el.q1d ::
                  f0[j][qx] == Mix(el, qx, j, 0, 1, g0[j][qx], g1[j][qx])
                  && f1[j][qx] == Mix(el, qx, j, 1, 2, g0[j][qx], g1[j][qx])
      invariant forall j: nat | qy <= j < el.q1d :: f0[j] == g0[j] && f1[j] == g1[j]
    {
      var r0, r1 := TransformRow(el, qy, f0[qy], f1[qy]);
      f0 := f0[qy := r0];
      f1 := f1[qy := r1];
      qy := qy + 1;
    }
    TableExt(f0, Transformed(el, g0, g1, 0, 1), el.q1d, el.q1d);
    TableExt(f1, Transformed(el, g0, g1, 1, 2), el.q1d, el.q1d);
  }

  /** For quadrature row `qy`: contraction of the transformed gradient with
      the transposed tables over `qx`, `gradX[dx][0] += gX*Gt(dx,qx)` and
      `gradX[dx][1] += gY*Bt(dx,qx)`. */
  method BackX(el: Element, f0: Table, f1: Table, qy: nat) returns (h0: seq<real>, h1: seq<real>)
    requires IsTable(f0, el.q1d, el.q1d) && IsTable(f1, el.q1d, el.q1d) && qy < el.q1d
    ensures |h0| == el.d1d && |h1| == el.d1d
    ensures forall dx: nat | dx < el.d1d ::
              h0[dx] == RowDot(f0, qy, el.gt, dx, el.q1d) && h1[dx] == RowDot(f1, qy, el.bt, dx, el.q1d)
  {
    h0 := seq(el.d1d, _ => 0.0);
    h1 := seq(el.d1d, _ => 0.0);
    var qx := 0;
    while qx < el.q1d
      invariant qx <= el.q1d && |h0| == el.d1d && |h1| == el.d1d
      invariant forall dx: nat | dx < el.d1d ::
                  h0[dx] == RowDot(f0, qy, el.gt, dx, qx) && h1[dx] == RowDot(f1, qy, el.bt, dx, qx)
    {
      var gX, gY := f0[qy][qx], f1[qy][qx];
      var n0 := Axpy(h0, Column(el.gt, qx, el.d1d), gX);
      var n1 := Axpy(h1, Column(el.bt, qx, el.d1d), gY);
      RowDotsStep(f0, qy, el.gt, h0, n0, Column(el.gt, qx, el.d1d), gX, el.d1d, qx);
      RowDotsStep(f1, qy, el.bt, h1, n1, Column(el.bt, qx, el.d1d), gY, el.d1d, qx);
      h0, h1 := n0, n1;
      qx := qx + 1;
    }
  }

  /** One quadrature row `qy` of the last loop nest: `BackX`, then
      `y(dx,dy,e) += gradX[dx][0]*Bt(dy,qy) + gradX[dx][1]*Gt(dy,qy)`. */
  method BackwardRow(el: Element, f0: Table, f1: Table, qy: nat, ghost t0: Table, ghost t1: Table,
                     ghost yb: Table, res: Table)
    returns (next: Table)
    requires IsTable(f0, el.q1d, el.q1d) && IsTable(f1, el.q1d, el.q1d) && qy < el.q1d
    requires t0 == RowDots(f0, el.gt, el.q1d, el.d1d, el.q1d) && t1 == RowDots(f1, el.bt, el.q1d, el.d1d, el.q1d)
    requires IsTable(res, el.d1d, el.d1d) && IsTable(yb, el.d1d, el.d1d)
    requires forall dy: nat, dx: nat | dy < el.d1d && dx < el.d1d ::
               res[dy][dx] == yb[dy][dx] + (ColDot(t0, dx, el.bt, dy, qy) + ColDot(t1, dx, el.gt, dy, qy))
    ensures IsTable(next, el.d1d, el.d1d)
    ensures forall dy: nat, dx: nat | dy < el.d1d && dx < el.d1d ::
              next[dy][dx] == yb[dy][dx] + (ColDot(t0, dx, el.bt, dy, qy + 1) + ColDot(t1, dx, el.gt, dy, qy + 1))
  {
    var h0, h1 := BackX(el, f0, f1, qy);
    next := RankTwo(res, h0, Column(el.bt, qy, el.d1d), h1, Column(el.gt, qy, el.d1d));
    forall dy: nat, dx: nat | dy < el.d1d && dx < el.d1d
      ensures next[dy][dx] == yb[dy][dx] + (ColDot(t0, dx, el.bt, dy, qy + 1) + ColDot(t1, dx, el.gt, dy, qy + 1))
    {
      ColDotStep(t0, dx, el.bt, dy, qy, ColDot(t0, dx, el.bt, dy, qy), h0[dx], Column(el.bt, qy, el.d1d)[dy]);
      ColDotStep(t1, dx, el.gt, dy, qy, ColDot(t1, dx, el.gt, dy, qy), h1[dx], Column(el.gt, qy, el.d1d)[dy]);
    }
  }

  /** The last loop nest, over all quadrature rows `qy`. */
  method Backward(el: Element, f0: Table, f1: Table, yb: Table) returns (res: Table)
    requires IsTable(f0, el.q1d, el.q1d) && IsTable(f1, el.q1d, el.q1d) && IsTable(yb, el.d1d, el.d1d)
    ensures IsTable(res, el.d1d, el.d1d)
    ensures forall dy: nat, dx: nat | dy < el.d1d && dx < el.d1d ::
              res[dy][dx] == yb[dy][dx]
                             + (ColDot(RowDots(f0, el.gt, el.q1d, el.d1d, el.q1d), dx, el.bt, dy, el.q1d)
                                + ColDot(RowDots(f1, el.bt, el.q1d, el.d1d, el.q1d), dx, el.gt, dy, el.q1d))
  {
    ghost var t0 := RowDots(f0, el.gt, el.q1d, el.d1d, el.q1d);
    ghost var t1 := RowDots(f1, el.bt, el.q1d, el.d1d, el.q1d);
    res := yb;
    var qy := 0;
    while qy < el.q1d
      invariant qy <= el.q1d && IsTable(res, el.d1d, el.d1d)
      invariant forall dy: nat, dx: nat | dy < el.d1d && dx < el.d1d ::
                  res[dy][dx] == yb[dy][dx] + (ColDot(t0, dx, el.bt, dy, qy) + ColDot(t1, dx, el.gt, dy, qy))
    {
      res := BackwardRow(el, f0, f1, qy, t0, t1, yb, res);
      qy := qy + 1;
    }
  }

  /** The whole body of the element loop on the element's block of `y`,
      `yb[dy][dx] = y(dx, dy, e)`: every entry receives its contribution
      added to what was there. */
  method ApplyElement(el: Element, yb: Table) returns (res: Table)
    requires IsTable(yb, el.d1d, el.d1d)
    ensures IsTable(res, el.d1d, el.d1d)
    ensures forall dy: nat, dx: nat | dy < el.d1d && dx < el.d1d ::
              res[dy][dx] == yb[dy][dx] + Contrib(el, dx, dy)
  {
    var g0, g1 := Forward(el);
    var f0, f1 := Transform(el, g0, g1);
    assert f0 == FluxTab0(el) && f1 == FluxTab1(el);
    res := Backward(el, f0, f1, yb);
  }

  /** Element `e`'s block of the `(D1D, D1D, NE)` view of `y`, as rows `dy`. */
  function ReadBlock(y: seq<real>, d1d: nat, e: nat): (blk: seq<seq<real>>)
    ensures IsTable(blk, d1d, d1d)
  {
    seq(d1d, dy requires 0 <= dy < d1d =>
      seq(d1d, dx requires 0 <= dx < d1d => Get(y, Idx3(dx, dy, e, d1d, d1d))))
  }

  /** `y` with element `e`'s block replaced by `blk`. */
  function WriteBlock(y: seq<real>, d1d: nat, e: nat, blk: seq<seq<real>>): (r: seq<real>)
    requires IsTable(blk, d1d, d1d)
    ensures |r| == |y|
    ensures forall i: nat | i < |y| && !(d1d * d1d * e <= i < d1d * d1d * (e + 1)) :: r[i] == y[i]
  {
    if d1d == 0 then y
    else
      seq(|y|, i requires 0 <= i < |y| =>
        if d1d * d1d * e <= i < d1d * d1d * (e + 1)
        then var t := Split3(i, d1d, d1d); blk[t.1][t.0]
        else y[i])
  }

  /** A block written into `y` reads back unchanged. */
  lemma ReadAfterWrite(y: seq<real>, d1d: nat, e: nat, blk: seq<seq<real>>)
    requires IsTable(blk, d1d, d1d) && d1d * d1d * (e + 1) <= |y|
    ensures ReadBlock(WriteBlock(y, d1d, e, blk), d1d, e) == blk
  {
    var b := ReadBlock(WriteBlock(y, d1d, e, blk), d1d, e);
    forall dy: nat, dx: nat | dy < d1d && dx < d1d
      ensures b[dy][dx] == blk[dy][dx]
    {
      Idx3Slab(dx, dy, e, d1d, d1d);
      Idx3Split3RoundTrip(dx, dy, e, d1d, d1d);
    }
    forall dy: nat | dy < d1d
      ensures b[dy] == blk[dy]
    {
    }
  }

  /** Writing back the block just read leaves `y` as it was. */
  lemma WriteAfterRead(y: seq<real>, d1d: nat, e: nat)
    ensures WriteBlock(y, d1d, e, ReadBlock(y, d1d, e)) == y
  {
    var r := WriteBlock(y, d1d, e, ReadBlock(y, d1d, e));
    forall i: nat | i < |y|
      ensures r[i] == y[i]
    {
      if d1d > 0 && d1d * d1d * e <= i < d1d * d1d * (e + 1) {
        Split3InSlab(i, d1d, d1d, e);
        Split3Idx3RoundTrip(i, d1d, d1d);
      }
    }
  }

  /** Writing back a block whose entries are the ones read plus `z` at the
      same flat positions extends the finished prefix of `y` by one slab. */
  lemma SlabWritten(d1d: nat, e: nat, y: seq<real>, z: seq<real>, out: seq<real>, blk: seq<seq<real>>)
    requires |out| == |y|
    requires forall i: nat | i < |y| :: out[i] == if i < d1d * d1d * e then y[i] + Get(z, i) else y[i]
    requires IsTable(blk, d1d, d1d)
    requires forall dy: nat, dx: nat | dy < d1d && dx < d1d ::
               blk[dy][dx] == ReadBlock(out, d1d, e)[dy][dx] + Get(z, Idx3(dx, dy, e, d1d, d1d))
    ensures forall i: nat | i < |y| ::
              WriteBlock(out, d1d, e, blk)[i] == if i < d1d * d1d * (e + 1) then y[i] + Get(z, i) else y[i]
  {
    var next := WriteBlock(out, d1d, e, blk);
    forall i: nat | i < |y|
      ensures next[i] == if i < d1d * d1d * (e + 1) then y[i] + Get(z, i) else y[i]
    {
      if d1d > 0 && d1d * d1d * e <= i < d1d * d1d * (e + 1) {
        Split3InSlab(i, d1d, d1d, e);
        Split3Idx3RoundTrip(i, d1d, d1d);
      }
    }
  }

  /** The contribution at the flat position of `(dx, dy, e)` is element `e`'s. */
  lemma ContribAtBlock(k: Input, e: nat, dx: nat, dy: nat)
    requires dx < k.d1d && dy < k.d1d
    ensures ContribAt(k, Idx3(dx, dy, e, k.d1d, k.d1d)) == Contrib(ElementOf(k, e), dx, dy)
  {
    Idx3Split3RoundTrip(dx, dy, e, k.d1d, k.d1d);
  }

  /** The contributions of all positions of `y`'s `(D1D, D1D, NE)` view. */
  function Contribs(k: Input): (z: seq<real>)
    ensures |z| == k.d1d * k.d1d * k.ne
    ensures forall i: nat | i < |z| :: z[i] == ContribAt(k, i)
  {
    seq(k.d1d * k.d1d * k.ne, i requires 0 <= i < k.d1d * k.d1d * k.ne => ContribAt(k, i))
  }

  /** Template sizes win over the runtime ones: `T_D1D ? T_D1D : d1d`. */
  function Resolve(templateSize: nat, runtimeSize: nat): (n: nat)
    ensures templateSize != 0 ==> n == templateSize
    ensures templateSize == 0 ==> n == runtimeSize
  {
    if templateSize != 0 then templateSize else runtimeSize
  }

  /** `PAVectorDivergenceApply2D<T_D1D, T_Q1D>`: after the size checks, every
      entry of the `(D1D, D1D, NE)` view of `y` receives its contribution and
      the rest of `y` is left alone. `maxD1D`, `maxQ1D` stand for the
      library-wide `MAX_D1D`, `MAX_Q1D`. */
  method Apply2D(tD1D: nat, tQ1D: nat, d1d: nat, q1d: nat, maxD1D: nat, maxQ1D: nat, ne: nat,
                 b: seq<real>, g: seq<real>, bt: seq<real>, gt: seq<real>,
                 op: seq<real>, x: seq<real>, y: seq<real>)
    returns (r: Result<seq<real>, ApplyError>)
    requires WellSized(Input(Resolve(tD1D, d1d), Resolve(tQ1D, q1d), ne, b, g, bt, gt, op, x))
    requires |y| >= Resolve(tD1D, d1d) * Resolve(tD1D, d1d) * ne
    ensures r.Failure? <==> Resolve(tD1D, d1d) > maxD1D || Resolve(tQ1D, q1d) > maxQ1D
    ensures r.Success? ==> |r.value| == |y|
    ensures r.Success? ==>
              var k := Input(Resolve(tD1D, d1d), Resolve(tQ1D, q1d), ne, b, g, bt, gt, op, x);
              forall i: nat | i < |y| ::
                r.value[i] == if i < k.d1d * k.d1d * ne then y[i] + ContribAt(k, i) else y[i]
  {
    var D1D := Resolve(tD1D, d1d);
    var Q1D := Resolve(tQ1D, q1d);
    if D1D > maxD1D || Q1D > maxQ1D {
      return Failure(SizeCeilingExceeded);
    }
    var k := Input(D1D, Q1D, ne, b, g, bt, gt, op, x);
    ghost var z := Contribs(k);
    var out := y;
    var e := 0;
    while e < ne
      invariant e <= ne && |out| == |y|
      invariant forall i: nat | i < |y| ::
                  out[i] == if i < D1D * D1D * e then y[i] + Get(z, i) else y[i]
    {
      var blk := ApplyElement(ElementOf(k, e), ReadBlock(out, D1D, e));
      forall dy: nat, dx: nat | dy < D1D && dx < D1D
        ensures blk[dy][dx] == ReadBlock(out, D1D, e)[dy][dx] + Get(z, Idx3(dx, dy, e, D1D, D1D))
      {
        Idx3InRange(dx, dy, e, D1D, D1D, ne);
        ContribAtBlock(k, e, dx, dy);
      }
      SlabWritten(D1D, e, y, z, out, blk);
      out := WriteBlock(out, D1D, e, blk);
      e := e + 1;
    }
    return Success(out);
  }
}
