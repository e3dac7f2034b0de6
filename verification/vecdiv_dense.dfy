/** What the 2D apply kernel computes, stated without sum factorisation:
    the dense double sums it evaluates, its linearity in the input vector
    `x`, and the locality of each element's contribution. */
module VecDivDense {
  import opened Reals
  import opened Layout
  import opened Tables
  import opened VecDivApply

  /** `sum over dy, dx of x(dx,dy)*G(qx,dx)*B(qy,dy)`: the reference
      derivative along the first axis at the point `(qx, qy)`. */
  function DenseGrad0(el: Element, qx: nat, qy: nat): real {
    Dense(el.x, el.g, qx, el.b, qy, el.d1d, el.d1d)
  }

  /** `sum over dy, dx of x(dx,dy)*B(qx,dx)*G(qy,dy)`: the derivative along
      the second axis. */
  function DenseGrad1(el: Element, qx: nat, qy: nat): real {
    Dense(el.x, el.b, qx, el.g, qy, el.d1d, el.d1d)
  }

  /** The transformed gradient `O*grad` at every point, from the dense gradient. */
  function DenseFlux(el: Element, c0: nat, c1: nat): (t: Table)
    ensures IsTable(t, el.q1d, el.q1d)
    ensures forall qy: nat, qx: nat | qy < el.q1d && qx < el.q1d ::
              t[qy][qx] == Mix(el, qx, qy, c0, c1, DenseGrad0(el, qx, qy), DenseGrad1(el, qx, qy))
  {
    seq(el.q1d, qy requires 0 <= qy < el.q1d =>
      seq(el.q1d, qx requires 0 <= qx < el.q1d =>
        Mix(el, qx, qy, c0, c1, DenseGrad0(el, qx, qy), DenseGrad1(el, qx, qy))))
  }

  /** `sum over qy, qx of f0(qx,qy)*Gt(dx,qx)*Bt(dy,qy) + f1(qx,qy)*Bt(dx,qx)*Gt(dy,qy)`
      with `(f0, f1) = [[O11, O12], [O12, O22]] * grad`. */
  function DenseContrib(el: Element, dx: nat, dy: nat): real {
    Dense(DenseFlux(el, 0, 1), el.gt, dx, el.bt, dy, el.q1d, el.q1d)
    + Dense(DenseFlux(el, 1, 2), el.bt, dx, el.gt, dy, el.q1d, el.q1d)
  }

  /** The sum-factorised gradient at the quadrature points is the dense one. */
  lemma GradIsDense(el: Element, qx: nat, qy: nat)
    requires qx < el.q1d && qy < el.q1d
    ensures GradTab0(el)[qy][qx] == DenseGrad0(el, qx, qy)
    ensures GradTab1(el)[qy][qx] == DenseGrad1(el, qx, qy)
  {
    FactorisedIsDense(el.x, el.g, el.d1d, el.q1d, el.d1d, qx, el.b, qy, el.d1d);
    FactorisedIsDense(el.x, el.b, el.d1d, el.q1d, el.d1d, qx, el.g, qy, el.d1d);
  }

  lemma FluxIsDense(el: Element)
    ensures FluxTab0(el) == DenseFlux(el, 0, 1) && FluxTab1(el) == DenseFlux(el, 1, 2)
  {
    forall qy: nat, qx: nat | qy < el.q1d && qx < el.q1d
      ensures FluxTab0(el)[qy][qx] == DenseFlux(el, 0, 1)[qy][qx]
      ensures FluxTab1(el)[qy][qx] == DenseFlux(el, 1, 2)[qy][qx]
    {
      GradIsDense(el, qx, qy);
    }
    TableExt(FluxTab0(el), DenseFlux(el, 0, 1), el.q1d, el.q1d);
    TableExt(FluxTab1(el), DenseFlux(el, 1, 2), el.q1d, el.q1d);
  }

  /** What the kernel adds to `y(dx, dy, e)` is the dense double sum. */
  lemma ContribIsDense(el: Element, dx: nat, dy: nat)
    requires dx < el.d1d
    ensures Contrib(el, dx, dy) == DenseContrib(el, dx, dy)
  {
    FluxIsDense(el);
    FactorisedIsDense(FluxTab0(el), el.gt, el.q1d, el.d1d, el.q1d, dx, el.bt, dy, el.q1d);
    FactorisedIsDense(FluxTab1(el), el.bt, el.q1d, el.d1d, el.q1d, dx, el.gt, dy, el.q1d);
  }

  /** At the flat position of `(dx, dy, e)`, `Apply2D` adds the dense double
      sum of element `e`. */
  lemma ContribAtIsDense(k: Input, dx: nat, dy: nat, e: nat)
    requires dx < k.d1d && dy < k.d1d
    ensures ContribAt(k, Idx3(dx, dy, e, k.d1d, k.d1d)) == DenseContrib(ElementOf(k, e), dx, dy)
  {
    ContribAtBlock(k, e, dx, dy);
    ContribIsDense(ElementOf(k, e), dx, dy);
  }

  // ---- Linearity in x.

  lemma MixLinear(o0: real, o1: real, a1: real, a2: real, b1: real, b2: real, c: real)
    ensures o0 * (a1 + c * a2) + o1 * (b1 + c * b2) == (o0 * a1 + o1 * b1) + c * (o0 * a2 + o1 * b2)
  {
  }

  lemma SumLinear(a1: real, a2: real, b1: real, b2: real, c: real, r: real, r1: real, r2: real)
    requires r == (a1 + Scale(c, a2)) + (b1 + Scale(c, b2)) && r1 == a1 + b1 && r2 == a2 + b2
    ensures r == r1 + Scale(c, r2)
  {
  }

  /** The pointwise transformation is linear in the gradient. */
  lemma TransformedLinear(el: Element, e1: Element, e2: Element, c: real,
                          g03: Table, g01: Table, g02: Table, g13: Table, g11: Table, g12: Table,
                          c0: nat, c1: nat)
    requires e1.q1d == el.q1d && e2.q1d == el.q1d && e1.op == el.op && e2.op == el.op
    requires Combo(g03, g01, g02, c, el.q1d, el.q1d) && Combo(g13, g11, g12, c, el.q1d, el.q1d)
    ensures Combo(Transformed(el, g03, g13, c0, c1), Transformed(e1, g01, g11, c0, c1),
                  Transformed(e2, g02, g12, c0, c1), c, el.q1d, el.q1d)
  {
    forall qy: nat, qx: nat | qy < el.q1d && qx < el.q1d
      ensures Tab(Transformed(el, g03, g13, c0, c1), qy, qx)
              == Tab(Transformed(e1, g01, g11, c0, c1), qy, qx) + c * Tab(Transformed(e2, g02, g12, c0, c1), qy, qx)
    {
      MixLinear(O(el, qx, qy, c0), O(el, qx, qy, c1), Tab(g01, qy, qx), Tab(g02, qy, qx),
                Tab(g11, qy, qx), Tab(g12, qy, qx), c);
    }
  }

  /** Both gradient tables are linear in `x`. */
  lemma GradLinear(el: Element, x1: Table, x2: Table, c: real)
    requires Combo(el.x, x1, x2, c, el.d1d, el.d1d)
    ensures Combo(GradTab0(el), GradTab0(el.(x := x1)), GradTab0(el.(x := x2)), c, el.q1d, el.q1d)
    ensures Combo(GradTab1(el), GradTab1(el.(x := x1)), GradTab1(el.(x := x2)), c, el.q1d, el.q1d)
  {
    var e1, e2 := el.(x := x1), el.(x := x2);
    RowDotsLinear(el.x, x1, x2, c, el.g, el.d1d, el.q1d, el.d1d);
    RowDotsLinear(el.x, x1, x2, c, el.b, el.d1d, el.q1d, el.d1d);
    ColDotsLinear(XGTab(el), XGTab(e1), XGTab(e2), c, el.b, el.q1d, el.q1d, el.d1d);
    ColDotsLinear(XBTab(el), XBTab(e1), XBTab(e2), c, el.g, el.q1d, el.q1d, el.d1d);
  }

  /** Both transformed gradient tables are linear in `x`. */
  lemma FluxLinear(el: Element, x1: Table, x2: Table, c: real)
    requires Combo(el.x, x1, x2, c, el.d1d, el.d1d)
    ensures Combo(FluxTab0(el), FluxTab0(el.(x := x1)), FluxTab0(el.(x := x2)), c, el.q1d, el.q1d)
    ensures Combo(FluxTab1(el), FluxTab1(el.(x := x1)), FluxTab1(el.(x := x2)), c, el.q1d, el.q1d)
  {
    var e1, e2 := el.(x := x1), el.(x := x2);
    GradLinear(el, x1, x2, c);
    TransformedLinear(el, e1, e2, c, GradTab0(el), GradTab0(e1), GradTab0(e2),
                      GradTab1(el), GradTab1(e1), GradTab1(e2), 0, 1);
    TransformedLinear(el, e1, e2, c, GradTab0(el), GradTab0(e1), GradTab0(e2),
                      GradTab1(el), GradTab1(e1), GradTab1(e2), 1, 2);
  }

  /** Both tables of the first transposed contraction are linear in `x`. */
  lemma BackLinear(el: Element, x1: Table, x2: Table, c: real)
    requires Combo(el.x, x1, x2, c, el.d1d, el.d1d)
    ensures Combo(BackTab0(el), BackTab0(el.(x := x1)), BackTab0(el.(x := x2)), c, el.q1d, el.d1d)
    ensures Combo(BackTab1(el), BackTab1(el.(x := x1)), BackTab1(el.(x := x2)), c, el.q1d, el.d1d)
  {
    var e1, e2 := el.(x := x1), el.(x := x2);
    FluxLinear(el, x1, x2, c);
    RowDotsLinear(FluxTab0(el), FluxTab0(e1), FluxTab0(e2), c, el.gt, el.q1d, el.d1d, el.q1d);
    RowDotsLinear(FluxTab1(el), FluxTab1(e1), FluxTab1(e2), c, el.bt, el.q1d, el.d1d, el.q1d);
  }

  /** The last contraction carries a linear relation between the transposed
      tables of three elements that share `Bt`, `Gt` and `Q1D` over to what
      they add to `y`. */
  lemma ContribCombo(el: Element, e1: Element, e2: Element, c: real, dx: nat, dy: nat)
    requires e1.bt == el.bt && e1.gt == el.gt && e1.q1d == el.q1d
    requires e2.bt == el.bt && e2.gt == el.gt && e2.q1d == el.q1d
    requires Combo(BackTab0(el), BackTab0(e1), BackTab0(e2), c, el.q1d, el.d1d)
    requires Combo(BackTab1(el), BackTab1(e1), BackTab1(e2), c, el.q1d, el.d1d)
    requires dx < el.d1d
    ensures Contrib(el, dx, dy) == Contrib(e1, dx, dy) + Scale(c, Contrib(e2, dx, dy))
  {
    ColDotLinear(BackTab0(el), BackTab0(e1), BackTab0(e2), c, el.d1d, dx, el.bt, dy, el.q1d);
    ColDotLinear(BackTab1(el), BackTab1(e1), BackTab1(e2), c, el.d1d, dx, el.gt, dy, el.q1d);
    SumLinear(ColDot(BackTab0(e1), dx, el.bt, dy, el.q1d), ColDot(BackTab0(e2), dx, el.bt, dy, el.q1d),
              ColDot(BackTab1(e1), dx, el.gt, dy, el.q1d), ColDot(BackTab1(e2), dx, el.gt, dy, el.q1d),
              c, Contrib(el, dx, dy), Contrib(e1, dx, dy), Contrib(e2, dx, dy));
  }

  /** What the kernel adds to `y` is linear in `x`: for `x = x1 + c*x2`
      entrywise, the contribution is that of `x1` plus `c` times that of `x2`. */
  lemma ContribLinear(el: Element, x1: Table, x2: Table, c: real, dx: nat, dy: nat)
    requires Combo(el.x, x1, x2, c, el.d1d, el.d1d) && dx < el.d1d
    ensures Contrib(el, dx, dy) == Contrib(el.(x := x1), dx, dy) + c * Contrib(el.(x := x2), dx, dy)
  {
    BackLinear(el, x1, x2, c);
    ContribCombo(el, el.(x := x1), el.(x := x2), c, dx, dy);
  }

  /** An element whose input block is zero contributes nothing. */
  lemma ZeroInputContributesNothing(el: Element, dx: nat, dy: nat)
    requires forall i: nat, j: nat | i < el.d1d && j < el.d1d :: Tab(el.x, i, j) == 0.0
    requires dx < el.d1d
    ensures Contrib(el, dx, dy) == 0.0
  {
    ContribLinear(el, el.x, el.x, 1.0, dx, dy);
    assert el.(x := el.x) == el;
  }

  /** The first component of `x`'s `(D1D, D1D, NE, 2)` view for element `e`,
      split as `x = x1 + c*x2`. */
  lemma XViewLinear(x: seq<real>, x1: seq<real>, x2: seq<real>, c: real, d1d: nat, ne: nat, e: nat)
    requires |x1| == |x| && |x2| == |x|
    requires forall p: nat | p < |x| :: x[p] == x1[p] + c * x2[p]
    ensures Combo(XView(x, d1d, ne, e), XView(x1, d1d, ne, e), XView(x2, d1d, ne, e), c, d1d, d1d)
  {
    forall dy: nat, dx: nat | dy < d1d && dx < d1d
      ensures Tab(XView(x, d1d, ne, e), dy, dx)
              == Tab(XView(x1, d1d, ne, e), dy, dx) + c * Tab(XView(x2, d1d, ne, e), dy, dx)
    {
      var p := Idx4(dx, dy, e, 0, d1d, d1d, ne);
      if p >= |x| {
        assert Get(x, p) == 0.0 && Get(x1, p) == 0.0 && Get(x2, p) == 0.0;
      }
    }
  }

  /** The kernel's input with `x` replaced. */
  function WithX(k: Input, x: seq<real>): Input
  {
    k.(x := x)
  }

  /** Replacing `x` in the input replaces exactly the element's `x` view. */
  lemma ElementOfWithX(k: Input, x1: seq<real>, e: nat)
    ensures ElementOf(WithX(k, x1), e) == ElementOf(k, e).(x := XView(x1, k.d1d, k.ne, e))
  {
  }

  /** Linearity in `x` of what one element adds, read through `ElementOf`. */
  lemma ElementContribLinear(k: Input, x1: seq<real>, x2: seq<real>, c: real, e: nat, dx: nat, dy: nat)
    requires |x1| == |k.x| && |x2| == |k.x|
    requires forall p: nat | p < |k.x| :: k.x[p] == x1[p] + c * x2[p]
    requires dx < k.d1d
    ensures Contrib(ElementOf(k, e), dx, dy)
            == Contrib(ElementOf(WithX(k, x1), e), dx, dy) + Scale(c, Contrib(ElementOf(WithX(k, x2), e), dx, dy))
  {
    XViewLinear(k.x, x1, x2, c, k.d1d, k.ne, e);
    ElementOfWithX(k, x1, e);
    ElementOfWithX(k, x2, e);
    BackLinear(ElementOf(k, e), XView(x1, k.d1d, k.ne, e), XView(x2, k.d1d, k.ne, e), c);
    ContribCombo(ElementOf(k, e), ElementOf(WithX(k, x1), e), ElementOf(WithX(k, x2), e), c, dx, dy);
  }

  /** `Apply2D` is linear in `x`: for `x = x1 + c*x2` entrywise, what it adds
      at every position is what it adds for `x1` plus `c` times what it adds
      for `x2`. */
  lemma ApplyLinearInX(k: Input, x1: seq<real>, x2: seq<real>, c: real, i: nat)
    requires |x1| == |k.x| && |x2| == |k.x|
    requires forall p: nat | p < |k.x| :: k.x[p] == x1[p] + c * x2[p]
    ensures ContribAt(k, i) == ContribAt(WithX(k, x1), i) + Scale(c, ContribAt(WithX(k, x2), i))
  {
    if k.d1d > 0 {
      var t := Split3(i, k.d1d, k.d1d);
      ElementContribLinear(k, x1, x2, c, t.2, t.0, t.1);
    }
  }

  /** With `x = 0`, `Apply2D` adds nothing: `y` comes back unchanged. */
  lemma ApplyZeroInput(k: Input, i: nat)
    requires forall p: nat | p < |k.x| :: k.x[p] == 0.0
    ensures ContribAt(k, i) == 0.0
  {
    if k.d1d > 0 {
      var t := Split3(i, k.d1d, k.d1d);
      var el := ElementOf(k, t.2);
      forall dy: nat, dx: nat | dy < k.d1d && dx < k.d1d
        ensures Tab(el.x, dy, dx) == 0.0
      {
      }
      ZeroInputContributesNothing(el, t.0, t.1);
    }
  }

  // ---- Locality.

  /** Element `e` of two inputs with the same sizes and tables, whose `op`
      agree on slab `e` of its `(Q1D*Q1D, 3, NE)` view and whose `x` agree on
      slab `e` of its first component, is seen identically by the kernel. */
  lemma ElementLocal(k1: Input, k2: Input, e: nat)
    requires WellSized(k1) && WellSized(k2) && e < k1.ne
    requires k1.d1d == k2.d1d && k1.q1d == k2.q1d && k1.ne == k2.ne
    requires k1.b == k2.b && k1.g == k2.g && k1.bt == k2.bt && k1.gt == k2.gt
    requires forall p: nat | k1.q1d * k1.q1d * 3 * e <= p < k1.q1d * k1.q1d * 3 * (e + 1) :: Get(k1.op, p) == Get(k2.op, p)
    requires forall p: nat | k1.d1d * k1.d1d * e <= p < k1.d1d * k1.d1d * (e + 1) :: Get(k1.x, p) == Get(k2.x, p)
    ensures ElementOf(k1, e) == ElementOf(k2, e)
  {
    var q1d, d1d, ne := k1.q1d, k1.d1d, k1.ne;
    forall qy: nat, qx: nat, c: nat | qy < q1d && qx < q1d && c < 3
      ensures Tab(OpView(k1.op, q1d, e)[qy], qx, c) == Tab(OpView(k2.op, q1d, e)[qy], qx, c)
    {
      var q := Idx2(qx, qy, q1d);
      Idx2InRange(qx, qy, q1d, q1d);
      Idx3Slab(q, c, e, q1d * q1d, 3);
      Idx3InRange(q, c, e, q1d * q1d, 3, ne);
    }
    OpViewExt(k1.op, k2.op, q1d, e);
    forall dy: nat, dx: nat | dy < d1d && dx < d1d
      ensures XView(k1.x, d1d, ne, e)[dy][dx] == XView(k2.x, d1d, ne, e)[dy][dx]
    {
      Idx4FirstComponent(dx, dy, e, d1d, d1d, ne);
      Idx3Slab(dx, dy, e, d1d, d1d);
      Idx3InRange(dx, dy, e, d1d, d1d, ne);
      MulMonotone(d1d * d1d * ne, d1d * d1d * ne * 2, 1);
    }
    TableExt(XView(k1.x, d1d, ne, e), XView(k2.x, d1d, ne, e), d1d, d1d);
  }

  /** Two `op` views with the same entries are the same. */
  lemma OpViewExt(op1: seq<real>, op2: seq<real>, q1d: nat, e: nat)
    requires forall qy: nat, qx: nat, c: nat | qy < q1d && qx < q1d && c < 3 ::
               Tab(OpView(op1, q1d, e)[qy], qx, c) == Tab(OpView(op2, q1d, e)[qy], qx, c)
    ensures OpView(op1, q1d, e) == OpView(op2, q1d, e)
  {
    var t1, t2 := OpView(op1, q1d, e), OpView(op2, q1d, e);
    forall qy: nat | qy < q1d
      ensures t1[qy] == t2[qy]
    {
      forall qx: nat, c: nat | qx < q1d && c < 3
        ensures t1[qy][qx][c] == t2[qy][qx][c]
      {
        assert Tab(t1[qy], qx, c) == Tab(t2[qy], qx, c);
      }
      TableExt(t1[qy], t2[qy], q1d, 3);
    }
  }

  /** Block `e` of the result depends only on element `e`'s slabs of `op` and
      `x`: changing any other element's data leaves it alone. */
  lemma BlockLocal(k1: Input, k2: Input, e: nat, dx: nat, dy: nat)
    requires WellSized(k1) && WellSized(k2) && e < k1.ne && dx < k1.d1d && dy < k1.d1d
    requires k1.d1d == k2.d1d && k1.q1d == k2.q1d && k1.ne == k2.ne
    requires k1.b == k2.b && k1.g == k2.g && k1.bt == k2.bt && k1.gt == k2.gt
    requires forall p: nat | k1.q1d * k1.q1d * 3 * e <= p < k1.q1d * k1.q1d * 3 * (e + 1) :: Get(k1.op, p) == Get(k2.op, p)
    requires forall p: nat | k1.d1d * k1.d1d * e <= p < k1.d1d * k1.d1d * (e + 1) :: Get(k1.x, p) == Get(k2.x, p)
    ensures ContribAt(k1, Idx3(dx, dy, e, k1.d1d, k1.d1d)) == ContribAt(k2, Idx3(dx, dy, e, k2.d1d, k2.d1d))
  {
    ElementLocal(k1, k2, e);
    ContribAtBlock(k1, e, dx, dy);
    ContribAtBlock(k2, e, dx, dy);
  }
}
