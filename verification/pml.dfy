/** The Cartesian perfectly matched layer of examples/ex25.cpp: the
    computational box inside the mesh's bounding box, the marking of PML
    elements, the boundary data that vanishes in the layer, and the complex
    coordinate stretch. An `Array2D<double>(dim, 2)` is a sequence of
    `Sides`, one per axis, column 0 the lower and column 1 the upper side. */
module Pml {
  import opened Complex

  datatype Sides = Sides(lower: real, upper: real)

  /** `CartesianPML`: the layer widths given to the constructor and the two
      boxes `SetBoundaries` derives from the bounding box. The space
      dimension is `|length|`. */
  datatype CartesianPml = CartesianPml(length: seq<Sides>, dom: seq<Sides>, comp: seq<Sides>)

  /** The constructor with `SetBoundaries`: the domain box is the bounding
      box `[pmin, pmax]`, the computational box is that box with a layer of
      width `length(i, 0)` removed below and `length(i, 1)` above. */
  function SetBoundaries(pmin: seq<real>, pmax: seq<real>, length: seq<Sides>): (p: CartesianPml)
    requires |pmin| >= |length| && |pmax| >= |length|
    ensures p.length == length && |p.dom| == |length| && |p.comp| == |length|
    ensures forall i :: 0 <= i < |length| ==> p.dom[i] == Sides(pmin[i], pmax[i])
    ensures forall i :: 0 <= i < |length| ==>
              LayerWidths(p.dom[i], p.comp[i]) == length[i]
  {
    var dom := seq(|length|, i requires 0 <= i < |length| => Sides(pmin[i], pmax[i]));
    var comp := seq(|length|, i requires 0 <= i < |length| =>
                      Sides(dom[i].lower + length[i].lower, dom[i].upper - length[i].upper));
    CartesianPml(length, dom, comp)
  }

  /** The widths of the two layers between a domain interval and a
      computational interval. */
  function LayerWidths(dom: Sides, comp: Sides): Sides {
    Sides(comp.lower - dom.lower, dom.upper - comp.upper)
  }

  /** Non-negative widths keep the computational box inside the domain box;
      widths that fit in the box leave it non-empty. */
  lemma CompInsideDomain(pmin: seq<real>, pmax: seq<real>, length: seq<Sides>, i: int)
    requires |pmin| >= |length| && |pmax| >= |length| && 0 <= i < |length|
    requires length[i].lower >= 0.0 && length[i].upper >= 0.0
    ensures var p := SetBoundaries(pmin, pmax, length);
            p.dom[i].lower <= p.comp[i].lower && p.comp[i].upper <= p.dom[i].upper
    ensures var p := SetBoundaries(pmin, pmax, length);
            length[i].lower + length[i].upper <= pmax[i] - pmin[i] ==> p.comp[i].lower <= p.comp[i].upper
  {
  }

  // ---- The in-PML test.

  /** `x(i)` lies strictly below or strictly above the computational
      interval of axis `i`. */
  predicate OutsideAxis(c: Sides, xi: real) {
    xi < c.lower || xi > c.upper
  }

  /** The point lies strictly outside the computational box along some axis. */
  predicate Outside(comp: seq<Sides>, x: seq<real>)
    requires |x| >= |comp|
  {
    exists i :: 0 <= i < |comp| && OutsideAxis(comp[i], x[i])
  }

  /** The axis loop shared by `E_bdr_data_Re/Im` and `SetAttributes`: it
      stops at the first axis along which the point is outside. The first
      writes the test as `x(i) - comp(i,0) < 0 || x(i) - comp(i,1) > 0`, the
      second as `coords > comp(c,1) || coords < comp(c,0)`; over the reals
      both are `OutsideAxis`. */
  method ScanOutside(comp: seq<Sides>, x: seq<real>) returns (inPml: bool)
    requires |x| >= |comp|
    ensures inPml <==> Outside(comp, x)
  {
    inPml := false;
    var i := 0;
    while i < |comp|
      invariant 0 <= i <= |comp|
      invariant forall j :: 0 <= j < i ==> !OutsideAxis(comp[j], x[j])
    {
      if x[i] - comp[i].lower < 0.0 || x[i] - comp[i].upper > 0.0 {
        inPml := true;
        break;
      }
      i := i + 1;
    }
  }

  // ---- Element marking.

  /** An element (a list of vertex indices) with some vertex strictly
      outside the computational box. */
  predicate InPmlElement(comp: seq<Sides>, vertices: seq<seq<real>>, element: seq<nat>)
    requires forall v :: 0 <= v < |element| ==> element[v] < |vertices|
    requires forall k :: 0 <= k < |vertices| ==> |vertices[k]| >= |comp|
  {
    exists v :: 0 <= v < |element| && Outside(comp, vertices[element[v]])
  }

  /** `CartesianPML::SetAttributes`: `elems[e]` is 0 for a PML element and 1
      otherwise, and the element attribute is 2 in the layer and 1 in the
      computational domain. `vertices` are the mesh's vertex coordinates and
      each element lists its vertex indices. */
  method SetAttributes(comp: seq<Sides>, vertices: seq<seq<real>>, elements: seq<seq<nat>>)
    returns (elems: seq<int>, attributes: seq<int>)
    requires forall k :: 0 <= k < |vertices| ==> |vertices[k]| >= |comp|
    requires forall e, v :: 0 <= e < |elements| && 0 <= v < |elements[e]| ==> elements[e][v] < |vertices|
    ensures |elems| == |elements| && |attributes| == |elements|
    ensures forall e :: 0 <= e < |elements| ==>
              (elems[e] == 0 <==> InPmlElement(comp, vertices, elements[e])) && (elems[e] == 0 || elems[e] == 1)
    ensures forall e :: 0 <= e < |elements| ==> attributes[e] == (if elems[e] == 0 then 2 else 1)
  {
    elems, attributes := [], [];
    var e := 0;
    while e < |elements|
      invariant 0 <= e <= |elements| && |elems| == e && |attributes| == e
      invariant forall f :: 0 <= f < e ==>
                  (elems[f] == 0 <==> InPmlElement(comp, vertices, elements[f])) && (elems[f] == 0 || elems[f] == 1)
      invariant forall f :: 0 <= f < e ==> attributes[f] == (if elems[f] == 0 then 2 else 1)
    {
      var element := elements[e];
      var inPml := false;
      var v := 0;
      while v < |element|
        invariant 0 <= v <= |element|
        invariant inPml <==> exists w :: 0 <= w < v && Outside(comp, vertices[element[w]])
      {
        var outside := ScanOutside(comp, vertices[element[v]]);
        inPml := inPml || outside;
        v := v + 1;
      }
      var mark, attribute := 1, 1;
      if inPml {
        mark, attribute := 0, 2;
      }
      elems, attributes := elems + [mark], attributes + [attribute];
      e := e + 1;
    }
  }

  // ---- Boundary data.

  /** Which half of a complex value a real-valued coefficient returns. */
  datatype Part = Real | Imag

  function PartOf(z: Complex, part: Part): real {
    match part
    case Real => z.re
    case Imag => z.im
  }

  /** `E_bdr_data_Re/Im`: zero at a point in the layer, otherwise the real
      or imaginary part of the exact solution `exact` at that point (the
      value `maxwell_solution` would compute). */
  function BoundaryData(comp: seq<Sides>, x: seq<real>, exact: seq<Complex>, part: Part): (e: seq<real>)
    requires |x| >= |comp| && |exact| == |comp|
    ensures |e| == |comp|
    ensures Outside(comp, x) ==> forall i :: 0 <= i < |e| ==> e[i] == 0.0
    ensures !Outside(comp, x) ==> forall i :: 0 <= i < |e| ==> e[i] == PartOf(exact[i], part)
  {
    if Outside(comp, x) then seq(|comp|, _ => 0.0)
    else seq(|comp|, i requires 0 <= i < |comp| => PartOf(exact[i], part))
  }

  /** The real and imaginary boundary data together give back the exact
      solution inside the box and zero in the layer. */
  lemma BoundaryDataRecombines(comp: seq<Sides>, x: seq<real>, exact: seq<Complex>, i: int)
    requires |x| >= |comp| && |exact| == |comp| && 0 <= i < |comp|
    ensures Complex(BoundaryData(comp, x, exact, Real)[i], BoundaryData(comp, x, exact, Imag)[i])
            == (if Outside(comp, x) then Zero else exact[i])
  {
  }

  // ---- The complex coordinate stretch.

  /** The exponent `n` of the stretch profile. */
  const Order := 2.0
  /** The amplitude `c` of the stretch profile. */
  const Amplitude := 5.0

  /** `n * c / k / pow(length, n)` with `n = 2`; `k` is the wave number
      `omega * sqrt(epsilon * mu)`, given as a number. */
  function StretchCoefficient(k: real, width: real): real
    requires k != 0.0 && width != 0.0
  {
    NonzeroSquare(width);
    Order * Amplitude / k / (width * width)
  }

  lemma NonzeroSquare(r: real)
    requires r != 0.0
    ensures r * r != 0.0
  {
  }

  function Abs(r: real): real {
    if r < 0.0 then -r else r
  }

  /** `1 + zi * coeff * abs(pow(d, n - 1))`, with `n - 1 = 1`. */
  function Stretched(k: real, width: real, d: real): Complex
    requires k != 0.0 && width != 0.0
  {
    Add(FromReal(1.0), Scale(Scale(I, StretchCoefficient(k, width)), Abs(d)))
  }

  /** The divisions the stretch of one axis performs are by nonzero numbers:
      `k` always, and the width of the side whose branch decides the value. */
  predicate StretchDefined(k: real, width: Sides, c: Sides, xi: real) {
    k != 0.0
    && (xi <= c.lower ==> width.lower != 0.0)
    && (c.lower < xi && c.upper <= xi ==> width.upper != 0.0)
  }

  /** One entry `dxs[i]` of `StretchFunction`. The source first applies the
      upper-side branch when `x(i) >= comp(i,1)` and then overwrites it with
      the lower-side branch when `x(i) <= comp(i,0)`, so the lower side wins
      when both hold; the upper-side value is only needed when it is kept. */
  function StretchAxis(k: real, width: Sides, c: Sides, xi: real): (z: Complex)
    requires StretchDefined(k, width, c, xi)
    ensures z.re == 1.0
    ensures !OutsideAxis(c, xi) ==> z == One
    ensures xi <= c.lower ==> z.im == StretchCoefficient(k, width.lower) * (c.lower - xi)
    ensures c.lower < xi && c.upper <= xi ==> z.im == StretchCoefficient(k, width.upper) * (xi - c.upper)
  {
    if xi <= c.lower then Stretched(k, width.lower, xi - c.lower)
    else if c.upper <= xi then Stretched(k, width.upper, xi - c.upper)
    else One
  }

  /** `StretchFunction` can be evaluated at `x`. */
  predicate StretchDefinedAt(p: CartesianPml, k: real, x: seq<real>) {
    |p.comp| == |p.length| && |x| >= |p.length|
    && forall i :: 0 <= i < |p.length| ==> StretchDefined(k, p.length[i], p.comp[i], x[i])
  }

  /** `CartesianPML::StretchFunction`: each axis is stretched independently. */
  function StretchFunction(p: CartesianPml, k: real, x: seq<real>): (dxs: seq<Complex>)
    requires StretchDefinedAt(p, k, x)
    ensures |dxs| == |p.length|
    ensures forall i :: 0 <= i < |dxs| ==> dxs[i].re == 1.0 && Invertible(dxs[i])
  {
    var dxs := seq(|p.length|, i requires 0 <= i < |p.length| => StretchAxis(k, p.length[i], p.comp[i], x[i]));
    forall i | 0 <= i < |dxs|
      ensures Invertible(dxs[i])
    {
      UnitRealPartInvertible(dxs[i]);
    }
    dxs
  }

  /** The stretch along an axis is the identity exactly where the point is
      not strictly outside the computational interval: inside and on its
      faces. (For an inverted interval the lower branch gives 1 at
      `x(i) == comp(i,0)`, which lies above `comp(i,1)`.) */
  lemma StretchIdentityIffInside(k: real, width: Sides, c: Sides, xi: real)
    requires StretchDefined(k, width, c, xi) && c.lower <= c.upper
    ensures StretchAxis(k, width, c, xi) == One <==> !OutsideAxis(c, xi)
  {
    if xi < c.lower {
      StretchedBelow(k, width, c, xi);
    } else if c.upper < xi {
      StretchedAbove(k, width, c, xi);
    }
  }

  lemma StretchedBelow(k: real, width: Sides, c: Sides, xi: real)
    requires StretchDefined(k, width, c, xi) && xi < c.lower
    ensures StretchAxis(k, width, c, xi).im != 0.0
  {
    CoefficientNonzero(k, width.lower);
    var s, d := StretchCoefficient(k, width.lower), c.lower - xi;
    NonzeroProduct(s, d);
  }

  lemma StretchedAbove(k: real, width: Sides, c: Sides, xi: real)
    requires StretchDefined(k, width, c, xi) && c.lower <= c.upper < xi
    ensures StretchAxis(k, width, c, xi).im != 0.0
  {
    CoefficientNonzero(k, width.upper);
    var s, d := StretchCoefficient(k, width.upper), xi - c.upper;
    NonzeroProduct(s, d);
  }

  lemma CoefficientNonzero(k: real, width: real)
    requires k != 0.0 && width != 0.0
    ensures StretchCoefficient(k, width) != 0.0
  {
    NonzeroSquare(width);
    var q := width * width;
    var a := Order * Amplitude / k;
    assert a * k == Order * Amplitude;
    assert StretchCoefficient(k, width) * q == a;
  }

  /** A point is stretched along no axis iff it is not outside the box:
      the stretch agrees with the test that marks PML elements and zeroes
      the boundary data. */
  lemma UnstretchedIffInside(p: CartesianPml, k: real, x: seq<real>)
    requires StretchDefinedAt(p, k, x)
    requires forall i :: 0 <= i < |p.comp| ==> p.comp[i].lower <= p.comp[i].upper
    ensures (forall i :: 0 <= i < |p.length| ==> StretchFunction(p, k, x)[i] == One) <==> !Outside(p.comp, x)
  {
    var dxs := StretchFunction(p, k, x);
    forall i | 0 <= i < |p.length|
      ensures dxs[i] == One <==> !OutsideAxis(p.comp[i], x[i])
    {
      StretchIdentityIffInside(k, p.length[i], p.comp[i], x[i]);
    }
  }

  /** With a positive wave number and positive widths the imaginary part of
      the stretch is non-negative and grows with the depth into the layer. */
  lemma StretchDampsOutward(k: real, width: Sides, c: Sides, xi: real, yi: real)
    requires k > 0.0 && width.lower > 0.0 && width.upper > 0.0
    requires c.lower < c.upper
    requires (xi <= c.lower && yi <= xi) || (c.upper <= xi && xi <= yi)
    ensures StretchDefined(k, width, c, xi) && StretchDefined(k, width, c, yi)
    ensures 0.0 <= StretchAxis(k, width, c, xi).im <= StretchAxis(k, width, c, yi).im
  {
    if xi <= c.lower {
      DampsBelow(k, width, c, xi, yi);
    } else {
      DampsAbove(k, width, c, xi, yi);
    }
  }

  lemma DampsBelow(k: real, width: Sides, c: Sides, xi: real, yi: real)
    requires k > 0.0 && width.lower > 0.0 && yi <= xi <= c.lower
    ensures StretchDefined(k, width, c, xi) && StretchDefined(k, width, c, yi)
    ensures 0.0 <= StretchAxis(k, width, c, xi).im <= StretchAxis(k, width, c, yi).im
  {
    CoefficientPositive(k, width.lower);
    var s, a, b := StretchCoefficient(k, width.lower), c.lower - xi, c.lower - yi;
    ScaleMonotone(s, a, b);
  }

  lemma DampsAbove(k: real, width: Sides, c: Sides, xi: real, yi: real)
    requires k > 0.0 && width.upper > 0.0 && c.lower < c.upper <= xi <= yi
    ensures StretchDefined(k, width, c, xi) && StretchDefined(k, width, c, yi)
    ensures 0.0 <= StretchAxis(k, width, c, xi).im <= StretchAxis(k, width, c, yi).im
  {
    CoefficientPositive(k, width.upper);
    var s, a, b := StretchCoefficient(k, width.upper), xi - c.upper, yi - c.upper;
    ScaleMonotone(s, a, b);
  }

  lemma CoefficientPositive(k: real, width: real)
    requires k > 0.0 && width > 0.0
    ensures StretchCoefficient(k, width) > 0.0
  {
    var q := width * width;
    assert q > 0.0;
    var a := Order * Amplitude / k;
    assert a > 0.0;
    assert StretchCoefficient(k, width) == a / q;
  }

  lemma ScaleMonotone(s: real, a: real, b: real)
    requires s >= 0.0 && 0.0 <= a <= b
    ensures 0.0 <= s * a <= s * b
  {
  }

  lemma NonzeroProduct(a: real, b: real)
    requires a != 0.0 && b != 0.0
    ensures a * b != 0.0
  {
  }
}
