/** The problem set-up tables of the `main` driver in examples/ex25.cpp:
    the problem index, the default mesh, the PML widths of each problem, and
    the attribute markers that restrict the material coefficients to the
    computational domain (attribute 1) and to the layer (attribute 2). */
module Ex25Tables {
  import opened Pml

  /** `prob_type`, numbered 0 to 4. A negative `-prob` is cast to a value
      no case label names, so every `switch` takes its `default` branch. */
  datatype Problem = Beam | Scatter | LShape | Fichera | LoadSrc | Unnamed(code: int)

  /** The number a problem is cast from. */
  function Code(p: Problem): int {
    match p
    case Beam => 0
    case Scatter => 1
    case LShape => 2
    case Fichera => 3
    case LoadSrc => 4
    case Unnamed(c) => c
  }

  /** `if (iprob > 4) iprob = 4; prob = (prob_type)iprob;` */
  function ProblemOf(iprob: int): (p: Problem)
    ensures iprob >= 4 ==> p == LoadSrc
    ensures iprob < 0 ==> p == Unnamed(iprob)
    ensures !p.Unnamed? <==> iprob >= 0
  {
    var clamped := if iprob > 4 then 4 else iprob;
    match clamped
    case 0 => Beam
    case 1 => Scatter
    case 2 => LShape
    case 3 => Fichera
    case 4 => LoadSrc
    case _ => Unnamed(clamped)
  }

  /** The problem index read back is the clamped index. */
  lemma ProblemCodeClamps(iprob: int)
    ensures Code(ProblemOf(iprob)) == (if iprob > 4 then 4 else iprob)
  {
  }

  /** Every problem the cast can produce comes from its own code. */
  lemma ProblemOfCode(p: Problem)
    requires p.Unnamed? ==> p.code < 0
    ensures ProblemOf(Code(p)) == p
  {
  }

  /** The mesh file used when none is given, and whether the exact solution
      is known for it. */
  function DefaultMesh(p: Problem): (r: (string, bool))
    ensures r.1 <==> p in {Beam, Scatter, LShape, Fichera}
  {
    match p
    case Beam => ("../data/beam-hex.mesh", true)
    case Scatter => ("../data/square_w_hole.mesh", true)
    case LShape => ("../data/l-shape.mesh", true)
    case Fichera => ("../data/fichera.mesh", true)
    case _ => ("../data/inline-quad.mesh", false)
  }

  /** The writes of a problem's `length` case stay inside the `dim` x 2 table. */
  predicate LengthTableFits(p: Problem, dim: nat) {
    (p == Beam ==> dim >= 1) && (p == LShape ==> dim >= 2) && (p == Fichera ==> dim >= 3)
  }

  /** One row of the PML width table. */
  function LengthRow(p: Problem, i: nat): Sides {
    match p
    case Scatter => Sides(1.0, 1.0)
    case LShape => if i < 2 then Sides(0.0, 0.5) else Sides(0.0, 0.0)
    case Fichera => if i < 3 then Sides(0.0, 0.5) else Sides(0.0, 0.0)
    case Beam => if i == 0 then Sides(0.0, 2.0) else Sides(0.0, 0.0)
    case _ => Sides(0.25, 0.25)
  }

  /** `length = 0.0` followed by the problem's `switch` case. */
  function LengthTable(p: Problem, dim: nat): (length: seq<Sides>)
    requires LengthTableFits(p, dim)
    ensures |length| == dim
    ensures forall i :: 0 <= i < dim ==> length[i].lower >= 0.0 && length[i].upper >= 0.0
    ensures forall i :: 0 <= i < dim ==> (length[i].lower != 0.0 <==> p == Scatter || p == LoadSrc || p.Unnamed?)
  {
    seq(dim, i requires 0 <= i < dim => LengthRow(p, i))
  }

  /** The layer sits on every side for `scatter` and the general problem,
      only on the upper sides of the first two (`lshape`) or three
      (`fichera`) axes, and only at the upper end of the first axis for
      `beam`. */
  lemma LayerSides(p: Problem, dim: nat, i: nat)
    requires LengthTableFits(p, dim) && i < dim
    ensures var w := LengthTable(p, dim)[i];
            (w.upper != 0.0 <==> match p
                                 case Beam => i == 0
                                 case LShape => i < 2
                                 case Fichera => i < 3
                                 case _ => true)
  {
  }

  /** With the table's widths the computational box lies inside the
      bounding box on every axis. */
  lemma TableKeepsBoxInside(p: Problem, dim: nat, pmin: seq<real>, pmax: seq<real>, i: nat)
    requires LengthTableFits(p, dim) && |pmin| >= dim && |pmax| >= dim && i < dim
    ensures var b := SetBoundaries(pmin, pmax, LengthTable(p, dim));
            b.dom[i].lower <= b.comp[i].lower && b.comp[i].upper <= b.dom[i].upper
  {
    CompInsideDomain(pmin, pmax, LengthTable(p, dim), i);
  }

  // ---- Attribute markers.

  /** The two markers: `attr` for the computational domain and `attrPML`
      for the layer, one entry per attribute. */
  datatype Markers = Markers(attr: seq<int>, attrPml: seq<int>)

  function Max(s: seq<int>): int
    requires |s| > 0
  {
    if |s| == 1 then s[0] else var m := Max(s[..|s| - 1]); if s[|s| - 1] > m then s[|s| - 1] else m
  }

  lemma {:induction false} MaxIsUpperBound(s: seq<int>, i: int)
    requires 0 <= i < |s|
    ensures s[i] <= Max(s)
    decreases |s|
  {
    if |s| > 1 && i < |s| - 1 {
      MaxIsUpperBound(s[..|s| - 1], i);
    }
  }

  /** A marker enables a restricted coefficient on elements of attribute
      `a` when its entry `a - 1` is 1. */
  predicate Selects(marker: seq<int>, a: int) {
    1 <= a <= |marker| && marker[a - 1] == 1
  }

  /** The markers sized by the largest mesh attribute (mesh attributes are
      positive); `attrPML[1]` only exists when some attribute exceeds 1. */
  function AttributeMarkers(attributes: seq<int>): (m: Markers)
    requires forall i :: 0 <= i < |attributes| ==> attributes[i] >= 1
    ensures |attributes| == 0 ==> m == Markers([], [])
    ensures |attributes| > 0 ==> |m.attr| == |m.attrPml| == Max(attributes)
    ensures forall a :: Selects(m.attr, a) <==> a == 1 && |attributes| > 0
    ensures forall a :: Selects(m.attrPml, a) <==> a == 2 && |attributes| > 0 && Max(attributes) > 1
  {
    if |attributes| == 0 then Markers([], [])
    else
      var n := Max(attributes);
      assert n >= 1 by {
        MaxIsUpperBound(attributes, 0);
      }
      Markers(seq(n, i => if i == 0 then 1 else 0), seq(n, i => if i == 1 && n > 1 then 1 else 0))
  }

  /** After `SetAttributes`, each element gets exactly one of the two
      material treatments: the plain coefficients on the computational
      domain and the PML coefficients in the layer. */
  lemma MarkersSplitElements(elems: seq<int>, attributes: seq<int>, e: int)
    requires |elems| == |attributes| && 0 <= e < |elems|
    requires forall f :: 0 <= f < |elems| ==> elems[f] == 0 || elems[f] == 1
    requires forall f :: 0 <= f < |elems| ==> attributes[f] == (if elems[f] == 0 then 2 else 1)
    ensures var m := AttributeMarkers(attributes);
            (Selects(m.attr, attributes[e]) <==> elems[e] == 1)
            && (Selects(m.attrPml, attributes[e]) <==> elems[e] == 0)
  {
    MaxIsUpperBound(attributes, e);
  }
}
