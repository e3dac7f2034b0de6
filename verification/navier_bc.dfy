/** Dirichlet boundary conditions of the Navier solver
    (`NavierSolver::AddVelDirichletBC` and `AddPresDirichletBC`,
    miniapps/fluids/navier_solver.cpp): the condition is appended to a list
    and its boundary-attribute marker is merged into the solver's essential
    marker. The boundary data `f` is an opaque value of type `F`. */
module NavierBc {
  import opened Wrappers

  /** The debug-build `MFEM_ASSERT` of a boundary marked twice. */
  datatype BcError = DuplicateBoundary

  /** One essential marker and the conditions registered on it. */
  datatype Essential<F> = Essential(marker: seq<int>, conditions: seq<(F, seq<int>)>)

  /** The velocity and pressure sides of the solver. */
  datatype Boundaries<F, G> = Boundaries(vel: Essential<F>, pres: Essential<G>)

  /** The constructor's markers: one zero per boundary attribute (the
      largest attribute), or none for a mesh without boundary. */
  function InitialBoundaries<F, G>(maxAttribute: nat): (b: Boundaries<F, G>)
    ensures |b.vel.marker| == |b.pres.marker| == maxAttribute
    ensures Marked(b.vel.marker) == {} && Marked(b.pres.marker) == {}
    ensures b.vel.conditions == [] && b.pres.conditions == []
  {
    var zeros := seq(maxAttribute, _ => 0);
    Boundaries(Essential(zeros, []), Essential(zeros, []))
  }

  /** The attributes a marker selects: the entries equal to 1. */
  function Marked(m: seq<int>): set<nat> {
    set i: nat | i < |m| && m[i] == 1
  }

  /** Some attribute is set both in the marker and (nonzero) in `attr`. */
  predicate Conflicts(marker: seq<int>, attr: seq<int>)
    requires |attr| <= |marker|
  {
    exists i :: 0 <= i < |attr| && marker[i] != 0 && attr[i] != 0
  }

  /** The merged marker, entry by entry. */
  function Merge(marker: seq<int>, attr: seq<int>): (m: seq<int>)
    requires |attr| <= |marker|
    ensures |m| == |marker|
  {
    seq(|marker|, i requires 0 <= i < |marker| => if i < |attr| && attr[i] == 1 then 1 else marker[i])
  }

  /** The merge loop: with `debugChecks` (an `MFEM_ASSERT` build) an
      attribute already marked and nonzero in `attr` aborts; otherwise
      every attribute equal to 1 in `attr` becomes marked. The source
      indexes the marker with the positions of `attr`, so `attr` must not be
      longer than the marker. */
  method MergeMarker(debugChecks: bool, marker: seq<int>, attr: seq<int>) returns (r: Result<seq<int>, BcError>)
    requires |attr| <= |marker|
    ensures r.Failure? <==> debugChecks && Conflicts(marker, attr)
    ensures r.Success? ==> r.value == Merge(marker, attr)
  {
    var m := marker;
    var i := 0;
    while i < |attr|
      invariant 0 <= i <= |attr| && |m| == |marker|
      invariant forall k :: 0 <= k < i ==> m[k] == (if attr[k] == 1 then 1 else marker[k])
      invariant forall k :: i <= k < |marker| ==> m[k] == marker[k]
      invariant debugChecks ==> forall k :: 0 <= k < i ==> !(marker[k] != 0 && attr[k] != 0)
    {
      if debugChecks && m[i] != 0 && attr[i] != 0 {
        return Failure(DuplicateBoundary);
      }
      if attr[i] == 1 {
        m := m[i := 1];
      }
      i := i + 1;
    }
    return Success(m);
  }

  /** `AddVelDirichletBC(f, attr)`. */
  method AddVelDirichletBC<F, G>(debugChecks: bool, b: Boundaries<F, G>, f: F, attr: seq<int>)
    returns (r: Result<Boundaries<F, G>, BcError>)
    requires |attr| <= |b.vel.marker|
    ensures r.Failure? <==> debugChecks && Conflicts(b.vel.marker, attr)
    ensures r.Success? ==> r.value.vel == Essential(Merge(b.vel.marker, attr), b.vel.conditions + [(f, attr)])
    ensures r.Success? ==> r.value.pres == b.pres
  {
    var m := MergeMarker(debugChecks, b.vel.marker, attr);
    if m.Failure? {
      return Failure(m.error);
    }
    return Success(b.(vel := Essential(m.value, b.vel.conditions + [(f, attr)])));
  }

  /** `AddPresDirichletBC(f, attr)`. */
  method AddPresDirichletBC<F, G>(debugChecks: bool, b: Boundaries<F, G>, g: G, attr: seq<int>)
    returns (r: Result<Boundaries<F, G>, BcError>)
    requires |attr| <= |b.pres.marker|
    ensures r.Failure? <==> debugChecks && Conflicts(b.pres.marker, attr)
    ensures r.Success? ==> r.value.pres == Essential(Merge(b.pres.marker, attr), b.pres.conditions + [(g, attr)])
    ensures r.Success? ==> r.value.vel == b.vel
  {
    var m := MergeMarker(debugChecks, b.pres.marker, attr);
    if m.Failure? {
      return Failure(m.error);
    }
    return Success(b.(pres := Essential(m.value, b.pres.conditions + [(g, attr)])));
  }

  // ---- Properties of the merge.

  /** An attribute is marked afterwards iff it was marked or `attr` selects
      it; an entry `attr` does not set to 1 keeps its value. */
  lemma MergeEntries(marker: seq<int>, attr: seq<int>, i: int)
    requires |attr| <= |marker| && 0 <= i < |marker|
    ensures Merge(marker, attr)[i] == 1 <==> marker[i] == 1 || (i < |attr| && attr[i] == 1)
    ensures (i >= |attr| || attr[i] != 1) ==> Merge(marker, attr)[i] == marker[i]
  {
  }

  /** As sets of attributes, merging is union. */
  lemma MergeIsUnion(marker: seq<int>, attr: seq<int>)
    requires |attr| <= |marker|
    ensures Marked(Merge(marker, attr)) == Marked(marker) + Marked(attr)
  {
    var m := Merge(marker, attr);
    forall i: nat | i < |marker|
      ensures i in Marked(m) <==> i in Marked(marker) + Marked(attr)
    {
      MergeEntries(marker, attr, i);
    }
  }

  /** Merging the same marker again changes nothing. */
  lemma MergeIdempotent(marker: seq<int>, attr: seq<int>)
    requires |attr| <= |marker|
    ensures Merge(Merge(marker, attr), attr) == Merge(marker, attr)
  {
  }

  /** The order in which two markers are merged does not matter. */
  lemma MergeCommutes(marker: seq<int>, a: seq<int>, b: seq<int>)
    requires |a| <= |marker| && |b| <= |marker|
    ensures Merge(Merge(marker, a), b) == Merge(Merge(marker, b), a)
  {
  }

  /** In a debug build, adding a condition on a marker that selects some
      attribute twice aborts the second time. */
  lemma SecondAddConflicts(marker: seq<int>, attr: seq<int>, i: int)
    requires |attr| <= |marker| && 0 <= i < |attr| && attr[i] == 1
    ensures Conflicts(Merge(marker, attr), attr)
  {
    assert Merge(marker, attr)[i] == 1;
  }

  /** Two conditions on disjoint attribute sets never conflict, whichever
      comes first, on a marker that started without them. */
  lemma DisjointAddsAgree(marker: seq<int>, a: seq<int>, b: seq<int>)
    requires |a| <= |marker| && |b| <= |marker|
    requires forall i :: 0 <= i < |marker| ==> marker[i] == 0 || marker[i] == 1
    requires !Conflicts(marker, a) && !Conflicts(marker, b)
    requires forall i :: 0 <= i < |a| && i < |b| ==> a[i] == 0 || b[i] == 0
    requires forall i :: 0 <= i < |a| ==> a[i] == 0 || a[i] == 1
    ensures !Conflicts(Merge(marker, a), b)
  {
    var m := Merge(marker, a);
    forall i | 0 <= i < |b| && b[i] != 0
      ensures m[i] == 0
    {
      MergeEntries(marker, a, i);
      if i < |a| {
        assert a[i] == 0;
      }
      assert marker[i] == 0;
    }
  }
}
