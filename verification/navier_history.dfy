/** The solution and time-step history of the Navier solver
    (`NavierSolver::Setup`, `ProvisionalStep`, `UpdateTimestepHistory` and
    `Step`, miniapps/fluids/navier_solver.cpp). Vectors are values of an
    arbitrary type `V`: the rotation only moves them. The linear solves of
    `ProvisionalStep` are not modelled; their results `un_next` and `Nun`
    are inputs. */
module NavierHistory {
  import opened NavierBdf

  /** The part of the solver state the time stepping touches. */
  datatype Solver<V> = Solver(maxOrder: int, dthist: StepHistory, coeffs: Coefficients,
                              un: V, unm1: V, unm2: V, unNext: V,
                              nun: V, nunm1: V, nunm2: V)

  /** What `ProvisionalStep` contributes to one step: its time step, the new
      velocity `un_next` and the nonlinear term `Nun` it evaluated. */
  datatype StepInput<V> = StepInput(dt: real, unNext: V, nun: V)

  /** The time steps, newest first. */
  function DtWindow<V>(s: Solver<V>): seq<real> {
    [s.dthist.dt0, s.dthist.dt1, s.dthist.dt2]
  }

  /** The velocities `un, unm1, unm2`, newest first. */
  function SolutionWindow<V>(s: Solver<V>): seq<V> {
    [s.un, s.unm1, s.unm2]
  }

  /** The old nonlinear terms `Nunm1, Nunm2`, newest first. */
  function NonlinearWindow<V>(s: Solver<V>): seq<V> {
    [s.nunm1, s.nunm2]
  }

  /** The state apart from the rotated fields: what a history update must leave alone. */
  function Frame<V>(s: Solver<V>): (Coefficients, int, V, V) {
    (s.coeffs, s.maxOrder, s.unNext, s.nun)
  }

  /** `Setup(dt)`: the first time step is recorded as `dthist[0]`. */
  function Setup<V>(s: Solver<V>, dt: real): (t: Solver<V>)
    ensures DtWindow(t) == [dt] + DtWindow(s)[1..]
    ensures SolutionWindow(t) == SolutionWindow(s) && NonlinearWindow(t) == NonlinearWindow(s)
    ensures Frame(t) == Frame(s)
  {
    s.(dthist := s.dthist.(dt0 := dt))
  }

  /** `UpdateTimestepHistory(dt)`. */
  function UpdateTimestepHistory<V>(s: Solver<V>, dt: real): Solver<V> {
    s.(dthist := StepHistory(dt, s.dthist.dt0, s.dthist.dt1),
       nunm2 := s.nunm1, nunm1 := s.nun,
       unm2 := s.unm1, unm1 := s.un, un := s.unNext)
  }

  /** Each history is a shift register of length three (two for the
      nonlinear terms): the new value enters in front, the oldest is
      dropped, and nothing outside the histories changes. */
  lemma UpdateShifts<V>(s: Solver<V>, dt: real)
    ensures var t := UpdateTimestepHistory(s, dt);
            && DtWindow(t) == ([dt] + DtWindow(s))[..3]
            && SolutionWindow(t) == ([s.unNext] + SolutionWindow(s))[..3]
            && NonlinearWindow(t) == ([s.nun] + NonlinearWindow(s))[..2]
            && Frame(t) == Frame(s)
  {
  }

  /** `ProvisionalStep(time, dt, cur_step)` as far as the history is
      concerned: the coefficients are set from the history as it stands,
      then the solves produce `un_next` and `Nun`. */
  function ProvisionalStep<V>(s: Solver<V>, step: int, unNext: V, nun: V): (t: Solver<V>)
    requires BranchDefined(step, s.maxOrder, s.dthist)
    ensures t.coeffs == SetTimeIntegrationCoefficients(step, s.maxOrder, s.dthist, s.coeffs)
    ensures DtWindow(t) == DtWindow(s) && SolutionWindow(t) == SolutionWindow(s)
    ensures NonlinearWindow(t) == NonlinearWindow(s)
    ensures t.unNext == unNext && t.nun == nun && t.maxOrder == s.maxOrder
  {
    s.(coeffs := SetTimeIntegrationCoefficients(step, s.maxOrder, s.dthist, s.coeffs),
       unNext := unNext, nun := nun)
  }

  /** `Step(time, dt, cur_step)`: `ProvisionalStep` followed by
      `UpdateTimestepHistory(dt)`. */
  function Step<V>(s: Solver<V>, dt: real, step: int, unNext: V, nun: V): (t: Solver<V>)
    requires BranchDefined(step, s.maxOrder, s.dthist)
    ensures t.coeffs == SetTimeIntegrationCoefficients(step, s.maxOrder, s.dthist, s.coeffs)
    ensures DtWindow(t) == ([dt] + DtWindow(s))[..3]
    ensures SolutionWindow(t) == ([unNext] + SolutionWindow(s))[..3]
    ensures NonlinearWindow(t) == ([nun] + NonlinearWindow(s))[..2]
    ensures t.unNext == unNext && t.nun == nun && t.maxOrder == s.maxOrder
  {
    var p := ProvisionalStep(s, step, unNext, nun);
    UpdateShifts(p, dt);
    UpdateTimestepHistory(p, dt)
  }

  // ---- Many steps.

  /** The history part of one step: what `Step` does apart from the coefficients. */
  function Advance<V>(s: Solver<V>, x: StepInput<V>): Solver<V> {
    UpdateTimestepHistory(s.(unNext := x.unNext, nun := x.nun), x.dt)
  }

  /** The steps `xs`, first to last. */
  function AdvanceAll<V>(s: Solver<V>, xs: seq<StepInput<V>>): Solver<V>
    decreases |xs|
  {
    if |xs| == 0 then s else Advance(AdvanceAll(s, xs[..|xs| - 1]), xs[|xs| - 1])
  }

  /** A sequence in reverse order. */
  function Reverse<T>(xs: seq<T>): (r: seq<T>)
    ensures |r| == |xs|
    decreases |xs|
  {
    if |xs| == 0 then [] else [xs[|xs| - 1]] + Reverse(xs[..|xs| - 1])
  }

  function Dts<V>(xs: seq<StepInput<V>>): (r: seq<real>)
    ensures |r| == |xs| && forall i :: 0 <= i < |xs| ==> r[i] == xs[i].dt
  {
    seq(|xs|, i requires 0 <= i < |xs| => xs[i].dt)
  }

  function Velocities<V>(xs: seq<StepInput<V>>): (r: seq<V>)
    ensures |r| == |xs| && forall i :: 0 <= i < |xs| ==> r[i] == xs[i].unNext
  {
    seq(|xs|, i requires 0 <= i < |xs| => xs[i].unNext)
  }

  function NonlinearTerms<V>(xs: seq<StepInput<V>>): (r: seq<V>)
    ensures |r| == |xs| && forall i :: 0 <= i < |xs| ==> r[i] == xs[i].nun
  {
    seq(|xs|, i requires 0 <= i < |xs| => xs[i].nun)
  }

  /** Taking a prefix of a prefix. */
  lemma ShiftPrefix<T>(x: T, w: seq<T>, k: nat)
    requires k <= |w|
    ensures ([x] + w[..k])[..k] == ([x] + w)[..k]
  {
  }

  /** One more step puts its values in front of the reversed inputs. */
  lemma ReverseSnoc<T>(xs: seq<T>, ys: seq<T>, w: seq<T>, k: nat)
    requires |xs| > 0 && ys == xs[..|xs| - 1] && k <= |Reverse(ys) + w|
    ensures ([xs[|xs| - 1]] + (Reverse(ys) + w)[..k])[..k] == (Reverse(xs) + w)[..k]
  {
    ShiftPrefix(xs[|xs| - 1], Reverse(ys) + w, k);
    assert [xs[|xs| - 1]] + (Reverse(ys) + w) == Reverse(xs) + w;
  }

  /** After any number of steps each history holds the newest inputs,
      newest first, padded with the history the steps started from; the
      coefficients and `max_bdf_order` are untouched. */
  lemma {:induction false} HistoryAfterSteps<V>(s: Solver<V>, xs: seq<StepInput<V>>)
    ensures var t := AdvanceAll(s, xs);
            && DtWindow(t) == (Reverse(Dts(xs)) + DtWindow(s))[..3]
            && SolutionWindow(t) == (Reverse(Velocities(xs)) + SolutionWindow(s))[..3]
            && NonlinearWindow(t) == (Reverse(NonlinearTerms(xs)) + NonlinearWindow(s))[..2]
            && t.coeffs == s.coeffs && t.maxOrder == s.maxOrder
    decreases |xs|
  {
    if |xs| == 0 {
      assert Reverse(Dts(xs)) == [] && Reverse(Velocities(xs)) == [] && Reverse(NonlinearTerms(xs)) == [];
    } else {
      var ys := xs[..|xs| - 1];
      var x := xs[|xs| - 1];
      var r := AdvanceAll(s, ys);
      HistoryAfterSteps(s, ys);
      UpdateShifts(r.(unNext := x.unNext, nun := x.nun), x.dt);
      assert Dts(ys) == Dts(xs)[..|xs| - 1];
      assert Velocities(ys) == Velocities(xs)[..|xs| - 1];
      assert NonlinearTerms(ys) == NonlinearTerms(xs)[..|xs| - 1];
      ReverseSnoc(Dts(xs), Dts(ys), DtWindow(s), 3);
      ReverseSnoc(Velocities(xs), Velocities(ys), SolutionWindow(s), 3);
      ReverseSnoc(NonlinearTerms(xs), NonlinearTerms(ys), NonlinearWindow(s), 2);
    }
  }

  /** Once three steps have been taken, `dthist` holds exactly the last
      three time steps and `un, unm1, unm2` the last three velocities. */
  lemma LastThreeSteps<V>(s: Solver<V>, xs: seq<StepInput<V>>)
    requires |xs| >= 3
    ensures var t := AdvanceAll(s, xs);
            var n := |xs|;
            && t.dthist == StepHistory(xs[n - 1].dt, xs[n - 2].dt, xs[n - 3].dt)
            && t.un == xs[n - 1].unNext && t.unm1 == xs[n - 2].unNext && t.unm2 == xs[n - 3].unNext
            && t.nunm1 == xs[n - 1].nun && t.nunm2 == xs[n - 2].nun
  {
    HistoryAfterSteps(s, xs);
    var n := |xs|;
    var t := AdvanceAll(s, xs);
    ReverseIndex(Dts(xs), 0);
    ReverseIndex(Dts(xs), 1);
    ReverseIndex(Dts(xs), 2);
    assert DtWindow(t)[0] == xs[n - 1].dt && DtWindow(t)[1] == xs[n - 2].dt && DtWindow(t)[2] == xs[n - 3].dt;
    ReverseIndex(Velocities(xs), 0);
    ReverseIndex(Velocities(xs), 1);
    ReverseIndex(Velocities(xs), 2);
    assert SolutionWindow(t)[0] == xs[n - 1].unNext && SolutionWindow(t)[1] == xs[n - 2].unNext;
    assert SolutionWindow(t)[2] == xs[n - 3].unNext;
    ReverseIndex(NonlinearTerms(xs), 0);
    ReverseIndex(NonlinearTerms(xs), 1);
    assert NonlinearWindow(t)[0] == xs[n - 1].nun && NonlinearWindow(t)[1] == xs[n - 2].nun;
  }

  /** Entry `i` of the reversed sequence is entry `n - 1 - i` of the original. */
  lemma {:induction false} ReverseIndex<T>(xs: seq<T>, i: int)
    requires 0 <= i < |xs|
    ensures Reverse(xs)[i] == xs[|xs| - 1 - i]
    decreases |xs|
  {
    if i > 0 {
      ReverseIndex(xs[..|xs| - 1], i - 1);
    }
  }

  // ---- Which step sizes the coefficients see.

  /** As written, the coefficients of a step are exact for the step sizes
      already in `dthist`: the step before this one and the one before
      that, not the `dt` being taken. */
  lemma StepSeesPreviousSizes<V>(s: Solver<V>, dt: real, step: int, unNext: V, nun: V, t: real)
    requires BranchDefined(step, s.maxOrder, s.dthist) && BranchOf(step, s.maxOrder) != Keep
    ensures var c := Step(s, dt, step, unNext, nun).coeffs;
            var h := s.dthist;
            BackwardDifference(c, t + h.dt0, t, t - h.dt1, t - h.dt1 - h.dt2) == h.dt0
  {
    var h := s.dthist;
    var c := Step(s, dt, step, unNext, nun).coeffs;
    assert c == SetTimeIntegrationCoefficients(step, s.maxOrder, h, s.coeffs);
    SetCoefficientsConsistent(step, s.maxOrder, h, s.coeffs, t + h.dt0, t, t - h.dt1, t - h.dt1 - h.dt2);
  }

  /** An example run: `Setup(1.0)`, then a step of size 1 and a step of size
      0.5. The second step uses the equal-step BDF2 weights, and the backward
      difference of the time itself over the times 0, 1, 1.5 is 0.25, so
      `bd/dt` with `dt = 0.5` gives the derivative 0.5 instead of 1. */
  lemma StepSizeChangeExample()
    ensures var s0 := Solver(3, StepHistory(0.0, 0.0, 0.0), StartupCoefficients,
                             0.0, 0.0, 0.0, 0.0, 0.0, 0.0, 0.0);
            var s1 := Setup(s0, 1.0);
            && BranchDefined(0, 3, s1.dthist)
            && BranchDefined(1, 3, Step(s1, 1.0, 0, 1.0, 0.0).dthist)
            && var s3 := Step(Step(s1, 1.0, 0, 1.0, 0.0), 0.5, 1, 1.5, 0.0);
            && s3.coeffs == Coefficients(1.5, -2.0, 0.5, 0.0, 2.0, -1.0, 0.0)
            && BackwardDifference(s3.coeffs, 1.5, 1.0, 0.0, 0.0) == 0.25
  {
    var s0 := Solver(3, StepHistory(0.0, 0.0, 0.0), StartupCoefficients, 0.0, 0.0, 0.0, 0.0, 0.0, 0.0, 0.0);
    var s1 := Setup(s0, 1.0);
    assert s1.dthist == StepHistory(1.0, 0.0, 0.0);
    assert BranchOf(0, 3) == Startup;
    var s2 := Step(s1, 1.0, 0, 1.0, 0.0);
    assert DtWindow(s2) == [1.0, 1.0, 0.0];
    assert s2.dthist == StepHistory(1.0, 1.0, 0.0);
    assert BranchOf(1, 3) == Bdf2;
    assert Rho1(1, 3, s2.dthist) == Finite(1.0);
    var s3 := Step(s2, 0.5, 1, 1.5, 0.0);
    assert s3.coeffs == Bdf2Coefficients(1.0);
    EqualStepsCoefficients();
  }

  /** `Step` with the time step recorded before the coefficients are
      computed, so that `rho1 = dt / dt_prev` and `rho2 = dt_prev / dt_prev2`. */
  function StepWithCurrentSize<V>(s: Solver<V>, dt: real, step: int, unNext: V, nun: V): (t: Solver<V>)
    requires BranchDefined(step, s.maxOrder, StepHistory(dt, s.dthist.dt0, s.dthist.dt1))
    ensures DtWindow(t) == ([dt] + DtWindow(s))[..3]
    ensures SolutionWindow(t) == ([unNext] + SolutionWindow(s))[..3]
    ensures NonlinearWindow(t) == ([nun] + NonlinearWindow(s))[..2]
  {
    var h := StepHistory(dt, s.dthist.dt0, s.dthist.dt1);
    var p := s.(coeffs := SetTimeIntegrationCoefficients(step, s.maxOrder, h, s.coeffs),
                unNext := unNext, nun := nun);
    UpdateShifts(p, dt);
    UpdateTimestepHistory(p, dt)
  }

  /** With the current step recorded first, the backward difference over
      the actual times `t + dt, t, t - dt_prev, ...` of a linear function is
      `dt`, so `bd/dt` is its exact derivative, and the extrapolation (from
      the second step on) reproduces it at the new time. */
  lemma {:induction false} CurrentSizeConsistent<V>(s: Solver<V>, dt: real, step: int, unNext: V, nun: V, t: real)
    requires BranchDefined(step, s.maxOrder, StepHistory(dt, s.dthist.dt0, s.dthist.dt1))
    requires BranchOf(step, s.maxOrder) != Keep
    ensures var c := StepWithCurrentSize(s, dt, step, unNext, nun).coeffs;
            var h := s.dthist;
            && BackwardDifference(c, t + dt, t, t - h.dt0, t - h.dt0 - h.dt1) == dt
            && (BranchOf(step, s.maxOrder) != Startup ==> Extrapolation(c, t, t - h.dt0, t - h.dt0 - h.dt1) == t + dt)
  {
    var h := StepHistory(dt, s.dthist.dt0, s.dthist.dt1);
    var c := StepWithCurrentSize(s, dt, step, unNext, nun).coeffs;
    assert c == SetTimeIntegrationCoefficients(step, s.maxOrder, h, s.coeffs);
    SetCoefficientsConsistent(step, s.maxOrder, h, s.coeffs, t + dt, t, t - h.dt1, t - h.dt1 - h.dt2);
  }
}
