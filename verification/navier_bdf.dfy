/** Variable-step BDF/EXT coefficients of the Navier solver
    (`NavierSolver::SetTimeIntegrationCoefficients`,
    miniapps/fluids/navier_solver.cpp). The order ramps up with the step
    number; `rho1`, `rho2` are ratios of consecutive time steps. */
module NavierBdf {

  /** The backward-difference weights `bd0..bd3` and the extrapolation
      weights `ab1..ab3`. */
  datatype Coefficients = Coefficients(bd0: real, bd1: real, bd2: real, bd3: real,
                                       ab1: real, ab2: real, ab3: real)

  /** `dthist`, newest step first. */
  datatype StepHistory = StepHistory(dt0: real, dt1: real, dt2: real)

  /** A quotient as floating-point division yields it: a zero divisor gives an
      infinity or NaN, which is only named here. */
  datatype Quotient = Finite(value: real) | NonFinite

  function Divide(a: real, b: real): (q: Quotient)
    ensures q.Finite? <==> b != 0.0
    ensures q.Finite? ==> q.value * b == a
  {
    if b == 0.0 then NonFinite else Finite(a / b)
  }

  /** `bdf_order = min(step + 1, max_bdf_order)`. */
  function BdfOrder(step: int, maxOrder: int): (o: int)
    ensures o <= step + 1 && o <= maxOrder
    ensures o == step + 1 || o == maxOrder
  {
    if step + 1 <= maxOrder then step + 1 else maxOrder
  }

  /** Which of the three assignments runs, if any. */
  datatype Branch = Startup | Bdf2 | Bdf3 | Keep

  function BranchOf(step: int, maxOrder: int): Branch {
    var order := BdfOrder(step, maxOrder);
    if step == 0 && order == 1 then Startup
    else if step >= 1 && order == 2 then Bdf2
    else if step >= 2 && order == 3 then Bdf3
    else Keep
  }

  /** `rho1`, computed whenever `bdf_order >= 1`, used or not. */
  function Rho1(step: int, maxOrder: int, h: StepHistory): Quotient {
    if BdfOrder(step, maxOrder) >= 1 then Divide(h.dt0, h.dt1) else Finite(0.0)
  }

  /** `rho2`, computed only for `bdf_order == 3`. */
  function Rho2(step: int, maxOrder: int, h: StepHistory): Quotient {
    if BdfOrder(step, maxOrder) == 3 then Divide(h.dt1, h.dt2) else Finite(0.0)
  }

  /** The coefficients the first step uses: implicit Euler with a first-order extrapolation. */
  const StartupCoefficients := Coefficients(1.0, -1.0, 0.0, 0.0, 1.0, 0.0, 0.0)

  /** The BDF2/EXT2 assignment for step ratio `r1`. */
  function Bdf2Coefficients(r1: real): Coefficients
    requires 1.0 + r1 != 0.0
  {
    Coefficients((1.0 + 2.0 * r1) / (1.0 + r1), -(1.0 + r1), r1 * r1 / (1.0 + r1), 0.0,
                 1.0 + r1, -r1, 0.0)
  }

  /** `1 + x`, as the source writes the BDF3/EXT3 denominators; a function
      of its own so that products of such factors stay products of atoms
      for the solver. */
  function OnePlus(x: real): real {
    1.0 + x
  }

  /** The divisors of the BDF3/EXT3 assignment are nonzero. */
  predicate Bdf3Defined(r1: real, r2: real) {
    && OnePlus(r1) != 0.0 && OnePlus(r2) != 0.0
    && OnePlus(r2 * OnePlus(r1)) != 0.0 && OnePlus(r2 + r2 * r1) != 0.0
  }

  lemma NonzeroProduct(a: real, b: real)
    requires a != 0.0 && b != 0.0
    ensures a * b != 0.0
  {
  }

  /** The BDF3/EXT3 assignment for step ratios `r1`, `r2` (`pow(r, 2.0)` and
      `pow(r, 3.0)` written as products), one function per weight. */
  function Bdf3Coefficients(r1: real, r2: real): Coefficients
    requires Bdf3Defined(r1, r2)
  {
    Coefficients(Bdf3Bd0(r1, r2), Bdf3Bd1(r1, r2), Bdf3Bd2(r1, r2), Bdf3Bd3(r1, r2),
                 Bdf3Ab1(r1, r2), Bdf3Ab2(r1, r2), Bdf3Ab3(r1, r2))
  }

  function Bdf3Bd0(r1: real, r2: real): real
    requires Bdf3Defined(r1, r2)
  {
    1.0 + r1 / OnePlus(r1) + (r2 * r1) / OnePlus(r2 * OnePlus(r1))
  }
  function Bdf3Bd1(r1: real, r2: real): real
    requires Bdf3Defined(r1, r2)
  {
    -1.0 - r1 - (r2 * r1 * OnePlus(r1)) / OnePlus(r2)
  }
  function Bdf3Bd2(r1: real, r2: real): real
    requires Bdf3Defined(r1, r2)
  {
    r1 * r1 * (r2 + 1.0 / OnePlus(r1))
  }
  function Bdf3Bd3(r1: real, r2: real): real
    requires Bdf3Defined(r1, r2)
  {
    NonzeroProduct(OnePlus(r2), OnePlus(r2 + r2 * r1));
    -(r2 * r2 * r2 * r1 * r1 * OnePlus(r1)) / (OnePlus(r2) * OnePlus(r2 + r2 * r1))
  }
  function Bdf3Ab1(r1: real, r2: real): real
    requires Bdf3Defined(r1, r2)
  {
    (OnePlus(r1) * OnePlus(r2 * OnePlus(r1))) / OnePlus(r2)
  }
  function Bdf3Ab2(r1: real, r2: real): real
    requires Bdf3Defined(r1, r2)
  {
    -r1 * OnePlus(r2 * OnePlus(r1))
  }
  function Bdf3Ab3(r1: real, r2: real): real
    requires Bdf3Defined(r1, r2)
  {
    (r2 * r2 * r1 * OnePlus(r1)) / OnePlus(r2)
  }

  /** The backward difference `bd0 u0 + bd1 u1 + bd2 u2 + bd3 u3` of the
      values `u0` (new) .. `u3` (oldest), as the solver forms it for the
      velocity (divided by `dt` there). */
  function BackwardDifference(c: Coefficients, u0: real, u1: real, u2: real, u3: real): real {
    c.bd0 * u0 + c.bd1 * u1 + c.bd2 * u2 + c.bd3 * u3
  }

  /** The extrapolation `ab1 u1 + ab2 u2 + ab3 u3` of the old values to the new time. */
  function Extrapolation(c: Coefficients, u1: real, u2: real, u3: real): real {
    c.ab1 * u1 + c.ab2 * u2 + c.ab3 * u3
  }

  /** The branch that runs divides only by nonzero numbers (floating-point
      infinities and NaNs are not modelled). */
  predicate BranchDefined(step: int, maxOrder: int, h: StepHistory) {
    match BranchOf(step, maxOrder)
    case Bdf2 => h.dt1 != 0.0 && 1.0 + h.dt0 / h.dt1 != 0.0
    case Bdf3 => h.dt1 != 0.0 && h.dt2 != 0.0 && Bdf3Defined(h.dt0 / h.dt1, h.dt1 / h.dt2)
    case _ => true
  }

  /** The backward difference annihilates constants and the extrapolation
      reproduces them. */
  predicate ExactOnConstants(c: Coefficients) {
    BackwardDifference(c, 1.0, 1.0, 1.0, 1.0) == 0.0 && Extrapolation(c, 1.0, 1.0, 1.0) == 1.0
  }

  /** The BDF2 weights annihilate constants and EXT2 reproduces them. */
  lemma Bdf2UnitSums(r1: real)
    requires 1.0 + r1 != 0.0
    ensures ExactOnConstants(Bdf2Coefficients(r1))
  {
    var d := 1.0 + r1;
    assert (1.0 + 2.0 * r1) / d + r1 * r1 / d == (d * d) / d;
    assert (d * d) / d == d;
  }

  /** The BDF3 weights annihilate constants and EXT3 reproduces them. */
  lemma Bdf3UnitSums(r1: real, r2: real)
    requires Bdf3Defined(r1, r2)
    ensures ExactOnConstants(Bdf3Coefficients(r1, r2))
  {
    Bdf3Sums(r1, r2);
  }

  /** `SetTimeIntegrationCoefficients(step)`: the new coefficients, given the
      step history and the coefficients of the previous call. */
  function SetTimeIntegrationCoefficients(step: int, maxOrder: int, h: StepHistory,
                                          prev: Coefficients): (c: Coefficients)
    requires BranchDefined(step, maxOrder, h)
    ensures BranchOf(step, maxOrder) == Keep ==> c == prev
    ensures BranchOf(step, maxOrder) != Keep ==> ExactOnConstants(c)
  {
    var rho1 := Rho1(step, maxOrder, h);
    var rho2 := Rho2(step, maxOrder, h);
    match BranchOf(step, maxOrder)
    case Startup => StartupCoefficients
    case Bdf2 =>
      Bdf2UnitSums(rho1.value);
      Bdf2Coefficients(rho1.value)
    case Bdf3 =>
      Bdf3UnitSums(rho1.value, rho2.value);
      Bdf3Coefficients(rho1.value, rho2.value)
    case Keep => prev
  }

  // ---- Which branch runs.

  /** The branch as a function of `step` and `max_bdf_order` alone: the
      order ramps 1, 2, 3 over the first steps up to the maximum, and a
      maximum outside 1..3 (or a step past the ramp with maximum 1) keeps the
      previous coefficients. */
  lemma BranchSelection(step: int, maxOrder: int)
    requires step >= 0
    ensures BranchOf(step, maxOrder) == Startup <==> step == 0 && maxOrder >= 1
    ensures BranchOf(step, maxOrder) == Bdf2 <==>
              (step == 1 && maxOrder >= 2) || (step >= 1 && maxOrder == 2)
    ensures BranchOf(step, maxOrder) == Bdf3 <==>
              (step == 2 && maxOrder >= 3) || (step >= 2 && maxOrder == 3)
    ensures BranchOf(step, maxOrder) == Keep <==>
              maxOrder <= 0 || (step >= 1 && maxOrder == 1) || (step >= 3 && maxOrder >= 4)
  {
  }

  /** At step 0 with a positive maximum order the coefficients are the
      implicit Euler ones whatever the history holds, even though `rho1`
      is computed from it (and is not finite while `dthist[1]` is still 0). */
  lemma StartupIgnoresHistory(maxOrder: int, h: StepHistory, prev: Coefficients)
    requires maxOrder >= 1
    ensures BranchDefined(0, maxOrder, h)
    ensures SetTimeIntegrationCoefficients(0, maxOrder, h, prev) == Coefficients(1.0, -1.0, 0.0, 0.0, 1.0, 0.0, 0.0)
    ensures h.dt1 == 0.0 ==> Rho1(0, maxOrder, h) == NonFinite
  {
  }

  // ---- Consistency of the formulas.

  lemma DivAdd(x: real, y: real, d: real)
    requires d != 0.0
    ensures x / d + y / d == (x + y) / d
  {
  }

  lemma DivMul(x: real, d: real)
    requires d != 0.0
    ensures (x / d) * d == x
  {
  }

  /** BDF2/EXT2 with `rho1 = dt0/dt1` differentiates and extrapolates linear
      functions exactly: the weights sum to 0 and 1, and on the times
      `t0`, `t1 = t0 - dt0`, `t2 = t1 - dt1` the backward difference of `t` is
      `dt0` and the extrapolation of `t` is `t0` (the third old value has
      weight zero). */
  lemma {:induction false} Bdf2Consistent(dt0: real, dt1: real, t0: real, t1: real, t2: real, t3: real)
    requires dt1 != 0.0 && 1.0 + dt0 / dt1 != 0.0
    requires t1 == t0 - dt0 && t2 == t1 - dt1
    ensures var c := Bdf2Coefficients(dt0 / dt1);
            && BackwardDifference(c, 1.0, 1.0, 1.0, 1.0) == 0.0
            && Extrapolation(c, 1.0, 1.0, 1.0) == 1.0
            && BackwardDifference(c, t0, t1, t2, t3) == dt0
            && Extrapolation(c, t1, t2, t3) == t0
  {
    var r := dt0 / dt1;
    var d := 1.0 + r;
    var c := Bdf2Coefficients(r);
    DivMul(dt0, dt1);
    assert r * dt1 == dt0;
    DivAdd(1.0 + 2.0 * r, r * r, d);
    assert (1.0 + 2.0 * r) + r * r == d * d;
    DivMul(d, d);
    assert c.bd0 + c.bd2 == d by {
      assert (d * d) / d == d;
    }
    assert c.bd0 + c.bd1 + c.bd2 + c.bd3 == 0.0;
    // dt0 + dt1 = dt1 * d, so bd2 * (dt0 + dt1) = r * r * dt1 = r * dt0.
    assert dt0 + dt1 == dt1 * d;
    DivMul(r * r, d);
    assert c.bd2 * (dt0 + dt1) == r * dt0 by {
      assert c.bd2 * d == r * r;
      calc {
        c.bd2 * (dt0 + dt1);
        c.bd2 * (dt1 * d);
        (c.bd2 * d) * dt1;
        r * r * dt1;
        r * (r * dt1);
      }
    }
    assert BackwardDifference(c, t0, t1, t2, t3)
        == (c.bd0 + c.bd1 + c.bd2) * t0 - c.bd1 * (t0 - t1) - c.bd2 * (dt0 + dt1);
  }

  // ---- Each weight with its divisors cleared, over named factors
  // `a = 1 + r1`, `b = 1 + r2`, `p = 1 + r2 a`.

  predicate Factors(r1: real, r2: real, a: real, b: real, p: real) {
    a == 1.0 + r1 && b == 1.0 + r2 && p == 1.0 + r2 * a && a != 0.0 && b != 0.0 && p != 0.0
  }
  predicate Bd0Cleared(r1: real, r2: real, a: real, b: real, p: real, w: real) {
    w * (a * p) == a * p + r1 * p + r2 * r1 * a
  }
  predicate Bd1Cleared(r1: real, r2: real, a: real, b: real, p: real, w: real) {
    w * b == (-1.0 - r1) * b - r2 * r1 * a
  }
  predicate Bd2Cleared(r1: real, r2: real, a: real, b: real, p: real, w: real) {
    w * a == r1 * r1 * (r2 * a + 1.0)
  }
  predicate Bd3Cleared(r1: real, r2: real, a: real, b: real, p: real, w: real) {
    w * (b * p) == -(r2 * r2 * r2 * r1 * r1 * a)
  }
  predicate Ab1Cleared(r1: real, r2: real, a: real, b: real, p: real, w: real) {
    w * b == a * p
  }
  predicate Ab2Cleared(r1: real, r2: real, a: real, b: real, p: real, w: real) {
    w == -r1 * p
  }
  predicate Ab3Cleared(r1: real, r2: real, a: real, b: real, p: real, w: real) {
    w * b == r2 * r2 * r1 * a
  }

  lemma Cancel(x: real, y: real, m: real)
    requires m != 0.0 && x * m == y * m
    ensures x == y
  {
    assert (x - y) * m == 0.0;
  }

  lemma SumOfQuotientsCleared(q: real, s: real, x: real, y: real, a: real, p: real)
    requires q * a == x && s * p == y
    ensures (1.0 + q + s) * (a * p) == a * p + x * p + y * a
  {
    assert (1.0 + q + s) * (a * p) == a * p + (q * a) * p + (s * p) * a;
  }

  lemma DifferenceCleared(u: real, q: real, x: real, b: real)
    requires q * b == x
    ensures (u - q) * b == u * b - x
  {
  }

  lemma ScaledSumCleared(m: real, u: real, q: real, a: real)
    requires q * a == 1.0
    ensures (m * (u + q)) * a == m * (u * a + 1.0)
  {
    assert (m * (u + q)) * a == m * (u * a + q * a);
  }

  lemma FactorsHold(r1: real, r2: real)
    requires Bdf3Defined(r1, r2)
    ensures Factors(r1, r2, OnePlus(r1), OnePlus(r2), OnePlus(r2 * OnePlus(r1)))
  {
  }

  lemma Bd0IsCleared(r1: real, r2: real)
    requires Bdf3Defined(r1, r2)
    ensures Bd0Cleared(r1, r2, OnePlus(r1), OnePlus(r2), OnePlus(r2 * OnePlus(r1)), Bdf3Bd0(r1, r2))
  {
    DivMul(r1, OnePlus(r1));
    DivMul(r2 * r1, OnePlus(r2 * OnePlus(r1)));
    SumOfQuotientsCleared(r1 / OnePlus(r1), (r2 * r1) / OnePlus(r2 * OnePlus(r1)), r1, r2 * r1,
                          OnePlus(r1), OnePlus(r2 * OnePlus(r1)));
  }

  lemma Bd1IsCleared(r1: real, r2: real)
    requires Bdf3Defined(r1, r2)
    ensures Bd1Cleared(r1, r2, OnePlus(r1), OnePlus(r2), OnePlus(r2 * OnePlus(r1)), Bdf3Bd1(r1, r2))
  {
    DivMul(r2 * r1 * OnePlus(r1), OnePlus(r2));
    DifferenceCleared(-1.0 - r1, (r2 * r1 * OnePlus(r1)) / OnePlus(r2), r2 * r1 * OnePlus(r1), OnePlus(r2));
  }

  lemma Bd2IsCleared(r1: real, r2: real)
    requires Bdf3Defined(r1, r2)
    ensures Bd2Cleared(r1, r2, OnePlus(r1), OnePlus(r2), OnePlus(r2 * OnePlus(r1)), Bdf3Bd2(r1, r2))
  {
    DivMul(1.0, OnePlus(r1));
    ScaledSumCleared(r1 * r1, r2, 1.0 / OnePlus(r1), OnePlus(r1));
  }

  /** The two spellings of the third divisor agree. */
  lemma SameDivisor(r1: real, r2: real)
    ensures OnePlus(r2 + r2 * r1) == OnePlus(r2 * OnePlus(r1))
  {
  }

  lemma Bd3IsCleared(r1: real, r2: real)
    requires Bdf3Defined(r1, r2)
    ensures Bd3Cleared(r1, r2, OnePlus(r1), OnePlus(r2), OnePlus(r2 * OnePlus(r1)), Bdf3Bd3(r1, r2))
  {
    SameDivisor(r1, r2);
    NonzeroProduct(OnePlus(r2), OnePlus(r2 + r2 * r1));
    DivMul(-(r2 * r2 * r2 * r1 * r1 * OnePlus(r1)), OnePlus(r2) * OnePlus(r2 + r2 * r1));
  }

  lemma Ab1IsCleared(r1: real, r2: real)
    requires Bdf3Defined(r1, r2)
    ensures Ab1Cleared(r1, r2, OnePlus(r1), OnePlus(r2), OnePlus(r2 * OnePlus(r1)), Bdf3Ab1(r1, r2))
  {
    DivMul(OnePlus(r1) * OnePlus(r2 * OnePlus(r1)), OnePlus(r2));
  }

  lemma Ab2IsCleared(r1: real, r2: real)
    requires Bdf3Defined(r1, r2)
    ensures Ab2Cleared(r1, r2, OnePlus(r1), OnePlus(r2), OnePlus(r2 * OnePlus(r1)), Bdf3Ab2(r1, r2))
  {
  }

  lemma Ab3IsCleared(r1: real, r2: real)
    requires Bdf3Defined(r1, r2)
    ensures Ab3Cleared(r1, r2, OnePlus(r1), OnePlus(r2), OnePlus(r2 * OnePlus(r1)), Bdf3Ab3(r1, r2))
  {
    DivMul(r2 * r2 * r1 * OnePlus(r1), OnePlus(r2));
  }

  // ---- The polynomial identities.

  lemma BdSumPoly(r1: real, r2: real, a: real, b: real, p: real, x0: real, x1: real, x2: real, x3: real)
    requires a == 1.0 + r1 && b == 1.0 + r2 && p == 1.0 + r2 * a
    requires x0 == a * p + r1 * p + r2 * r1 * a && x1 == (-1.0 - r1) * b - r2 * r1 * a
    requires x2 == r1 * r1 * (r2 * a + 1.0) && x3 == -(r2 * r2 * r2 * r1 * r1 * a)
    ensures x0 * b + x1 * (a * p) + x2 * (b * p) + x3 * a == 0.0
  {
  }

  lemma BdUnitsPoly(r1: real, r2: real, a: real, b: real, p: real)
    requires a == 1.0 + r1 && b == 1.0 + r2 && p == 1.0 + r2 * a
    ensures -(((-1.0 - r1) * b - r2 * r1 * a) * (r1 * r2) + r1 * r1 * (r2 * a + 1.0) * (r2 * b)
              - r2 * r2 * r2 * r1 * r1 * a) == (r1 * r2) * b
  {
  }

  lemma AbSumPoly(r1: real, r2: real, a: real, b: real, p: real)
    requires a == 1.0 + r1 && b == 1.0 + r2 && p == 1.0 + r2 * a
    ensures a * p - r1 * p * b + r2 * r2 * r1 * a == 1.0 * b
  {
  }

  lemma AbUnitsPoly(r1: real, r2: real, a: real, b: real, p: real)
    requires b == 1.0 + r2
    ensures (a * p) * (r1 * r2) - r1 * p * (r2 * a) * b + (r2 * r2 * r1 * a) * p == 0.0 * b
  {
  }

  // ---- The weights' sums and their values on the steps.

  /** Four weights with their own divisors cleared, brought to the common divisor `a b p`. */
  lemma ClearedSum(w0: real, w1: real, w2: real, w3: real, a: real, b: real, p: real,
                   x0: real, x1: real, x2: real, x3: real)
    requires w0 * (a * p) == x0 && w1 * b == x1 && w2 * a == x2 && w3 * (b * p) == x3
    ensures (w0 + w1 + w2 + w3) * (a * b * p) == x0 * b + x1 * (a * p) + x2 * (b * p) + x3 * a
  {
  }

  lemma BdSumZero(r1: real, r2: real, a: real, b: real, p: real, bd0: real, bd1: real, bd2: real, bd3: real)
    requires Factors(r1, r2, a, b, p)
    requires Bd0Cleared(r1, r2, a, b, p, bd0) && Bd1Cleared(r1, r2, a, b, p, bd1)
    requires Bd2Cleared(r1, r2, a, b, p, bd2) && Bd3Cleared(r1, r2, a, b, p, bd3)
    ensures bd0 + bd1 + bd2 + bd3 == 0.0
  {
    var x0, x1 := a * p + r1 * p + r2 * r1 * a, (-1.0 - r1) * b - r2 * r1 * a;
    var x2, x3 := r1 * r1 * (r2 * a + 1.0), -(r2 * r2 * r2 * r1 * r1 * a);
    ClearedSum(bd0, bd1, bd2, bd3, a, b, p, x0, x1, x2, x3);
    BdSumPoly(r1, r2, a, b, p, x0, x1, x2, x3);
    NonzeroProduct(a, b);
    NonzeroProduct(a * b, p);
    Cancel(bd0 + bd1 + bd2 + bd3, 0.0, a * b * p);
  }

  /** `-(bd1 u1 + bd2 u2 + bd3 u3) = u1` for the steps in units of `dt2`:
      `u1 = dt0/dt2 = r1 r2`, `u2 = (dt0 + dt1)/dt2 = r2 a`, `u3 = p`. */
  predicate BdUnits(r1: real, r2: real, a: real, b: real, p: real, bd1: real, bd2: real, bd3: real) {
    -(bd1 * (r1 * r2) + bd2 * (r2 * a) + bd3 * p) == r1 * r2
  }

  predicate AbUnits(r1: real, r2: real, a: real, b: real, p: real, ab1: real, ab2: real, ab3: real) {
    ab1 * (r1 * r2) + ab2 * (r2 * a) + ab3 * p == 0.0
  }

  lemma BdUnitsHold(r1: real, r2: real, a: real, b: real, p: real, bd1: real, bd2: real, bd3: real)
    requires Factors(r1, r2, a, b, p)
    requires Bd1Cleared(r1, r2, a, b, p, bd1) && Bd2Cleared(r1, r2, a, b, p, bd2)
    requires Bd3Cleared(r1, r2, a, b, p, bd3)
    ensures BdUnits(r1, r2, a, b, p, bd1, bd2, bd3)
  {
    assert bd1 * b * (r1 * r2) == ((-1.0 - r1) * b - r2 * r1 * a) * (r1 * r2);
    assert bd2 * a * (r2 * b) == r1 * r1 * (r2 * a + 1.0) * (r2 * b);
    BdUnitsPoly(r1, r2, a, b, p);
    Cancel(-(bd1 * (r1 * r2) + bd2 * (r2 * a) + bd3 * p), r1 * r2, b);
  }

  lemma AbSumOne(r1: real, r2: real, a: real, b: real, p: real, ab1: real, ab2: real, ab3: real)
    requires Factors(r1, r2, a, b, p)
    requires Ab1Cleared(r1, r2, a, b, p, ab1) && Ab2Cleared(r1, r2, a, b, p, ab2)
    requires Ab3Cleared(r1, r2, a, b, p, ab3)
    ensures ab1 + ab2 + ab3 == 1.0
  {
    assert (ab1 + ab2 + ab3) * b == ab1 * b - r1 * p * b + ab3 * b;
    AbSumPoly(r1, r2, a, b, p);
    Cancel(ab1 + ab2 + ab3, 1.0, b);
  }

  lemma AbUnitsHold(r1: real, r2: real, a: real, b: real, p: real, ab1: real, ab2: real, ab3: real)
    requires Factors(r1, r2, a, b, p)
    requires Ab1Cleared(r1, r2, a, b, p, ab1) && Ab2Cleared(r1, r2, a, b, p, ab2)
    requires Ab3Cleared(r1, r2, a, b, p, ab3)
    ensures AbUnits(r1, r2, a, b, p, ab1, ab2, ab3)
  {
    var e := ab1 * (r1 * r2) + ab2 * (r2 * a) + ab3 * p;
    assert e * b == (ab1 * b) * (r1 * r2) - r1 * p * (r2 * a) * b + (ab3 * b) * p;
    AbUnitsPoly(r1, r2, a, b, p);
    Cancel(e, 0.0, b);
  }

  // ---- From the sums and the unit values to exactness on linear functions.

  predicate StepRatios(r1: real, r2: real, dt0: real, dt1: real, dt2: real) {
    dt0 == r1 * dt1 && dt1 == r2 * dt2
  }

  lemma StepRatiosHold(dt0: real, dt1: real, dt2: real)
    requires dt1 != 0.0 && dt2 != 0.0
    ensures StepRatios(dt0 / dt1, dt1 / dt2, dt0, dt1, dt2)
  {
    DivMul(dt0, dt1);
    DivMul(dt1, dt2);
  }

  lemma ExactOnLinear(c: Coefficients, r1: real, r2: real, a: real, b: real, p: real,
                      dt0: real, dt1: real, dt2: real, t0: real, t1: real, t2: real, t3: real)
    requires Factors(r1, r2, a, b, p) && StepRatios(r1, r2, dt0, dt1, dt2)
    requires c.bd0 + c.bd1 + c.bd2 + c.bd3 == 0.0 && c.ab1 + c.ab2 + c.ab3 == 1.0
    requires BdUnits(r1, r2, a, b, p, c.bd1, c.bd2, c.bd3) && AbUnits(r1, r2, a, b, p, c.ab1, c.ab2, c.ab3)
    requires t1 == t0 - dt0 && t2 == t1 - dt1 && t3 == t2 - dt2
    ensures BackwardDifference(c, t0, t1, t2, t3) == dt0
    ensures Extrapolation(c, t1, t2, t3) == t0
  {
    assert dt0 == (r1 * r2) * dt2 && dt0 + dt1 == (r2 * a) * dt2 && dt0 + dt1 + dt2 == p * dt2;
    assert BackwardDifference(c, t0, t1, t2, t3)
        == (c.bd0 + c.bd1 + c.bd2 + c.bd3) * t0 - (c.bd1 * (r1 * r2) + c.bd2 * (r2 * a) + c.bd3 * p) * dt2;
    assert Extrapolation(c, t1, t2, t3)
        == (c.ab1 + c.ab2 + c.ab3) * t0 - (c.ab1 * (r1 * r2) + c.ab2 * (r2 * a) + c.ab3 * p) * dt2;
  }

  // ---- Assembly.

  lemma Bdf3Sums(r1: real, r2: real)
    requires Bdf3Defined(r1, r2)
    ensures var c := Bdf3Coefficients(r1, r2);
            c.bd0 + c.bd1 + c.bd2 + c.bd3 == 0.0 && c.ab1 + c.ab2 + c.ab3 == 1.0
  {
    FactorsHold(r1, r2);
    Bd0IsCleared(r1, r2);
    Bd1IsCleared(r1, r2);
    Bd2IsCleared(r1, r2);
    Bd3IsCleared(r1, r2);
    Ab1IsCleared(r1, r2);
    Ab2IsCleared(r1, r2);
    Ab3IsCleared(r1, r2);
    BdSumZero(r1, r2, OnePlus(r1), OnePlus(r2), OnePlus(r2 * OnePlus(r1)),
              Bdf3Bd0(r1, r2), Bdf3Bd1(r1, r2), Bdf3Bd2(r1, r2), Bdf3Bd3(r1, r2));
    AbSumOne(r1, r2, OnePlus(r1), OnePlus(r2), OnePlus(r2 * OnePlus(r1)),
             Bdf3Ab1(r1, r2), Bdf3Ab2(r1, r2), Bdf3Ab3(r1, r2));
  }

  lemma Bdf3Units(r1: real, r2: real)
    requires Bdf3Defined(r1, r2)
    ensures var c := Bdf3Coefficients(r1, r2);
            var a, b, p := OnePlus(r1), OnePlus(r2), OnePlus(r2 * OnePlus(r1));
            BdUnits(r1, r2, a, b, p, c.bd1, c.bd2, c.bd3) && AbUnits(r1, r2, a, b, p, c.ab1, c.ab2, c.ab3)
  {
    FactorsHold(r1, r2);
    Bd1IsCleared(r1, r2);
    Bd2IsCleared(r1, r2);
    Bd3IsCleared(r1, r2);
    Ab1IsCleared(r1, r2);
    Ab2IsCleared(r1, r2);
    Ab3IsCleared(r1, r2);
    BdUnitsHold(r1, r2, OnePlus(r1), OnePlus(r2), OnePlus(r2 * OnePlus(r1)),
                Bdf3Bd1(r1, r2), Bdf3Bd2(r1, r2), Bdf3Bd3(r1, r2));
    AbUnitsHold(r1, r2, OnePlus(r1), OnePlus(r2), OnePlus(r2 * OnePlus(r1)),
                Bdf3Ab1(r1, r2), Bdf3Ab2(r1, r2), Bdf3Ab3(r1, r2));
  }

  lemma {:induction false} Bdf3Consistent(dt0: real, dt1: real, dt2: real, t0: real, t1: real, t2: real, t3: real)
    requires dt1 != 0.0 && dt2 != 0.0 && Bdf3Defined(dt0 / dt1, dt1 / dt2)
    requires t1 == t0 - dt0 && t2 == t1 - dt1 && t3 == t2 - dt2
    ensures var c := Bdf3Coefficients(dt0 / dt1, dt1 / dt2);
            && BackwardDifference(c, 1.0, 1.0, 1.0, 1.0) == 0.0
            && Extrapolation(c, 1.0, 1.0, 1.0) == 1.0
            && BackwardDifference(c, t0, t1, t2, t3) == dt0
            && Extrapolation(c, t1, t2, t3) == t0
  {
    var r1, r2 := dt0 / dt1, dt1 / dt2;
    var c := Bdf3Coefficients(r1, r2);
    FactorsHold(r1, r2);
    Bdf3Sums(r1, r2);
    Bdf3Units(r1, r2);
    StepRatiosHold(dt0, dt1, dt2);
    ExactOnLinear(c, r1, r2, OnePlus(r1), OnePlus(r2), OnePlus(r2 * OnePlus(r1)), dt0, dt1, dt2, t0, t1, t2, t3);
  }

  /** With constant time steps the formulas reduce to the classical
      fixed-step BDF2/EXT2 and BDF3/EXT3 weights. */
  lemma EqualStepsCoefficients()
    ensures Bdf2Coefficients(1.0) == Coefficients(1.5, -2.0, 0.5, 0.0, 2.0, -1.0, 0.0)
    ensures Bdf3Defined(1.0, 1.0)
    ensures Bdf3Coefficients(1.0, 1.0) == Coefficients(11.0 / 6.0, -3.0, 1.5, -1.0 / 3.0, 3.0, -3.0, 1.0)
  {
  }

  // ---- The assignment that runs.

  /** Whatever branch assigns new coefficients, the backward difference
      annihilates constants and on a linear function of time (the values
      `t0`, `t1 = t0 - dt0`, ... at the times of the step history) gives `dt0`,
      so `bd/dt` is an exact derivative; the extrapolation reproduces
      constants, and from the second step on also linear functions (the
      startup extrapolation is the old value itself). */
  lemma {:induction false} SetCoefficientsConsistent(step: int, maxOrder: int, h: StepHistory,
                                                     prev: Coefficients, t0: real, t1: real, t2: real, t3: real)
    requires BranchDefined(step, maxOrder, h) && BranchOf(step, maxOrder) != Keep
    requires t1 == t0 - h.dt0 && t2 == t1 - h.dt1 && t3 == t2 - h.dt2
    ensures var c := SetTimeIntegrationCoefficients(step, maxOrder, h, prev);
            && BackwardDifference(c, 1.0, 1.0, 1.0, 1.0) == 0.0
            && Extrapolation(c, 1.0, 1.0, 1.0) == 1.0
            && BackwardDifference(c, t0, t1, t2, t3) == h.dt0
            && (BranchOf(step, maxOrder) != Startup ==> Extrapolation(c, t1, t2, t3) == t0)
  {
    var c := SetTimeIntegrationCoefficients(step, maxOrder, h, prev);
    match BranchOf(step, maxOrder)
    case Startup =>
      assert c == StartupCoefficients;
    case Bdf2 =>
      assert c == Bdf2Coefficients(h.dt0 / h.dt1);
      Bdf2Consistent(h.dt0, h.dt1, t0, t1, t2, t3);
    case Bdf3 =>
      assert c == Bdf3Coefficients(h.dt0 / h.dt1, h.dt1 / h.dt2);
      Bdf3Consistent(h.dt0, h.dt1, h.dt2, t0, t1, t2, t3);
  }
}
