/** Kernel selection and `AddMultPA` of the vector divergence integrator
    (`PAVectorDivergenceApply` and `VectorDivergenceIntegrator::AddMultPA`,
    fem/bilininteg_vecdivergence.cpp), and how the `op` layout the 2D setup
    writes meets the layout the 2D apply kernel reads. */
module VecDivIntegrator {
  import opened Wrappers
  import opened Reals
  import opened Tables
  import opened Layout
  import opened Adjugate
  import opened VecDivSetup
  import opened VecDivApply

  // ---- The dispatch key `(D1D << 4) | Q1D`.

  function Pow2(k: nat): (p: nat)
    ensures p >= 1
  {
    if k == 0 then 1 else 2 * Pow2(k - 1)
  }

  /** `a << k` on naturals (the 32-bit overflow of the source's `int` shift
      is not modelled). */
  function Shl(a: nat, k: nat): nat {
    a * Pow2(k)
  }

  /** Bitwise or of two naturals, bit by bit from the least significant one. */
  function BitOr(a: nat, b: nat): nat
    decreases a + b
  {
    if a == 0 then b
    else if b == 0 then a
    else 2 * BitOr(a / 2, b / 2) + (if a % 2 == 1 || b % 2 == 1 then 1 else 0)
  }

  /** The `switch` key of the dispatcher. */
  function Key(d1d: nat, q1d: nat): nat {
    BitOr(Shl(d1d, 4), q1d)
  }

  /** Or-ing a value below `2^k` into a number shifted left by `k` is addition. */
  lemma {:induction false} BitOrShifted(a: nat, b: nat, k: nat)
    requires b < Pow2(k)
    ensures BitOr(Shl(a, k), b) == Shl(a, k) + b
  {
    if k > 0 && a > 0 && b > 0 {
      var h := a * Pow2(k - 1);
      assert Shl(a, k) == 2 * h;
      BitOrShifted(a, b / 2, k - 1);
      assert BitOr(Shl(a, k), b) == 2 * BitOr(h, b / 2) + b % 2;
    }
  }

  /** For `Q1D < 16` the key is `16*D1D + Q1D`. */
  lemma KeyValue(d1d: nat, q1d: nat)
    requires q1d < 16
    ensures Key(d1d, q1d) == 16 * d1d + q1d
  {
    BitOrShifted(d1d, q1d, 4);
  }

  /** For `Q1D < 16` the key determines both sizes. */
  lemma KeyInjective(d1: nat, q1: nat, d2: nat, q2: nat)
    requires q1 < 16 && q2 < 16 && Key(d1, q1) == Key(d2, q2)
    ensures d1 == d2 && q1 == q2
  {
    KeyValue(d1, q1);
    KeyValue(d2, q2);
    DivModDigits(q1, d1, 16);
    DivModDigits(q2, d2, 16);
  }

  /** Without `Q1D < 16` the key is not injective: `(2, 34)` shares the key
      `0x22` of `(2, 2)`, since the bits of `34` cover those of `2 << 4`. */
  lemma KeyCollision()
    ensures Key(2, 34) == 0x22 && Key(2, 2) == 0x22
  {
    KeyValue(2, 2);
    assert Shl(2, 4) == 32;
    assert BitOr(32, 34) == 34 by {
      assert BitOr(1, 1) == 1;
      assert BitOr(2, 2) == 2;
      assert BitOr(4, 4) == 4;
      assert BitOr(8, 8) == 8;
      assert BitOr(16, 17) == 17;
    }
  }

  // ---- Kernel selection.

  /** The device configuration the dispatcher looks at: an OCCA device, a
      device that allows the RAJA CUDA backend, or any other. */
  datatype Backend = Occa | RajaCuda | Native

  /** The kernel a call lands in. `Tensor*` are the `PAVectorDivergenceApply*D`
      template instances `<T_D1D, T_Q1D>`, `Runtime*` the same functions with
      `T_D1D = T_Q1D = 0` and the runtime sizes, `Smem*` the shared-memory
      instances (`nbz` elements per block), `Occa*` the OCCA kernels. */
  datatype Kernel =
    | Tensor2D(tD1D: nat, tQ1D: nat) | Runtime2D | Smem2D(tD1D: nat, tQ1D: nat, nbz: nat)
    | Tensor3D(tD1D: nat, tQ1D: nat) | Runtime3D | Smem3D(tD1D: nat, tQ1D: nat)
    | Occa2D | Occa3D

  /** `MFEM_ABORT("OCCA PAVectorDivergenceApply unknown kernel!")` and
      `MFEM_ABORT("Unknown kernel.")`. */
  datatype DispatchError = OccaUnknownKernel | UnknownKernel

  /** A kernel compiled for fixed sizes. */
  predicate Specialised(kern: Kernel) {
    kern.Tensor2D? || kern.Smem2D? || kern.Tensor3D? || kern.Smem3D?
  }

  /** The 2D `switch` of the RAJA CUDA branch. */
  function RajaSwitch2D(key: nat): Kernel {
    match key
    case 0x22 => Tensor2D(2, 2)
    case 0x33 => Tensor2D(3, 3)
    case 0x44 => Tensor2D(4, 4)
    case 0x55 => Tensor2D(5, 5)
    case 0x66 => Tensor2D(6, 6)
    case 0x77 => Tensor2D(7, 7)
    case 0x88 => Tensor2D(8, 8)
    case 0x99 => Tensor2D(9, 9)
    case _ => Runtime2D
  }

  /** The 3D `switch` of the RAJA CUDA branch. */
  function RajaSwitch3D(key: nat): Kernel {
    match key
    case 0x23 => Tensor3D(2, 3)
    case 0x34 => Tensor3D(3, 4)
    case 0x45 => Tensor3D(4, 5)
    case 0x56 => Tensor3D(5, 6)
    case 0x67 => Tensor3D(6, 7)
    case 0x78 => Tensor3D(7, 8)
    case 0x89 => Tensor3D(8, 9)
    case _ => Runtime3D
  }

  /** The 2D `switch` of the default branch: shared-memory kernels, falling
      back to the generic 2D kernel. */
  function SmemSwitch2D(key: nat): Kernel {
    match key
    case 0x22 => Smem2D(2, 2, 16)
    case 0x33 => Smem2D(3, 3, 16)
    case 0x44 => Smem2D(4, 4, 8)
    case 0x55 => Smem2D(5, 5, 8)
    case 0x66 => Smem2D(6, 6, 4)
    case 0x77 => Smem2D(7, 7, 4)
    case 0x88 => Smem2D(8, 8, 2)
    case 0x99 => Smem2D(9, 9, 2)
    case _ => Runtime2D
  }

  /** The 3D `switch` of the default branch. */
  function SmemSwitch3D(key: nat): Kernel {
    match key
    case 0x23 => Smem3D(2, 3)
    case 0x34 => Smem3D(3, 4)
    case 0x45 => Smem3D(4, 5)
    case 0x56 => Smem3D(5, 6)
    case 0x67 => Smem3D(6, 7)
    case 0x78 => Smem3D(7, 8)
    case 0x89 => Smem3D(8, 9)
    case _ => Runtime3D
  }

  /** `PAVectorDivergenceApply` as a choice of kernel. A RAJA CUDA device
      with a dimension other than 2 or 3 falls out of its branch to the final
      abort. */
  function Dispatch(backend: Backend, dim: int, d1d: nat, q1d: nat): (r: Result<Kernel, DispatchError>)
    ensures r.Failure? <==> dim != 2 && dim != 3
    ensures r.Failure? ==> r.error == (if backend == Occa then OccaUnknownKernel else UnknownKernel)
    ensures r.Success? && backend == Occa ==> r.value == (if dim == 2 then Occa2D else Occa3D)
    ensures r.Success? && dim == 2 ==> r.value.Tensor2D? || r.value.Runtime2D? || r.value.Smem2D? || r.value.Occa2D?
    ensures r.Success? && dim == 3 ==> r.value.Tensor3D? || r.value.Runtime3D? || r.value.Smem3D? || r.value.Occa3D?
  {
    if backend == Occa then
      if dim == 2 then Success(Occa2D)
      else if dim == 3 then Success(Occa3D)
      else Failure(OccaUnknownKernel)
    else if backend == RajaCuda then
      if dim == 2 then Success(RajaSwitch2D(Key(d1d, q1d)))
      else if dim == 3 then Success(RajaSwitch3D(Key(d1d, q1d)))
      else Failure(UnknownKernel)
    else if dim == 2 then Success(SmemSwitch2D(Key(d1d, q1d)))
    else if dim == 3 then Success(SmemSwitch3D(Key(d1d, q1d)))
    else Failure(UnknownKernel)
  }

  /** The sizes a specialised kernel is compiled for. */
  function TemplateSizes(kern: Kernel): (nat, nat)
    requires Specialised(kern)
  {
    (kern.tD1D, kern.tQ1D)
  }

  /** Elements per block of the 2D shared-memory kernels. */
  function Nbz2D(n: nat): nat {
    if n <= 3 then 16 else if n <= 5 then 8 else if n <= 7 then 4 else 2
  }

  /** The keys the 2D switches list are `0x22, 0x33, ..., 0x99`. */
  lemma Switch2DKeys(key: nat)
    ensures RajaSwitch2D(key).Tensor2D? <==> key in {0x22, 0x33, 0x44, 0x55, 0x66, 0x77, 0x88, 0x99}
    ensures SmemSwitch2D(key).Smem2D? <==> key in {0x22, 0x33, 0x44, 0x55, 0x66, 0x77, 0x88, 0x99}
    ensures RajaSwitch2D(key).Tensor2D? ==>
              key == 17 * RajaSwitch2D(key).tD1D && RajaSwitch2D(key).tD1D == RajaSwitch2D(key).tQ1D
    ensures SmemSwitch2D(key).Smem2D? ==>
              key == 17 * SmemSwitch2D(key).tD1D && SmemSwitch2D(key).tD1D == SmemSwitch2D(key).tQ1D
              && SmemSwitch2D(key).nbz == Nbz2D(SmemSwitch2D(key).tD1D)
  {
  }

  /** The keys the 3D switches list are `0x23, 0x34, ..., 0x89`. */
  lemma Switch3DKeys(key: nat)
    ensures RajaSwitch3D(key).Tensor3D? <==> key in {0x23, 0x34, 0x45, 0x56, 0x67, 0x78, 0x89}
    ensures SmemSwitch3D(key).Smem3D? <==> key in {0x23, 0x34, 0x45, 0x56, 0x67, 0x78, 0x89}
    ensures RajaSwitch3D(key).Tensor3D? ==>
              key == 17 * RajaSwitch3D(key).tD1D + 1 && RajaSwitch3D(key).tQ1D == RajaSwitch3D(key).tD1D + 1
    ensures SmemSwitch3D(key).Smem3D? ==>
              key == 17 * SmemSwitch3D(key).tD1D + 1 && SmemSwitch3D(key).tQ1D == SmemSwitch3D(key).tD1D + 1
  {
  }

  /** `17*n (+1)` with `n <= 9` is the key of `(n, n)` (of `(n, n+1)`). */
  lemma DiagonalKey(d1d: nat, q1d: nat, n: nat, off: nat)
    requires q1d < 16 && n < 15 && off <= 1 && Key(d1d, q1d) == 17 * n + off
    ensures d1d == n && q1d == n + off
  {
    KeyValue(n, n + off);
    KeyInjective(d1d, q1d, n, n + off);
  }

  /** In 2D (away from OCCA) and for `Q1D < 16`, a specialised kernel is
      chosen exactly when `D1D = Q1D` is one of `2..9`, it is compiled for
      exactly those sizes, RAJA CUDA takes the tensor kernel and the default
      branch the shared-memory one; every other size runs the generic kernel. */
  lemma Dispatch2D(backend: Backend, d1d: nat, q1d: nat)
    requires backend != Occa && q1d < 16
    ensures var r := Dispatch(backend, 2, d1d, q1d);
            r.Success?
            && (Specialised(r.value) <==> d1d == q1d && 2 <= d1d <= 9)
            && (Specialised(r.value) ==> TemplateSizes(r.value) == (d1d, q1d))
            && (Specialised(r.value) && backend == RajaCuda ==> r.value.Tensor2D?)
            && (Specialised(r.value) && backend == Native ==> r.value == Smem2D(d1d, q1d, Nbz2D(d1d)))
            && (!Specialised(r.value) ==> r.value == Runtime2D)
  {
    var key := Key(d1d, q1d);
    KeyValue(d1d, q1d);
    Switch2DKeys(key);
    var kern := Dispatch(backend, 2, d1d, q1d).value;
    if Specialised(kern) {
      var n := if backend == RajaCuda then RajaSwitch2D(key).tD1D else SmemSwitch2D(key).tD1D;
      DiagonalKey(d1d, q1d, n, 0);
    }
  }

  /** In 3D (away from OCCA) and for `Q1D < 16`, a specialised kernel is
      chosen exactly when `Q1D = D1D + 1` with `D1D` one of `2..8`. */
  lemma Dispatch3D(backend: Backend, d1d: nat, q1d: nat)
    requires backend != Occa && q1d < 16
    ensures var r := Dispatch(backend, 3, d1d, q1d);
            r.Success?
            && (Specialised(r.value) <==> q1d == d1d + 1 && 2 <= d1d <= 8)
            && (Specialised(r.value) ==> TemplateSizes(r.value) == (d1d, q1d))
            && (Specialised(r.value) && backend == RajaCuda ==> r.value.Tensor3D?)
            && (Specialised(r.value) && backend == Native ==> r.value.Smem3D?)
            && (!Specialised(r.value) ==> r.value == Runtime3D)
  {
    var key := Key(d1d, q1d);
    KeyValue(d1d, q1d);
    Switch3DKeys(key);
    var kern := Dispatch(backend, 3, d1d, q1d).value;
    if Specialised(kern) {
      var n := if backend == RajaCuda then RajaSwitch3D(key).tD1D else SmemSwitch3D(key).tD1D;
      DiagonalKey(d1d, q1d, n, 1);
    }
  }

  /** Past `Q1D = 15` the key collides: sizes `(2, 34)` on a RAJA CUDA device
      run the kernel compiled for `(2, 2)`. */
  lemma DispatchCollision()
    ensures Dispatch(RajaCuda, 2, 2, 34) == Success(Tensor2D(2, 2))
  {
    KeyCollision();
  }

  // ---- AddMultPA.

  /** The `B` and `G` arrays of one space's `DofToQuad` maps. */
  datatype Maps = Maps(b: seq<real>, g: seq<real>)

  /** What a call does with `y`: the 2D tensor and generic kernels give the
      new `y`; the 3D and shared-memory kernels, whose bodies are not part of
      this model, are only named. */
  datatype Outcome = Applied(y: seq<real>) | Delegated(kernel: Kernel)

  /** Dispatch aborts, the apply kernel's size checks, and the abort of the
      OCCA apply stubs. */
  datatype AddMultError = DispatchFailed(reason: DispatchError) | ApplyFailed(cause: ApplyError) | OccaNotSupported

  /** The 2D kernels whose bodies are modelled. */
  predicate Modelled(kern: Kernel) {
    kern.Tensor2D? || kern.Runtime2D?
  }

  /** The arguments `AddMultPA` hands to a modelled kernel, with the sizes
      that kernel resolves: the template sizes of a specialised instance, the
      trial sizes otherwise. The test space's `B` and `G` go where the kernel
      expects `Bt` and `Gt`. */
  function KernelInput(kern: Kernel, d1d: nat, q1d: nat, ne: nat, trial: Maps, test: Maps,
                       paData: seq<real>, x: seq<real>): (k: Input)
    requires Modelled(kern)
    ensures k.b == trial.b && k.g == trial.g && k.bt == test.b && k.gt == test.g
    ensures k.op == paData && k.x == x && k.ne == ne
    ensures kern.Runtime2D? ==> k.d1d == d1d && k.q1d == q1d
    ensures kern.Tensor2D? ==> k.d1d == kern.tD1D && k.q1d == kern.tQ1D
  {
    if kern.Tensor2D? then Input(kern.tD1D, kern.tQ1D, ne, trial.b, trial.g, test.b, test.g, paData, x)
    else Input(d1d, q1d, ne, trial.b, trial.g, test.b, test.g, paData, x)
  }

  /** `y` after the 2D kernel has added its contribution to the first
      `D1D*D1D*NE` entries. */
  function AddedTo(k: Input, y: seq<real>): (r: seq<real>)
    ensures |r| == |y|
  {
    seq(|y|, i requires 0 <= i < |y| => if i < k.d1d * k.d1d * k.ne then y[i] + ContribAt(k, i) else y[i])
  }

  lemma AddedToExt(k: Input, y: seq<real>, v: seq<real>)
    requires |v| == |y|
    requires forall i: nat | i < |y| ::
               v[i] == if i < k.d1d * k.d1d * k.ne then y[i] + ContribAt(k, i) else y[i]
    ensures v == AddedTo(k, y)
  {
    var a := AddedTo(k, y);
    forall i: nat | i < |y|
      ensures v[i] == a[i]
    {
    }
  }

  /** The arrays are large enough for the views of the kernel the call selects. */
  predicate FitsKernel(backend: Backend, dim: int, d1d: nat, q1d: nat, ne: nat, trial: Maps, test: Maps,
                       paData: seq<real>, x: seq<real>, y: seq<real>)
  {
    var r := Dispatch(backend, dim, d1d, q1d);
    r.Success? && Modelled(r.value) ==>
      var k := KernelInput(r.value, d1d, q1d, ne, trial, test, paData, x);
      WellSized(k) && |y| >= k.d1d * k.d1d * ne
  }

  /** `VectorDivergenceIntegrator::AddMultPA`: dispatch on the trial sizes
      (the test sizes are passed along and never read), then run the chosen
      kernel. */
  method AddMultPA(backend: Backend, dim: int, trialD1D: nat, trialQ1D: nat, testD1D: nat, testQ1D: nat,
                   ne: nat, maxD1D: nat, maxQ1D: nat, trial: Maps, test: Maps,
                   paData: seq<real>, x: seq<real>, y: seq<real>)
    returns (r: Result<Outcome, AddMultError>)
    requires FitsKernel(backend, dim, trialD1D, trialQ1D, ne, trial, test, paData, x, y)
    ensures var d := Dispatch(backend, dim, trialD1D, trialQ1D);
            && (d.Failure? ==> r == Failure(DispatchFailed(d.error)))
            && (d.Success? && (d.value.Occa2D? || d.value.Occa3D?) ==> r == Failure(OccaNotSupported))
            && (d.Success? && !Modelled(d.value) && !d.value.Occa2D? && !d.value.Occa3D? ==>
                  r == Success(Delegated(d.value)))
            && (d.Success? && Modelled(d.value) ==>
                  var k := KernelInput(d.value, trialD1D, trialQ1D, ne, trial, test, paData, x);
                  && (r.Failure? <==> k.d1d > maxD1D || k.q1d > maxQ1D)
                  && (r.Failure? ==> r.error == ApplyFailed(SizeCeilingExceeded))
                  && (r.Success? ==> r.value == Applied(AddedTo(k, y))))
  {
    var d := Dispatch(backend, dim, trialD1D, trialQ1D);
    if d.Failure? {
      return Failure(DispatchFailed(d.error));
    }
    var kern := d.value;
    if kern.Occa2D? || kern.Occa3D? {
      return Failure(OccaNotSupported);
    }
    if !Modelled(kern) {
      return Success(Delegated(kern));
    }
    var k := KernelInput(kern, trialD1D, trialQ1D, ne, trial, test, paData, x);
    var tD1D, tQ1D, d1d, q1d := 0, 0, trialD1D, trialQ1D;
    if kern.Tensor2D? {
      tD1D, tQ1D, d1d, q1d := kern.tD1D, kern.tQ1D, 0, 0;
    }
    assert Input(Resolve(tD1D, d1d), Resolve(tQ1D, q1d), ne, trial.b, trial.g, test.b, test.g, paData, x) == k;
    var out := Apply2D(tD1D, tQ1D, d1d, q1d, maxD1D, maxQ1D, ne,
                       trial.b, trial.g, test.b, test.g, paData, x, y);
    if out.Failure? {
      return Failure(ApplyFailed(out.error));
    }
    AddedToExt(k, y, out.value);
    return Success(Applied(out.value));
  }

  /** When trial and test space coincide and `D1D = Q1D`, the kernel's `Bt`
      and `Gt` tables are `B` and `G` themselves: it reads `Bt(d, q) = B(d, q)`
      where the transposed evaluation needs `B(q, d)`. */
  lemma SameSpaceTransposeIsIdentity(kern: Kernel, n: nat, ne: nat, maps: Maps,
                                     paData: seq<real>, x: seq<real>, e: nat)
    requires Modelled(kern) && (kern.Tensor2D? ==> kern.tD1D == kern.tQ1D)
    ensures var k := KernelInput(kern, n, n, ne, maps, maps, paData, x);
            ElementOf(k, e).bt == ElementOf(k, e).b && ElementOf(k, e).gt == ElementOf(k, e).g
  {
  }

  // ---- The `op` layouts of setup and apply.

  /** `Q1D*Q1D`, the quadrature points of one element. */
  function Points(k: Input): nat {
    k.q1d * k.q1d
  }

  lemma DivModFour(m: nat)
    ensures m == m % 4 + 4 * (m / 4)
  {
  }

  /** The apply kernel reads `op(q, c, e)` of a `(NQ, 3, NE)` view; in the
      `(NQ, 4, NE)` layout the 2D setup writes, that position is slot
      `(c + 3e) % 4` of element `(c + 3e) / 4`. */
  lemma ApplyReadsSetupSlot(nq: nat, ne: nat, q: nat, c: nat, e: nat)
    requires q < nq && c < 3 && e < ne
    ensures (c + 3 * e) / 4 < ne
    ensures Idx3(q, c, e, nq, 3) == Idx3(q, (c + 3 * e) % 4, (c + 3 * e) / 4, nq, 4)
  {
    var m := c + 3 * e;
    DivModFour(m);
    Idx3Value(q, c, e, nq, 3);
    Idx3Value(q, m % 4, m / 4, nq, 4);
    assert c + 3 * e == m % 4 + 4 * (m / 4);
  }

  /** The two layouts agree on a read exactly for the first element. */
  lemma SlotsAgreeIff(c: nat, e: nat)
    requires c < 3
    ensures ((c + 3 * e) % 4 == c && (c + 3 * e) / 4 == e) <==> e == 0
  {
    DivModFour(c + 3 * e);
    if e == 0 {
      DivModDigits(c, 0, 4);
    }
  }

  /** The 2D apply kernel, fed the `op` the 2D setup wrote, reads for entry
      `c` of element `e` at point `(qx, qy)` slot `(c + 3e) % 4` of the
      weighted adjugate that setup stored for element `(c + 3e) / 4`. */
  lemma ApplyReadsSetup(k: Input, w: seq<real>, j: seq<real>, coeff: real, op0: seq<real>,
                        qx: nat, qy: nat, c: nat, e: nat)
    requires |w| >= Points(k) && |j| >= Points(k) * 2 * 2 * k.ne
    requires |op0| >= Points(k) * 4 * k.ne
    requires k.op == Setup2D(Points(k), k.ne, w, j, coeff, op0)
    requires qx < k.q1d && qy < k.q1d && c < 3 && e < k.ne
    ensures Idx2(qx, qy, k.q1d) < Points(k) && (c + 3 * e) / 4 < k.ne
    ensures O(ElementOf(k, e), qx, qy, c)
            == Stored2(w, j, coeff, Points(k), k.ne, Idx2(qx, qy, k.q1d), (c + 3 * e) / 4).Entry((c + 3 * e) % 4)
  {
    var nq, ne := Points(k), k.ne;
    var q := Idx2(qx, qy, k.q1d);
    var slot, owner := (c + 3 * e) % 4, (c + 3 * e) / 4;
    Idx2InRange(qx, qy, k.q1d, k.q1d);
    ElementOpReads(k, e, qx, qy, c);
    ApplyReadsSetupSlot(nq, ne, q, c, e);
    var i := Idx3(q, slot, owner, nq, 4);
    Idx3InRange(q, slot, owner, nq, 4, ne);
    assert Get(k.op, Idx3(q, c, e, nq, 3)) == k.op[i];
    Setup2DStores(nq, ne, w, j, coeff, op0, q, slot, owner);
    assert k.op[i] == At3(k.op, q, slot, owner, nq, 4, ne);
  }

  /** Entry `c` at point `(qx, qy)` of element `e`'s op table is the flat
      `op` entry at `(qx + qy*Q1D, c, e)` of the `(Q1D*Q1D, 3, NE)` view. */
  lemma ElementOpReads(k: Input, e: nat, qx: nat, qy: nat, c: nat)
    requires qx < k.q1d && qy < k.q1d && c < 3
    ensures O(ElementOf(k, e), qx, qy, c) == Get(k.op, Idx3(Idx2(qx, qy, k.q1d), c, e, Points(k), 3))
  {
    ElementOpIsOpView(k, e);
    OpViewReads(k.op, k.q1d, e, qx, qy, c);
  }

  lemma ElementOpIsOpView(k: Input, e: nat)
    ensures ElementOf(k, e).op == OpView(k.op, k.q1d, e)
  {
  }

  lemma OpViewReads(op: seq<real>, q1d: nat, e: nat, qx: nat, qy: nat, c: nat)
    requires qx < q1d && qy < q1d && c < 3
    ensures Tab(OpView(op, q1d, e)[qy], qx, c) == Get(op, Idx3(Idx2(qx, qy, q1d), c, e, q1d * q1d, 3))
  {
  }

  /** For element 0 the apply kernel reads entry `c` of the block setup
      stored for element 0 itself. */
  lemma ApplyReadsSetupFirst(k: Input, w: seq<real>, j: seq<real>, coeff: real, op0: seq<real>,
                             qx: nat, qy: nat, c: nat)
    requires |w| >= Points(k) && |j| >= Points(k) * 2 * 2 * k.ne
    requires |op0| >= Points(k) * 4 * k.ne
    requires k.op == Setup2D(Points(k), k.ne, w, j, coeff, op0)
    requires qx < k.q1d && qy < k.q1d && c < 3 && 0 < k.ne
    ensures Idx2(qx, qy, k.q1d) < Points(k)
    ensures O(ElementOf(k, 0), qx, qy, c)
            == Stored2(w, j, coeff, Points(k), k.ne, Idx2(qx, qy, k.q1d), 0).Entry(c)
  {
    ApplyReadsSetup(k, w, j, coeff, op0, qx, qy, c, 0);
    SlotsAgreeIff(c, 0);
  }

  /** For the first element the layouts agree, and the kernel takes
      `O11 = cw*J22`, `O12 = -cw*J12`, `O22 = -cw*J21` (`cw = W[q]*COEFF`): the
      first three row-major adjugate entries, where the divergence needs
      the symmetric pairing of `adj(J)`'s rows with the two gradient
      components. */
  lemma ApplyFirstElementOp(k: Input, w: seq<real>, j: seq<real>, coeff: real, op0: seq<real>,
                            qx: nat, qy: nat)
    requires |w| >= Points(k) && |j| >= Points(k) * 2 * 2 * k.ne
    requires |op0| >= Points(k) * 4 * k.ne
    requires k.op == Setup2D(Points(k), k.ne, w, j, coeff, op0)
    requires qx < k.q1d && qy < k.q1d && 0 < k.ne
    ensures Idx2(qx, qy, k.q1d) < Points(k)
    ensures var q := Idx2(qx, qy, k.q1d);
            var cw := Scale(w[q], coeff);
            var jm := JAt2(j, Points(k), k.ne, q, 0);
            && O(ElementOf(k, 0), qx, qy, 0) == Scale(cw, jm.a22)
            && O(ElementOf(k, 0), qx, qy, 1) == -Scale(cw, jm.a12)
            && O(ElementOf(k, 0), qx, qy, 2) == -Scale(cw, jm.a21)
  {
    var nq, q := Points(k), Idx2(qx, qy, k.q1d);
    ApplyReadsSetupFirst(k, w, j, coeff, op0, qx, qy, 0);
    ApplyReadsSetupFirst(k, w, j, coeff, op0, qx, qy, 1);
    ApplyReadsSetupFirst(k, w, j, coeff, op0, qx, qy, 2);
    Stored2Entries(w, j, coeff, nq, k.ne, q, 0);
  }
}
