# MFEM kernels, Navier bookkeeping and Cartesian PML in Dafny

This project models three deterministic pieces of the MFEM finite element
library and proves properties of the model. All arithmetic is over Dafny
`real`, so the proofs cover index layout, algebraic identities and selection
logic, but not rounding.

- **Partial-assembly vector divergence integrator**
  (fem/bilininteg_vecdivergence.cpp):
  - the 2D and 3D setup kernels, which store the quadrature-weighted,
    coefficient-scaled adjugate of every element Jacobian;
  - the setup dispatcher and `AssemblePA`;
  - the generic sum-factorised 2D apply kernel, which accumulates into `y`;
  - the kernel dispatcher and `AddMultPA`.

  Flat arrays are `seq<real>`. The column-major `Reshape` views are index
  functions (`Layout`). The kernels' loops are methods whose loop invariants
  tie them to pure contraction functions (`Tables`). Those functions are in
  turn proved equal to the dense double sums the kernel evaluates
  (`VecDivDense`).
- **Navier time-stepping bookkeeping** (miniapps/fluids/navier_solver.cpp):
  - the variable-step BDF/EXT coefficients;
  - the rotation of the solution and time-step histories in `Step`;
  - the merge of Dirichlet boundary markers;
  - the curl formulas and the per-dof averaging of `ComputeCurl2D/3D`;
  - the mean removal of `Orthogonalize`, with the MPI ranks explicit.
- **Cartesian PML of example 25** (examples/ex25.cpp):
  - the computational box;
  - element marking;
  - the complex coordinate stretch, with complex numbers as pairs of reals
    (`Complex`);
  - the diagonal PML coefficient matrices;
  - the boundary data;
  - the problem, mesh, layer-width and attribute-marker tables of `main`.

Fatal `MFEM_ABORT`, `MFEM_VERIFY` and `MFEM_ASSERT` become the `Failure`
case of a `Result`. `MFEM_ASSERT` only fires when a `debugChecks` flag
(a debug build) is set.

Where the code behaves in an unexpected way, the model follows the code as
written:
- The 2D setup writes four entries per point, in a `(NQ, 4, NE)` layout. The
  2D apply kernel reads three, in a `(Q1D*Q1D, 3, NE)` layout.
  `VecDivIntegrator.ApplyReadsSetup` states which stored slot each read
  lands on. The two layouts agree only for element 0
  (`VecDivIntegrator.SlotsAgreeIff`). For element 0 the kernel takes `O12`
  and `O22` from the `-J12` and `-J21` slots
  (`VecDivIntegrator.ApplyFirstElementOp`).
- `AddMultPA` passes the test space's `B` and `G` where the kernel expects
  the transposed `Bt` and `Gt`. With one space and `D1D = Q1D`, the kernel
  therefore reads `B` where it needs its transpose
  (`VecDivIntegrator.SameSpaceTransposeIsIdentity`).
- The dispatch key `(D1D << 4) | Q1D` collides once `Q1D >= 16`
  (`VecDivIntegrator.DispatchCollision`).
- The apply kernel indexes its `(D1D, D1D, NE, 2)` view of `x` with three
  indices, an access the four-index view does not define. The model reads
  it as the first component, taking the missing last index as 0 (see
  "Left out").
- The variable-step BDF coefficients are computed before the current time
  step is recorded (see Findings).

## Model

| member | source | states |
|---|---|---|
| Layout.Idx3Split3RoundTrip | fem/bilininteg_vecdivergence.cpp:60-61 | decoding the flat address of an in-range index triple of a `Reshape` view gives the triple back |
| Layout.Split3Idx3RoundTrip | fem/bilininteg_vecdivergence.cpp:60-61 | every flat position is the address of the triple it decodes to, so a view skips no entry |
| Layout.Idx3Injective | fem/bilininteg_vecdivergence.cpp:90-91 | distinct in-range index triples of a view never share a flat address |
| Layout.Idx3Slab | fem/bilininteg_vecdivergence.cpp:248-250 | element `e`'s entries of an `(n0, n1, NE)` view occupy exactly the contiguous block `[n0 n1 e, n0 n1 (e+1))` |
| Layout.Idx4InRange | fem/bilininteg_vecdivergence.cpp:60 | an in-range 4-index of the Jacobian view addresses an entry inside the array |
| Layout.Idx4AsIdx3 | fem/bilininteg_vecdivergence.cpp:60-61 | a 4-index view is a 3-index view whose middle index merges the two middle indices |
| Adjugate.Adj2IsAdjugate | fem/bilininteg_vecdivergence.cpp:67-75 | the 2x2 block `(J22, -J12, -J21, J11)` satisfies `adj(J) J = J adj(J) = det(J) I` |
| Adjugate.Adj3IsAdjugate | fem/bilininteg_vecdivergence.cpp:106-115 | the nine cofactor expressions satisfy `adj(J) J = J adj(J) = det(J) I` |
| Adjugate.Adj3IsLeftInverse | fem/bilininteg_vecdivergence.cpp:106-115 | `adj(J) J = det(J) I` for the 3D cofactors |
| Adjugate.Adj3IsRightInverse | fem/bilininteg_vecdivergence.cpp:106-115 | `J adj(J) = det(J) I` for the 3D cofactors |
| Adjugate.ScaledAdj2IsScaledInverse | fem/bilininteg_vecdivergence.cpp:71-75 | a stored block `c adj(J)` times `J` is `c det(J) I` |
| VecDivSetup.Stored2Entries | fem/bilininteg_vecdivergence.cpp:72-74 | the first three stored 2D entries are `cw J22`, `-cw J12` and `-cw J21` with `cw = W[q] COEFF` |
| VecDivSetup.Setup2D | fem/bilininteg_vecdivergence.cpp:50-78 | the 2D setup keeps the size of `op` and leaves every entry past `NQ*4*NE` as it was |
| VecDivSetup.Setup3D | fem/bilininteg_vecdivergence.cpp:81-128 | the 3D setup keeps the size of `op` and leaves every entry past `NQ*9*NE` as it was |
| VecDivSetup.Setup2DStores | fem/bilininteg_vecdivergence.cpp:63-77 | entry `(q, k, e)` of the output is row-major entry `k` of `W[q] COEFF adj(J(q, e))` |
| VecDivSetup.Setup3DStores | fem/bilininteg_vecdivergence.cpp:92-127 | entry `(q, k, e)` of the output is row-major entry `k` of `W[q] COEFF adj(J(q, e))` |
| VecDivSetup.Setup2DBlock | fem/bilininteg_vecdivergence.cpp:63-77 | the 2D block at `(q, e)`, read back as a matrix, is the weighted adjugate, whatever `op` held before |
| VecDivSetup.Setup3DBlock | fem/bilininteg_vecdivergence.cpp:92-127 | the 3D block at `(q, e)` is `W[q] COEFF adj(J(q, e))`, depending on nothing else |
| VecDivSetup.Setup2DIdentity | fem/bilininteg_vecdivergence.cpp:63-77 | with `J = I` and `W[q] COEFF = 1` the 2D setup stores `(1, 0, 0, 1)` |
| VecDivSetup.Setup3DIdentity | fem/bilininteg_vecdivergence.cpp:92-127 | with `J = I` the 3D setup stores `W[q] COEFF I` |
| VecDivSetup.Setup | fem/bilininteg_vecdivergence.cpp:130-162 | dimension 1 aborts and only dimension 1; on a 2D or 3D mesh every `(q, e)` of the output holds `W[q] COEFF adj(J(q, e))` with `NQ = Q1D^dim`; any other dimension returns `op` untouched |
| VecDivSetup.AssemblePA | fem/bilininteg_vecdivergence.cpp:164-193 | fails exactly for a non-byNODES ordering in a debug build, a non-constant coefficient, or dimension 1, with that error; on success `pa_data` has `dims*dims*nq*ne` entries, and they stay stale for a dimension other than 2 and 3 |
| VecDivSetup.AssemblePA2D | fem/bilininteg_vecdivergence.cpp:164-193 | on a 2D mesh with a constant coefficient, assembly succeeds and stores the weighted adjugate at every `(q, e)` |
| VecDivSetup.AssemblePA3D | fem/bilininteg_vecdivergence.cpp:164-193 | on a 3D mesh with a constant coefficient, assembly succeeds and stores the weighted adjugate at every `(q, e)` |
| Tables.Axpy | fem/bilininteg_vecdivergence.cpp:279-283 | `row[i] += v[i] c` updates every entry and nothing else |
| Tables.RankOne | fem/bilininteg_vecdivergence.cpp:285-294 | `m[j][i] += u[i] w[j]` updates every entry of the table |
| Tables.AddRow | fem/bilininteg_vecdivergence.cpp:338-341 | `row[i] += u[i] a + v[i] b` updates every entry and nothing else |
| Tables.RankTwo | fem/bilininteg_vecdivergence.cpp:334-342 | `m[j][i] += u[i] a[j] + v[i] b[j]` updates every entry of the table |
| Tables.FactorisedIsDense | fem/bilininteg_vecdivergence.cpp:268-295 | contracting over one index and then the other (sum factorisation) equals the dense double sum |
| Tables.RowDotsLinear | fem/bilininteg_vecdivergence.cpp:276-284 | the row contraction tables are linear in their first factor |
| Tables.ColDotsLinear | fem/bilininteg_vecdivergence.cpp:285-294 | the column contraction tables are linear in their first factor |
| VecDivApply.ForwardX | fem/bilininteg_vecdivergence.cpp:270-284 | for one `dy`, `gradX[qx]` holds the contractions of row `dy` of `x` with `B` and with `G` |
| VecDivApply.ForwardRow | fem/bilininteg_vecdivergence.cpp:268-295 | after row `dy`, `grad` holds the contractions over rows `0..dy` |
| VecDivApply.Forward | fem/bilininteg_vecdivergence.cpp:259-295 | the first loop nest leaves the two gradient tables of the sum-factorised interpolation |
| VecDivApply.TransformRow | fem/bilininteg_vecdivergence.cpp:297-313 | one quadrature row becomes `(O11 gx + O12 gy, O12 gx + O22 gy)` |
| VecDivApply.Transform | fem/bilininteg_vecdivergence.cpp:297-313 | the whole gradient table is transformed pointwise by the symmetric `op` block |
| VecDivApply.BackX | fem/bilininteg_vecdivergence.cpp:316-333 | for one `qy`, `gradX[dx]` holds the contractions of the transformed row with `Gt` and `Bt` |
| VecDivApply.BackwardRow | fem/bilininteg_vecdivergence.cpp:314-343 | after quadrature row `qy`, the block holds its old values plus the contractions over rows `0..qy` |
| VecDivApply.Backward | fem/bilininteg_vecdivergence.cpp:314-343 | the last loop nest adds the transposed contraction to each entry of the block |
| VecDivApply.ApplyElement | fem/bilininteg_vecdivergence.cpp:251-344 | the element body adds exactly `Contrib(el, dx, dy)` to `y(dx, dy, e)` |
| VecDivApply.ReadAfterWrite | fem/bilininteg_vecdivergence.cpp:334-342 | a block written into element `e`'s slab of `y` reads back as written |
| VecDivApply.WriteAfterRead | fem/bilininteg_vecdivergence.cpp:334-342 | writing back the block just read leaves `y` unchanged, so the `y(dx, dy, e)` view neither loses nor adds entries |
| VecDivApply.SlabWritten | fem/bilininteg_vecdivergence.cpp:340 | writing back a block of read-plus-increment values adds the increment to that element's slab only |
| VecDivApply.ContribAtBlock | fem/bilininteg_vecdivergence.cpp:250 | the increment at the address of `(dx, dy, e)` is element `e`'s contribution |
| VecDivApply.Apply2D | fem/bilininteg_vecdivergence.cpp:228-345 | fails exactly when a resolved size exceeds its ceiling; otherwise adds the element contributions to the `(D1D, D1D, NE)` entries of `y` and leaves the rest of `y` unchanged |
| VecDivDense.GradIsDense | fem/bilininteg_vecdivergence.cpp:259-295 | the sum-factorised gradient at every quadrature point equals the dense sums `Σ x G B` and `Σ x B G` |
| VecDivDense.FluxIsDense | fem/bilininteg_vecdivergence.cpp:296-313 | the transformed gradient equals `[[O11,O12],[O12,O22]]` applied to the dense gradient |
| VecDivDense.ContribIsDense | fem/bilininteg_vecdivergence.cpp:314-343 | what is added to `y(dx, dy, e)` equals the dense sum `Σ (f0 Gt Bt + f1 Bt Gt)` |
| VecDivDense.ContribAtIsDense | fem/bilininteg_vecdivergence.cpp:251-345 | at the address of `(dx, dy, e)` the kernel adds the dense double sum of element `e` |
| VecDivDense.TransformedLinear | fem/bilininteg_vecdivergence.cpp:310-311 | the pointwise transformation is linear in the gradient |
| VecDivDense.GradLinear | fem/bilininteg_vecdivergence.cpp:268-295 | both gradient tables are linear in the element's `x` |
| VecDivDense.FluxLinear | fem/bilininteg_vecdivergence.cpp:296-313 | both transformed gradient tables are linear in `x` |
| VecDivDense.BackLinear | fem/bilininteg_vecdivergence.cpp:314-333 | both tables of the first transposed contraction are linear in `x` |
| VecDivDense.ContribLinear | fem/bilininteg_vecdivergence.cpp:251-344 | an element's contribution for `x1 + c x2` is its contribution for `x1` plus `c` times that for `x2` |
| VecDivDense.ZeroInputContributesNothing | fem/bilininteg_vecdivergence.cpp:251-344 | an element whose `x` block is zero contributes nothing |
| VecDivDense.XViewLinear | fem/bilininteg_vecdivergence.cpp:249 | an entrywise combination of `x` vectors gives the same combination of element views |
| VecDivDense.ApplyLinearInX | fem/bilininteg_vecdivergence.cpp:250-251 | the amount the kernel adds to `y` is linear in `x` at every position |
| VecDivDense.ApplyZeroInput | fem/bilininteg_vecdivergence.cpp:250-251 | with `x = 0` nothing is added, so `y` comes back unchanged |
| VecDivDense.ElementLocal | fem/bilininteg_vecdivergence.cpp:248-249 | element `e`'s view depends only on its own slabs of `op` and `x` |
| VecDivDense.BlockLocal | fem/bilininteg_vecdivergence.cpp:248-250 | block `e` of the result depends only on element `e`'s slabs of `op` and `x` |
| VecDivIntegrator.BitOrShifted | fem/bilininteg_vecdivergence.cpp:383 | or-ing a value below `2^k` into a number shifted by `k` is addition |
| VecDivIntegrator.KeyValue | fem/bilininteg_vecdivergence.cpp:383 | for `Q1D < 16` the key `(D1D << 4) | Q1D` is `16 D1D + Q1D` |
| VecDivIntegrator.KeyInjective | fem/bilininteg_vecdivergence.cpp:383 | for `Q1D < 16` the key determines both sizes |
| VecDivIntegrator.KeyCollision | fem/bilininteg_vecdivergence.cpp:383-385 | sizes `(2, 34)` and `(2, 2)` share the key `0x22` |
| VecDivIntegrator.Dispatch | fem/bilininteg_vecdivergence.cpp:348-441 | aborts exactly for a dimension other than 2 and 3, with the OCCA error on an OCCA device; an OCCA device picks the OCCA kernel; otherwise the kernel matches the dimension |
| VecDivIntegrator.Switch2DKeys | fem/bilininteg_vecdivergence.cpp:383-394 | both 2D switches specialise exactly the keys `0x22..0x99` with equal sizes |
| VecDivIntegrator.Switch3DKeys | fem/bilininteg_vecdivergence.cpp:398-408 | both 3D switches specialise exactly the keys `0x23..0x89`, with `Q1D = D1D + 1` |
| VecDivIntegrator.DiagonalKey | fem/bilininteg_vecdivergence.cpp:385-392 | a key `17n` (or `17n + 1`) with `Q1D < 16` comes only from the sizes `(n, n)` (or `(n, n + 1)`) |
| VecDivIntegrator.Dispatch2D | fem/bilininteg_vecdivergence.cpp:379-395 | away from OCCA and for `Q1D < 16`, 2D specialises exactly `D1D = Q1D` in `2..9`, with the tensor kernel on RAJA CUDA and the shared-memory one otherwise; every other size runs the generic kernel |
| VecDivIntegrator.Dispatch3D | fem/bilininteg_vecdivergence.cpp:396-409 | away from OCCA and for `Q1D < 16`, 3D specialises exactly `Q1D = D1D + 1` with `D1D` in `2..8`; every other size runs the generic 3D kernel |
| VecDivIntegrator.DispatchCollision | fem/bilininteg_vecdivergence.cpp:379-394 | on RAJA CUDA, sizes `(2, 34)` run the kernel compiled for `(2, 2)` |
| VecDivIntegrator.AddMultPA | fem/bilininteg_vecdivergence.cpp:444-450 | dispatch errors and the OCCA stubs fail; unmodelled kernels are named; a modelled 2D kernel fails exactly on its size check and otherwise returns `y` plus the contributions |
| VecDivIntegrator.SameSpaceTransposeIsIdentity | fem/bilininteg_vecdivergence.cpp:447-449 | with one space and `D1D = Q1D`, the kernel's `Bt` and `Gt` are `B` and `G` themselves |
| VecDivIntegrator.ApplyReadsSetupSlot | fem/bilininteg_vecdivergence.cpp:61 | the apply read `op(q, c, e)` lands on slot `(c + 3e) % 4` of element `(c + 3e) / 4` in the setup layout |
| VecDivIntegrator.SlotsAgreeIff | fem/bilininteg_vecdivergence.cpp:248 | the two layouts agree on a read if and only if the element is 0 |
| VecDivIntegrator.ApplyReadsSetup | fem/bilininteg_vecdivergence.cpp:303-305 | fed the setup output, the kernel reads for element `e` a stored entry of element `(c + 3e) / 4` |
| VecDivIntegrator.ElementOpReads | fem/bilininteg_vecdivergence.cpp:303-305 | `O11`, `O12`, `O22` are read at `(qx + qy Q1D, c, e)` of the `(Q1D*Q1D, 3, NE)` view |
| VecDivIntegrator.ApplyReadsSetupFirst | fem/bilininteg_vecdivergence.cpp:303-305 | for element 0 the kernel reads entry `c` of element 0's own stored block |
| VecDivIntegrator.ApplyFirstElementOp | fem/bilininteg_vecdivergence.cpp:303-305 | for element 0 the kernel takes `O11 = cw J22`, `O12 = -cw J12` and `O22 = -cw J21` |
| NavierBdf.Divide | miniapps/fluids/navier_solver.cpp:886 | a quotient is finite exactly when the divisor is nonzero, and then it times the divisor is the dividend |
| NavierBdf.BdfOrder | miniapps/fluids/navier_solver.cpp:877 | the order is the smaller of `step + 1` and the maximum order |
| NavierBdf.SetTimeIntegrationCoefficients | miniapps/fluids/navier_solver.cpp:873-926 | whenever a branch assigns, the backward-difference weights sum to 0 and the extrapolation weights to 1; when none applies, all seven coefficients keep their previous values |
| NavierBdf.BranchSelection | miniapps/fluids/navier_solver.cpp:877-914 | the startup, BDF2, BDF3 and keep branches as conditions on `step` and `max_bdf_order` alone, each an if-and-only-if |
| NavierBdf.StartupIgnoresHistory | miniapps/fluids/navier_solver.cpp:884-903 | at step 0 the coefficients are `bd = (1, -1, 0, 0)` and `ab = (1, 0, 0)`, although `rho1` is computed and is not finite while `dthist[1]` is 0 |
| NavierBdf.Bdf2Consistent | miniapps/fluids/navier_solver.cpp:904-913 | with `rho1 = dt0/dt1`, the BDF2 weights sum to 0, difference a linear function of time to `dt0`, and the EXT2 weights reproduce constants and linear functions |
| NavierBdf.BdSumZero | miniapps/fluids/navier_solver.cpp:916-921 | the BDF3 weights sum to 0 |
| NavierBdf.AbSumOne | miniapps/fluids/navier_solver.cpp:922-924 | the EXT3 weights sum to 1 |
| NavierBdf.Bdf3Sums | miniapps/fluids/navier_solver.cpp:914-925 | for positive ratios the BDF3 weights sum to 0 and the EXT3 weights to 1 |
| NavierBdf.Bdf3Units | miniapps/fluids/navier_solver.cpp:914-925 | the BDF3 and EXT3 weights are exact on linear functions, in units of the oldest step |
| NavierBdf.Bdf3Consistent | miniapps/fluids/navier_solver.cpp:914-925 | with `rho1 = dt0/dt1` and `rho2 = dt1/dt2`, BDF3 differences a linear function to `dt0` and EXT3 extrapolates it exactly |
| NavierBdf.EqualStepsCoefficients | miniapps/fluids/navier_solver.cpp:904-925 | with equal steps the weights are `(3/2, -2, 1/2, 0)`, `(2, -1, 0)` and `(11/6, -3, 3/2, -1/3)`, `(3, -3, 1)` |
| NavierBdf.SetCoefficientsConsistent | miniapps/fluids/navier_solver.cpp:873-926 | whichever branch assigns, the backward difference annihilates constants and gives `dt0` on linear functions; the extrapolation reproduces constants, and linear functions from step 1 on |
| NavierHistory.Setup | miniapps/fluids/navier_solver.cpp:306-307 | `Setup(dt)` records `dt` as the newest time step and changes nothing else |
| NavierHistory.UpdateShifts | miniapps/fluids/navier_solver.cpp:312-330 | each history is a shift register: the new value enters at the front, the oldest is dropped, and nothing else changes |
| NavierHistory.Step | miniapps/fluids/navier_solver.cpp:543-547 | a step uses coefficients from the history as it was before the step, then shifts `dt`, `un_next` and `Nun` into the histories |
| NavierHistory.HistoryAfterSteps | miniapps/fluids/navier_solver.cpp:312-330 | after any number of steps each history holds the newest inputs, newest first, padded with the oldest initial values |
| NavierHistory.LastThreeSteps | miniapps/fluids/navier_solver.cpp:315-317 | once three steps are taken, `dthist` holds exactly the last three step sizes |
| NavierHistory.StepSeesPreviousSizes | miniapps/fluids/navier_solver.cpp:543-547 | as written, the coefficients of a step are exact for the previous step size, not the one being taken |
| NavierHistory.StepSizeChangeExample | miniapps/fluids/navier_solver.cpp:543-547 | a step of 1 followed by a step of 0.5 differences time to 0.25, a derivative of 0.5 instead of 1 |
| NavierHistory.StepWithCurrentSize | miniapps/fluids/navier_solver.cpp:543-547 | the corrected step shifts the histories exactly as `Step` does |
| NavierHistory.CurrentSizeConsistent | miniapps/fluids/navier_solver.cpp:884-925 | with `dt` recorded first, the backward difference over the actual times gives `dt` and the extrapolation hits the new time |
| NavierBc.InitialBoundaries | miniapps/fluids/navier_solver.cpp:27-34 | both markers start with one zero per boundary attribute and no conditions |
| NavierBc.MergeMarker | miniapps/fluids/navier_solver.cpp:815-823 | fails exactly in a debug build when an attribute is nonzero in both; otherwise the result is the merged marker |
| NavierBc.AddVelDirichletBC | miniapps/fluids/navier_solver.cpp:795-824 | appends the condition and merges the velocity marker, leaving the pressure side alone |
| NavierBc.AddPresDirichletBC | miniapps/fluids/navier_solver.cpp:826-852 | appends the condition and merges the pressure marker, leaving the velocity side alone |
| NavierBc.MergeEntries | miniapps/fluids/navier_solver.cpp:819-822 | an entry is 1 afterwards if and only if it was 1 or `attr` has 1 there; entries `attr` does not set are unchanged |
| NavierBc.MergeIsUnion | miniapps/fluids/navier_solver.cpp:815-823 | as sets of attributes, merging is union |
| NavierBc.MergeIdempotent | miniapps/fluids/navier_solver.cpp:815-823 | merging the same `attr` twice equals merging it once |
| NavierBc.MergeCommutes | miniapps/fluids/navier_solver.cpp:815-823 | the order of two merges does not matter |
| NavierBc.SecondAddConflicts | miniapps/fluids/navier_solver.cpp:817-818 | adding a condition again on an attribute it sets is a duplicate definition |
| NavierBc.DisjointAddsAgree | miniapps/fluids/navier_solver.cpp:817-818 | conditions on disjoint attribute sets never conflict |
| NavierCurl.Curl3DIsLeviCivita | miniapps/fluids/navier_solver.cpp:652-654 | the three component formulas are the Levi-Civita curl `Σ eps(i,j,k) du_k/dx_j` |
| NavierCurl.Curl3DZeroIffSymmetric | miniapps/fluids/navier_solver.cpp:652-654 | the curl vanishes if and only if the gradient is symmetric |
| NavierCurl.Curl3DTranspose | miniapps/fluids/navier_solver.cpp:652-654 | transposing the gradient negates the curl |
| NavierCurl.Curl2DVectorIsPlanarCurl | miniapps/fluids/navier_solver.cpp:753-755 | the stored 2D vector curl is the out-of-plane component of the 3D curl of the planar field, with second entry 0 |
| NavierCurl.Curl2DScalarIsRotatedGradient | miniapps/fluids/navier_solver.cpp:747-749 | the scalar 2D curl is the gradient of component 0 turned by a right angle, orthogonal to it and of the same length |
| NavierCurl.ElementValues | miniapps/fluids/navier_solver.cpp:656-659 | `vals(elndofs j + dof)` holds component `j` of the curl at node `dof` |
| NavierCurl.ElementValuesCover | miniapps/fluids/navier_solver.cpp:656-659 | every position of the value vector is written, with the component and node it encodes |
| NavierCurl.AccumulateAndCount | miniapps/fluids/navier_solver.cpp:662-668 | each dof holds the sum of the values the elements gave it and the number of times it was touched |
| NavierCurl.ComputeMeans | miniapps/fluids/navier_solver.cpp:682-690 | each touched dof is divided by its count; an untouched one is left as is |
| NavierCurl.AverageContributions | miniapps/fluids/navier_solver.cpp:662-690 | each dof ends as the mean of its contributions, and an untouched dof as 0 |
| NavierCurl.UntouchedIsZero | miniapps/fluids/navier_solver.cpp:610 | a dof no element touches keeps the initial 0 |
| NavierCurl.MeanOfAgreeingValues | miniapps/fluids/navier_solver.cpp:682-690 | when all elements agree on a dof's value, averaging reproduces that value exactly |
| NavierCurl.ComputeCurl3D | miniapps/fluids/navier_solver.cpp:601-691 | on one rank, every dof of `cu` is the mean of the 3D curls the elements sharing it computed |
| NavierCurl.ComputeCurl2D | miniapps/fluids/navier_solver.cpp:693-793 | on one rank, every dof of `cu` is the mean of the chosen 2D curls |
| NavierOrtho.DifferencesPreserved | miniapps/fluids/navier_solver.cpp:598 | the differences between entries do not change |
| NavierOrtho.SumOfShifted | miniapps/fluids/navier_solver.cpp:598 | the local sum drops by the size times the mean |
| NavierOrtho.SingleRankMeanZero | miniapps/fluids/navier_solver.cpp:588-599 | on a single rank the result sums to zero |
| NavierOrtho.SingleRankIdempotent | miniapps/fluids/navier_solver.cpp:588-599 | on a single rank, removing the mean twice is removing it once |
| NavierOrtho.ShiftedGlobalSum | miniapps/fluids/navier_solver.cpp:595-598 | across ranks the global sum drops by the global size times the mean |
| NavierOrtho.GlobalMeanZero | miniapps/fluids/navier_solver.cpp:588-599 | across any number of ranks the orthogonalized vector sums to zero |
| Complex.UnitRealPartInvertible | examples/ex25.cpp:973-985 | a stretch factor, whose real part is 1, can be divided by |
| Complex.NormSqMul | examples/ex25.cpp:776-779 | the modulus of a product is the product of the moduli |
| Complex.MulInvertible | examples/ex25.cpp:776-779 | a product of invertible factors such as `det` is invertible |
| Complex.DivTimes | examples/ex25.cpp:784 | `(a / b) b = a` |
| Complex.TimesDiv | examples/ex25.cpp:845 | `(c b) / b = c` |
| Complex.ReciprocalQuotients | examples/ex25.cpp:784-845 | `(a / b)(b / a) = 1` |
| Pml.SetBoundaries | examples/ex25.cpp:907-920 | the domain box is the bounding box, and on every axis the layers between it and the computational box have exactly the given widths |
| Pml.CompInsideDomain | examples/ex25.cpp:913-919 | with non-negative widths the computational box lies inside the domain box, and it is non-empty when the widths fit |
| Pml.ScanOutside | examples/ex25.cpp:942-950 | the scan of one vertex finds it in the layer if and only if some coordinate is strictly outside the computational box |
| Pml.SetAttributes | examples/ex25.cpp:922-959 | one entry per element; `elems[e] = 0` if and only if some vertex is in the layer, and the attribute is 2 there and 1 elsewhere |
| Pml.BoundaryDataRecombines | examples/ex25.cpp:720-768 | the real and imaginary data together give the exact solution inside and zero in the layer |
| Pml.StretchAxis | examples/ex25.cpp:971-985 | the factor has real part 1; it is 1 inside the box; otherwise its imaginary part is `coeff` times the distance to the face of the branch that wins |
| Pml.StretchFunction | examples/ex25.cpp:961-987 | one factor per axis, each with real part 1 and invertible |
| Pml.StretchIdentityIffInside | examples/ex25.cpp:971-985 | for an ordered box, the factor is 1 if and only if the coordinate lies in the closed interval |
| Pml.CoefficientNonzero | examples/ex25.cpp:976-982 | `n c / k / length^n` is nonzero |
| Pml.UnstretchedIffInside | examples/ex25.cpp:961-987 | all factors are 1 if and only if the point is not strictly outside the box |
| Pml.StretchDampsOutward | examples/ex25.cpp:971-985 | for `k > 0` and positive widths the imaginary part is non-negative and grows with depth into either layer |
| PmlCoeff.DetInvertible | examples/ex25.cpp:773-779 | the product of invertible stretch factors is invertible |
| PmlCoeff.MassCoefficientScales | examples/ex25.cpp:770-804 | the `_Re` and `_Im` mass coefficients recombine, on each axis, to the number that `dxs[i]^2` scales to `det` |
| PmlCoeff.CoefficientsReciprocal | examples/ex25.cpp:770-873 | away from 2D, the recombined curl-curl coefficient is the reciprocal of the recombined mass coefficient on every axis |
| PmlCoeff.CurlCoefficientInverts2D | examples/ex25.cpp:824-873 | in 2D the single recombined curl-curl entry times `det` is 1 |
| PmlCoeff.JacobianFactorScales | examples/ex25.cpp:784 | the diagonal factor times `dxs[i]^2` is `det` |
| PmlCoeff.FactorsReciprocal | examples/ex25.cpp:784-845 | the two coefficients' diagonal factors are mutually reciprocal |
| PmlCoeff.ScalarFactorInverts | examples/ex25.cpp:838 | the 2D scalar times `det` is 1 |
| PmlCoeff.JacobianFactor2D | examples/ex25.cpp:770-804 | in 2D the diagonal factors are `dxs[1] / dxs[0]` and `dxs[0] / dxs[1]` |
| PmlCoeff.QuotientOfSquare | examples/ex25.cpp:784 | `(b a) / b^2 = a / b` |
| PmlCoeff.UnstretchedCoefficients | examples/ex25.cpp:770-873 | with all factors 1, both real parts are the identity and both imaginary parts zero |
| PmlCoeff.InteriorCoefficients | examples/ex25.cpp:770-873 | at a point not in the layer, both real parts are the identity and both imaginary parts zero |
| Ex25Tables.ProblemOf | examples/ex25.cpp:177-178 | an index of 4 or more is the general problem; a negative index names no problem; every other index names its problem |
| Ex25Tables.ProblemCodeClamps | examples/ex25.cpp:177 | the problem's number is the index clamped to at most 4 |
| Ex25Tables.ProblemOfCode | examples/ex25.cpp:133-140 | every problem is recovered from its own number |
| Ex25Tables.DefaultMesh | examples/ex25.cpp:180-202 | when no mesh file is given, `exact_known` is set if and only if the problem is beam, scatter, lshape or fichera; any other problem falls back to the inline quadrilateral mesh without an exact solution |
| Ex25Tables.LengthTable | examples/ex25.cpp:218-241 | `dim` rows of non-negative widths; the lower widths are nonzero exactly for scatter and the default problem |
| Ex25Tables.LayerSides | examples/ex25.cpp:221-241 | the upper layer exists on every axis for scatter and the default, on the first two or three for lshape and fichera, and on the first for beam |
| Ex25Tables.TableKeepsBoxInside | examples/ex25.cpp:218-242 | with the table's widths the computational box lies inside the domain box on every axis |
| Ex25Tables.MaxIsUpperBound | examples/ex25.cpp:345 | the largest attribute bounds every attribute |
| Ex25Tables.AttributeMarkers | examples/ex25.cpp:341-353 | sized by the largest attribute; `attr` selects exactly attribute 1, and `attrPML` exactly attribute 2 when some attribute exceeds 1 |
| Ex25Tables.MarkersSplitElements | examples/ex25.cpp:341-371 | after marking, an element gets the plain coefficients if and only if it is outside the layer, and the PML ones if and only if it is inside |

## Left out

- OCCA paths: the OCCA setup stubs leave `op` unwritten and the apply stubs abort. The model only names them as dispatch outcomes (`Occa2D`, `Occa3D`), and `AddMultPA` reports the abort.
- The 3D and shared-memory apply kernels are not defined in the modelled file. They appear only as dispatch outcomes (`Delegated`).
- Library collaborators are inputs: `GetGeometricFactors` (the Jacobians `J`), `GetDofToQuad` (`B`, `G`), the integration weights, and the quadrature sizes. `MFEM_FORALL` is a sequential loop over elements.
- VecDivApply.XView: the kernel's three-index access `x(dx, dy, e)` to a four-index view has no defined meaning in the source. Reading it as the first component, at the column-major address with the last index 0, is the model's interpretation.
- VecDivSetup.AssemblePA: requires `pa_data` (`dims*dims*nq*ne` entries) to hold the kernel's writes (`Q1D^dim*dim*dim*ne` entries). This is a caller guarantee from the library, `nq == Q1D^dim` and `dims == dim`, which the source assumes and does not check.
- `MAX_D1D` and `MAX_Q1D` are defined outside the modelled files and are parameters of `Apply2D`.
- VecDivIntegrator.Key: the 32-bit overflow of `D1D << 4` is not modelled, because sizes are small naturals.
- Floating-point rounding, infinities and NaN are not modelled:
  - members whose branch divides require a nonzero divisor;
  - NavierBdf.Divide reports a zero divisor as `NonFinite`.
- Pml.StretchAxis: a zero layer width on the side whose branch runs is excluded by its precondition. The source would produce NaN there, which only happens exactly on the face of a side without a layer.
- Pml.StretchFunction: `k = omega sqrt(epsilon mu)` is a parameter, and `pow(d, 1)`, `pow(l, 2)` and `pow(z, 2)` are written as products.
- The `*_abs` PML coefficients need the complex modulus (a square root) and are left out.
- `maxwell_solution` (Bessel functions, `exp`) and `source` are left out. The exact solution is a parameter of `Pml.BoundaryData`.
- Mesh loading, `GetBoundingBox`, and the `Mesh::SetAttributes` rebuild of the attribute list are library calls. The model takes vertices, elements and the bounding box as inputs, and uses the largest element attribute directly.
- `RestrictedCoefficient` is assumed to enable a coefficient on attribute `a` when `marker[a-1] == 1` (`Ex25Tables.Selects`).
- Assembly, the linear solvers (CG, AMG, GMRES, UMFPack), GLVis sockets, printing, timers and file output are left out.
- The body of `ProvisionalStep` (form assembly and solves) is left out. Its results `un_next` and `Nun` are inputs of `NavierHistory.Step`.
- `un_gf.SetFromTrueDofs` is left out: the model keeps true-dof vectors only.
- `MeanZero` and `ComputeCFL` need integration, `sqrt` and MPI, and are left out.
- `Orthogonalize`: the two `MPI_Allreduce` sums are modelled as sums over an explicit sequence of rank-local vectors. When no rank holds an entry, the source's `0 / 0` touches no entry, and the model subtracts nothing.
- NavierCurl.ComputeCurl3D: the group reductions of `ComputeCurl2D/3D` are not modelled, and the model is the single-rank case. The gradients (from `CalcDShape` and `InverseJacobian`) are inputs.
- NavierCurl.ComputeCurl2D: the model assumes each element has as many value slots as curl components times nodes (`vdim` equal to the curl size), as the source's `vals` indexing needs.
- NavierBc.MergeMarker: requires `attr` to be no longer than the marker, since the source indexes the marker with the positions of `attr`.
- The floating-point `pow(r, 2.0)` and `pow(r, 3.0)` of the BDF3 formulas are written as products.

## Findings

| source | as written | input that shows it | evidently intended | confidence | as-written member | corrected member |
|---|---|---|---|---|---|---|
| miniapps/fluids/navier_solver.cpp:543-547 | `Step` computes the BDF/EXT coefficients in `ProvisionalStep` from `dthist` before `UpdateTimestepHistory(dt)` records the current step, so `rho1 = dthist[0]/dthist[1]` is the ratio of the two previous steps | `Setup(1.0)`, a step of 1, then a step of 0.5: the second step uses the equal-step BDF2 weights, and their backward difference of `t` over the times 0, 1, 1.5 is 0.25, so `bd/dt` gives 0.5 instead of 1 | the current `dt` enters the ratio, `rho1 = dt / dt_prev`, so the weights differentiate exactly over the actual step sizes | medium, not executed | NavierHistory.StepSizeChangeExample | NavierHistory.StepWithCurrentSize |
