/** Mean removal of the Navier solver (`NavierSolver::Orthogonalize`,
    miniapps/fluids/navier_solver.cpp): every entry of the rank-local vector
    is shifted by the global mean. The two `MPI_Allreduce` sums are modelled
    explicitly over a sequence of rank-local vectors. */
module NavierOrtho {

  function Sum(v: seq<real>): real {
    if |v| == 0 then 0.0 else Sum(v[..|v| - 1]) + v[|v| - 1]
  }

  /** The global mean `global_sum / global_size`; with no entries anywhere
      no rank has anything to shift. */
  function Mean(globalSum: real, globalSize: nat): real {
    if globalSize == 0 then 0.0 else globalSum / globalSize as real
  }

  /** `v -= global_sum / global_size` on one rank, given the two reductions. */
  function Orthogonalize(v: seq<real>, globalSum: real, globalSize: nat): (r: seq<real>)
    ensures |r| == |v|
    ensures forall i :: 0 <= i < |v| ==> v[i] - r[i] == Mean(globalSum, globalSize)
  {
    seq(|v|, i requires 0 <= i < |v| => v[i] - Mean(globalSum, globalSize))
  }

  /** Subtracting the same constant from every entry preserves all differences. */
  lemma DifferencesPreserved(v: seq<real>, globalSum: real, globalSize: nat, i: int, j: int)
    requires 0 <= i < |v| && 0 <= j < |v|
    ensures var r := Orthogonalize(v, globalSum, globalSize); r[i] - r[j] == v[i] - v[j]
  {
  }

  /** `n` copies of `c`. */
  function Times(n: nat, c: real): real {
    n as real * c
  }

  /** Shifting every entry by `c` shifts the sum by `|v| c`. */
  lemma {:induction false} SumOfShifted(v: seq<real>, s: real, n: nat)
    ensures Sum(Orthogonalize(v, s, n)) == Sum(v) - Times(|v|, Mean(s, n))
    decreases |v|
  {
    if |v| > 0 {
      var w := v[..|v| - 1];
      var r := Orthogonalize(v, s, n);
      assert r[..|v| - 1] == Orthogonalize(w, s, n);
      SumOfShifted(w, s, n);
      assert Times(|v|, Mean(s, n)) == Times(|w|, Mean(s, n)) + Mean(s, n);
    }
  }

  /** On a single rank (the reductions return the local sum and size) the
      result sums to zero. */
  lemma SingleRankMeanZero(v: seq<real>)
    ensures Sum(Orthogonalize(v, Sum(v), |v|)) == 0.0
  {
    SumOfShifted(v, Sum(v), |v|);
    if |v| > 0 {
      TimesMean(|v|, Sum(v));
    }
  }

  /** `n` copies of the mean of a total over `n` entries give the total back. */
  lemma TimesMean(n: nat, s: real)
    requires n > 0
    ensures Times(n, Mean(s, n)) == s
  {
    var m := n as real;
    assert Mean(s, n) == s / m;
    assert m * (s / m) == s;
  }

  /** Removing the mean twice is removing it once (on a single rank). */
  lemma SingleRankIdempotent(v: seq<real>)
    ensures var r := Orthogonalize(v, Sum(v), |v|); Orthogonalize(r, Sum(r), |r|) == r
  {
    var r := Orthogonalize(v, Sum(v), |v|);
    SingleRankMeanZero(v);
    assert Mean(Sum(r), |r|) == 0.0;
  }

  // ---- Several ranks.

  /** `MPI_Allreduce` of the local sums. */
  function GlobalSum(parts: seq<seq<real>>): real {
    if |parts| == 0 then 0.0 else GlobalSum(parts[..|parts| - 1]) + Sum(parts[|parts| - 1])
  }

  /** `MPI_Allreduce` of the local sizes. */
  function GlobalSize(parts: seq<seq<real>>): nat {
    if |parts| == 0 then 0 else GlobalSize(parts[..|parts| - 1]) + |parts[|parts| - 1]|
  }

  /** Every rank removes the same global mean. */
  function OrthogonalizeAll(parts: seq<seq<real>>): (r: seq<seq<real>>)
    ensures |r| == |parts|
  {
    var s, n := GlobalSum(parts), GlobalSize(parts);
    seq(|parts|, k requires 0 <= k < |parts| => Orthogonalize(parts[k], s, n))
  }

  /** When every rank subtracts the mean of `s` over `n` entries, the global
      sum drops by that mean once per entry held anywhere. */
  lemma {:induction false} ShiftedGlobalSum(parts: seq<seq<real>>, s: real, n: nat)
    ensures GlobalSum(seq(|parts|, k requires 0 <= k < |parts| => Orthogonalize(parts[k], s, n)))
            == GlobalSum(parts) - Times(GlobalSize(parts), Mean(s, n))
    decreases |parts|
  {
    if |parts| > 0 {
      var init := parts[..|parts| - 1];
      var last := parts[|parts| - 1];
      var shifted := seq(|parts|, k requires 0 <= k < |parts| => Orthogonalize(parts[k], s, n));
      assert shifted[..|parts| - 1] == seq(|init|, k requires 0 <= k < |init| => Orthogonalize(init[k], s, n));
      ShiftedGlobalSum(init, s, n);
      SumOfShifted(last, s, n);
      assert Times(GlobalSize(parts), Mean(s, n))
          == Times(GlobalSize(init), Mean(s, n)) + Times(|last|, Mean(s, n));
    }
  }

  /** Across all ranks the orthogonalized vector sums to zero. */
  lemma GlobalMeanZero(parts: seq<seq<real>>)
    ensures GlobalSum(OrthogonalizeAll(parts)) == 0.0
  {
    var s, n := GlobalSum(parts), GlobalSize(parts);
    ShiftedGlobalSum(parts, s, n);
    assert OrthogonalizeAll(parts) == seq(|parts|, k requires 0 <= k < |parts| => Orthogonalize(parts[k], s, n));
    if n > 0 {
      TimesMean(n, s);
    } else {
      NoEntriesNoSum(parts);
    }
  }

  lemma {:induction false} NoEntriesNoSum(parts: seq<seq<real>>)
    requires GlobalSize(parts) == 0
    ensures GlobalSum(parts) == 0.0
    decreases |parts|
  {
    if |parts| > 0 {
      NoEntriesNoSum(parts[..|parts| - 1]);
      assert parts[|parts| - 1] == [];
    }
  }
}
