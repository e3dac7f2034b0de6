/** Failure-compatible result type shared by the kernels, the Navier
    bookkeeping and the PML example. A `Failure` stands for a fatal
    `MFEM_ABORT`, `MFEM_VERIFY` or (debug build) `MFEM_ASSERT`. */
module Wrappers {

  datatype Result<+R, +E> = Success(value: R) | Failure(error: E) {

    predicate IsFailure() {
      Failure?
    }

    function PropagateFailure<U>(): Result<U, E>
      requires Failure?
    {
      Failure(error)
    }

    function Extract(): R
      requires Success?
    {
      value
    }
  }
}
