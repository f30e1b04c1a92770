/** The error-carrying result shared by the four solvers.

    The Rust programs abort (a `panic!`, an `unwrap` or `expect` on a failed
    parse, an index out of bounds, a debug-build arithmetic overflow) whenever
    their input is not what they expect.  Every such abort is modelled here as
    a `Failure` value, so that each error path is explicit in the model. */
module Results {

  datatype Result<+T, +E> = Success(value: T) | Failure(error: E) {

    predicate IsFailure() {
      Failure?
    }

    function PropagateFailure<U>(): Result<U, E>
      requires Failure?
    {
      Failure(error)
    }

    function Extract(): T
      requires Success?
    {
      value
    }
  }

  datatype Option<+T> = None | Some(value: T)
}
