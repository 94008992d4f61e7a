/** Failure-compatible result types shared by the configuration and the
    pipeline models. Python's `None` and raised exceptions are modelled with
    these instead of preconditions. */
module Wrappers {

  datatype Option<+T> = None | Some(value: T)

  /** Success carries the value an operation returns; Failure carries the
      exception it raises. Usable with `:-`. */
  datatype Result<+R, +E> = Success(value: R) | Failure(error: E) {

    predicate IsFailure() {
      Failure?
    }

    function PropagateFailure<U>(): (r: Result<U, E>)
      requires Failure?
    {
      Failure(error)
    }

    function Extract(): (r: R)
      requires Success?
    {
      value
    }
  }
}
