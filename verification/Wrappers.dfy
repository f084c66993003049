/** Absent values and typed failures, used by every other module. */
module Wrappers {

  datatype Option<+T> = None | Some(value: T)

  /** A computed value, or the typed error that stopped the computation. */
  datatype Result<+T, +E> = Success(value: T) | Failure(error: E) {

    predicate IsFailure() {
      Failure?
    }

    function PropagateFailure<U>(): Result<U, E>
      requires Failure?
    {
      Failure(error)
    }

    function GetOr(otherwise: T): T {
      if Success? then value else otherwise
    }

    function Extract(): T
      requires Success?
    {
      value
    }
  }
}
