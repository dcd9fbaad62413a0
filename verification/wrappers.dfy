/** Failure-compatible wrappers used throughout the model: an absent value
    (Kotlin `null`) and a value-or-exception outcome. */
module Wrappers {

  /** A value that may be missing; stands for a nullable Kotlin reference. */
  datatype Option<+T> = None | Some(value: T) {
    predicate IsFailure() {
      None?
    }

    function PropagateFailure<U>(): Option<U>
      requires None?
    {
      None
    }

    function Extract(): T
      requires Some?
    {
      value
    }
  }

  /** Either a result or the exception the operation raised. */
  datatype Result<+R, +E> = Success(value: R) | Failure(error: E) {
    predicate IsFailure() {
      Failure?
    }

    function PropagateFailure<U>(): Result<U, E>
      requires Failure?
    {
      Failure(error)
    }

    function Extract(): R
      requires Success?
    {
      value
    }
  }

  /** The two exception kinds the core raises to its callers. */
  datatype Exception = IllegalArgument | IllegalState
}
