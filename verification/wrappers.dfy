/** Failure-carrying values used throughout the model: an optional value
    (Go's nil pointer or nil interface) and a value-or-error pair (Go's
    `(T, error)` return convention). */
module Wrappers {

  /** An optional value; `None` also serves as the failure of a reader, so
      that readers can be chained with `:-`. */
  datatype Option<+T> = None | Some(value: T) {

    predicate IsFailure() {
      None?
    }

    function PropagateFailure<U>(): Option<U>
      requires None?
    {
      None
    }

    function Extract(): T
      requires Some?
    {
      value
    }
  }

  datatype Result<+T, +E> = Success(value: T) | Failure(error: E)
}
