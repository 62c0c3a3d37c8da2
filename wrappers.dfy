/** Option and Result, the two failure-compatible wrappers the model uses for
    JavaScript's `undefined` and for exceptions caught by a promise chain. */
module Wrappers {

  /** `None` stands for JavaScript's `undefined` (or a missing value). */
  datatype Option<+T> = None | Some(value: T) {
    function GetOr(default: T): T {
      match this
      case Some(v) => v
      case None => default
    }
  }

  /** `Err` carries what a `throw` inside a promise chain would carry. */
  datatype Result<+T, +E> = Ok(value: T) | Err(error: E) {
    predicate IsFailure() {
      Err?
    }

    function PropagateFailure<U>(): Result<U, E>
      requires Err?
    {
      Err(error)
    }

    function Extract(): T
      requires Ok?
    {
      value
    }
  }
}
