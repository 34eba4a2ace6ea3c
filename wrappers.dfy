/** Option and Result, the two failure-compatible wrappers the model uses for Ruby's
    `nil` and for raised exceptions. */
module Wrappers {

  /** A value or Ruby's `nil`. */
  datatype Option<+T> = None | Some(value: T) {

    /** `x || default`, the value of Ruby's `x ||= default` */
    function GetOr(default: T): T {
      match this
      case Some(v) => v
      case None => default
    }
  }

  /** A value, or the exception that the source would raise instead. */
  datatype Result<+T, +E> = Ok(value: T) | Err(error: E) {

    predicate IsFailure() {
      Err?
    }

    function PropagateFailure<U>(): Result<U, E>
      requires Err?
    {
      Err(error)
    }

    function Extract(): T
      requires Ok?
    {
      value
    }
  }
}
