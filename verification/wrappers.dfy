/** Option and Result, shaped after Rust's `Option` and `Result`, with the two
    `Option` combinators the classifier chains (`and_then`, `filter`). */
module Wrappers {

  datatype Option<+T> = None | Some(value: T) {

    /** `Option::and_then`: feeds the value, if any, to `f`. */
    function AndThen<U>(f: T -> Option<U>): Option<U>
    {
      match this
      case None => None
      case Some(v) => f(v)
    }

    /** `Option::filter`: keeps the value only when it satisfies `p`. */
    function Filter(p: T -> bool): Option<T>
    {
      match this
      case Some(v) => if p(v) then this else None
      case None => None
    }
  }

  /** A failure-compatible result, so that `:-` plays the part of Rust's `?`. */
  datatype Result<+T, +E> = Ok(value: T) | Err(error: E) {

    predicate IsFailure() {
      Err?
    }

    function PropagateFailure<U>(): Result<U, E>
      requires Err?
    {
      Err(error)
    }

    function Extract(): T
      requires Ok?
    {
      value
    }
  }
}
