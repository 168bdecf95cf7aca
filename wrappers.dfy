/** Option and Result: absent values and Python exceptions as data. */
module Wrappers {

  datatype Option<+T> = None | Some(value: T)

  /** A computation that either returns a value or raises `error`. */
  datatype Result<+T, +E> = Ok(value: T) | Err(error: E) {

    predicate IsFailure() {
      Err?
    }

    function PropagateFailure<U>(): Result<U, E>
      requires Err?
    {
      Err(error)
    }

    function Extract(): T
      requires Ok?
    {
      value
    }
  }
}
