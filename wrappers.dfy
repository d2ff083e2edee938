/** Option and Result, the two failure-carrying shapes the encoder uses. */
module Wrappers {

  /** A value that may be absent: an optional field of the serialised record. */
  datatype Option<+T> = None | Some(value: T)

  /** The outcome of a step that can fail; usable with `:-`. */
  datatype Result<+T, +E> = Ok(value: T) | Err(error: E) {

    predicate IsFailure() {
      Err?
    }

    function PropagateFailure<U>(): Result<U, E>
      requires Err?
    {
      Err(error)
    }

    function Extract(): T
      requires Ok?
    {
      value
    }
  }
}
