/** Optional values and results with an error, the model's stand-ins for Go's
    nil pointers and `(value, error)` pairs. */
module Wrappers {

  /** `None` plays Go's nil. */
  datatype Option<+T> = None | Some(value: T)

  /** `Err` plays a non-nil Go `error`; usable with `:-`. */
  datatype Result<+T, +E> = Ok(value: T) | Err(error: E) {
    predicate IsFailure() {
      Err?
    }

    function PropagateFailure<U>(): Result<U, E>
      requires Err?
    {
      Err(error)
    }

    function Extract(): T
      requires Ok?
    {
      value
    }
  }
}
