/** Failure-compatible result types shared by every module of the model. */
module Wrappers {

  /** The conventional optional value. */
  datatype Option<+T> = None | Some(value: T)

  /** A value or an error; usable with `:-`, as Rust's `?` operator is. */
  datatype Result<+T, +E> = Ok(value: T) | Err(error: E) {

    predicate IsFailure() {
      Err?
    }

    function PropagateFailure<U>(): Result<U, E>
      requires Err?
    {
      Err(error)
    }

    function Extract(): T
      requires Ok?
    {
      value
    }
  }
}
