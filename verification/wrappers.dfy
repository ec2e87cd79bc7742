/** Failure-compatible result types shared by every view of the model. */
module Wrappers {

  /** An optional value: a nullable column, an absent request parameter. */
  datatype Option<+T> = None | Some(value: T)

  /** The outcome of a view: a value, or the error the view answers with. */
  datatype Result<+T, +E> = Ok(value: T) | Err(error: E) {

    predicate IsFailure() {
      Err?
    }

    function PropagateFailure<U>(): Result<U, E>
      requires Err?
    {
      Err(error)
    }

    function Extract(): T
      requires Ok?
    {
      value
    }
  }
}
