/** Optional values and error-or-value results used throughout the model. */
module Wrappers {
  /** A value that may be absent; stands for a NaN sentinel or a `nullptr`. */
  datatype Option<T> = None | Some(value: T)

  /** The outcome of an operation that the source can abort (an exception or a null return). */
  datatype Result<T, E> = Ok(value: T) | Err(error: E) {
    predicate IsFailure() {
      Err?
    }

    function PropagateFailure<U>(): Result<U, E>
      requires Err?
    {
      Err(error)
    }

    function Extract(): T
      requires Ok?
    {
      value
    }
  }
}
