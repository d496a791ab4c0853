/** The two failure-compatible datatypes the other modules return. */
module Wrappers {

  datatype Option<+T> = None | Some(value: T)

  /** What a source function returns, or the exception it throws. */
  datatype Result<+T, +E> = Ok(value: T) | Err(error: E) {
    predicate IsFailure() {
      Err?
    }

    function PropagateFailure<U>(): Result<U, E>
      requires Err?
    {
      Err(error)
    }

    function Extract(): T
      requires Ok?
    {
      value
    }
  }

  /** The exception, if there is one. */
  function ErrorOf<T, E>(r: Result<T, E>): Option<E> {
    if r.Err? then Some(r.error) else None
  }
}
