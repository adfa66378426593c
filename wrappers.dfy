/** Option and Result values shared by the models. A Python exception raised
    by the modelled code (a failed `assert`, an IndexError, a ValueError)
    becomes an `Err` carrying the reason, never a precondition. */
module Wrappers {

  datatype Option<+T> = None | Some(value: T)

  datatype Result<+T, +E> = Ok(value: T) | Err(error: E) {

    predicate IsFailure() {
      Err?
    }

    function PropagateFailure<U>(): Result<U, E>
      requires Err?
    {
      Err(error)
    }

    function Extract(): T
      requires Ok?
    {
      value
    }
  }
}
