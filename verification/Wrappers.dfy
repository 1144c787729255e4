/** Result carriers and other small things shared by the other modules. */
module Wrappers {

  datatype Option<+T> = None | Some(value: T) {

    function ToResult<E>(error: E): Result<T, E> {
      match this
      case Some(v) => Ok(v)
      case None => Err(error)
    }
  }

  datatype Result<+T, +E> = Ok(value: T) | Err(error: E) {

    predicate IsFailure() {
      Err?
    }

    function PropagateFailure<U>(): Result<U, E>
      requires Err?
    {
      Err(error)
    }

    function Extract(): T
      requires Ok?
    {
      value
    }
  }

  function Bit(b: bool): nat {
    if b then 1 else 0
  }
}
