/** Results of computations that may be absent or may fail. */
module Wrappers {

  datatype Option<+T> = None | Some(value: T)

  function ValueOr0(v: Option<real>): real {
    match v
    case None => 0.0
    case Some(x) => x
  }

  datatype Result<+T, +E> = Success(value: T) | Failure(error: E) {
    predicate IsFailure() {
      Failure?
    }

    function PropagateFailure<U>(): Result<U, E>
      requires Failure?
    {
      Failure(error)
    }

    function Extract(): T
      requires Success?
    {
      value
    }
  }
}
