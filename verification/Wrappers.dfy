/** Optional values and results, shared by every module. */
module Wrappers {
  datatype Option<+T> = None | Some(value: T)

  datatype Either<+T, +E> = Ok(value: T) | Err(error: E) {
    predicate IsFailure() { Err? }
    function PropagateFailure<U>(): Either<U, E>
      requires Err?
    {
      Err(error)
    }
    function Extract(): T
      requires Ok?
    {
      value
    }
  }
}
