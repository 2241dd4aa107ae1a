/** Optional values, and results of operations that may raise. */
module Outcomes {
  datatype Option<+T> = None | Some(value: T)

  datatype Failure = ValueError | IndexError | KeyError | RuntimeError

  datatype Outcome<+T> = Ok(value: T) | Raised(failure: Failure) {
    predicate IsFailure() { Raised? }

    function PropagateFailure<U>(): Outcome<U>
      requires Raised?
    {
      Raised(failure)
    }

    function Extract(): T
      requires Ok?
    {
      value
    }
  }
}
