/** Option and Result, the two failure-carrying shapes every operation of the model returns. */
module Wrappers {

  datatype Option<+T> = None | Some(value: T)

  /** A Rust `Result`: a value or an error. */
  datatype Result<+R, +E> = Success(value: R) | Failure(error: E) {
    predicate IsFailure() { Failure? }

    function PropagateFailure<U>(): Result<U, E>
      requires Failure?
    {
      Failure(error)
    }

    function Extract(): R
      requires Success?
    {
      value
    }
  }

  /** `opt.or(other)`: the value of `opt` when it has one, `other` otherwise. */
  function OrElse<T>(opt: Option<T>, other: Option<T>): (r: Option<T>)
    ensures opt.Some? ==> r == opt
    ensures opt.None? ==> r == other
  {
    if opt.Some? then opt else other
  }
}
