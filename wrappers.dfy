/** Option and Result: the model's rendering of Python's `None` results and raised errors. */
module Wrappers {

  datatype Option<+T> = None | Some(value: T)

  datatype Result<+T, +E> = Success(value: T) | Failure(error: E)

  /** The first of two alternatives that succeeded: the shape of a regex alternation. */
  function OrElse<T>(first: Option<T>, second: Option<T>): (r: Option<T>)
    ensures r.Some? <==> first.Some? || second.Some?
    ensures first.Some? ==> r == first
    ensures first.None? ==> r == second
  {
    if first.Some? then first else second
  }
}
