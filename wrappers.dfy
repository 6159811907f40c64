/** Option and Result, with the few Rust combinators the checker uses:
    `Option::filter` and `Option::ok_or`, and `?` on a `Result` (Dafny's `:-`). */
module Wrappers {

  datatype Option<T> = None | Some(value: T) {

    /** `Option::filter`: keeps a `Some` whose value satisfies `p`. */
    function Filter(p: T -> bool): Option<T> {
      if Some? && p(value) then this else None
    }

    /** `Option::ok_or`: `Some(v)` becomes `Ok(v)`, `None` becomes `Err(e)`. */
    function OkOr<E>(e: E): Result<T, E> {
      match this
      case Some(v) => Ok(v)
      case None => Err(e)
    }
  }

  datatype Result<T, E> = Ok(value: T) | Err(error: E) {

    predicate IsFailure() {
      Err?
    }

    function PropagateFailure<U>(): Result<U, E>
      requires Err?
    {
      Err(error)
    }

    function Extract(): T
      requires Ok?
    {
      value
    }
  }
}
