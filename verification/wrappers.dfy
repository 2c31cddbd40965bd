/** Optional values and results with an error branch, used wherever the
    timetable code works with `undefined`, a failed lookup or an error path. */
module Wrappers {

  /** A value that may be absent: JavaScript's `undefined` for an optional field
      or the result of `Array.prototype.find` that matched nothing. */
  datatype Option<T> = None | Some(value: T) {
    function UnwrapOr(default: T): T {
      match this
      case Some(v) => v
      case None => default
    }
  }

  /** The outcome of an operation that either succeeds with a value or is
      refused with an error description. */
  datatype Result<T, E> = Success(value: T) | Failure(error: E) {
    predicate IsFailure() {
      Failure?
    }
  }
}
