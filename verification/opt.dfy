/**
  Optional values and results, standing in for JavaScript's `undefined`/`null`
  returns and for rejected promises.
 */
module Opt {

  /** A value that may be absent (`undefined` in the source). */
  datatype Option<+T> = None | Some(value: T) {

    /** The value, or `default` when absent: JavaScript's `x || default` on objects. */
    function GetOr(default: T): T {
      match this
      case Some(v) => v
      case None => default
    }
  }

  /** The outcome of an operation that may be rejected with an error. */
  datatype Result<+T, +E> = Success(value: T) | Failure(error: E)
}
