/** Option and Result: the shapes that Python's `None`/NaN and a raised `ValueError`
    take in this model. */
module Wrappers {

  /** A value that may be missing (`None`, NaN or NaT on the Python side). */
  datatype Option<+T> = None | Some(value: T) {

    /** The value, or `default` when it is missing (pandas' `fillna`). */
    function GetOr(default: T): T {
      match this
      case Some(v) => v
      case None => default
    }
  }

  /** The outcome of a call that either returns a value or raises an error. */
  datatype Result<+R, +E> = Success(value: R) | Failure(error: E)
}
