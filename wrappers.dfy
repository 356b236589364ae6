/** Option and Result: a missing cell, and an operation that can raise. */
module Wrappers {

  /** A cell that may be missing (pandas NaN / NaT / None). */
  datatype Option<+T> = None | Some(value: T) {
    /** The value, or `default` when missing: pandas `fillna(default)` on one cell. */
    function GetOr(default: T): T {
      match this
      case Some(v) => v
      case None => default
    }
  }

  /** The outcome of an operation that either succeeds or raises an error. */
  datatype Result<+R, +E> = Success(value: R) | Failure(error: E)
}
