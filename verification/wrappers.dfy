/** Optional values, results with an error, and pass/fail outcomes, as plain datatypes used throughout the model. */
module Wrappers {

  /** A value that may be missing: pandas' NaN/NaT/None for a cell, or an absent key. */
  datatype Option<+T> = None | Some(value: T) {

    /** The wrapped value, or `default` when there is none. */
    function GetOr(default: T): T {
      match this
      case Some(v) => v
      case None => default
    }
  }

  /** The outcome of an operation that either produces a value or raises. */
  datatype Result<+R, +E> = Success(value: R) | Failure(error: E)

  /** The outcome of a check that produces no value but may raise. */
  datatype Outcome<+E> = Pass | Fail(error: E)
}
