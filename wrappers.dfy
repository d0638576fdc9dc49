/** Option and Result, used for the null cells and the errors of the call analysis. */
module Wrappers {

  /** A value that may be missing: `None` stands for a null (NaN or NaT) cell. */
  datatype Option<+T> = None | Some(value: T) {

    /** The value, or `default` when it is missing (pandas `fillna`). */
    function GetOr(default: T): T
    {
      match this
      case Some(v) => v
      case None => default
    }
  }

  /** Either a computed value or the error that stops the script. */
  datatype Result<+R, +E> = Success(value: R) | Failure(error: E)
}
