/** Absent-or-present values: `None` stands for Python's `None` and pandas' missing values. */
module Wrappers {

  datatype Option<+T> = None | Some(value: T) {

    /** The present value, or `default` (Python's `d.get(key, default)`). */
    function GetOr(default: T): (r: T)
      ensures Some? ==> r == value
      ensures None? ==> r == default
    {
      match this
      case Some(v) => v
      case None => default
    }
  }

  /** A value, or the failure a Python call would have raised. */
  datatype Result<+T> = Ok(value: T) | Failure(error: string)
}
