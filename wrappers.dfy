/** An optional value used across the model. */
module Wrappers {

  /** A value that may be missing: Python's `None`, or pandas' NaN cell. */
  datatype Option<+T> = None | Some(value: T) {

    /** The wrapped value, or `default` when missing (`dict.get(key, default)`). */
    function GetOr(default: T): T {
      match this
      case Some(v) => v
      case None => default
    }
  }
}
