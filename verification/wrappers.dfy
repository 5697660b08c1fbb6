/** Optional values, shared by the other modules. */
module Wrappers {

  /** A value that may be absent: Go's `(v, ok)` pairs and JSON fields that are missing or not a string. */
  datatype Option<+T> = None | Some(value: T) {

    /** The value, or `default` when there is none. */
    function GetOr(default: T): T
    {
      match this
      case Some(v) => v
      case None => default
    }
  }
}
