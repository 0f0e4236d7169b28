/** Optional values, standing for Python's `Optional[...]` and `None`. */
module Wrappers {

  datatype Option<+T> = None | Some(value: T) {

    /** The value when present, otherwise `default`. */
    function GetOr(default: T): T {
      match this
      case Some(v) => v
      case None => default
    }
  }
}
