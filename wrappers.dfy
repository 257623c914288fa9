/** Optional values, used for regex matches that may fail and for JSON fields that may be absent. */
module Wrappers {

  datatype Option<+T> = None | Some(value: T) {

    /** The value held, or the given default when there is none. */
    function GetOr(default: T): T {
      match this
      case Some(v) => v
      case None => default
    }
  }
}
