/** Optional values: a JavaScript value that may be `undefined` or `null`. */
module Wrappers {
  datatype Option<+T> = None | Some(value: T) {
    /** The `??` operator: the value when present, otherwise the fallback. */
    function GetOr(fallback: T): T {
      match this
      case Some(v) => v
      case None => fallback
    }
  }
}
