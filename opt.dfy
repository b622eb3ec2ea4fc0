/** Optional values: a query parameter or header that may be absent. */
module Opt {

  datatype Option<T> = None | Some(value: T) {

    /** The carried value, or `default` when absent (Python's `dict.get(key, default)`). */
    function GetOr(default: T): T {
      match this
      case Some(v) => v
      case None => default
    }
  }
}
