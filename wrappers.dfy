/** Optional values: a field that may be absent (`undefined`) in the dashboard's records,
    or a search (`Array.prototype.find`) that may come back empty. */
module Wrappers {

  datatype Option<+T> = None | Some(value: T) {

    /** The value, or `default` when absent (the `x ?? d` idiom). */
    function GetOr(default: T): T {
      match this
      case Some(v) => v
      case None => default
    }
  }
}
