/** Optional values: JavaScript's `undefined`/`null`, an absent query
    parameter, a missing body field or a value that is not a list. */
module Wrappers {

  datatype Option<+T> = None | Some(value: T) {

    /** The value, or `default` when absent (JavaScript's `x ?? default`). */
    function GetOr(default: T): T {
      match this
      case Some(v) => v
      case None => default
    }
  }
}
