/** Optional values: a JavaScript `undefined`/`null` on one side, a value on the other. */
module Wrappers {

  datatype Option<+T> = None | Some(value: T) {

    /** The value, or `default` when there is none (the `x ?? d` idiom). */
    function GetOr(default: T): T {
      match this
      case Some(v) => v
      case None => default
    }
  }
}
