/** The optional value used wherever the source has `T | undefined` or an absent object key. */
module Wrappers {

  datatype Option<+T> = None | Some(value: T) {

    /** The carried value, or `default` when absent (the source's `x || default` on objects and arrays). */
    function GetOr(default: T): T {
      match this
      case Some(v) => v
      case None => default
    }
  }
}
