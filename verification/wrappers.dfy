/** The optional value used wherever the Go code has a nil-able value
    (a nil error, a nil header map, a nil event handler). */
module Wrappers {

  datatype Option<+T> = None | Some(value: T) {

    /** The value held, or `default` when there is none. */
    function GetOr(default: T): T {
      match this
      case Some(v) => v
      case None => default
    }
  }
}
