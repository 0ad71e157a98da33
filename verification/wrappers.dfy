/** The optional value used wherever the program reads something that may be
    missing: a query parameter, a header, a cookie or an environment variable. */
module Wrappers {

  datatype Option<+T> = None | Some(value: T) {

    /** Returns the value held in Some, or `default` when None. */
    function GetOr(default: T): T {
      match this
      case Some(v) => v
      case None => default
    }
  }
}
