/** The optional value that the C code expresses with an address that may be NULL. */
module Opt {

  datatype Option<+T> = None | Some(value: T) {

    /** The value, or `default` where the C code finds NULL. */
    function GetOr(default: T): T {
      match this
      case Some(v) => v
      case None => default
    }
  }
}
