/** The optional value shared by every component model. */
module Wrappers {

  /** A value that may be absent: a missing dictionary key, a free lock, a regular
      expression without a match. */
  datatype Option<+T> = None | Some(value: T) {

    function GetOr(default: T): T {
      if Some? then value else default
    }
  }
}
