/** The optional values the reporter reads from JSON or from the runner (a property that may be absent). */
module Wrappers {

  datatype Option<+T> = None | Some(value: T) {

    /** The value, or `default` when it is absent: JavaScript's `x || default` for a present, truthy x. */
    function GetOr(default: T): T {
      match this
      case Some(v) => v
      case None => default
    }
  }
}
