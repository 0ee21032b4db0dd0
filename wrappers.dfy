/** Option, the value-or-nothing wrapper used for nullable columns and JavaScript `null`. */
module Wrappers {

  datatype Option<+T> = None | Some(value: T) {

    /** The value, or `default` when there is none. */
    function GetOr(default: T): T {
      match this
      case Some(v) => v
      case None => default
    }
  }

  /** A present value that is not the empty string: what `if (value)` accepts for a nullable string. */
  predicate Truthy(s: Option<string>) {
    s.Some? && s.value != ""
  }
}
