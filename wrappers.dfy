/** The optional value used wherever the storefront reads something that may be absent:
    a stored session, a catalog lookup, the number `parseInt` produces (None stands for NaN). */
module Wrappers {

  datatype Option<+T> = None | Some(value: T) {

    /** The value, or `default` when there is none (JavaScript's `x || default` on an absent value). */
    function GetOr(default: T): T {
      match this
      case Some(v) => v
      case None => default
    }
  }
}
