/** The optional value used throughout the model for `T | null` fields and lookups. */
module Wrappers {

  datatype Option<T> = None | Some(value: T) {

    /** `x ?? fallback` */
    function GetOr(fallback: T): T {
      match this
      case Some(v) => v
      case None => fallback
    }
  }
}
