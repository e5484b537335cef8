/** Option and Result, the shapes the data layer uses for an absent value and for a thrown error. */
module Wrappers {

  /** A value that may be absent: a missing local-storage key, a null session, an undefined field. */
  datatype Option<+T> = None | Some(value: T) {

    /** The value, or `default` when there is none. */
    function GetOr(default: T): (r: T)
      ensures Some? ==> r == value
      ensures None? ==> r == default
    {
      match this
      case Some(v) => v
      case None => default
    }
  }

  /** The outcome of a service call: a value, or the message of the Error it throws. */
  datatype Result<+R, +E> = Success(value: R) | Failure(error: E)
}
