/** Failure-carrying wrappers used in place of the NULL pointers and integer
    return codes of the modelled C code. */
module Wrappers {

  /** A value that may be absent; `None` plays the role of a NULL pointer. */
  datatype Option<+T> = None | Some(value: T) {

    /** The wrapped value, or `default` when there is none. */
    function GetOr(default: T): T {
      match this
      case Some(v) => v
      case None => default
    }
  }

  /** Either a computed value or one of the source's non-zero return codes. */
  datatype Result<+T, +E> = Ok(value: T) | Err(error: E)
}
