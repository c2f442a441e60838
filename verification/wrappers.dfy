/** Failure-carrying values shared by the modules of this model. */
module Wrappers {

  /** A value that may be absent (Go's nil pointer or an option nobody set). */
  datatype Option<+T> = None | Some(value: T) {

    /** The carried value, or `default` when there is none. */
    function GetOr(default: T): T {
      match this
      case Some(v) => v
      case None => default
    }
  }

  /** The outcome of an operation that returns either a value or an error (Go's `(T, error)`). */
  datatype Result<+T, +E> = Ok(value: T) | Err(error: E)
}
