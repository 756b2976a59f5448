/** Failure-carrying wrappers shared by every module of the model. */
module Outcomes {

  /** A value that may be missing: Go's nil byte slice, an unparsable input. */
  datatype Option<+T> = None | Some(value: T) {
    function GetOr(default: T): T {
      match this
      case Some(v) => v
      case None => default
    }
  }

  /** The `(T, error)` pair a Go function returns, with the error's message. */
  datatype Result<+T> = Ok(value: T) | Err(message: string)

  /** A parser's output: the value read and the input left after it. */
  datatype Parsed<+T> = Parsed(value: T, rest: string)

  /** Termination of a Go function that may panic (an index out of range). */
  datatype Termination<+T> = Returned(value: T) | Panicked(reason: string)
}
