/** Failure-carrying values shared by the other modules. */
module Wrappers {

  /** A value that may be missing. */
  datatype Option<T> = None | Some(value: T) {
    /** The value, or `default` when there is none. */
    function GetOr(default: T): T {
      if Some? then value else default
    }
  }

  /** The outcome of a step that either yields a value or raises an error. */
  datatype Result<T, E> = Ok(value: T) | Err(error: E)
}
