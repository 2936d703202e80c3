/** Option, Result and Outcome: the failure-carrying values that stand in for
    `null`, thrown errors and rejected promises of the TypeScript source. */
module Wrappers {

  datatype Option<+T> = None | Some(value: T) {
    /** The stored value, or `default` when there is none (TypeScript's `??`). */
    function GetOr(default: T): T {
      match this
      case Some(v) => v
      case None => default
    }
  }

  datatype Result<+T, +E> = Ok(value: T) | Err(error: E)

  /** The result of a check that returns nothing on success and throws on failure. */
  datatype Outcome<+E> = Pass | Fail(error: E)
}
