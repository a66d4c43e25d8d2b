/** The Option, Result and Outcome datatypes shared by every module of the storefront model. */
module Wrappers {

  /** A value that may be absent: a nullable column, an optional request field. */
  datatype Option<+T> = None | Some(value: T) {
    function GetOr(default: T): T {
      match this
      case Some(v) => v
      case None => default
    }
  }

  /** The outcome of a service call: a value, or the message of the Error it throws. */
  datatype Result<+T> = Ok(value: T) | Err(message: string)

  /** The outcome of a service call that returns nothing: success, or the message of its Error. */
  datatype Outcome = Pass | Fail(message: string)

  /** Identifier of a row of the users table (a database-generated key). */
  type UserId = nat
}
