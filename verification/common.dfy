/** Failure-carrying results and the error taxonomy of the services. */
module Common {

  datatype Option<+T> = None | Some(value: T) {
    function GetOr(default: T): T {
      match this
      case Some(v) => v
      case None => default
    }
  }

  /** The error classes the repositories and services throw. */
  datatype Error =
    | NotFound(message: string)
    | BadRequest(message: string)
    | InternalServer(message: string)

  /** An awaited call that either yields a value or throws. */
  datatype Result<+T> = Ok(value: T) | Err(error: Error)

  /** An awaited call that returns nothing or throws. */
  datatype Outcome = Done | Failed(error: Error)
}
