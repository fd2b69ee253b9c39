/** Option and Result wrappers shared by the whole model, and the error kinds
    the services throw (routing-controllers' HttpError subclasses). */
module Wrappers {
  datatype Option<T> = None | Some(value: T)

  /** The HTTP error classes thrown by the services. `StoreFailure` stands for a
      rejection raised by the database layer itself (for instance Prisma's
      "record to update not found"), and `TypeError` for a JavaScript runtime
      error. */
  datatype ErrorKind = BadRequest | NotFound | Conflict | Unauthorized | StoreFailure | TypeError

  datatype Error = Error(kind: ErrorKind, message: string)

  datatype Result<T> = Ok(value: T) | Err(error: Error)

  /** A guard that either lets the call go on or throws. */
  datatype Outcome = Pass | Fail(error: Error)
}
