/** The HTTP exceptions the backend throws, with the messages it attaches. */
module Errors {
  import opened Wrappers

  datatype HttpError =
    | BadRequest                  // 400, the global ValidationPipe rejected the body
    | Unauthorized(msg: string)   // 401, UnauthorizedException
    | NotFound(msg: string)       // 404, NotFoundException
    | Conflict(msg: string)       // 409, ConflictException
    | ServerError(msg: string)    // 500, a plain `Error` thrown by a service
    | QueryFailed                 // 500, the database refused a write (a unique constraint)

  /** What an asynchronous service call resolves to or rejects with. */
  type Outcome<T> = Result<T, HttpError>

  /** The message Nest gives an UnauthorizedException raised by a failed Passport strategy. */
  const DefaultUnauthorized := "Unauthorized"
  const UserNotFound := "User not found"
}
