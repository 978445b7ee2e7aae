/** Option and Result types, and the exceptions the services raise. */
module Wrappers {

  datatype Option<+T> = None | Some(value: T)

  /** The exception classes the source throws; each carries its message (an i18n key where the source translates one). */
  datatype Exception =
    | BadRequest(message: string)     // BadRequestException
    | Unauthorized(message: string)   // UnauthorizedException
    | Forbidden(message: string)      // ForbiddenException
    | NotFound(message: string)       // NotFoundException
    | Failure(message: string)        // a plain `Error`
    | TypeError(message: string)      // a JavaScript TypeError (property read on undefined)

  datatype Result<+T> = Ok(value: T) | Err(error: Exception) {
    predicate IsFailure() { Err? }
    function PropagateFailure<U>(): Result<U>
      requires Err?
    {
      Err(error)
    }
    function Extract(): T
      requires Ok?
    {
      value
    }
  }

  /** A call that either completes without a value or throws. */
  datatype Outcome = Pass | Fail(error: Exception)
}
