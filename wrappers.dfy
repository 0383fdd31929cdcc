/** Nullable values and the HTTP exceptions that every service operation can end in. */
module Wrappers {

  /** A value that may be absent: a nullable column, an optional DTO field, or an
      ORM lookup that found no row. */
  datatype Option<+T> = None | Some(value: T)

  /** The NestJS exceptions the services throw. A JavaScript TypeError, raised when
      code reads a property of a relation that was never loaded or is null, reaches
      the client as a 500 and is modelled as InternalServerError. */
  datatype Err = NotFound | Forbidden | Conflict | Unauthorized | BadRequest | InternalServerError

  /** The outcome of an operation: a value, or the exception it throws. */
  datatype Result<+T> = Ok(value: T) | Fail(err: Err)

  /** The HTTP status code Nest answers with for each exception. */
  function StatusCode(e: Err): (code: int)
    ensures 400 <= code <= 500
    ensures code == 500 <==> e == InternalServerError
  {
    match e
    case BadRequest => 400
    case Unauthorized => 401
    case Forbidden => 403
    case NotFound => 404
    case Conflict => 409
    case InternalServerError => 500
  }
}
