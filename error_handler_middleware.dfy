/**
 * The exception-to-response mapping of the error middleware: the class of the exception picks the
 * HTTP status, and the body carries the exception's message.
 */
module ErrorHandlerMiddleware {
  import opened Domain

  datatype ErrorResponse = ErrorResponse(statusCode: int, contentType: string, message: string)

  /** The `switch` on the exception: the first matching case wins, subclasses included. */
  function StatusCode(k: ExceptionKind): (r: int)
    ensures r == 400 || r == 401 || r == 404 || r == 500
    ensures r == 400 <==> IsInvalidOperation(k) || IsArgument(k)
    ensures r == 404 <==> k == KeyNotFound
    ensures r == 401 <==> k == UnauthorizedAccess
    ensures r == 500 <==> !IsInvalidOperation(k) && !IsArgument(k) && k != KeyNotFound && k != UnauthorizedAccess
  {
    match k
    case InvalidOperation => 400
    case ObjectDisposed => 400
    case Argument => 400
    case ArgumentNull => 400
    case ArgumentOutOfRange => 400
    case KeyNotFound => 404
    case UnauthorizedAccess => 401
    case NotImplemented => 500
    case NullReference => 500
    case DbUpdate => 500
    case DbUpdateConcurrency => 500
    case SqlError => 500
  }

  /** The response written for an exception that reached the middleware. */
  function Handle(error: Failure): (r: ErrorResponse)
    ensures r.statusCode == StatusCode(error.kind)
    ensures r.contentType == "application/json"
    ensures r.message == error.message
  {
    ErrorResponse(StatusCode(error.kind), "application/json", error.message)
  }

  /** The unimplemented service overloads, and every database failure, surface as 500. */
  lemma UnexpectedFailuresAre500(message: string)
    ensures Handle(Failure(NotImplemented, message)).statusCode == 500
    ensures Handle(SaveRefused).statusCode == 500 && Handle(RowMissing).statusCode == 500
    ensures Handle(Failure(NullReference, message)).statusCode == 500
  {
  }

  /** A null argument is a client error, because `ArgumentNullException` is an `ArgumentException`. */
  lemma NullArgumentIs400(p: string)
    ensures Handle(NullArgument(p)).statusCode == 400
  {
  }
}
