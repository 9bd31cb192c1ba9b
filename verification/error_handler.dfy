/**
 * Errors thrown by the service layer and the Express error middleware that
 * turns them into HTTP responses (src/shared/middleware/error-handler.ts).
 * The logger calls and the `res` object are effects and are not modelled:
 * a response is the pair (status code, `error` field of the JSON body).
 */
module ErrorHandler {
  import opened Wrappers

  /** Whether a thrown value is an `AppError` instance, and if so its own fields. */
  datatype Kind = Plain | App(statusCode: int, isOperational: bool)

  /** A thrown JavaScript error: its `name` property, its `message`, and its class. */
  datatype Failure = Failure(name: string, message: string, kind: Kind)

  /** `res.status(status).json({ error })` */
  datatype ErrorResponse = ErrorResponse(status: int, error: string)

  const DefaultStatusCode := 500

  const ValidationErrorName := "ValidationError"
  const UniqueConstraintErrorName := "SequelizeUniqueConstraintError"
  const DatabaseErrorName := "SequelizeDatabaseError"

  /** The fixed bodies the handler substitutes for the error's own message. */
  const ConstraintViolation := "Constraint violation"
  const DatabaseErrorOccurred := "Database error occurred"
  const InternalServerError := "Internal Server Error"

  /** `new Error(message)`: a plain error, whose `name` is "Error". */
  function NewError(message: string): Failure
  {
    Failure("Error", message, Plain)
  }

  /** `new AppError(message, statusCode?)`; a missing status code defaults to 500. */
  function NewAppError(message: string, statusCode: Option<int>): (e: Failure)
    ensures e.message == message
    ensures e.kind.App? && e.kind.isOperational
    ensures statusCode.None? ==> e.kind.statusCode == 500
    ensures statusCode.Some? ==> e.kind.statusCode == statusCode.value
  {
    var code := if statusCode.Some? then statusCode.value else DefaultStatusCode;
    Failure("Error", message, App(code, true))
  }

  /**
   * `errorHandler`: an AppError answers with its own status and message,
   * whatever its name; otherwise the error's name selects the response.
   * Only AppError and ValidationError echo the error's message; every other
   * error gets a fixed body, so internal messages never reach the client.
   */
  function HandleError(err: Failure): (r: ErrorResponse)
    ensures err.kind.App? ==> r.status == err.kind.statusCode && r.error == err.message
    ensures !err.kind.App? ==> (r.status == 400 <==> err.name in {ValidationErrorName, UniqueConstraintErrorName})
    ensures !err.kind.App? ==> (r.status == 500 <==> err.name !in {ValidationErrorName, UniqueConstraintErrorName})
    ensures !err.kind.App? && err.name == ValidationErrorName ==> r.error == err.message
    ensures !err.kind.App? && err.name != ValidationErrorName ==>
              r.error in {ConstraintViolation, DatabaseErrorOccurred, InternalServerError}
    ensures !err.kind.App? && r.status == 500 ==> r.error in {DatabaseErrorOccurred, InternalServerError}
    ensures !err.kind.App? && err.name == UniqueConstraintErrorName ==> r == ErrorResponse(400, ConstraintViolation)
    ensures !err.kind.App? && err.name == DatabaseErrorName ==> r == ErrorResponse(500, DatabaseErrorOccurred)
    ensures !err.kind.App? && err.name !in {ValidationErrorName, UniqueConstraintErrorName, DatabaseErrorName} ==>
              r == ErrorResponse(500, InternalServerError)
  {
    if err.kind.App? then
      ErrorResponse(err.kind.statusCode, err.message)
    else if err.name == ValidationErrorName then
      ErrorResponse(400, err.message)
    else if err.name == UniqueConstraintErrorName then
      ErrorResponse(400, ConstraintViolation)
    else if err.name == DatabaseErrorName then
      ErrorResponse(500, DatabaseErrorOccurred)
    else
      ErrorResponse(500, InternalServerError)
  }

  /** `notFoundHandler`: the fallback for every unmatched route. */
  function NotFoundHandler(): (r: ErrorResponse)
    ensures r.status == 404 && r.error == "Not Found"
  {
    ErrorResponse(404, "Not Found")
  }

  /** The AppError test is made before any name test: renaming an AppError changes nothing. */
  lemma AppErrorIgnoresName(err: Failure, name: string)
    requires err.kind.App?
    ensures HandleError(err.(name := name)) == HandleError(err)
  {
  }

  /** A plain `new Error(...)`, whatever its message, answers 500 with the fixed body. */
  lemma PlainErrorIsInternal(message: string)
    ensures HandleError(NewError(message)) == ErrorResponse(500, InternalServerError)
  {
  }
}
