/**
 * The application error taxonomy (`AppError`) and the HTTP response each error
 * becomes (`ResponseError::error_response`).
 */
module Errors {

  /**
   * A failure reported by the database. Only the kind of violated constraint is
   * kept; the driver's full wording (table and constraint names) is not modelled.
   * `ValueTooLong` is a string longer than its VARCHAR(n) column.
   */
  datatype DbErr = CheckViolation | UniqueViolation | ForeignKeyViolation | OutOfRange | ValueTooLong

  datatype AppError =
    | Database(err: DbErr)
    | NotFound
    | Validation(msg: string)
    | Internal

  /** The `Result<T, AppError>` every service operation returns. */
  datatype Result<T> = Ok(value: T) | Err(error: AppError)

  /** The JSON body `{ "error": ... }`. */
  datatype ErrorResponse = ErrorResponse(error: string)

  datatype HttpResponse = HttpResponse(status: int, body: ErrorResponse)

  const BadRequest: int := 400
  const NotFoundStatus: int := 404
  const InternalServerError: int := 500

  /** The text of a database error (`DbErr::to_string`), reduced to PostgreSQL's message heads. */
  function DbErrText(e: DbErr): string {
    match e
    case CheckViolation => "new row violates check constraint"
    case UniqueViolation => "duplicate key value violates unique constraint"
    case ForeignKeyViolation => "violates foreign key constraint"
    case OutOfRange => "integer out of range"
    case ValueTooLong => "value too long for type character varying"
  }

  /** The `Display` text that `#[error(...)]` gives each variant. */
  function Display(e: AppError): string {
    match e
    case Database(err) => "Database error: " + DbErrText(err)
    case NotFound => "Not found"
    case Validation(msg) => "Validation error: " + msg
    case Internal => "Internal server error"
  }

  /**
   * The response sent for an error. Client errors (a missing resource, a rejected
   * request) are the 4xx ones; a validation message reaches the client verbatim;
   * the other two kinds both become 500.
   */
  function Respond(e: AppError): (r: HttpResponse)
    ensures r.status in {BadRequest, NotFoundStatus, InternalServerError}
    ensures r.status < 500 <==> (e.NotFound? || e.Validation?)
    ensures r.status == NotFoundStatus <==> e.NotFound?
    ensures e.NotFound? ==> r.body.error == "Resource not found"
    ensures e.Validation? ==> r.body.error == e.msg
    ensures e.Database? ==> r.body.error == DbErrText(e.err)
    ensures e.Internal? ==> r.body.error == "Internal server error"
  {
    match e
    case Database(err) => HttpResponse(InternalServerError, ErrorResponse(DbErrText(err)))
    case NotFound => HttpResponse(NotFoundStatus, ErrorResponse("Resource not found"))
    case Validation(msg) => HttpResponse(BadRequest, ErrorResponse(msg))
    case Internal => HttpResponse(InternalServerError, ErrorResponse("Internal server error"))
  }

  /**
   * The client sees the bare validation message, never the `Display` text with its
   * "Validation error: " prefix.
   */
  lemma ValidationBodyIsNotDisplay(msg: string)
    ensures Respond(Validation(msg)).body.error != Display(Validation(msg))
  {
    assert |Display(Validation(msg))| == |"Validation error: "| + |msg|;
  }
}
