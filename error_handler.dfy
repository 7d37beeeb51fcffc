/**
 * The application error type and the global error handler: an ordered chain
 * of tests that turns a thrown error into an HTTP status and a JSON body.
 */
module ErrorHandler {
  import opened Wrappers
  import Text

  /** One problem reported by a schema: where (path segments) and what. */
  datatype ZodIssue = ZodIssue(path: seq<string>, message: string)

  /**
   * What can reach the handler: a schema error, an `AppError` (message and
   * status; `isOperational` is always true), or any other error, described by
   * its `name`, `message` and the optional `code` and `statusCode` properties (the latter as `statusProperty`)
   * that the handler inspects.
   */
  datatype ErrorValue =
    | ZodError(issues: seq<ZodIssue>)
    | AppError(message: string, statusCode: int)
    | OtherError(name: string, message: string, code: Option<string>, statusProperty: Option<int>)

  /** `new AppError(message, statusCode = 500)`. */
  function NewAppError(message: string, statusCode: int := 500): (e: ErrorValue)
    ensures e.AppError? && e.message == message && e.statusCode == statusCode
  {
    AppError(message, statusCode)
  }

  /** Omitting the status code gives 500. */
  lemma DefaultStatusIs500(message: string)
    ensures NewAppError(message).statusCode == 500
  {
  }

  datatype FieldDetail = FieldDetail(field: string, message: string)
  datatype ErrorBody = Plain(error: string) | Detailed(error: string, details: seq<FieldDetail>)
  datatype ErrorResponse = ErrorResponse(status: int, body: ErrorBody)

  const PrismaKnownError := "PrismaClientKnownRequestError"

  /** The error reaches the handler's last, default branch. */
  predicate IsDefaultCase(err: ErrorValue) {
    && err.OtherError?
    && !(err.name == PrismaKnownError && (err.code == Some("P2002") || err.code == Some("P2025")))
    && err.name != "JsonWebTokenError"
    && err.name != "TokenExpiredError"
  }

  function IssueDetail(issue: ZodIssue): FieldDetail {
    FieldDetail(Text.Join(issue.path, '.'), issue.message)
  }

  /** `globalErrorHandler`; `production` is `NODE_ENV === 'production'`. */
  function GlobalErrorHandler(err: ErrorValue, production: bool): (r: ErrorResponse)
    ensures r.body.Detailed? <==> err.ZodError?
    ensures err.ZodError? ==>
      && r.status == 400 && r.body.error == "Validation failed"
      && |r.body.details| == |err.issues|
      && forall i :: 0 <= i < |err.issues| ==>
           r.body.details[i] == FieldDetail(Text.Join(err.issues[i].path, '.'), err.issues[i].message)
    ensures err.AppError? ==> r == ErrorResponse(err.statusCode, Plain(err.message))
    ensures err.OtherError? && err.name == PrismaKnownError && err.code == Some("P2002") ==>
      r == ErrorResponse(409, Plain("A record with this information already exists"))
    ensures err.OtherError? && err.name == PrismaKnownError && err.code == Some("P2025") ==>
      r == ErrorResponse(404, Plain("Record not found"))
    ensures err.OtherError? && err.name == "JsonWebTokenError" ==> r == ErrorResponse(401, Plain("Invalid token"))
    ensures err.OtherError? && err.name == "TokenExpiredError" ==> r == ErrorResponse(401, Plain("Token expired"))
    ensures IsDefaultCase(err) ==>
      && r.status == (if err.statusProperty.Some? && err.statusProperty.value != 0 then err.statusProperty.value else 500)
      && r.body == Plain(if production then "Internal server error" else err.message)
  {
    match err
    case ZodError(issues) =>
      ErrorResponse(400, Detailed("Validation failed", seq(|issues|, i requires 0 <= i < |issues| => IssueDetail(issues[i]))))
    case AppError(message, statusCode) =>
      ErrorResponse(statusCode, Plain(message))
    case OtherError(name, message, code, statusProperty) =>
      if name == PrismaKnownError && code == Some("P2002") then
        ErrorResponse(409, Plain("A record with this information already exists"))
      else if name == PrismaKnownError && code == Some("P2025") then
        ErrorResponse(404, Plain("Record not found"))
      else if name == "JsonWebTokenError" then
        ErrorResponse(401, Plain("Invalid token"))
      else if name == "TokenExpiredError" then
        ErrorResponse(401, Plain("Token expired"))
      else
        var status := if statusProperty.Some? && statusProperty.value != 0 then statusProperty.value else 500;
        ErrorResponse(status, Plain(if production then "Internal server error" else message))
  }

  /** In production no error outside the named kinds exposes its own message. */
  lemma ProductionHidesMessages(err: ErrorValue)
    requires !err.ZodError? && !err.AppError?
    ensures GlobalErrorHandler(err, true).body.error in
      {"A record with this information already exists", "Record not found", "Invalid token",
       "Token expired", "Internal server error"}
  {
  }

  /** Other Prisma codes are not special: they get the default treatment. */
  lemma OtherPrismaCodesFallThrough(message: string, code: string, production: bool)
    requires code != "P2002" && code != "P2025"
    ensures GlobalErrorHandler(OtherError(PrismaKnownError, message, Some(code), None), production)
      == ErrorResponse(500, Plain(if production then "Internal server error" else message))
  {
  }

  /**
   * A detail's field names the issue's path: splitting it on '.' gives the
   * segments back when none of them contains a '.'.
   */
  lemma {:induction false} DetailFieldRecoversPath(issues: seq<ZodIssue>, production: bool, i: nat)
    requires i < |issues| && |issues[i].path| >= 1
    requires forall k :: 0 <= k < |issues[i].path| ==> '.' !in issues[i].path[k]
    ensures Text.Split(GlobalErrorHandler(ZodError(issues), production).body.details[i].field, '.') == issues[i].path
  {
    Text.SplitJoin(issues[i].path, '.');
  }

  /** `notFoundHandler`. */
  function NotFoundHandler(): (r: ErrorResponse)
    ensures r.status == 404 && r.body == Plain("Route not found")
  {
    ErrorResponse(404, Plain("Route not found"))
  }
}
