/**
 The error middleware (backend/src/middleware/errorHandler.js): it turns an
 error passed to `next` into a JSON response with `success: false`.
 Validation errors come first, then duplicate keys, then bad tokens; every
 other error keeps its own status or gets 500.
 */
module ErrorHandler {

  import opened Common
  import opened FileModel

  /** The properties of a thrown error that the middleware reads. An absent
      `status`, `statusCode` or `code` is `None`, and an absent `message` is
      `""`. `errors` holds the messages of `err.errors`. */
  datatype ErrorInfo = ErrorInfo(
    name: string,
    code: Option<int>,
    status: Option<int>,
    statusCode: Option<int>,
    message: string,
    errors: seq<string>,
    stack: string)

  /** The response: its status and body. */
  datatype ErrorResponse = ErrorResponse(
    status: int,
    success: bool,
    message: string,
    errors: Option<seq<string>>,
    stack: Option<string>)

  /** A number is truthy when it is present and not 0. */
  predicate Truthy(n: Option<int>)
  {
    n.Some? && n.value != 0
  }

  /** `err.status || err.statusCode || 500`. */
  function FallbackStatus(e: ErrorInfo): (s: int)
    ensures s != 0
    ensures Truthy(e.status) ==> s == e.status.value
    ensures !Truthy(e.status) && Truthy(e.statusCode) ==> s == e.statusCode.value
    ensures !Truthy(e.status) && !Truthy(e.statusCode) ==> s == 500
  {
    if Truthy(e.status) then e.status.value
    else if Truthy(e.statusCode) then e.statusCode.value
    else 500
  }

  /** None of the three named cases applies. */
  predicate Generic(e: ErrorInfo)
  {
    e.name != "ValidationError" && e.code != Some(11000) && e.name != "JsonWebTokenError"
  }

  /** `errorHandler(err)` under the environment's `NODE_ENV`. */
  function HandleError(e: ErrorInfo, nodeEnv: string): (r: ErrorResponse)
    ensures !r.success
    ensures e.name == "ValidationError" ==>
              r.status == 400 && r.message == "Validation Error" && r.errors == Some(e.errors)
    ensures e.name != "ValidationError" && e.code == Some(11000) ==>
              r.status == 409 && r.message == "Duplicate field value entered"
    ensures e.name != "ValidationError" && e.code != Some(11000) && e.name == "JsonWebTokenError" ==>
              r.status == 401 && r.message == "Invalid token"
    ensures Generic(e) ==> r.status == FallbackStatus(e)
    ensures Generic(e) ==> r.message == (if e.message != "" then e.message else "Internal Server Error")
    ensures r.errors.Some? <==> e.name == "ValidationError"
    ensures r.stack.Some? <==> Generic(e) && nodeEnv == "development"
    ensures r.stack.Some? ==> r.stack.value == e.stack
  {
    if e.name == "ValidationError" then
      ErrorResponse(400, false, "Validation Error", Some(e.errors), None)
    else if e.code == Some(11000) then
      ErrorResponse(409, false, "Duplicate field value entered", None, None)
    else if e.name == "JsonWebTokenError" then
      ErrorResponse(401, false, "Invalid token", None, None)
    else
      ErrorResponse(FallbackStatus(e), false, if e.message != "" then e.message else "Internal Server Error",
                    None, if nodeEnv == "development" then Some(e.stack) else None)
  }

  /** The error a refused write raises: Mongoose's `ValidationError` with one
      message per failing path, or MongoDB's duplicate-key error 11000. */
  function SaveErrorInfo(err: SaveError, stack: string): ErrorInfo
  {
    match err
    case ValidationError(msgs) => ErrorInfo("ValidationError", None, None, None, "File validation failed", msgs, stack)
    case DuplicateKey => ErrorInfo("MongoServerError", Some(11000), None, None, "E11000 duplicate key error", [], stack)
  }

  /** A refused insert that reaches the middleware is a 400 listing exactly
      the failing paths, or a 409; neither shows a stack. */
  lemma RefusedInsertResponse(store: seq<FileRecord>, f: FileRecord, stack: string, nodeEnv: string)
    requires Insert(store, f).Err?
    ensures var r := HandleError(SaveErrorInfo(Insert(store, f).error, stack), nodeEnv);
      && (!ValidFile(f) ==> r.status == 400 && r.errors == Some(Violations(f)) && |r.errors.value| > 0)
      && (ValidFile(f) ==> r.status == 409 && ClashesWith(store, f))
      && r.stack.None?
  {
  }
}
