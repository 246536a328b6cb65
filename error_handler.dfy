/** crates/http-response/src/error_handler.rs: the service's error type, how
    database errors become one, how one becomes an HTTP response, and the
    `ValidatedJson` body extractor. */
module ErrorHandler {
  import opened Wrappers
  import opened HttpCode
  import opened Json
  import opened Strings
  import opened Response

  datatype CustomError = CustomError(errorStatusCode: HttpCodeW, errorMessage: string)

  /** `CustomError::new` */
  function New(code: HttpCodeW, message: string): (e: CustomError)
    ensures e.errorStatusCode == code && e.errorMessage == message
  {
    CustomError(code, message)
  }

  /** `impl Display`: exactly the message. */
  function Display(e: CustomError): (s: string)
    ensures s == e.errorMessage
  {
    e.errorMessage
  }

  /** The variants of sea-orm's `DbErr` that `From<DbErr>` distinguishes; `Other`
      stands for all the rest. */
  datatype DbErrKind = Conn | Exec | Query | JsonError | ConvertFromU64 | RecordNotFound | Custom | Other

  /** A database error: its variant, the text of the value it wraps (for `Other`,
      the `Debug` text of the whole error), and its own `Display` text, which
      belongs to the ORM library and is taken as given. */
  datatype DbErr = DbErr(kind: DbErrKind, detail: string, display: string)

  function DbErrPrefix(kind: DbErrKind): string {
    match kind
    case Conn => "Auth database connection error: "
    case Exec => "Auth database execution error: "
    case Query => "Auth database query error: "
    case JsonError => "Auth JSON error: "
    case ConvertFromU64 => "Auth conversion error: "
    case RecordNotFound => "Auth record not found"
    case Custom => "Custom auth database error: "
    case Other => "Unknown auth database error: "
  }

  /** `From<DbErr> for CustomError` */
  function FromDbErr(e: DbErr): (r: CustomError)
    ensures r.errorStatusCode == NotFound <==> e.kind == RecordNotFound
    ensures e.kind == RecordNotFound ==> r.errorMessage == "Auth record not found"
    ensures e.kind != RecordNotFound ==>
      r.errorStatusCode == InternalServerError && r.errorMessage == DbErrPrefix(e.kind) + e.detail
  {
    if e.kind == RecordNotFound then New(NotFound, "Auth record not found")
    else New(InternalServerError, DbErrPrefix(e.kind) + e.detail)
  }

  /** Distinct variants give distinct message prefixes, so the message of a
      converted error tells which variant it came from. */
  lemma DbErrPrefixInjective(a: DbErrKind, b: DbErrKind)
    requires a != b
    ensures DbErrPrefix(a) != DbErrPrefix(b)
  {
  }

  /** The status an error code renders with: a number in 100..=999 is a
      valid status and is kept; any other falls back to 500. */
  function StatusFromU16(n: nat): (s: nat)
    ensures 100 <= s <= 999
    ensures 100 <= n <= 999 ==> s == n
    ensures !(100 <= n <= 999) ==> s == 500
  {
    if 100 <= n <= 999 then n else 500
  }

  /** `ResponseError::error_response`: status is the numeric code (the fallback
      to 500 never applies), body is the `{message, code}` envelope. */
  function ErrorResponse(e: CustomError): (r: HttpResponse<ResponseObject<string>>)
    ensures r.status == Discriminant(e.errorStatusCode)
    ensures r.body.message == e.errorMessage && r.body.code == e.errorStatusCode
  {
    HttpResponse(StatusFromU16(Discriminant(e.errorStatusCode)), CreateResponse(e.errorMessage, e.errorStatusCode))
  }

  /** The scenario of crates/functions/tests/response_shape.rs. */
  lemma NotFoundNopeResponse()
    ensures var r := ErrorResponse(New(NotFound, "nope"));
            r.status == 404
            && Get(ToJson(StringToJson(r.body)), "code") == Some(Str("NotFound"))
            && Get(ToJson(StringToJson(r.body)), "message") == Some(Str("nope"))
  {
  }

  /** `ValidatedJson::from_request`, given the outcome of the inner JSON
      extractor (the decoded value, or the text of its error). */
  function ValidatedJson<T>(decoded: Result<T, string>): (r: Result<T, CustomError>)
    ensures decoded.Ok? <==> r.Ok?
    ensures decoded.Ok? ==> r.value == decoded.value
    ensures decoded.Err? ==> r.error == New(BadRequest, "JSON payload error: " + decoded.error)
  {
    match decoded
    case Ok(v) => Ok(v)
    case Err(msg) => Err(New(BadRequest, "JSON payload error: " + msg))
  }
}
