/** crates/http-response/src/prepared_response.rs */
module PreparedResponse {
  import opened Wrappers
  import opened HttpCode
  import opened Response
  import ResponseBuilder
  import opened ErrorHandler

  /** `check_response_ok_or_return_error`: a value becomes a 200 response whose
      envelope is `ok(value)`; an error passes through unchanged. */
  function CheckResponseOkOrReturnError<T>(result: Result<T, CustomError>)
    : (r: Result<HttpResponse<ResponseObject<T>>, CustomError>)
    ensures result.Ok? <==> r.Ok?
    ensures result.Ok? ==> r.value.status == 200 && r.value.body.message == result.value && r.value.body.code == OK
    ensures result.Err? ==> r.error == result.error
  {
    match result
    case Ok(v) => Ok(HttpResponse(200, ResponseBuilder.Ok(v)))
    case Err(e) => Err(e)
  }
}
