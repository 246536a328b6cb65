/** The response envelope (crates/http-response/src/response_object.rs and
    create_response.rs): every body the service writes is `{message, code}`. */
module Response {
  import opened Wrappers
  import opened HttpCode
  import opened Json

  /** `ResponseObject<T>`: exactly a message and a code. */
  datatype ResponseObject<T> = ResponseObject(message: T, code: HttpCodeW)

  /** An HTTP response: its status line number and its (JSON) body. */
  datatype HttpResponse<T> = HttpResponse(status: nat, body: T)

  /** `create_response(message, code)` */
  function CreateResponse<T>(message: T, code: HttpCodeW): (r: ResponseObject<T>)
    ensures r.message == message
    ensures r.code == code
  {
    ResponseObject(message, code)
  }

  /** The hand-written `Serialize`: a two-member object, "message" first, then
      "code" as the variant name of the code. */
  function ToJson(r: ResponseObject<Json>): (j: Json)
    ensures j.Obj? && |j.members| == 2
    ensures j.members[0].0 == "message" && j.members[1].0 == "code"
    ensures Get(j, "message") == Some(r.message)
    ensures Get(j, "code") == Some(Str(VariantName(r.code)))
  {
    Obj([("message", r.message), ("code", Str(VariantName(r.code)))])
  }

  /** Reading an envelope back: the inverse of `ToJson`. */
  function FromJson(j: Json): Option<ResponseObject<Json>> {
    match Get(j, "message")
    case None => None
    case Some(m) =>
      match Get(j, "code")
      case Some(Str(name)) =>
        (match FromVariantName(name)
         case Some(c) => Some(ResponseObject(m, c))
         case None => None)
      case _ => None
  }

  lemma ToJsonRoundTrip(r: ResponseObject<Json>)
    ensures FromJson(ToJson(r)) == Some(r)
  {
    VariantNameRoundTrip(r.code);
  }

  /** A string message is written as a JSON string. */
  function StringToJson(r: ResponseObject<string>): ResponseObject<Json> {
    ResponseObject(Str(r.message), r.code)
  }
}
