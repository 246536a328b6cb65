/** The helper constructors of crates/http-response/src/http_response_builder.rs:
    each wraps its message unchanged with one fixed code. */
module ResponseBuilder {
  import opened HttpCode
  import opened Response

  function Ok<T>(message: T): (r: ResponseObject<T>)
    ensures r.message == message && r.code == OK
  {
    CreateResponse(message, OK)
  }

  function Created<T>(message: T): (r: ResponseObject<T>)
    ensures r.message == message && r.code == HttpCodeW.Created
  {
    CreateResponse(message, HttpCodeW.Created)
  }

  function NoContent<T>(message: T): (r: ResponseObject<T>)
    ensures r.message == message && r.code == HttpCodeW.NoContent
  {
    CreateResponse(message, HttpCodeW.NoContent)
  }

  function BadRequest<T>(message: T): (r: ResponseObject<T>)
    ensures r.message == message && r.code == HttpCodeW.BadRequest
  {
    CreateResponse(message, HttpCodeW.BadRequest)
  }

  function Unauthorized<T>(message: T): (r: ResponseObject<T>)
    ensures r.message == message && r.code == HttpCodeW.Unauthorized
  {
    CreateResponse(message, HttpCodeW.Unauthorized)
  }

  function Conflict<T>(message: T): (r: ResponseObject<T>)
    ensures r.message == message && r.code == HttpCodeW.Conflict
  {
    CreateResponse(message, HttpCodeW.Conflict)
  }

  function NotFound<T>(message: T): (r: ResponseObject<T>)
    ensures r.message == message && r.code == HttpCodeW.NotFound
  {
    CreateResponse(message, HttpCodeW.NotFound)
  }

  function InternalServerError<T>(message: T): (r: ResponseObject<T>)
    ensures r.message == message && r.code == HttpCodeW.InternalServerError
  {
    CreateResponse(message, HttpCodeW.InternalServerError)
  }

  function NotImplemented<T>(message: T): (r: ResponseObject<T>)
    ensures r.message == message && r.code == HttpCodeW.NotImplemented
  {
    CreateResponse(message, HttpCodeW.NotImplemented)
  }

  /** The nine helpers answer with nine different codes, and so with nine
      different numeric statuses. */
  lemma HelpersDistinct<T>(m: T)
    ensures var codes := [Ok(m).code, Created(m).code, NoContent(m).code, BadRequest(m).code,
                          Unauthorized(m).code, Conflict(m).code, NotFound(m).code,
                          InternalServerError(m).code, NotImplemented(m).code];
            forall i, j :: 0 <= i < j < |codes| ==> Discriminant(codes[i]) != Discriminant(codes[j])
  {
  }
}
