/** `HttpCodeW` (crates/http-response/src/http_code_w.rs): the status codes the
    service answers with, each carrying the numeric value of section 15 of
    RFC 9110 as its discriminant, and serialised by its variant name. */
module HttpCode {
  import opened Wrappers

  datatype HttpCodeW =
    // Successful responses
    | OK | Created | NoContent
    // Client errors
    | BadRequest | Unauthorized | Forbidden | NotFound | Conflict | UnprocessableEntity
    // Server errors
    | InternalServerError | NotImplemented | BadGateway | ServiceUnavailable | GatewayTimeout

  predicate IsSuccessful(c: HttpCodeW) {
    c.OK? || c.Created? || c.NoContent?
  }

  predicate IsClientError(c: HttpCodeW) {
    c.BadRequest? || c.Unauthorized? || c.Forbidden? || c.NotFound? || c.Conflict? || c.UnprocessableEntity?
  }

  predicate IsServerError(c: HttpCodeW) {
    c.InternalServerError? || c.NotImplemented? || c.BadGateway? || c.ServiceUnavailable? || c.GatewayTimeout?
  }

  /** `code as u16`: each group of the enum lies in its RFC 9110 class. */
  function Discriminant(c: HttpCodeW): (n: nat)
    ensures IsSuccessful(c) <==> 200 <= n <= 299
    ensures IsClientError(c) <==> 400 <= n <= 499
    ensures IsServerError(c) <==> 500 <= n <= 599
  {
    match c
    case OK => 200
    case Created => 201
    case NoContent => 204
    case BadRequest => 400
    case Unauthorized => 401
    case Forbidden => 403
    case NotFound => 404
    case Conflict => 409
    case UnprocessableEntity => 422
    case InternalServerError => 500
    case NotImplemented => 501
    case BadGateway => 502
    case ServiceUnavailable => 503
    case GatewayTimeout => 504
  }

  /** The variant whose discriminant is `n`, if any (the inverse of `Discriminant`). */
  function FromDiscriminant(n: int): (r: Option<HttpCodeW>)
    ensures r.Some? ==> Discriminant(r.value) == n
  {
    if n == 200 then Some(OK)
    else if n == 201 then Some(Created)
    else if n == 204 then Some(NoContent)
    else if n == 400 then Some(BadRequest)
    else if n == 401 then Some(Unauthorized)
    else if n == 403 then Some(Forbidden)
    else if n == 404 then Some(NotFound)
    else if n == 409 then Some(Conflict)
    else if n == 422 then Some(UnprocessableEntity)
    else if n == 500 then Some(InternalServerError)
    else if n == 501 then Some(NotImplemented)
    else if n == 502 then Some(BadGateway)
    else if n == 503 then Some(ServiceUnavailable)
    else if n == 504 then Some(GatewayTimeout)
    else None
  }

  lemma FromDiscriminantInverts(c: HttpCodeW)
    ensures FromDiscriminant(Discriminant(c)) == Some(c)
  {
  }

  /** All discriminants are pairwise distinct. */
  lemma DiscriminantInjective(a: HttpCodeW, b: HttpCodeW)
    requires Discriminant(a) == Discriminant(b)
    ensures a == b
  {
    FromDiscriminantInverts(a);
    FromDiscriminantInverts(b);
  }

  /** The serde (derived `Serialize`) form: the variant name as a JSON string. */
  function VariantName(c: HttpCodeW): (n: string)
    ensures 2 <= |n| && 'A' <= n[0] <= 'Z'
  {
    match c
    case OK => "OK"
    case Created => "Created"
    case NoContent => "NoContent"
    case BadRequest => "BadRequest"
    case Unauthorized => "Unauthorized"
    case Forbidden => "Forbidden"
    case NotFound => "NotFound"
    case Conflict => "Conflict"
    case UnprocessableEntity => "UnprocessableEntity"
    case InternalServerError => "InternalServerError"
    case NotImplemented => "NotImplemented"
    case BadGateway => "BadGateway"
    case ServiceUnavailable => "ServiceUnavailable"
    case GatewayTimeout => "GatewayTimeout"
  }

  /** The derived `Deserialize`: a variant name back to its variant. */
  function FromVariantName(name: string): (r: Option<HttpCodeW>)
    ensures r.Some? ==> VariantName(r.value) == name
  {
    if name == "OK" then Some(OK)
    else if name == "Created" then Some(Created)
    else if name == "NoContent" then Some(NoContent)
    else if name == "BadRequest" then Some(BadRequest)
    else if name == "Unauthorized" then Some(Unauthorized)
    else if name == "Forbidden" then Some(Forbidden)
    else if name == "NotFound" then Some(NotFound)
    else if name == "Conflict" then Some(Conflict)
    else if name == "UnprocessableEntity" then Some(UnprocessableEntity)
    else if name == "InternalServerError" then Some(InternalServerError)
    else if name == "NotImplemented" then Some(NotImplemented)
    else if name == "BadGateway" then Some(BadGateway)
    else if name == "ServiceUnavailable" then Some(ServiceUnavailable)
    else if name == "GatewayTimeout" then Some(GatewayTimeout)
    else None
  }

  /** Serialising a code and reading it back gives the same code. */
  lemma VariantNameRoundTrip(c: HttpCodeW)
    ensures FromVariantName(VariantName(c)) == Some(c)
  {
  }

  /** Distinct codes serialise to distinct names. */
  lemma VariantNameInjective(a: HttpCodeW, b: HttpCodeW)
    requires VariantName(a) == VariantName(b)
    ensures a == b
  {
    VariantNameRoundTrip(a);
    VariantNameRoundTrip(b);
  }
}
