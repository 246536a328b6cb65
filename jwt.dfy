/** crates/auth-integration/src/jwt.rs: `JwtAuth`, the middleware wrapped around
    the whole application. It introspects the bearer token with the identity
    service and attaches a `Subject` when the service names one. */
module Jwt {
  import opened Wrappers
  import opened Strings
  import opened Json
  import opened HttpCode
  import opened Response
  import opened Identity
  import opened ErrorHandler

  datatype JwtAuth = JwtAuth(authBaseUrl: string)

  datatype IntrospectResponse = IntrospectResponse(active: bool, sub: Option<string>, tokenUuid: Option<string>)

  /** The reply to the introspection POST: a transport failure with the text of
      its error, or a status and the body decoded, when it decodes. */
  datatype IntrospectReply = SendFailed(detail: string) | Replied(status: nat, decoded: Option<IntrospectResponse>)

  /** The token: the header without exactly one leading "Bearer ". */
  function ExtractToken(header: Option<string>): (r: Option<string>)
    ensures r.Some? <==> header.Some? && StartsWith(header.value, "Bearer ")
    ensures r.Some? ==> "Bearer " + r.value == header.value
  {
    match header
    case None => None
    case Some(h) => StripPrefix(h, "Bearer ")
  }

  function IntrospectUrl(authBaseUrl: string): (url: string)
    ensures url == TrimEndMatches(authBaseUrl, '/') + "/v1/auth/introspect"
  {
    TrimEndMatches(authBaseUrl, '/') + "/v1/auth/introspect"
  }

  /** The JSON body of the introspection request. */
  function IntrospectBody(token: string): (body: Json)
    ensures Get(body, "token") == Some(Str(token))
    ensures body.Obj? && |body.members| == 1
  {
    Obj([("token", Str(token))])
  }

  datatype Outcome =
    | Unauthorized401                 // an empty 401 response
    | Failed(error: CustomError)      // `call` returns this error
    | Forwarded(ext: Extensions)

  /** What `call` did, and the URL and body it posted, if it posted. */
  datatype Decision = Decision(outcome: Outcome, introspection: Option<(string, Json)>)

  /** The three inserts into the extensions, in order: the subject string,
      then the uuid string (which replaces it), then the typed `Subject`. */
  function AttachSubject(ext: Extensions, sub: string, uuid: string): (r: Extensions)
    ensures r.subject == Some(Subject(sub, uuid))
    ensures r.text == Some(uuid)
    ensures r.userContext == ext.userContext
  {
    var e1 := ext.(text := Some(sub));
    var e2 := e1.(text := Some(uuid));
    e2.(subject := Some(Subject(sub, uuid)))
  }

  /** `JwtAuthMiddleware::call`. */
  function Call(mw: JwtAuth, header: Option<string>, ext: Extensions, reply: IntrospectReply): (d: Decision)
    ensures ExtractToken(header).None? ==> d == Decision(Unauthorized401, None)
    ensures ExtractToken(header).Some? ==>
      d.introspection == Some((IntrospectUrl(mw.authBaseUrl), IntrospectBody(ExtractToken(header).value)))
    ensures ExtractToken(header).Some? && reply.SendFailed? ==>
      d.outcome == Failed(New(HttpCodeW.Unauthorized, "Failed to connect to auth service, " + reply.detail))
    ensures d.outcome.Forwarded? <==>
      ExtractToken(header).Some? && reply.Replied? && 200 <= reply.status <= 299
      && reply.decoded.Some? && reply.decoded.value.active
    ensures d.outcome.Forwarded? ==>
      var b := reply.decoded.value;
      d.outcome.ext == (if b.sub.Some? && b.tokenUuid.Some? then AttachSubject(ext, b.sub.value, b.tokenUuid.value) else ext)
    ensures ExtractToken(header).Some? && reply.Replied?
            && !(200 <= reply.status <= 299 && reply.decoded.Some? && reply.decoded.value.active) ==>
      d.outcome == Unauthorized401
  {
    match ExtractToken(header)
    case None => Decision(Unauthorized401, None)
    case Some(token) =>
      var sent := Some((IntrospectUrl(mw.authBaseUrl), IntrospectBody(token)));
      match reply
      case SendFailed(detail) =>
        Decision(Failed(New(HttpCodeW.Unauthorized, "Failed to connect to auth service, " + detail)), sent)
      case Replied(status, decoded) =>
        if !(200 <= status <= 299) then Decision(Unauthorized401, sent)
        else if decoded.None? then Decision(Unauthorized401, sent)
        else if !decoded.value.active then Decision(Unauthorized401, sent)
        else if decoded.value.sub.Some? && decoded.value.tokenUuid.Some? then
          Decision(Forwarded(AttachSubject(ext, decoded.value.sub.value, decoded.value.tokenUuid.value)), sent)
        else Decision(Forwarded(ext), sent)
  }

  /** A transport failure still ends as a 401: the returned error renders with
      its own status. */
  lemma TransportFailureIs401(mw: JwtAuth, header: Option<string>, ext: Extensions, detail: string)
    requires ExtractToken(header).Some?
    ensures var d := Call(mw, header, ext, SendFailed(detail));
            d.outcome.Failed? && ErrorResponse(d.outcome.error).status == 401
  {
  }

  /** Downstream, a `Subject` is available exactly when the introspection named
      both the subject and the token uuid; then it is exactly those two. */
  lemma SubjectAfterForward(mw: JwtAuth, header: Option<string>, reply: IntrospectReply)
    requires Call(mw, header, NoExtensions, reply).outcome.Forwarded?
    ensures var ext := Call(mw, header, NoExtensions, reply).outcome.ext;
            var b := reply.decoded.value;
            && (SubjectFromRequest(ext).Ok? <==> b.sub.Some? && b.tokenUuid.Some?)
            && (SubjectFromRequest(ext).Ok? ==> SubjectFromRequest(ext).value == Subject(b.sub.value, b.tokenUuid.value))
            && (SubjectFromRequest(ext).Err? ==> SubjectFromRequest(ext).error == RequestError(401, "unauthenticated"))
  {
  }

  /** Exactly one "Bearer " is removed: "Bearer Bearer x" is introspected as
      "Bearer x". */
  lemma SingleBearerExample()
    ensures ExtractToken(Some("Bearer Bearer x")) == Some("Bearer x")
  {
    assert StartsWith("Bearer Bearer x", "Bearer ");
    assert "Bearer Bearer x"[|"Bearer "|..] == "Bearer x";
  }
}
