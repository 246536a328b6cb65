/** crates/auth-integration/src/middleware.rs: `AuthMiddleware`, which lets
    public paths through and otherwise asks the identity service to verify the
    bearer token before forwarding the request with a `UserContext`. */
module Middleware {
  import opened Wrappers
  import opened Strings
  import opened HttpCode
  import opened Response
  import opened Identity
  import opened Client

  const DefaultPublicPaths: seq<string> := ["/health", "/api/health", "/playground"]

  /** The per-request service built by `new_transform`: a copy of the
      middleware's client and public paths. */
  datatype AuthMiddlewareService = AuthMiddlewareService(authClient: AuthClient, publicPaths: seq<string>)

  class AuthMiddleware {
    var authClient: AuthClient
    var publicPaths: seq<string>

    /** `AuthMiddleware::new` */
    constructor (authClient: AuthClient)
      ensures this.authClient == authClient
      ensures publicPaths == DefaultPublicPaths
    {
      this.authClient := authClient;
      publicPaths := DefaultPublicPaths;
    }

    /** `with_public_paths`: the given paths are appended; nothing is lost. */
    method WithPublicPaths(paths: seq<string>)
      modifies this
      ensures publicPaths == old(publicPaths) + paths
      ensures forall p :: p in old(publicPaths) ==> p in publicPaths
      ensures authClient == old(authClient)
    {
      publicPaths := publicPaths + paths;
    }

    /** `new_transform` */
    method NewTransform() returns (service: AuthMiddlewareService)
      ensures service.authClient == authClient && service.publicPaths == publicPaths
    {
      service := AuthMiddlewareService(authClient, publicPaths);
    }
  }

  /** A path is public when one of the public entries is a prefix of it. */
  predicate IsPublic(publicPaths: seq<string>, path: string): (b: bool)
    ensures path in publicPaths ==> b
    ensures b ==> exists p :: p in publicPaths && |p| <= |path| && path[..|p|] == p
    ensures publicPaths == [] ==> !b
  {
    exists i :: 0 <= i < |publicPaths| && StartsWith(path, publicPaths[i])
  }

  datatype Outcome =
    | Rejected(status: nat, body: ResponseObject<string>)
    | Forwarded(ext: Extensions)

  /** What `call` did: its outcome, and the token it asked the identity
      service to verify (None when it asked nothing). */
  datatype Decision = Decision(outcome: Outcome, verifiedToken: Option<string>)

  predicate IsBearer(header: Option<string>) {
    header.Some? && StartsWith(header.value, "Bearer ")
  }

  /** The token is the header without every leading repetition of "Bearer ". */
  function BearerToken(header: string): (t: string)
    ensures !StartsWith(t, "Bearer ")
    ensures |t| <= |header| && header[|header| - |t|..] == t
    ensures !StartsWith(header, "Bearer ") ==> t == header
  {
    TrimStartMatches(header, "Bearer ")
  }

  /** The context a valid verification yields for `token`. */
  function ContextOf(v: TokenVerification, token: string): (ctx: UserContext)
    ensures ctx.authUserId == (if v.userId.Some? then v.userId.value else "")
    ensures ctx.email == v.email
    ensures ctx.role == (if v.role.Some? then v.role.value else "user")
    ensures ctx.token == token
  {
    UserContext(v.userId.GetOr(""), v.email, v.role.GetOr("user"), token)
  }

  function Reject(message: string): ResponseObject<string> {
    CreateResponse(message, HttpCodeW.Unauthorized)
  }

  /** `AuthMiddlewareService::call` for a request to `path` carrying the
      (textual) Authorization header `header` and extensions `ext`;
      `verifyReply(t)` is the identity service's reply to verifying `t`. */
  function Call(service: AuthMiddlewareService, path: string, header: Option<string>, ext: Extensions,
                verifyReply: string -> Reply<TokenVerification>): (d: Decision)
    ensures IsPublic(service.publicPaths, path) ==> d == Decision(Forwarded(ext), None)
    ensures !IsPublic(service.publicPaths, path) && !IsBearer(header) ==>
      d == Decision(Rejected(401, Reject("Missing or invalid Authorization header")), None)
    ensures d.verifiedToken.Some? <==> !IsPublic(service.publicPaths, path) && IsBearer(header)
    ensures d.verifiedToken.Some? ==> d.verifiedToken.value == BearerToken(header.value)
    ensures d.outcome.Rejected? ==> d.outcome.status == 401 && d.outcome.body.code == HttpCodeW.Unauthorized
    ensures d.verifiedToken.Some? ==>
      var v := VerifyTokenOutcome(verifyReply(d.verifiedToken.value));
      && (v.Err? ==> d.outcome == Rejected(401, Reject("Token verification failed: " + v.error)))
      && (v.Ok? && !v.value.valid ==> d.outcome == Rejected(401, Reject("Invalid token")))
      && (v.Ok? && v.value.valid ==>
            d.outcome == Forwarded(ext.(userContext := Some(ContextOf(v.value, d.verifiedToken.value)))))
  {
    if IsPublic(service.publicPaths, path) then Decision(Forwarded(ext), None)
    else if !IsBearer(header) then Decision(Rejected(401, Reject("Missing or invalid Authorization header")), None)
    else
      var token := BearerToken(header.value);
      var verification := VerifyTokenOutcome(verifyReply(token));
      if verification.Err? then
        Decision(Rejected(401, Reject("Token verification failed: " + verification.error)), Some(token))
      else if !verification.value.valid then
        Decision(Rejected(401, Reject("Invalid token")), Some(token))
      else
        Decision(Forwarded(ext.(userContext := Some(ContextOf(verification.value, token)))), Some(token))
  }

  /** A request is forwarded exactly when its path is public or the identity
      service vouches for its token. */
  lemma ForwardedIff(service: AuthMiddlewareService, path: string, header: Option<string>, ext: Extensions,
                     verifyReply: string -> Reply<TokenVerification>)
    ensures Call(service, path, header, ext, verifyReply).outcome.Forwarded? <==>
      IsPublic(service.publicPaths, path)
      || (IsBearer(header)
          && var v := VerifyTokenOutcome(verifyReply(BearerToken(header.value))); v.Ok? && v.value.valid)
  {
  }

  /** After a forwarded non-public request, the handler's `UserContext`
      extractor succeeds with the token the middleware verified. */
  lemma ForwardedCarriesContext(service: AuthMiddlewareService, path: string, header: Option<string>, ext: Extensions,
                                verifyReply: string -> Reply<TokenVerification>)
    requires !IsPublic(service.publicPaths, path)
    requires Call(service, path, header, ext, verifyReply).outcome.Forwarded?
    ensures var d := Call(service, path, header, ext, verifyReply);
            UserContextFromRequest(d.outcome.ext).Ok?
            && UserContextFromRequest(d.outcome.ext).value.token == d.verifiedToken.value
  {
  }

  /** A public path with no context attached reaches handlers that require a
      `UserContext` only to be refused. */
  lemma PublicRequestsCarryNoContext(service: AuthMiddlewareService, path: string, header: Option<string>,
                                     verifyReply: string -> Reply<TokenVerification>)
    requires IsPublic(service.publicPaths, path)
    ensures UserContextFromRequest(Call(service, path, header, NoExtensions, verifyReply).outcome.ext).Err?
  {
  }

  /** Prefix matching makes "/healthz" and "/playground/x" public under the
      default paths, while "/v1/users" is not. */
  lemma PublicPathExamples()
    ensures IsPublic(DefaultPublicPaths, "/healthz")
    ensures IsPublic(DefaultPublicPaths, "/playground/x")
    ensures !IsPublic(DefaultPublicPaths, "/v1/users")
  {
    assert StartsWith("/healthz", DefaultPublicPaths[0]);
    assert StartsWith("/playground/x", DefaultPublicPaths[2]);
    assert "/v1/users"[1] != "/health"[1];
    assert "/v1/users"[1] != "/api/health"[1];
    assert "/v1/users"[1] != "/playground"[1];
  }

  /** Every leading "Bearer " is removed: "Bearer Bearer x" verifies "x". */
  lemma RepeatedBearerExample()
    ensures BearerToken("Bearer Bearer x") == "x"
  {
    assert StartsWith("Bearer Bearer x", "Bearer ");
    assert "Bearer Bearer x"[|"Bearer "|..] == "Bearer x";
    assert StartsWith("Bearer x", "Bearer ");
    assert "Bearer x"[|"Bearer "|..] == "x";
    assert !StartsWith("x", "Bearer ");
  }
}
