/** crates/auth-integration/src/client.rs: the HTTP client for the external
    identity service. The send itself is an input (`Reply`); what is modelled
    is how a request is shaped and how a reply becomes a result. */
module Client {
  import opened Wrappers
  import opened Strings
  import opened Json

  datatype AuthClient = AuthClient(baseUrl: string, apiKey: Option<string>)

  /** A user record of the identity service (timestamps as opaque numbers). */
  datatype AuthUser = AuthUser(
    id: string, email: string, username: Option<string>,
    firstName: Option<string>, lastName: Option<string>,
    role: string, status: string, emailVerified: bool,
    createdAt: int, updatedAt: int)

  datatype TokenVerification = TokenVerification(
    valid: bool, userId: Option<string>, email: Option<string>, role: Option<string>, exp: Option<int>)

  datatype HttpMethod = GET | POST

  /** A request about to be sent: method, URL and headers in insertion order. */
  datatype OutboundRequest = OutboundRequest(verb: HttpMethod, url: string, headers: seq<(string, string)>)

  /** The network's answer to a request: no answer at all, or a status together
      with its canonical reason phrase (as `StatusCode`'s `Display` prints it),
      the body text, and the body decoded as `T` when it decodes. */
  datatype Reply<T> = SendFailed | Replied(status: nat, reason: string, text: string, decoded: Option<T>)

  /** `AuthClient::new`: the base URL loses all its trailing '/'. */
  function New(baseUrl: string, apiKey: Option<string>): (c: AuthClient)
    ensures StartsWith(baseUrl, c.baseUrl)
    ensures c.baseUrl == [] || c.baseUrl[|c.baseUrl| - 1] != '/'
    ensures forall j :: |c.baseUrl| <= j < |baseUrl| ==> baseUrl[j] == '/'
    ensures c.apiKey == apiKey
  {
    AuthClient(TrimEndMatches(baseUrl, '/'), apiKey)
  }

  /** Building a client from an already-built client's URL changes nothing. */
  lemma NewIdempotent(baseUrl: string, apiKey: Option<string>)
    ensures New(New(baseUrl, apiKey).baseUrl, apiKey) == New(baseUrl, apiKey)
  {
    TrimEndMatchesIdempotent(baseUrl, '/');
  }

  /** The unit tests of client.rs. */
  lemma NewExamples()
    ensures New("http://localhost:8080/", None).baseUrl == "http://localhost:8080"
    ensures New("http://localhost:8080", None).baseUrl == "http://localhost:8080"
  {
    TrimEndMatchesNoop("http://localhost:8080", '/');
    assert "http://localhost:8080/"[..|"http://localhost:8080/"| - 1] == "http://localhost:8080";
  }

  /** `get_user`'s request: GET `{base}/api/users/{id}`, with the API key as a
      bearer credential only when one is configured. */
  method GetUserRequest(c: AuthClient, userId: string) returns (request: OutboundRequest)
    ensures request.verb == GET && request.url == c.baseUrl + "/api/users/" + userId
    ensures Lookup(request.headers, "Authorization").Some? <==> c.apiKey.Some?
    ensures c.apiKey.Some? ==> Lookup(request.headers, "Authorization") == Some("Bearer " + c.apiKey.value)
  {
    request := OutboundRequest(GET, c.baseUrl + "/api/users/" + userId, []);
    if c.apiKey.Some? {
      request := request.(headers := request.headers + [("Authorization", "Bearer " + c.apiKey.value)]);
    }
  }

  /** `get_user_by_email`'s request: GET `{base}/api/users/email/{email}`. */
  method GetUserByEmailRequest(c: AuthClient, email: string) returns (request: OutboundRequest)
    ensures request.verb == GET && request.url == c.baseUrl + "/api/users/email/" + email
    ensures Lookup(request.headers, "Authorization").Some? <==> c.apiKey.Some?
    ensures c.apiKey.Some? ==> Lookup(request.headers, "Authorization") == Some("Bearer " + c.apiKey.value)
  {
    request := OutboundRequest(GET, c.baseUrl + "/api/users/email/" + email, []);
    if c.apiKey.Some? {
      request := request.(headers := request.headers + [("Authorization", "Bearer " + c.apiKey.value)]);
    }
  }

  /** `verify_token`'s request: POST `{base}/api/auth/verify` carrying the token
      as bearer credential, plus "X-API-Key" exactly when a key is configured. */
  method VerifyTokenRequest(c: AuthClient, token: string) returns (request: OutboundRequest)
    ensures request.verb == POST && request.url == c.baseUrl + "/api/auth/verify"
    ensures Lookup(request.headers, "Authorization") == Some("Bearer " + token)
    ensures Lookup(request.headers, "X-API-Key") == c.apiKey
  {
    request := OutboundRequest(POST, c.baseUrl + "/api/auth/verify", [("Authorization", "Bearer " + token)]);
    if c.apiKey.Some? {
      request := request.(headers := request.headers + [("X-API-Key", c.apiKey.value)]);
    }
  }

  /** `StatusCode::is_success` */
  predicate IsSuccess(status: nat) {
    200 <= status <= 299
  }

  /** How the three calls turn a reply into a result. The error text is what
      `anyhow`'s `Display` shows: the outermost context only. */
  function Outcome<T>(reply: Reply<T>, sendFailed: string, statusPrefix: string, parseFailed: string)
    : (r: Result<T, string>)
    ensures reply.SendFailed? ==> r == Err(sendFailed)
    ensures reply.Replied? && !IsSuccess(reply.status) ==>
      r == Err(statusPrefix + NatToString(reply.status) + " " + reply.reason + " - " + reply.text)
    ensures reply.Replied? && IsSuccess(reply.status) ==>
      (r.Ok? <==> reply.decoded.Some?) && (r.Ok? ==> r.value == reply.decoded.value) && (r.Err? ==> r.error == parseFailed)
    ensures r.Ok? ==> reply.Replied? && IsSuccess(reply.status)
  {
    match reply
    case SendFailed => Err(sendFailed)
    case Replied(status, reason, text, decoded) =>
      if !IsSuccess(status) then Err(statusPrefix + NatToString(status) + " " + reason + " - " + text)
      else if decoded.None? then Err(parseFailed)
      else Ok(decoded.value)
  }

  const SendRequestFailed := "Failed to send request to auth server"
  const ParseUserFailed := "Failed to parse auth user response"

  /** `get_user` and `get_user_by_email`, after the send. */
  function GetUserOutcome(reply: Reply<AuthUser>): (r: Result<AuthUser, string>)
    ensures r.Ok? <==> reply.Replied? && IsSuccess(reply.status) && reply.decoded.Some?
    ensures r.Ok? ==> r.value == reply.decoded.value
    ensures reply.SendFailed? ==> r == Err(SendRequestFailed)
    ensures reply.Replied? && IsSuccess(reply.status) && reply.decoded.None? ==> r == Err(ParseUserFailed)
    ensures reply.Replied? && !IsSuccess(reply.status) ==>
      r.Err? && StartsWith(r.error, "Auth server returned error: " + NatToString(reply.status))
  {
    Outcome(reply, SendRequestFailed, "Auth server returned error: ", ParseUserFailed)
  }

  /** `verify_token`, after the send. */
  function VerifyTokenOutcome(reply: Reply<TokenVerification>): (r: Result<TokenVerification, string>)
    ensures r.Ok? <==> reply.Replied? && IsSuccess(reply.status) && reply.decoded.Some?
    ensures r.Ok? ==> r.value == reply.decoded.value
    ensures reply.SendFailed? ==> r == Err("Failed to send token verification request")
    ensures reply.Replied? && IsSuccess(reply.status) && reply.decoded.None? ==>
      r == Err("Failed to parse token verification response")
    ensures reply.Replied? && !IsSuccess(reply.status) ==>
      r.Err? && StartsWith(r.error, "Token verification failed: " + NatToString(reply.status))
  {
    Outcome(reply, "Failed to send token verification request", "Token verification failed: ",
            "Failed to parse token verification response")
  }

  /** `user_exists`, given the outcome of `get_user`. */
  function UserExists(outcome: Result<AuthUser, string>): (r: Result<bool, string>)
    ensures outcome.Ok? ==> r == Ok(true)
    ensures outcome.Err? && (Contains(outcome.error, "404") || Contains(outcome.error, "not found")) ==> r == Ok(false)
    ensures outcome.Err? && !Contains(outcome.error, "404") && !Contains(outcome.error, "not found") ==> r == Err(outcome.error)
  {
    match outcome
    case Ok(_) => Ok(true)
    case Err(msg) =>
      if Contains(msg, "404") || Contains(msg, "not found") then Ok(false) else Err(msg)
  }

  /** A 404 from the identity service means "does not exist", whatever the
      reason phrase and body are. */
  lemma UserExistsOn404(reason: string, text: string, decoded: Option<AuthUser>)
    ensures UserExists(GetUserOutcome(Replied(404, reason, text, decoded))) == Ok(false)
  {
    assert NatToString(404) == "404";
    ContainsInfix("Auth server returned error: ", "404", " " + reason + " - " + text);
    assert "Auth server returned error: " + NatToString(404) + " " + reason + " - " + text
        == "Auth server returned error: " + "404" + (" " + reason + " - " + text);
  }

  /** A failed send and an undecodable body are not read as "does not exist":
      they are propagated. */
  lemma UserExistsPropagatesFailures(reply: Reply<AuthUser>)
    requires reply.SendFailed? || (reply.Replied? && IsSuccess(reply.status) && reply.decoded.None?)
    ensures UserExists(GetUserOutcome(reply)).Err?
  {
    NotContainsByChar(SendRequestFailed, "404", 1);
    NotContainsByChar(SendRequestFailed, "not found", 4);
    NotContainsByChar(ParseUserFailed, "404", 1);
    NotContainsByChar(ParseUserFailed, "not found", 4);
  }
}
