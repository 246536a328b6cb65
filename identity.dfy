/** Who is calling: the records the authentication middlewares attach to a
    request (crates/auth-integration/src/subject.rs, user_context.rs), the
    request's typed extension store, and the two fail-closed extractors. */
module Identity {
  import opened Wrappers
  import opened Strings

  /** The introspected principal: the subject and the token's uuid. */
  datatype Subject = Subject(sub: string, tokenUuid: string)

  /** What the verifying middleware learnt about the caller. */
  datatype UserContext = UserContext(authUserId: string, email: Option<string>, role: string, token: string)

  /** A request's extensions hold at most one value of each type; inserting a
      value of a type replaces the previous one. Only the three types the
      middlewares insert are represented. */
  datatype Extensions = Extensions(userContext: Option<UserContext>, subject: Option<Subject>, text: Option<string>)

  const NoExtensions := Extensions(None, None, None)

  /** The error an extractor answers with: an HTTP status and a plain-text body. */
  datatype RequestError = RequestError(status: nat, message: string)

  function Unauthorized(message: string): (e: RequestError)
    ensures e.status == 401 && e.message == message
  {
    RequestError(401, message)
  }

  /** `UserContext::is_admin`: the ASCII-lowercased role is "admin". */
  predicate IsAdmin(ctx: UserContext): (b: bool)
    ensures b ==> |ctx.role| == 5
    ensures ctx.role == "admin" || ctx.role == "Admin" || ctx.role == "ADMIN" ==> b
  {
    AsciiLower(ctx.role) == "admin"
  }

  /** `UserContext::has_role`: both sides compared after ASCII lowercasing. */
  predicate HasRole(ctx: UserContext, role: string): (b: bool)
    ensures b ==> |ctx.role| == |role|
    ensures ctx.role == role ==> b
  {
    AsciiLower(ctx.role) == AsciiLower(role)
  }

  lemma HasOwnRole(ctx: UserContext)
    ensures HasRole(ctx, ctx.role)
  {
  }

  lemma AdminIsHasRoleAdmin(ctx: UserContext)
    ensures IsAdmin(ctx) <==> HasRole(ctx, "admin")
  {
    assert AsciiLower("admin") == "admin";
  }

  /** The role argument's case does not matter. */
  lemma HasRoleIgnoresCase(ctx: UserContext, role: string)
    ensures HasRole(ctx, role) <==> HasRole(ctx, AsciiLower(role))
  {
    AsciiLowerIdempotent(role);
  }

  /** The unit tests of user_context.rs: "Admin" is an admin; "Editor" has the
      roles "editor" and "Editor" but not "admin". */
  lemma RoleExamples(admin: UserContext, editor: UserContext)
    requires admin.role == "Admin" && editor.role == "Editor"
    ensures IsAdmin(admin)
    ensures HasRole(editor, "editor") && HasRole(editor, "Editor") && !HasRole(editor, "admin")
  {
    assert AsciiLower("Admin") == "admin";
    assert AsciiLower("Editor") == "editor";
    assert AsciiLower("editor") == "editor";
    assert AsciiLower("admin") == "admin";
    assert "editor"[0] != "admin"[0];
  }

  /** `Subject::from_request` */
  function SubjectFromRequest(ext: Extensions): (r: Result<Subject, RequestError>)
    ensures r.Ok? <==> ext.subject.Some?
    ensures r.Ok? ==> r.value == ext.subject.value
    ensures r.Err? ==> r.error.status == 401
    ensures ext.subject.None? && ext.text.Some? ==> r.error.message == "subject missing token uuid"
    ensures ext.subject.None? && ext.text.None? ==> r.error.message == "unauthenticated"
  {
    match ext.subject
    case Some(s) => Ok(s)
    case None =>
      if ext.text.Some? then Err(Unauthorized("subject missing token uuid"))
      else Err(Unauthorized("unauthenticated"))
  }

  /** `UserContext::from_request` */
  function UserContextFromRequest(ext: Extensions): (r: Result<UserContext, RequestError>)
    ensures r.Ok? <==> ext.userContext.Some?
    ensures r.Ok? ==> r.value == ext.userContext.value
    ensures r.Err? ==> r.error == RequestError(401, "User not authenticated")
  {
    match ext.userContext
    case Some(c) => Ok(c)
    case None => Err(Unauthorized("User not authenticated"))
  }
}
