# yuhuu-function, modelled in Dafny

yuhuu-function is the back end of a church-community application, written in Rust on actix-web and SeaORM.
It has these parts:

- **Authentication gatekeeping.** Two middlewares (`AuthMiddleware` and the introspecting `JwtAuth`) decide whether a request reaches a handler and attach the caller's identity. `Subject` and `UserContext` pull that identity back out, and they fail closed.
- **Account linking.** A user of the external auth server gets a church-side user row on first sight (find-or-create). The new user is also given the "Member" role when that role exists.
- **Service-layer table operations.** These cover roles, role assignments (soft-deactivated rather than deleted), dinners and their participants, user profiles with partial updates, and a one-call "bootstrap" that links a user and optionally creates a profile.
- **An older set of handlers.** They answer with raw HTTP statuses and branch on database faults.
- **The `http-response` crate.** It holds the status enum, the `{message, code}` envelope, the `DbErr` to `CustomError` mapping and the error response.
- **Smaller pieces.** These are the Strapi GraphQL JSON extraction, the configuration lookup (secrets map, then environment, then default) and the CORS origin predicate.

## How the model is built

- Most modules follow one Rust source file. The exceptions are:
  - `Identity` covers both `subject.rs` and `user_context.rs`, because the two extractors share one typed extension store;
  - `Response` covers `create_response.rs` and `response_object.rs`;
  - `features/users/service.rs` is split into `UserQueries` (the read-only lookups) and `UserLinking` (`link_user`), because the users and user-roles services call each other and Dafny modules cannot import each other;
  - `Paging`, `Store`, `Json`, `Strings` and `Wrappers` follow no single file: they hold the shared page arithmetic, the tables, the JSON values, string helpers and `Option`/`Result`.
- The database is one `Store.Database` class. Each table is a `seq` field with a next-id counter. Its `Valid()` holds these uniqueness facts:
  - one user per `auth_user_id`;
  - one role per name;
  - one active assignment per (user, role);
  - one participant per (dinner, user);
  - one profile per user.
- Service operations that write are methods with `modifies db`. Each one states its whole new state and, through `OnlyChanged`, which tables and id counters it may change; every other table is unchanged. Read-only queries are functions over the table values.
- Things outside the program are parameters:
  - the clock (`now`, `today`) and UUIDs;
  - the auth server's replies (`string -> Reply<…>`);
  - the chrono date parser (`string -> Option<Date>`);
  - Doppler's `secrets_get`;
  - the database faults that the older handlers branch on (`Option<DbErr>`).
- The middlewares are pure functions to a decision. `Middleware.Call` takes the path, the header and the verifier's reply. `Jwt.Call` takes the header and the introspection reply, and no path. A decision is a rejection with a response, or forwarding with the extensions. `Jwt.Call` has a third outcome: a transport failure returns an error.
- Strings are `seq<char>`. Lower-casing is ASCII only.

## Model

| member | source | states |
|---|---|---|
| Middleware.AuthMiddleware.constructor | crates/auth-integration/src/middleware.rs:21-30 | the public paths start as exactly "/health", "/api/health", "/playground", and the client is kept |
| Middleware.AuthMiddleware.WithPublicPaths | crates/auth-integration/src/middleware.rs:33-36 | the given paths are appended after the existing ones, every earlier path stays, and the client is untouched |
| Middleware.AuthMiddleware.NewTransform | crates/auth-integration/src/middleware.rs:51-57 | the service gets the same client and public paths |
| Middleware.ContextOf | crates/auth-integration/src/middleware.rs:145-157 | auth_user_id is user_id or "", email passes through, role is the upstream role or "user", token is the extracted token |
| Middleware.Call | crates/auth-integration/src/middleware.rs:78-159 | public paths are forwarded unchanged without consulting the verifier; a missing or non-"Bearer " header gives 401 "Missing or invalid Authorization header"; the verifier sees the header with every leading "Bearer " removed; its error gives 401 "Token verification failed: …"; an invalid verification gives 401 "Invalid token"; a valid one forwards with the context; every rejection has code Unauthorized |
| Middleware.IsPublic | crates/auth-integration/src/middleware.rs:82-85 | a listed path is public, a public path starts with a listed one, and with no listed paths nothing is public |
| Middleware.BearerToken | crates/auth-integration/src/middleware.rs:108-110 | the token is a suffix of the header with no "Bearer " left in front, and a header without the prefix is kept whole |
| Middleware.ForwardedIff | crates/auth-integration/src/middleware.rs:82-157 | a request is forwarded iff its path is public or it has a bearer token that verifies as valid |
| Middleware.ForwardedCarriesContext | crates/auth-integration/src/middleware.rs:145-157 | a forwarded non-public request yields a UserContext whose token is the verified token |
| Middleware.PublicRequestsCarryNoContext | crates/auth-integration/src/middleware.rs:82-93 | a public request carries no UserContext, so the extractor rejects it |
| Middleware.PublicPathExamples | crates/auth-integration/src/middleware.rs:82-93 | "/healthz" and "/playground/x" are public by prefix; "/v1/users" is not |
| Middleware.RepeatedBearerExample | crates/auth-integration/src/middleware.rs:108-110 | "Bearer Bearer x" yields the token "x" |
| Jwt.ExtractToken | crates/auth-integration/src/jwt.rs:84-95 | a token exists iff the header starts with "Bearer ", and exactly one prefix is stripped |
| Jwt.IntrospectUrl | crates/auth-integration/src/jwt.rs:98 | the base URL without its trailing '/' characters, followed by "/v1/auth/introspect" |
| Jwt.IntrospectBody | crates/auth-integration/src/jwt.rs:101 | a one-member JSON object holding the token |
| Jwt.AttachSubject | crates/auth-integration/src/jwt.rs:132-143 | the Subject {sub, token_uuid} and the uuid string are attached, and the UserContext slot is kept |
| Jwt.Call | crates/auth-integration/src/jwt.rs:79-145 | with no bearer token the answer is 401 and no introspection is made; otherwise the introspection goes to IntrospectUrl with IntrospectBody; a transport failure is an Unauthorized error "Failed to connect to auth service, …"; the request is forwarded iff the reply is 2xx, decodes and is active, and any other reply is an empty 401; a Subject is attached iff both sub and token_uuid are present |
| Jwt.TransportFailureIs401 | crates/auth-integration/src/jwt.rs:103-109 | a transport failure becomes an error whose response status is 401 |
| Jwt.SubjectAfterForward | crates/auth-integration/src/jwt.rs:133-145 | after forwarding, the Subject extractor succeeds iff sub and token_uuid were both present, and otherwise fails with "unauthenticated" |
| Jwt.SingleBearerExample | crates/auth-integration/src/jwt.rs:88 | "Bearer Bearer x" yields the token "Bearer x" |
| Identity.SubjectFromRequest | crates/auth-integration/src/subject.rs:14-28 | it succeeds iff a typed Subject is present and returns it unchanged; otherwise it gives 401 "subject missing token uuid" when a String is present and 401 "unauthenticated" when not |
| Identity.UserContextFromRequest | crates/auth-integration/src/user_context.rs:38-47 | it succeeds iff a UserContext is present; otherwise 401 "User not authenticated" |
| Identity.Unauthorized | crates/auth-integration/src/subject.rs:22-26 | the rejection carries status 401 and the given message |
| Identity.IsAdmin | crates/auth-integration/src/user_context.rs:23-25 | "admin", "Admin" and "ADMIN" are admin, and an admin role is five characters long |
| Identity.HasRole | crates/auth-integration/src/user_context.rs:28-30 | a context has its own role textually, and a role it has is as long as its own |
| Identity.HasOwnRole | crates/auth-integration/src/user_context.rs:28-30 | a context always has its own role |
| Identity.AdminIsHasRoleAdmin | crates/auth-integration/src/user_context.rs:23-30 | is_admin is exactly has_role("admin") |
| Identity.HasRoleIgnoresCase | crates/auth-integration/src/user_context.rs:28-30 | has_role does not depend on the case of the requested role |
| Identity.RoleExamples | crates/auth-integration/src/user_context.rs:55-78 | "Admin" is admin; "Editor" has "editor" and "Editor" but not "admin" |
| Client.New | crates/auth-integration/src/client.rs:39-48 | the stored URL is the given URL with all trailing '/' removed, and the API key is kept |
| Client.NewIdempotent | crates/auth-integration/src/client.rs:41 | trimming an already-trimmed URL changes nothing |
| Client.NewExamples | crates/auth-integration/src/client.rs:158-167 | "http://localhost:8080/" becomes "http://localhost:8080", and a trimmed URL is kept |
| Client.GetUserRequest | crates/auth-integration/src/client.rs:51-57 | GET base + "/api/users/" + id; an Authorization "Bearer <key>" header is sent iff a key is set |
| Client.GetUserByEmailRequest | crates/auth-integration/src/client.rs:79-85 | GET base + "/api/users/email/" + email, with the same Authorization rule |
| Client.VerifyTokenRequest | crates/auth-integration/src/client.rs:107-116 | POST base + "/api/auth/verify" with "Bearer <token>"; "X-API-Key" is present iff a key is configured |
| Client.Outcome | crates/auth-integration/src/client.rs:59-75 | a send failure gives its context message; a non-success status gives an error with the status, reason and body text; only success replies are decoded, and a decode failure gives the parse message |
| Client.GetUserOutcome | crates/auth-integration/src/client.rs:59-76 | a user iff the reply is 2xx and decodes, and then the decoded user; "Failed to send request to auth server" on a send failure; "Failed to parse auth user response" on a 2xx that does not decode; otherwise an error starting "Auth server returned error: " and the status |
| Client.VerifyTokenOutcome | crates/auth-integration/src/client.rs:118-134 | a verification iff the reply is 2xx and decodes, and then the decoded value; "Failed to send token verification request" on a send failure; "Failed to parse token verification response" on a 2xx that does not decode; otherwise an error starting "Token verification failed: " and the status |
| Client.UserExists | crates/auth-integration/src/client.rs:138-150 | true on success, false when the error text contains "404" or "not found", and every other error is propagated |
| Client.UserExistsOn404 | crates/auth-integration/src/client.rs:138-150 | a 404 reply from get_user makes user_exists false |
| Client.UserExistsPropagatesFailures | crates/auth-integration/src/client.rs:138-150 | a send failure or an undecodable success reply makes user_exists an error |
| AuthService.FindByAuthId | crates/auth-integration/src/service.rs:46-52 | a row is found iff one has that auth_user_id, and that row is the one returned |
| AuthService.GetCompleteUser | crates/auth-integration/src/service.rs:21-43 | a missing church row gives "Church user not found"; for the first row with that id, the result is Ok exactly when get_user succeeds for its auth_user_id, and is then the join of the two; otherwise it is "Failed to fetch auth user" |
| AuthService.FindByEmail | crates/auth-integration/src/service.rs:55-72 | an auth-server error is propagated; otherwise the result is None iff there is no church row, and else the joined user |
| AuthService.LinkAuthUser | crates/auth-integration/src/service.rs:75-103 | it fails iff the auth lookup fails, and then changes nothing; an existing row is returned and nothing changes; otherwise exactly one row with that auth_user_id and created_at == updated_at is appended |
| AuthService.LinkAuthUserByEmail | crates/auth-integration/src/service.rs:106-114 | "User not found in auth server" without any change when the email lookup fails; otherwise the found id is linked as link_auth_user does: the same error with no change, the existing row with no change, or exactly one appended row with that id, and only the users table changes |
| AuthService.FullName | crates/auth-integration/src/service.rs:129-136 | both names joined by one space when both are present; exactly the first name or exactly the last name when only that one is present; the email when both are absent |
| AuthService.IsAdminAgreesWithContext | crates/auth-integration/src/service.rs:149-151 | CompleteUser.is_admin agrees with the case-insensitive UserContext check |
| AuthService.IsAdmin | crates/auth-integration/src/service.rs:149-151 | "admin", "Admin" and "ADMIN" are admin, and an admin role is five characters long |
| UserLinking.LinkUser | crates/functions/src/features/users/service.rs:17-69 | an existing link is answered "User already linked" with no change; otherwise one user row is appended with message "User linked successfully with Member role"; the Member role is assigned, with the user as assigner, iff that role exists; afterwards the id is linked |
| UserLinking.InsertUser | crates/functions/src/features/users/service.rs:39-49 | an unlinked id gets exactly one appended row with that auth_user_id and created_at == updated_at, and no other table changes |
| UserLinking.AssignMember | crates/functions/src/features/users/service.rs:51-58 | the user is given the Member role, as its own assigner, iff that role exists and no active assignment exists; otherwise the assignments are unchanged; only that table changes |
| UserLinking.LinkTwice | crates/functions/src/features/users/service.rs:23-49 | two links of the same id return the same row id, the second says "User already linked", and at most one row is added; an id already linked changes nothing, and a new one adds exactly the first call's user row and Member assignment |
| UserLinking.LinkStatus | crates/functions/src/features/users/handlers.rs:15-19 | 200 iff the message contains "already", else 201 |
| UserLinking.LinkStatusOfMessages | crates/functions/src/features/users/handlers.rs:15-19 | the already-linked message answers 200 and the newly-linked one 201 |
| UserQueries.GetUserById | crates/functions/src/features/users/service.rs:72-87 | found iff a row has that id; otherwise NotFound "User not found" |
| UserQueries.ListUsers | crates/functions/src/features/users/service.rs:89-118 | the page is the normalised page, so a page below 1 becomes 1 and any other is kept; a limit in 1..=100 becomes 20 and any other is kept; the data is the page taken with the limit as u64 |
| UserQueries.ListUsersIgnoresInRangeLimit | crates/functions/src/features/users/service.rs:95-99 | a request for 50 users returns 20, where the clamped listing returns 50 |
| Paging.NormalizePage | crates/functions/src/features/dinners/service.rs:78 | a page below 1 becomes 1, and any other page is unchanged |
| Paging.ClampLimit | crates/functions/src/features/dinners/service.rs:79 | a limit in 1..=100 is kept and any other becomes 20 |
| Paging.InvertedLimit | crates/functions/src/features/users/service.rs:95-99 | a limit in 1..=100 becomes 20 and any other is kept |
| Paging.InvertedLimitCounterexample | crates/functions/src/features/roles/service.rs:81-86 | for 50, 0 and 500 the as-written and the clamped limits differ |
| Paging.LimitsAgreeOnlyAt20 | crates/functions/src/features/users/service.rs:95-99 | the inverted and the clamped limits agree only at 20 |
| Paging.AsU64 | crates/functions/src/features/users/service.rs:103 | `limit as u64` wraps modulo 2^64 |
| Paging.NegativeLimitAsU64 | crates/functions/src/features/users/service.rs:95-103 | a negative limit passes the inverted test and wraps to 2^64 + limit |
| Paging.PageOf | crates/functions/src/features/dinners/service.rs:84-86 | the rows from offset (page-1)*size, at most size of them, in table order |
| Paging.ClampedListing | crates/functions/src/handlers/users.rs:116-129 | the page and limit are normalised; the data is the page at that limit, never more than 100 rows, and exactly the limit when rows are there |
| RolesService.CreateRole | crates/functions/src/features/roles/service.rs:16-44 | a taken name gives Conflict without insert; otherwise one row with created_at == updated_at is appended |
| RolesService.GetRoleById | crates/functions/src/features/roles/service.rs:47-57 | found iff a row has that id; otherwise NotFound "Role not found" |
| RolesService.GetRoleByName | crates/functions/src/features/roles/service.rs:60-73 | found iff a row has that name; otherwise NotFound "Role '<name>' not found" |
| RolesService.ListRoles | crates/functions/src/features/roles/service.rs:76-104 | the page is the normalised page (below 1 becomes 1); a limit in 1..=100 becomes 20 and any other is kept; the data is the page taken with the limit as u64, and the total is the table size |
| RolesService.ListRolesIgnoresInRangeLimit | crates/functions/src/features/roles/service.rs:81-86 | a request for 30 roles returns 20, where the clamped listing returns 30 |
| RolesService.MergeRoleFields | crates/functions/src/features/roles/service.rs:137-149 | None fields keep their values, Some fields overwrite, updated_at is refreshed, and id and created_at stay |
| RolesService.MergeRoleIdempotent | crates/functions/src/features/roles/service.rs:137-149 | applying the same update twice equals applying it once |
| RolesService.MergeRole | crates/functions/src/features/roles/service.rs:133-149 | the merged row keeps id and created_at, takes the new name when one is sent and keeps the old one otherwise, and has updated_at now |
| RolesService.UpdateRole | crates/functions/src/features/roles/service.rs:107-154 | NotFound first; Conflict only when another id has the new name; otherwise only that row becomes the merge |
| RolesService.RenameToOwnNameAllowed | crates/functions/src/features/roles/service.rs:121-135 | a role's own name never conflicts with itself |
| RolesService.DeleteRole | crates/functions/src/features/roles/service.rs:157-167 | NotFound iff absent; otherwise exactly that row is removed, and no row with the id remains |
| UserRolesService.AssignRole | crates/functions/src/features/user_roles/service.rs:29-72 | user NotFound, then role NotFound, then Conflict "User already has the '<name>' role", all without writes; otherwise one active row is appended with assigned_by set and the role's name |
| UserRolesService.RemoveRole | crates/functions/src/features/user_roles/service.rs:75-101 | NotFound "User does not have this role" iff there is no active assignment; otherwise only that row is deactivated and refreshed, not deleted, and no active assignment remains |
| UserRolesService.NoOtherActive | crates/functions/src/features/user_roles/service.rs:95-98 | deactivating the single active row leaves no active assignment for the pair |
| UserRolesService.BuildResponse | crates/functions/src/features/user_roles/service.rs:14-26 | the response carries every column of the assignment row unchanged, plus the given role name |
| UserRolesService.CollectRoles | crates/functions/src/features/user_roles/service.rs:112-124 | every assignment whose role exists contributes a response with that role's name, and nothing else does |
| UserRolesService.GetUserRoles | crates/functions/src/features/user_roles/service.rs:104-127 | NotFound for a missing user; otherwise the responses of the user's active assignments in table order, skipping assignments with a missing role |
| UserRolesService.GetUsersByRole | crates/functions/src/features/user_roles/service.rs:130-150 | NotFound "Role not found" iff the role is missing; otherwise one response per active assignment of that role, in table order and with the role's name; every response comes from such an assignment |
| Store.FilterAppend | crates/functions/src/features/user_roles/service.rs:137-141 | a filtered query keeps table order: filtering a concatenation gives the filtered parts in order |
| DinnersService.CreateDinner | crates/functions/src/features/dinners/service.rs:16-50 | an invalid date gives BadRequest "Invalid date format. Use YYYY-MM-DD" without insert; otherwise one row with created_at == updated_at |
| DinnersService.GetDinner | crates/functions/src/features/dinners/service.rs:52-71 | found iff a row has that id; otherwise NotFound "Dinner not found" |
| DinnersService.Insert | crates/functions/src/features/dinners/service.rs:83 | the result holds the rows of the input plus exactly that row |
| DinnersService.InsertSorted | crates/functions/src/features/dinners/service.rs:83 | inserting into a date-descending list keeps it date-descending |
| DinnersService.SortByDateDesc | crates/functions/src/features/dinners/service.rs:83 | the result is sorted by dinner_date descending and is a permutation of the input |
| DinnersService.SortedSlice | crates/functions/src/features/dinners/service.rs:83-90 | every slice of a sorted list is sorted |
| DinnersService.PageOfSorted | crates/functions/src/features/dinners/service.rs:83-90 | a page of a sorted list is sorted and drawn from it |
| DinnersService.ListDinners | crates/functions/src/features/dinners/service.rs:73-111 | the page and limit are normalised; the data is a page of the date-descending order, sorted, drawn from the table, at most limit long |
| DinnersService.AddParticipant | crates/functions/src/features/dinners/service.rs:113-164 | Dinner NotFound first, then Conflict "User already recorded for this dinner", without writes; otherwise one row for that dinner; one row per (dinner, user) is kept |
| DinnersService.GetDinnerWithParticipants | crates/functions/src/features/dinners/service.rs:166-210 | NotFound iff the dinner is missing; otherwise the participant rows with that dinner_id, each once and in table order (a Filter of the table) |
| DinnersService.RemoveParticipant | crates/functions/src/features/dinners/service.rs:212-233 | "Participant not found"; a participant of another dinner gives BadRequest without change; otherwise exactly that row is deleted |
| ProfilesService.ParseDate | crates/functions/src/features/profiles/service.rs:149-161 | None gives Ok(None), a valid date Ok(Some), an invalid one BadRequest |
| ProfilesService.AsWrittenCreatedRow | crates/functions/src/features/profiles/service.rs:35 | a created profile row always has id 0 |
| ProfilesService.AsWrittenIdsCollide | crates/functions/src/features/profiles/service.rs:35 | two users' profiles created as written share one primary key, so no valid table holds both |
| ProfilesService.CreateProfile | crates/functions/src/features/profiles/service.rs:12-58 | Conflict "Profile already exists for this user", then a date error, without insert; otherwise one row with the request fields and a fresh id |
| ProfilesService.MergeNothingKeepsText | crates/functions/src/features/profiles/service.rs:81-122 | an update that sends nothing keeps every text column |
| ProfilesService.MergeTextIdempotent | crates/functions/src/features/profiles/service.rs:81-122 | the merge is idempotent |
| ProfilesService.MergeTextColumns | crates/functions/src/features/profiles/service.rs:81-122 | for each of the twelve text columns, a sent value overwrites and an absent one keeps the stored value |
| ProfilesService.Updated | crates/functions/src/features/profiles/service.rs:81-122 | the updated row keeps id, uuid, user_id and created_at, has the merged text columns, takes a sent date of birth or keeps the old one, and has updated_at now |
| ProfilesService.UpdateProfile | crates/functions/src/features/profiles/service.rs:61-127 | NotFound "Profile not found for this user"; an invalid date saves nothing; otherwise only that row becomes the merge with updated_at refreshed |
| ProfilesService.GetProfile | crates/functions/src/features/profiles/service.rs:130-146 | found iff the user has a profile; otherwise NotFound |
| Bootstrap.Bootstrap | crates/functions/src/features/bootstrap/handlers.rs:12-59 | linking happens first and stays made: an existing link changes neither users nor assignments, a new one appends exactly the linked row and the Member assignment step; the returned user is that row, and linked is true iff there was no earlier link; an existing profile is returned with created.profile false; a missing one that is asked for is created with the next id, the body's fields, the given uuid and now; otherwise profile is None; the only error is the date BadRequest, exactly when creation is asked for and the date does not parse, and then no profile is written; roles, dinners and participants never change; the answer is HTTP 200 with envelope code Created |
| Bootstrap.LinkedUser | crates/functions/src/features/users/service.rs:23-49 | the user link_user leaves: the linked row, or the new row at the next id |
| Bootstrap.LinkAndLoad | crates/functions/src/features/bootstrap/handlers.rs:20-25 | the loaded user is the linked row; with an earlier link nothing changes, otherwise the users table gains exactly that row and the Member assignment step runs; only users and assignments may change |
| Bootstrap.LoadProfile | crates/functions/src/features/bootstrap/handlers.rs:27-48 | the existing profile with no change; or the created row with the next id, the body's fields, uuid and now; or None with no change; an error exactly when a requested profile's date does not parse, and then no change; only the profiles table may change |
| Bootstrap.UserIdsAreUnique | crates/functions/src/features/bootstrap/handlers.rs:23-25 | the user row loaded by id after linking belongs to the subject |
| LegacyUsers.LinkUser | crates/functions/src/handlers/users.rs:25-74 | 500 "Database error: …" on lookup failure; 200 "User already linked"; 500 "Failed to create user: …"; else 201 with one inserted row and no role assignment |
| LegacyUsers.GetUser | crates/functions/src/handlers/users.rs:86-107 | 500 on a fault; 200 iff the id exists; otherwise 404 "User not found" |
| LegacyUsers.ListUsers | crates/functions/src/handlers/users.rs:111-145 | 500 on a fetch fault; otherwise 200 with the clamped listing, and total 0 when the count fails |
| LegacyProfiles.CreateProfile | crates/functions/src/handlers/profiles.rs:11-73 | 409 only when the lookup succeeded and found a profile; otherwise 400 on a bad date, 500 on an insert failure, else 201 with one row |
| LegacyProfiles.UpdateProfile | crates/functions/src/handlers/profiles.rs:77-171 | 500 on lookup failure, 404 without a profile, 400 on a bad date before any change, 500 on a save failure, else 200 with the merged row |
| LegacyProfiles.GetProfile | crates/functions/src/handlers/profiles.rs:175-196 | 500 on a fault, 200 with the profile, or 404 "Profile not found" |
| HttpCode.Discriminant | crates/http-response/src/http_code_w.rs:4-24 | the successful codes lie in 200..299, the client errors in 400..499 and the server errors in 500..599 |
| HttpCode.FromDiscriminantInverts | crates/http-response/src/http_code_w.rs:4-24 | every code is recovered from its number |
| HttpCode.DiscriminantInjective | crates/http-response/src/http_code_w.rs:6-23 | the discriminants are pairwise distinct |
| HttpCode.FromDiscriminant | crates/http-response/src/http_code_w.rs:4-24 | a number maps only to the code with that discriminant |
| HttpCode.FromVariantName | crates/http-response/src/http_code_w.rs:3 | a name maps only to the code serialised under it |
| HttpCode.VariantNameRoundTrip | crates/http-response/src/http_code_w.rs:3 | every code is recovered from its serialised name |
| HttpCode.VariantNameInjective | crates/http-response/src/http_code_w.rs:3 | distinct codes serialise differently |
| Response.CreateResponse | crates/http-response/src/create_response.rs:25-27 | the envelope holds exactly the given message and code |
| HttpCode.VariantName | crates/http-response/src/http_code_w.rs:3 | the serialised name of a code is its variant's name: at least two characters, starting with a capital letter; VariantNameRoundTrip and VariantNameInjective show that it names exactly that code |
| Response.ToJson | crates/http-response/src/response_object.rs:17-20 | a two-member object with keys "message" then "code", the code as its variant name |
| Response.ToJsonRoundTrip | crates/http-response/src/response_object.rs:6-20 | the envelope is recovered from its JSON |
| ResponseBuilder.Ok | crates/http-response/src/http_response_builder.rs:25-27 | code OK, message unchanged |
| ResponseBuilder.Created | crates/http-response/src/http_response_builder.rs:50-52 | code Created, message unchanged |
| ResponseBuilder.NoContent | crates/http-response/src/http_response_builder.rs:76-78 | code NoContent, message unchanged |
| ResponseBuilder.BadRequest | crates/http-response/src/http_response_builder.rs:102-104 | code BadRequest, message unchanged |
| ResponseBuilder.Unauthorized | crates/http-response/src/http_response_builder.rs:127-129 | code Unauthorized, message unchanged |
| ResponseBuilder.Conflict | crates/http-response/src/http_response_builder.rs:153-155 | code Conflict, message unchanged |
| ResponseBuilder.NotFound | crates/http-response/src/http_response_builder.rs:179-181 | code NotFound, message unchanged |
| ResponseBuilder.InternalServerError | crates/http-response/src/http_response_builder.rs:205-207 | code InternalServerError, message unchanged |
| ResponseBuilder.NotImplemented | crates/http-response/src/http_response_builder.rs:232-234 | code NotImplemented, message unchanged |
| ResponseBuilder.HelpersDistinct | crates/http-response/src/http_response_builder.rs:25-234 | the nine helpers yield nine distinct status numbers |
| PreparedResponse.CheckResponseOkOrReturnError | crates/http-response/src/prepared_response.rs:52-61 | Ok iff the input is Ok, then HTTP 200 whose body is code OK with the unaltered value; an error is returned unchanged |
| ErrorHandler.New | crates/http-response/src/error_handler.rs:49-55 | the error stores both the code and the message |
| ErrorHandler.Display | crates/http-response/src/error_handler.rs:57-61 | exactly the message is printed |
| ErrorHandler.FromDbErr | crates/http-response/src/error_handler.rs:67-107 | NotFound iff RecordNotFound, with "Auth record not found"; every other variant is InternalServerError with its own prefix before the detail |
| ErrorHandler.DbErrPrefixInjective | crates/http-response/src/error_handler.rs:69-107 | distinct variants have distinct prefixes |
| ErrorHandler.StatusFromU16 | crates/http-response/src/error_handler.rs:124-125 | a number in 100..=999 is kept and any other gives 500 |
| ErrorHandler.ErrorResponse | crates/http-response/src/error_handler.rs:112-127 | the HTTP status is the code's discriminant, and the body is the envelope of the message and code |
| ErrorHandler.NotFoundNopeResponse | crates/functions/tests/response_shape.rs:18-32 | NotFound "nope" answers 404 with JSON code "NotFound" and message "nope" |
| ErrorHandler.ValidatedJson | crates/http-response/src/error_handler.rs:145-168 | a decoded value is wrapped unchanged; a failure gives BadRequest "JSON payload error: " followed by the detail |
| Strapi.FlatSnap | crates/graphql/src/strapi_client.rs:55-65 | an element yields a snap iff it has string title and subTitle; its document_id is its index |
| Strapi.FlatSnaps | crates/graphql/src/strapi_client.rs:46-66 | at most one snap per element |
| Strapi.FlatSnapsCons | crates/graphql/src/strapi_client.rs:55-66 | the first element's snap, if any, comes before those of the rest, which are numbered from the next position |
| Strapi.FlatSnapsComplete | crates/graphql/src/strapi_client.rs:46-66 | every qualifying element yields its snap, keyed by its position in the original array |
| Strapi.FlatSnapsSound | crates/graphql/src/strapi_client.rs:46-66 | every collected snap is the snap of some element at its own position |
| Strapi.FlatSnapsAppend | crates/graphql/src/strapi_client.rs:46-66 | the collection keeps input order and multiplicity: a concatenation gives the first part's snaps, then the second part's, numbered on from where the first part stops |
| Strapi.FlatSnapsOne | crates/graphql/src/strapi_client.rs:55-65 | a single element gives its snap, or nothing when it is dropped |
| Strapi.FlatIdsNotBelow | crates/graphql/src/strapi_client.rs:55-65 | snaps collected from a position on never carry the id of an earlier position |
| Strapi.FlatSnapIdsDistinct | crates/graphql/src/strapi_client.rs:46-66 | the flat shape's document ids are pairwise distinct |
| Strapi.FlatPositionsSurviveDrops | crates/graphql/src/strapi_client.rs:46-66 | after a dropped first element, the kept one still has id "1" |
| Strapi.NestedDocumentId | crates/graphql/src/strapi_client.rs:78-83 | "documentId" when present, "id" only when it is absent, and "unknown" for a non-string |
| Strapi.NestedSnap | crates/graphql/src/strapi_client.rs:77-96 | an element yields a snap iff it has attributes with string title and subTitle |
| Strapi.NestedSnaps | crates/graphql/src/strapi_client.rs:68-98 | every qualifying nested element yields its snap, and nothing else is produced |
| Strapi.NestedSnapsAppend | crates/graphql/src/strapi_client.rs:68-98 | the nested collection keeps input order and multiplicity: a concatenation gives the first part's snaps, then the second part's |
| Strapi.NestedSnapsOne | crates/graphql/src/strapi_client.rs:77-96 | a single nested element gives its snap, or nothing when it lacks a text |
| Strapi.Snaps | crates/graphql/src/strapi_client.rs:46-48 | the financialSanps member exists iff data exists and holds it, and it is that member |
| Strapi.ParseSnaps | crates/graphql/src/strapi_client.rs:46-101 | the flat shape takes precedence, then the nested one; with no financialSanps, or one that is neither an array nor an object with a data array, the result is empty |
| Strapi.ParseSnap | crates/graphql/src/strapi_client.rs:132-156 | an absent or null financialSanp gives None; otherwise the requested id with title and subTitle defaulting to "" |
| Strapi.QueryBody | crates/graphql/src/strapi_client.rs:165-169 | {query} with "variables" only when given |
| Json.Lookup | crates/graphql/src/strapi_client.rs:46-49 | the value found is one the list holds under the key, and None means no pair has the key; HTTP headers are looked up the same way |
| Json.Upsert | crates/graphql/src/strapi_client.rs:166-168 | the key now maps to the value and every other key is unchanged |
| Config.GetOptionalValue | crates/config-env/src/services.rs:176-181 | secrets first, then environment; None only when neither has the key |
| Config.GetValue | crates/config-env/src/services.rs:160-166 | secrets, then environment, then the default |
| Config.GetValueRequired | crates/config-env/src/services.rs:168-174 | the same precedence; fails with "<KEY> must be set" when neither has it |
| Config.ValueLookupsAgree | crates/config-env/src/services.rs:160-174 | the defaulted and required lookups agree whenever the key is present |
| Config.ParseU16 | crates/config-env/src/services.rs:51-53 | a text parses iff what follows one optional '+' is non-empty, all decimal digits and below 65536, and then to that value |
| Config.ParsePortRoundTrip | crates/config-env/src/services.rs:51-53 | every u16 printed in decimal, with or without '+', parses back |
| Config.ParseU16Examples | crates/config-env/src/services.rs:51-53 | "8080" and "+80" parse; "", "+", "-1", "65536", "8a" and "++1" do not |
| Config.ParseBool | crates/config-env/src/services.rs:63-65 | Some exactly for "true" and "false", holding true exactly for "true" |
| Config.SqlxLog | crates/config-env/src/services.rs:63-65 | true exactly for "true" |
| Config.DopplerConfigName | crates/config-env/src/services.rs:92-96 | DOPPLER_ENV when set and non-empty, else DOPPLER_CONFIG when set even if empty, else "dev" |
| Config.FetchedAmong | crates/config-env/src/services.rs:129-157 | only keys from the fixed list are fetched |
| Config.FetchFromDoppler | crates/config-env/src/services.rs:71-158 | None without a token or a non-empty project, or when nothing was fetched; otherwise exactly the fetched secrets, all from the fixed list |
| Config.NewConfig | crates/config-env/src/services.rs:32-69 | "DATABASE_URL must be set", then "PORT must be a valid u16"; construction succeeds exactly when DATABASE_URL is found and PORT parses, and then every kept field is looked up with its default |
| Config.DefaultsWithOnlyDatabase | crates/config-env/src/services.rs:38-69 | with only DATABASE_URL set: port 8080, host "127.0.0.1", SQLx logging off |
| Cors.LoopbackOrigin | main-app/src/main.rs:53-60 | only a text origin can pass, and it starts with "http://localhost" or "http://127.0.0.1" |
| Cors.Allowed | main-app/src/main.rs:52-62 | an origin passes iff it passes the loopback test or is one of the two listed origins; a non-text origin never passes |
| Cors.LoopbackShape | main-app/src/main.rs:53-60 | accepted exactly: "http://localhost:" or "http://127.0.0.1:" followed by anything, or either bare host |
| Cors.OriginExamples | main-app/src/main.rs:53-62 | "http://localhost.evil.com", "https://localhost:3000" and non-text rejected; loopback and "https://nsdhso.github.io" accepted |

## Left out

- Network I/O is not modelled: the reqwest sends and their 10 s timeout, response decoding, the Strapi round-trips and Doppler's `secrets_get`. Their results are parameters.
- Middleware.Call, Jwt.Call: actix `Transform`/`Service`, `Rc` and futures are framework plumbing. The "forwarded exactly once" property is a single `Forwarded` outcome.
- Database faults inside the feature services are not modelled. There `?` passes them on unchanged, and the in-memory store never fails. The older handlers, which branch on faults, take them as parameters.
- Foreign-key constraints and the migrations' unique indexes are not modelled. Migrations are not part of this model.
- `Store.Database.Valid` states unique ids and the unique columns users.auth_user_id, roles.name and user_profiles.user_id.
- Uniqueness of the `uuid` columns (user_profile.rs:12-13, dto/dinner.rs:10-11, dto/dinner_participant.rs:10-11) is not modelled. Uuids are inputs, and the create methods store whatever uuid they are given.
- One participant per (dinner, user) has no unique declaration (dto/dinner_participant.rs:13-14). add_participant keeps it by checking before it inserts.
- One active assignment per (user, role) is kept the same way, by assign_role's check.
- The model proves both as invariants kept in `Valid`.
- The check-then-insert race in linking is not modelled, because the model is sequential.
- The `total_pages` floating-point ceilings are not modelled.
- UserQueries.ListUsers, RolesService.ListRoles: the `(page - 1) * limit` offset is computed on unbounded integers. The u64 overflow of that product for huge pages is not modelled. Nor is the division by a wrapped or zero limit that feeds `total_pages`.
- Queries without an ORDER BY return rows in table order. The order among dinners with equal dates is the model's insertion sort, not the database's.
- `Utc::now()`, UUID v4 generation and chrono's `%Y-%m-%d` parsing are parameters.
- Identity.HasRole, Identity.IsAdmin, AuthService.IsAdmin: `to_lowercase` is ASCII only. Non-ASCII case folding is not modelled.
- Logging (`println!`) is not modelled.
- Strapi: the optional snap fields (image and timestamps) are always None in the source and are not carried. The GraphQL query strings, which interpolate the document id unescaped, are not modelled. The HTTP error branches are network I/O.
- Config.NewConfig: the Rust constructor sets 23 fields; the model keeps 9 of them (app_env, auth_base_url, auth_api_key, database_url, host, port, rust_log, sqlx_log, strapi_api). The other 14 are plain `get_value` lookups with a default, which `Config.GetValue` states. The `OnceCell` holder is not modelled.
- Bootstrap.Bootstrap: the `Err(e)` arm of bootstrap (crates/functions/src/features/bootstrap/handlers.rs:48) cannot be reached in the model. The in-memory `get_profile` fails only with NotFound, and the create branch handles NotFound. Database errors from `get_profile` are not modelled.
- Jwt.Call: the route table in main.rs wraps the whole app in `JwtAuth` (main-app/src/main.rs:49,77-78). There is no path exemption, so "/health" also needs a bearer token. The model has no path input for this reason.
- The remaining route handlers, the health handlers and the GraphQL schema are thin forwarding code and are not modelled.

## Findings

| source | as written | input that shows it | evidently intended | confidence | as-written member | corrected member |
|---|---|---|---|---|---|---|
| crates/functions/src/features/users/service.rs:95-99 | a limit inside 1..=100 is replaced by 20, and a limit outside it is kept | limit 50 with 50 or more users returns 20 rows; limit 0 or 500 is kept as given | a limit outside 1..=100 becomes 20 and one inside is kept, as in handlers/users.rs:116-129 and the dinners service | not executed | UserQueries.ListUsersIgnoresInRangeLimit | Paging.ClampedListing |
| crates/functions/src/features/roles/service.rs:81-86 | the same inverted range test | limit 30 with 30 or more roles returns 20 rows | the same clamp | not executed | RolesService.ListRolesIgnoresInRangeLimit | Paging.ClampedListing |
| crates/functions/src/features/profiles/service.rs:35 | the new profile's id is set to `Default::default()`, which is 0, so the row is inserted with primary key 0 | creating profiles for users 1 and 2 inserts two rows with id 0; the second insert clashes on the primary key | the id is left to the database sequence | not executed | ProfilesService.AsWrittenIdsCollide | ProfilesService.CreateProfile |
| crates/functions/src/handlers/profiles.rs:44 | the older handler also sets the new profile's id to `Default::default()` | the same two users, through the older endpoint | the id is left to the database sequence | not executed | ProfilesService.AsWrittenIdsCollide | LegacyProfiles.CreateProfile |
