/** crates/auth-integration/src/service.rs: church users joined with their
    record at the identity service. The identity service's answers are
    inputs: `getUser` and `getUserByEmail` give the reply the service would
    send for the id or address asked about. Error texts are what `anyhow`
    shows: the outermost context only. */
module AuthService {
  import opened Wrappers
  import opened Strings
  import opened Store
  import Client
  import Identity

  datatype CompleteUser = CompleteUser(
    churchUserId: int, authUserId: string, authUser: Client.AuthUser, createdAt: Timestamp, updatedAt: Timestamp)

  function Join(row: UserRow, authUser: Client.AuthUser): CompleteUser {
    CompleteUser(row.id, row.authUserId, authUser, row.createdAt, row.updatedAt)
  }

  /** `find_by_auth_id` */
  function FindByAuthId(users: seq<UserRow>, authUserId: string): (r: Option<UserRow>)
    ensures r.Some? <==> exists i :: 0 <= i < |users| && users[i].authUserId == authUserId
    ensures r.Some? ==> r.value in users && r.value.authUserId == authUserId
  {
    match FindFirst(users, (u: UserRow) => u.authUserId == authUserId)
    case Some(i) => Some(users[i])
    case None => None
  }

  /** `get_complete_user`: the church row by id, then its identity record. */
  function GetCompleteUser(users: seq<UserRow>, churchUserId: int, getUser: string -> Client.Reply<Client.AuthUser>)
    : (r: Result<CompleteUser, string>)
    ensures (forall i :: 0 <= i < |users| ==> users[i].id != churchUserId) ==> r == Err("Church user not found")
    ensures r.Ok? ==> exists i :: 0 <= i < |users| && users[i].id == churchUserId
                        && Client.GetUserOutcome(getUser(users[i].authUserId)).Ok?
                        && r.value == Join(users[i], Client.GetUserOutcome(getUser(users[i].authUserId)).value)
    ensures r.Err? ==> r.error == "Church user not found" || r.error == "Failed to fetch auth user"
    ensures forall k :: 0 <= k < |users| && users[k].id == churchUserId && (forall j :: 0 <= j < k ==> users[j].id != churchUserId) ==>
      && (r.Ok? <==> Client.GetUserOutcome(getUser(users[k].authUserId)).Ok?)
      && (r.Err? ==> r.error == "Failed to fetch auth user")
      && (r.Ok? ==> r.value == Join(users[k], Client.GetUserOutcome(getUser(users[k].authUserId)).value))
  {
    match FindFirst(users, (u: UserRow) => u.id == churchUserId)
    case None => Err("Church user not found")
    case Some(i) =>
      var authUser := Client.GetUserOutcome(getUser(users[i].authUserId));
      if authUser.Err? then Err("Failed to fetch auth user") else Ok(Join(users[i], authUser.value))
  }

  /** `find_by_email`: the identity record first (its error is passed on as
      it is), then the church row linked to it, if any. */
  function FindByEmail(users: seq<UserRow>, email: string, getUserByEmail: string -> Client.Reply<Client.AuthUser>)
    : (r: Result<Option<CompleteUser>, string>)
    ensures Client.GetUserOutcome(getUserByEmail(email)).Err? ==> r == Err(Client.GetUserOutcome(getUserByEmail(email)).error)
    ensures Client.GetUserOutcome(getUserByEmail(email)).Ok? ==>
      var authUser := Client.GetUserOutcome(getUserByEmail(email)).value;
      && r.Ok?
      && (r.value.None? <==> FindByAuthId(users, authUser.id).None?)
      && (r.value.Some? ==> r.value.value == Join(FindByAuthId(users, authUser.id).value, authUser))
  {
    var authUser :- Client.GetUserOutcome(getUserByEmail(email));
    match FindByAuthId(users, authUser.id)
    case Some(row) => Ok(Some(Join(row, authUser)))
    case None => Ok(None)
  }

  /** `link_auth_user`: the identity service must know the user before the
      database is touched; an existing link is returned as it is. */
  method LinkAuthUser(db: Database, authUserId: string, getUser: string -> Client.Reply<Client.AuthUser>, now: Timestamp)
    returns (r: Result<UserRow, string>)
    requires db.Valid()
    modifies db
    ensures db.Valid()
    ensures r.Err? <==> Client.GetUserOutcome(getUser(authUserId)).Err?
    ensures r.Err? ==> r.error == "Failed to fetch user from auth server" && OnlyChanged(db, {})
    ensures r.Ok? && FindByAuthId(old(db.users), authUserId).Some? ==>
      r.value == FindByAuthId(old(db.users), authUserId).value && OnlyChanged(db, {})
    ensures r.Ok? && FindByAuthId(old(db.users), authUserId).None? ==>
      r.value == UserRow(old(db.nextUserId), authUserId, now, now)
      && db.users == old(db.users) + [r.value] && OnlyChanged(db, {Users})
    ensures r.Ok? ==> r.value in db.users && r.value.authUserId == authUserId
  {
    var authUser := Client.GetUserOutcome(getUser(authUserId));
    if authUser.Err? {
      return Err("Failed to fetch user from auth server");
    }
    var existing := FindByAuthId(db.users, authUserId);
    if existing.Some? {
      return Ok(existing.value);
    }
    var row := UserRow(db.nextUserId, authUserId, now, now);
    db.users := db.users + [row];
    db.nextUserId := db.nextUserId + 1;
    r := Ok(row);
  }

  /** `link_auth_user_by_email`: the address is resolved first, then the id is
      linked as `link_auth_user` does. */
  method LinkAuthUserByEmail(db: Database, email: string, getUserByEmail: string -> Client.Reply<Client.AuthUser>,
                             getUser: string -> Client.Reply<Client.AuthUser>, now: Timestamp)
    returns (r: Result<UserRow, string>)
    requires db.Valid()
    modifies db
    ensures db.Valid()
    ensures Client.GetUserOutcome(getUserByEmail(email)).Err? ==>
      r == Err("User not found in auth server") && OnlyChanged(db, {})
    ensures Client.GetUserOutcome(getUserByEmail(email)).Ok? ==>
      var id := Client.GetUserOutcome(getUserByEmail(email)).value.id;
      && (r.Err? <==> Client.GetUserOutcome(getUser(id)).Err?)
      && (r.Err? ==> r.error == "Failed to fetch user from auth server" && OnlyChanged(db, {}))
      && (r.Ok? && FindByAuthId(old(db.users), id).Some? ==>
            r.value == FindByAuthId(old(db.users), id).value && OnlyChanged(db, {}))
      && (r.Ok? && FindByAuthId(old(db.users), id).None? ==>
            r.value == UserRow(old(db.nextUserId), id, now, now)
            && db.users == old(db.users) + [r.value] && OnlyChanged(db, {Users}))
      && (r.Ok? ==> r.value in db.users && r.value.authUserId == id)
  {
    var authUser := Client.GetUserOutcome(getUserByEmail(email));
    if authUser.Err? {
      return Err("User not found in auth server");
    }
    r := LinkAuthUser(db, authUser.value.id, getUser, now);
  }

  /** `CompleteUser::full_name`: both names separated by a space, the one that
      is present, or else the email address. */
  function FullName(u: CompleteUser): (r: string)
    ensures u.authUser.firstName.Some? ==> StartsWith(r, u.authUser.firstName.value)
    ensures u.authUser.lastName.Some? ==>
      |u.authUser.lastName.value| <= |r| && r[|r| - |u.authUser.lastName.value|..] == u.authUser.lastName.value
    ensures u.authUser.firstName.Some? && u.authUser.lastName.Some? ==>
      r == u.authUser.firstName.value + " " + u.authUser.lastName.value
    ensures u.authUser.firstName.Some? && u.authUser.lastName.None? ==> r == u.authUser.firstName.value
    ensures u.authUser.firstName.None? && u.authUser.lastName.Some? ==> r == u.authUser.lastName.value
    ensures u.authUser.firstName.None? && u.authUser.lastName.None? ==> r == u.authUser.email
  {
    match (u.authUser.firstName, u.authUser.lastName)
    case (Some(first), Some(last)) => first + " " + last
    case (Some(first), None) => first
    case (None, Some(last)) => last
    case (None, None) => u.authUser.email
  }

  /** `CompleteUser::is_admin` */
  predicate IsAdmin(u: CompleteUser): (b: bool)
    ensures b ==> |u.authUser.role| == 5
    ensures u.authUser.role == "admin" || u.authUser.role == "Admin" || u.authUser.role == "ADMIN" ==> b
  {
    AsciiLower(u.authUser.role) == "admin"
  }

  /** The same test as the middleware context's `is_admin`, on the same role. */
  lemma IsAdminAgreesWithContext(u: CompleteUser, token: string)
    ensures IsAdmin(u) <==> Identity.IsAdmin(Identity.UserContext(u.authUserId, Some(u.authUser.email), u.authUser.role, token))
  {
  }
}
