/** crates/functions/src/handlers/users.rs: the user endpoints that talk to the
    database directly and write `{"error": ...}` bodies themselves. Whether a
    database call fails is an input (`Some(e)` is the error it returns). */
module LegacyUsers {
  import opened Wrappers
  import opened ErrorHandler
  import opened Response
  import opened Store
  import opened Paging
  import UserLinking

  /** A body: the payload, or `{"error": text}`. */
  datatype Body<T> = Data(value: T) | Error(error: string)

  const LinkedSuccessfully := "User linked successfully"

  /** `link_user`: 200 with the existing link, 201 with a new one, 500 when
      the lookup or the insert fails. */
  method LinkUser(db: Database, sub: string, now: Timestamp, lookupFault: Option<DbErr>, insertFault: Option<DbErr>)
    returns (r: HttpResponse<Body<UserLinking.LinkUserResponse>>)
    requires db.Valid()
    modifies db
    ensures db.Valid()
    ensures lookupFault.Some? ==>
      r == HttpResponse(500, Error("Database error: " + lookupFault.value.display)) && OnlyChanged(db, {})
    ensures lookupFault.None? && UserLinking.UserIndex(old(db.users), sub).Some? ==>
      var u := old(db.users)[UserLinking.UserIndex(old(db.users), sub).value];
      r == HttpResponse(200, Data(UserLinking.LinkUserResponse(u.id, u.authUserId, u.createdAt, u.updatedAt,
                                                                UserLinking.AlreadyLinked)))
      && OnlyChanged(db, {})
    ensures lookupFault.None? && UserLinking.UserIndex(old(db.users), sub).None? && insertFault.Some? ==>
      r == HttpResponse(500, Error("Failed to create user: " + insertFault.value.display)) && OnlyChanged(db, {})
    ensures lookupFault.None? && UserLinking.UserIndex(old(db.users), sub).None? && insertFault.None? ==>
      r == HttpResponse(201, Data(UserLinking.LinkUserResponse(old(db.nextUserId), sub, now, now, LinkedSuccessfully)))
      && db.users == old(db.users) + [UserRow(old(db.nextUserId), sub, now, now)]
      && OnlyChanged(db, {Users})
  {
    if lookupFault.Some? {
      return HttpResponse(500, Error("Database error: " + lookupFault.value.display));
    }
    var existing := UserLinking.UserIndex(db.users, sub);
    if existing.Some? {
      var u := db.users[existing.value];
      return HttpResponse(200, Data(UserLinking.LinkUserResponse(u.id, u.authUserId, u.createdAt, u.updatedAt,
                                                                  UserLinking.AlreadyLinked)));
    }
    if insertFault.Some? {
      return HttpResponse(500, Error("Failed to create user: " + insertFault.value.display));
    }
    var user := UserRow(db.nextUserId, sub, now, now);
    db.users := db.users + [user];
    db.nextUserId := db.nextUserId + 1;
    r := HttpResponse(201, Data(UserLinking.LinkUserResponse(user.id, user.authUserId, user.createdAt,
                                                              user.updatedAt, LinkedSuccessfully)));
  }

  /** `get_user` */
  function GetUser(users: seq<UserRow>, userId: int, fault: Option<DbErr>): (r: HttpResponse<Body<UserRow>>)
    ensures fault.Some? ==> r == HttpResponse(500, Error("Database error: " + fault.value.display))
    ensures fault.None? ==> (r.status == 200 <==> exists i :: 0 <= i < |users| && users[i].id == userId)
    ensures fault.None? && r.status == 200 ==> r.body.Data? && r.body.value in users && r.body.value.id == userId
    ensures fault.None? && r.status != 200 ==> r == HttpResponse(404, Error("User not found"))
  {
    if fault.Some? then HttpResponse(500, Error("Database error: " + fault.value.display))
    else match FindFirst(users, (u: UserRow) => u.id == userId)
      case Some(i) => HttpResponse(200, Data(users[i]))
      case None => HttpResponse(404, Error("User not found"))
  }

  /** `list_users`: the limit is clamped to 1..=100 (20 otherwise); a failed
      page fetch is a 500, a failed count reports a total of 0. */
  function ListUsers(users: seq<UserRow>, page: int, limit: int, fetchFault: Option<DbErr>, countFault: Option<DbErr>)
    : (r: HttpResponse<Body<Listing<UserRow>>>)
    ensures fetchFault.Some? ==> r == HttpResponse(500, Error(fetchFault.value.display))
    ensures fetchFault.None? ==>
      && r.status == 200 && r.body.Data?
      && r.body.value == ClampedListing(users, page, limit).(total := if countFault.Some? then 0 else |users|)
  {
    if fetchFault.Some? then HttpResponse(500, Error(fetchFault.value.display))
    else
      var p := NormalizePage(page);
      var l := ClampLimit(limit);
      HttpResponse(200, Data(Listing(PageOf(users, p, l), p, l, if countFault.Some? then 0 else |users|)))
  }
}
