/** `link_user` of crates/functions/src/features/users/service.rs and the
    status choice of its handler (crates/functions/src/features/users/handlers.rs). */
module UserLinking {
  import opened Wrappers
  import opened Strings
  import opened ErrorHandler
  import opened Store
  import RolesService
  import UserQueries
  import UserRolesService

  datatype LinkUserResponse = LinkUserResponse(
    id: int, authUserId: string, createdAt: Timestamp, updatedAt: Timestamp, message: string)

  const AlreadyLinked := "User already linked"
  const LinkedWithMember := "User linked successfully with Member role"

  function UserIndex(users: seq<UserRow>, authUserId: string): Option<nat> {
    FindFirst(users, (u: UserRow) => u.authUserId == authUserId)
  }

  /** `link_user`: an existing link is reported as it is; otherwise a user row
      is inserted and, when a role called "Member" exists, assigned to it
      (the user is its own assigner); a failed assignment is ignored. */
  method LinkUser(db: Database, authUserId: string, now: Timestamp, today: Date)
    returns (r: Result<LinkUserResponse, CustomError>)
    requires db.Valid()
    modifies db
    ensures db.Valid()
    ensures r.Ok?
    ensures UserIndex(db.users, authUserId).Some?
    ensures UserIndex(old(db.users), authUserId).Some? ==>
      var u := old(db.users)[UserIndex(old(db.users), authUserId).value];
      && r.value == LinkUserResponse(u.id, u.authUserId, u.createdAt, u.updatedAt, AlreadyLinked)
      && OnlyChanged(db, {})
    ensures UserIndex(old(db.users), authUserId).None? ==>
      var u := UserRow(old(db.nextUserId), authUserId, now, now);
      && db.users == old(db.users) + [u]
      && r.value == LinkUserResponse(u.id, authUserId, now, now, LinkedWithMember)
      && OnlyChanged(db, {Users, UserRoles})
    ensures UserIndex(old(db.users), authUserId).None? ==> MemberRoleStep(db, old(db.nextUserId), now, today)
  {
    var existing := UserIndex(db.users, authUserId);
    if existing.Some? {
      var u := db.users[existing.value];
      return Ok(LinkUserResponse(u.id, u.authUserId, u.createdAt, u.updatedAt, AlreadyLinked));
    }
    var user := InsertUser(db, authUserId, now);
    AssignMember(db, user.id, now, today);
    r := Ok(LinkUserResponse(user.id, user.authUserId, user.createdAt, user.updatedAt, LinkedWithMember));
  }

  /** The insert step of `link_user`: a fresh row for an unlinked id. */
  method InsertUser(db: Database, authUserId: string, now: Timestamp) returns (user: UserRow)
    requires db.Valid() && UserIndex(db.users, authUserId).None?
    modifies db
    ensures db.Valid()
    ensures user == UserRow(old(db.nextUserId), authUserId, now, now)
    ensures db.users == old(db.users) + [user]
    ensures UserIndex(db.users, authUserId).Some?
    ensures UserQueries.GetUserById(db.users, user.id).Ok?
    ensures OnlyChanged(db, {Users})
  {
    user := UserRow(db.nextUserId, authUserId, now, now);
    db.users := db.users + [user];
    db.nextUserId := db.nextUserId + 1;
    assert db.users[|db.users| - 1] == user;
  }

  /** The assignments after the role step for `userId`: one new active row
      for the "Member" role (assigned by the user itself, dated `today`) when
      that role exists and is not already held; no change otherwise. */
  twostate predicate MemberRoleStep(db: Database, userId: int, now: Timestamp, today: Date)
    reads db
  {
    var member := RolesService.GetRoleByName(old(db.roles), "Member");
    if member.Ok? && UserRolesService.ActiveAssignment(old(db.userRoles), userId, member.value.id).None? then
      db.userRoles == old(db.userRoles) + [UserRoleRow(old(db.nextUserRoleId), userId, member.value.id,
                                                       today, Some(userId), true, now, now)]
    else
      db.userRoles == old(db.userRoles) && db.nextUserRoleId == old(db.nextUserRoleId)
  }

  /** The best-effort role step of `link_user`: the user gets the "Member"
      role when it exists, and any failure is ignored. */
  method AssignMember(db: Database, userId: int, now: Timestamp, today: Date)
    requires db.Valid() && UserQueries.GetUserById(db.users, userId).Ok?
    modifies db
    ensures db.Valid()
    ensures OnlyChanged(db, {UserRoles})
    ensures MemberRoleStep(db, userId, now, today)
  {
    var member := RolesService.GetRoleByName(db.roles, "Member");
    if member.Ok? {
      assert RolesService.GetRoleById(db.roles, member.value.id).Ok? by {
        var i :| 0 <= i < |db.roles| && db.roles[i] == member.value;
      }
      var _ := UserRolesService.AssignRole(db, userId, member.value.id, userId, now, today);
    }
  }

  /** Linking is idempotent: a second link of the same id reports the row the
      first one returned, and the users table holds one row for that id. */
  method LinkTwice(db: Database, authUserId: string, now: Timestamp, later: Timestamp, today: Date)
    returns (first: Result<LinkUserResponse, CustomError>, second: Result<LinkUserResponse, CustomError>)
    requires db.Valid()
    modifies db
    ensures db.Valid()
    ensures first.Ok? && second.Ok?
    ensures second.value.id == first.value.id && second.value.message == AlreadyLinked
    ensures |db.users| <= |old(db.users)| + 1
    ensures UserIndex(old(db.users), authUserId).Some? ==> OnlyChanged(db, {})
    ensures UserIndex(old(db.users), authUserId).None? ==>
      db.users == old(db.users) + [UserRow(old(db.nextUserId), authUserId, now, now)]
      && MemberRoleStep(db, old(db.nextUserId), now, today) && OnlyChanged(db, {Users, UserRoles})
    ensures forall i :: 0 <= i < |db.users| && db.users[i].authUserId == authUserId ==> db.users[i].id == first.value.id
  {
    first := LinkUser(db, authUserId, now, today);
    var afterFirst := db.users;
    assert afterFirst[UserIndex(afterFirst, authUserId).value].id == first.value.id;
    second := LinkUser(db, authUserId, later, today);
  }

  /** The handler answers 200 when the message mentions "already", 201 otherwise. */
  function LinkStatus(response: LinkUserResponse): (status: nat)
    ensures status == 200 || status == 201
    ensures status == 200 <==> Contains(response.message, "already")
  {
    if Contains(response.message, "already") then 200 else 201
  }

  /** The first link answers 201 and every later one 200. */
  lemma LinkStatusOfMessages(id: int, authUserId: string, createdAt: Timestamp, updatedAt: Timestamp)
    ensures LinkStatus(LinkUserResponse(id, authUserId, createdAt, updatedAt, AlreadyLinked)) == 200
    ensures LinkStatus(LinkUserResponse(id, authUserId, createdAt, updatedAt, LinkedWithMember)) == 201
  {
    assert OccursAt(AlreadyLinked, "already", 5);
    NotContainsByChar(LinkedWithMember, "already", 0);
  }
}
