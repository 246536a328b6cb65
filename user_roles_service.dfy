/** crates/functions/src/features/user_roles/service.rs */
module UserRolesService {
  import opened Wrappers
  import opened HttpCode
  import opened ErrorHandler
  import opened Store
  import UserQueries
  import RolesService

  datatype UserRoleResponse = UserRoleResponse(
    id: int, userId: int, roleId: int, roleName: string, assignedDate: Date, assignedBy: Option<int>,
    isActive: bool, createdAt: Timestamp, updatedAt: Timestamp)

  /** `build_response`: the row's columns plus the role's name. */
  function BuildResponse(row: UserRoleRow, roleName: string): (r: UserRoleResponse)
    ensures r.id == row.id && r.userId == row.userId && r.roleId == row.roleId
    ensures r.roleName == roleName
    ensures r.assignedDate == row.assignedDate && r.assignedBy == row.assignedBy && r.isActive == row.isActive
    ensures r.createdAt == row.createdAt && r.updatedAt == row.updatedAt
  {
    UserRoleResponse(row.id, row.userId, row.roleId, roleName, row.assignedDate, row.assignedBy,
                     row.isActive, row.createdAt, row.updatedAt)
  }

  /** The first active assignment of `roleId` to `userId`. */
  function ActiveAssignment(userRoles: seq<UserRoleRow>, userId: int, roleId: int): Option<nat> {
    FindFirst(userRoles, (ur: UserRoleRow) => ur.userId == userId && ur.roleId == roleId && ur.isActive)
  }

  function AlreadyHasMessage(roleName: string): string {
    "User already has the '" + roleName + "' role"
  }

  /** `assign_role`: user check, then role check, then the active-duplicate
      check; only then one row is inserted. */
  method AssignRole(db: Database, userId: int, roleId: int, assignedBy: int, now: Timestamp, today: Date)
    returns (r: Result<UserRoleResponse, CustomError>)
    requires db.Valid()
    modifies db
    ensures db.Valid()
    ensures UserQueries.GetUserById(old(db.users), userId).Err? ==> r == Err(New(NotFound, "User not found"))
    ensures UserQueries.GetUserById(old(db.users), userId).Ok? && RolesService.GetRoleById(old(db.roles), roleId).Err? ==>
            r == Err(New(NotFound, "Role not found"))
    ensures UserQueries.GetUserById(old(db.users), userId).Ok? && RolesService.GetRoleById(old(db.roles), roleId).Ok?
            && ActiveAssignment(old(db.userRoles), userId, roleId).Some? ==>
            r == Err(New(Conflict, AlreadyHasMessage(RolesService.GetRoleById(old(db.roles), roleId).value.name)))
    ensures r.Ok? <==> UserQueries.GetUserById(old(db.users), userId).Ok? && RolesService.GetRoleById(old(db.roles), roleId).Ok?
                       && ActiveAssignment(old(db.userRoles), userId, roleId).None?
    ensures r.Err? ==> OnlyChanged(db, {})
    ensures r.Ok? ==>
      var row := UserRoleRow(old(db.nextUserRoleId), userId, roleId, today, Some(assignedBy), true, now, now);
      && db.userRoles == old(db.userRoles) + [row]
      && r.value == BuildResponse(row, RolesService.GetRoleById(old(db.roles), roleId).value.name)
      && OnlyChanged(db, {UserRoles})
  {
    var user := UserQueries.GetUserById(db.users, userId);
    if user.Err? {
      return Err(user.error);
    }
    var role := RolesService.GetRoleById(db.roles, roleId);
    if role.Err? {
      return Err(role.error);
    }
    var existing := ActiveAssignment(db.userRoles, userId, roleId);
    if existing.Some? {
      return Err(New(Conflict, AlreadyHasMessage(role.value.name)));
    }
    var row := UserRoleRow(db.nextUserRoleId, userId, roleId, today, Some(assignedBy), true, now, now);
    db.userRoles := db.userRoles + [row];
    db.nextUserRoleId := db.nextUserRoleId + 1;
    r := Ok(BuildResponse(row, role.value.name));
  }

  /** `remove_role`: soft deactivation of the active assignment; the row stays. */
  method RemoveRole(db: Database, userId: int, roleId: int, now: Timestamp) returns (r: Result<(), CustomError>)
    requires db.Valid()
    modifies db
    ensures db.Valid()
    ensures r.Err? <==> ActiveAssignment(old(db.userRoles), userId, roleId).None?
    ensures r.Err? ==> r.error == New(NotFound, "User does not have this role") && OnlyChanged(db, {})
    ensures r.Ok? ==>
      var k := ActiveAssignment(old(db.userRoles), userId, roleId).value;
      && db.userRoles == old(db.userRoles)[k := old(db.userRoles)[k].(isActive := false, updatedAt := now)]
      && OnlyChanged(db, {UserRoles}) && db.nextUserRoleId == old(db.nextUserRoleId)
    ensures ActiveAssignment(db.userRoles, userId, roleId).None?
  {
    var found := ActiveAssignment(db.userRoles, userId, roleId);
    if found.None? {
      return Err(New(NotFound, "User does not have this role"));
    }
    var k := found.value;
    var active := db.userRoles[k];
    active := active.(isActive := false);
    active := active.(updatedAt := now);
    db.userRoles := db.userRoles[k := active];
    NoOtherActive(old(db.userRoles), old(db.nextUserRoleId), k, now, db.userRoles);
    r := Ok(());
  }

  /** Deactivating the one active assignment of a pair leaves none. */
  lemma NoOtherActive(before: seq<UserRoleRow>, next: int, k: nat, now: Timestamp, after: seq<UserRoleRow>)
    requires UserRolesOk(before, next) && k < |before| && before[k].isActive
    requires after == before[k := before[k].(isActive := false, updatedAt := now)]
    ensures ActiveAssignment(after, before[k].userId, before[k].roleId).None?
  {
    var userId, roleId := before[k].userId, before[k].roleId;
    forall j | 0 <= j < |after|
      ensures !(after[j].userId == userId && after[j].roleId == roleId && after[j].isActive)
    {
      if j != k && after[j].isActive {
        assert before[j] == after[j];
      }
    }
  }

  /** The responses `get_user_roles` collects from `assignments`, in order:
      one per assignment whose role still exists; the others are skipped. */
  function CollectRoles(roles: seq<RoleRow>, assignments: seq<UserRoleRow>): (r: seq<UserRoleResponse>)
    ensures |r| <= |assignments|
    ensures forall a :: a in assignments && RolesService.GetRoleById(roles, a.roleId).Ok? ==>
              BuildResponse(a, RolesService.GetRoleById(roles, a.roleId).value.name) in r
    ensures forall x :: x in r ==>
              (exists a :: a in assignments && x == BuildResponse(a, x.roleName))
              && RolesService.GetRoleById(roles, x.roleId).Ok?
              && x.roleName == RolesService.GetRoleById(roles, x.roleId).value.name
  {
    if assignments == [] then []
    else
      var init := assignments[..|assignments| - 1];
      var last := assignments[|assignments| - 1];
      var rest := CollectRoles(roles, init);
      assert assignments == init + [last];
      assert forall a :: a in assignments ==> a in init || a == last;
      var role := RolesService.GetRoleById(roles, last.roleId);
      if role.Ok? then
        var x := BuildResponse(last, role.value.name);
        assert last in assignments && x == BuildResponse(last, x.roleName);
        rest + [x]
      else rest
  }

  /** `get_user_roles`: the user must exist; then its active assignments are
      visited one by one. */
  method GetUserRoles(users: seq<UserRow>, roles: seq<RoleRow>, userRoles: seq<UserRoleRow>, userId: int)
    returns (r: Result<seq<UserRoleResponse>, CustomError>)
    ensures r.Err? <==> UserQueries.GetUserById(users, userId).Err?
    ensures r.Err? ==> r.error == New(NotFound, "User not found")
    ensures r.Ok? ==>
      r.value == CollectRoles(roles, Filter(userRoles, (ur: UserRoleRow) => ur.userId == userId && ur.isActive))
    ensures r.Ok? ==> forall x :: x in r.value ==> x.userId == userId && x.isActive
  {
    var user := UserQueries.GetUserById(users, userId);
    if user.Err? {
      return Err(user.error);
    }
    var active := Filter(userRoles, (ur: UserRoleRow) => ur.userId == userId && ur.isActive);
    var responses := [];
    for i := 0 to |active|
      invariant responses == CollectRoles(roles, active[..i])
    {
      var role := RolesService.GetRoleById(roles, active[i].roleId);
      if role.Ok? {
        responses := responses + [BuildResponse(active[i], role.value.name)];
      }
      assert active[..i + 1][..i] == active[..i];
    }
    assert active[..|active|] == active;
    forall x | x in responses
      ensures x.userId == userId && x.isActive
    {
      var a :| a in active && x == BuildResponse(a, x.roleName);
    }
    r := Ok(responses);
  }

  /** `get_users_by_role`: the role must exist; every active assignment of it
      is returned with the role's name. */
  function GetUsersByRole(roles: seq<RoleRow>, userRoles: seq<UserRoleRow>, roleId: int)
    : (r: Result<seq<UserRoleResponse>, CustomError>)
    ensures r.Err? <==> RolesService.GetRoleById(roles, roleId).Err?
    ensures r.Err? ==> r.error == New(NotFound, "Role not found")
    ensures r.Ok? ==> forall x :: x in r.value ==>
              x.isActive && x.roleId == roleId && x.roleName == RolesService.GetRoleById(roles, roleId).value.name
    ensures r.Ok? ==> forall a :: a in userRoles && a.roleId == roleId && a.isActive ==>
              BuildResponse(a, RolesService.GetRoleById(roles, roleId).value.name) in r.value
    ensures r.Ok? ==> forall x :: x in r.value ==>
              exists a :: a in userRoles && a.roleId == roleId && a.isActive
                          && x == BuildResponse(a, RolesService.GetRoleById(roles, roleId).value.name)
    ensures r.Ok? ==>
      var active := Filter(userRoles, (ur: UserRoleRow) => ur.roleId == roleId && ur.isActive);
      && |r.value| == |active|
      && forall i :: 0 <= i < |active| ==> r.value[i] == BuildResponse(active[i], RolesService.GetRoleById(roles, roleId).value.name)
  {
    var role := RolesService.GetRoleById(roles, roleId);
    if role.Err? then Err(role.error)
    else
      var active := Filter(userRoles, (ur: UserRoleRow) => ur.roleId == roleId && ur.isActive);
      var out := seq(|active|, i requires 0 <= i < |active| => BuildResponse(active[i], role.value.name));
      assert forall a :: a in active ==> BuildResponse(a, role.value.name) in out by {
        forall a | a in active ensures BuildResponse(a, role.value.name) in out {
          var i :| 0 <= i < |active| && active[i] == a;
          assert out[i] == BuildResponse(a, role.value.name);
        }
      }
      Ok(out)
  }
}
