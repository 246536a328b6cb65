/** crates/functions/src/features/roles/service.rs */
module RolesService {
  import opened Wrappers
  import opened HttpCode
  import opened ErrorHandler
  import opened Store
  import opened Paging

  datatype CreateRoleRequest = CreateRoleRequest(
    name: string, description: Option<string>, level: int, permissions: Option<string>)

  datatype UpdateRoleRequest = UpdateRoleRequest(
    name: Option<string>, description: Option<string>, level: Option<int>, permissions: Option<string>)

  function RoleIndex(roles: seq<RoleRow>, roleId: int): Option<nat> {
    FindFirst(roles, (r: RoleRow) => r.id == roleId)
  }

  function RoleNameIndex(roles: seq<RoleRow>, name: string): Option<nat> {
    FindFirst(roles, (r: RoleRow) => r.name == name)
  }

  /** Some role other than `roleId` is called `name`. */
  predicate NameTakenByOther(roles: seq<RoleRow>, name: string, roleId: int) {
    exists i :: 0 <= i < |roles| && roles[i].name == name && roles[i].id != roleId
  }

  function ConflictMessage(name: string): string {
    "Role with name '" + name + "' already exists"
  }

  /** `create_role` */
  method CreateRole(db: Database, request: CreateRoleRequest, now: Timestamp) returns (r: Result<RoleRow, CustomError>)
    requires db.Valid()
    modifies db
    ensures db.Valid()
    ensures r.Err? <==> exists i :: 0 <= i < |old(db.roles)| && old(db.roles)[i].name == request.name
    ensures r.Err? ==> r.error == New(Conflict, ConflictMessage(request.name)) && OnlyChanged(db, {})
    ensures r.Ok? ==> db.roles == old(db.roles) + [r.value] && OnlyChanged(db, {Roles})
    ensures r.Ok? ==> r.value == RoleRow(old(db.nextRoleId), request.name, request.description, request.level,
                                         request.permissions, now, now)
  {
    var existing := RoleNameIndex(db.roles, request.name);
    if existing.Some? {
      return Err(New(Conflict, ConflictMessage(request.name)));
    }
    var row := RoleRow(db.nextRoleId, request.name, request.description, request.level, request.permissions, now, now);
    db.roles := db.roles + [row];
    db.nextRoleId := db.nextRoleId + 1;
    r := Ok(row);
  }

  /** `get_role_by_id` */
  function GetRoleById(roles: seq<RoleRow>, roleId: int): (r: Result<RoleRow, CustomError>)
    ensures r.Ok? <==> exists i :: 0 <= i < |roles| && roles[i].id == roleId
    ensures r.Ok? ==> r.value in roles && r.value.id == roleId
    ensures r.Err? ==> r.error == New(NotFound, "Role not found")
  {
    match RoleIndex(roles, roleId)
    case Some(i) => Ok(roles[i])
    case None => Err(New(NotFound, "Role not found"))
  }

  /** `get_role_by_name` */
  function GetRoleByName(roles: seq<RoleRow>, name: string): (r: Result<RoleRow, CustomError>)
    ensures r.Ok? <==> exists i :: 0 <= i < |roles| && roles[i].name == name
    ensures r.Ok? ==> r.value in roles && r.value.name == name
    ensures r.Err? ==> r.error == New(NotFound, "Role '" + name + "' not found")
  {
    match RoleNameIndex(roles, name)
    case Some(i) => Ok(roles[i])
    case None => Err(New(NotFound, "Role '" + name + "' not found"))
  }

  /** `list_roles`, with the limit test as written (see `Paging.InvertedLimit`). */
  function ListRoles(roles: seq<RoleRow>, page: int, limit: int): (r: Listing<RoleRow>)
    ensures r.page == NormalizePage(page)
    ensures r.page >= 1 && (page >= 1 ==> r.page == page) && (page < 1 ==> r.page == 1)
    ensures 1 <= limit <= 100 ==> r.limit == 20
    ensures !(1 <= limit <= 100) ==> r.limit == limit
    ensures r.total == |roles|
    ensures r.data == PageOf(roles, r.page, AsU64(r.limit))
  {
    var p := NormalizePage(page);
    var l := InvertedLimit(limit);
    Listing(PageOf(roles, p, AsU64(l)), p, l, |roles|)
  }

  /** As written, a request for 30 roles per page gets 20, where the clamped
      listing gives 30. */
  lemma ListRolesIgnoresInRangeLimit(roles: seq<RoleRow>)
    requires |roles| >= 30
    ensures |ListRoles(roles, 1, 30).data| == 20
    ensures |ClampedListing(roles, 1, 30).data| == 30
  {
  }

  /** The row `update_role` saves: every Some field of the request overwrites,
      every None field keeps the stored value, and `updated_at` is `now`. */
  function MergeRole(row: RoleRow, request: UpdateRoleRequest, now: Timestamp): (r: RoleRow)
    ensures r.id == row.id && r.createdAt == row.createdAt && r.updatedAt == now
    ensures request.name.Some? ==> r.name == request.name.value
    ensures request.name.None? ==> r.name == row.name
  {
    RoleRow(
      row.id,
      if request.name.Some? then request.name.value else row.name,
      if request.description.Some? then request.description else row.description,
      if request.level.Some? then request.level.value else row.level,
      if request.permissions.Some? then request.permissions else row.permissions,
      row.createdAt,
      now)
  }

  lemma MergeRoleFields(row: RoleRow, request: UpdateRoleRequest, now: Timestamp)
    ensures var m := MergeRole(row, request, now);
      && m.id == row.id && m.createdAt == row.createdAt && m.updatedAt == now
      && (request.name.None? ==> m.name == row.name) && (request.name.Some? ==> m.name == request.name.value)
      && (request.description.None? ==> m.description == row.description)
      && (request.description.Some? ==> m.description == request.description)
      && (request.level.None? ==> m.level == row.level) && (request.level.Some? ==> m.level == request.level.value)
      && (request.permissions.None? ==> m.permissions == row.permissions)
      && (request.permissions.Some? ==> m.permissions == request.permissions)
  {
  }

  /** Applying the same update twice saves the same row as applying it once. */
  lemma MergeRoleIdempotent(row: RoleRow, request: UpdateRoleRequest, now: Timestamp)
    ensures MergeRole(MergeRole(row, request, now), request, now) == MergeRole(row, request, now)
  {
  }

  /** `update_role`: NotFound first, then a name clash with a DIFFERENT role,
      then the field-by-field merge. */
  method UpdateRole(db: Database, roleId: int, request: UpdateRoleRequest, now: Timestamp)
    returns (r: Result<RoleRow, CustomError>)
    requires db.Valid()
    modifies db
    ensures db.Valid()
    ensures RoleIndex(old(db.roles), roleId).None? ==> r == Err(New(NotFound, "Role not found"))
    ensures RoleIndex(old(db.roles), roleId).Some? && request.name.Some?
            && NameTakenByOther(old(db.roles), request.name.value, roleId) ==>
            r == Err(New(Conflict, ConflictMessage(request.name.value)))
    ensures r.Ok? <==> RoleIndex(old(db.roles), roleId).Some?
                       && !(request.name.Some? && NameTakenByOther(old(db.roles), request.name.value, roleId))
    ensures r.Err? ==> OnlyChanged(db, {})
    ensures r.Ok? ==>
      var k := RoleIndex(old(db.roles), roleId).value;
      && r.value == MergeRole(old(db.roles)[k], request, now)
      && db.roles == old(db.roles)[k := r.value]
      && OnlyChanged(db, {Roles}) && db.nextRoleId == old(db.nextRoleId)
  {
    var found := RoleIndex(db.roles, roleId);
    if found.None? {
      return Err(New(NotFound, "Role not found"));
    }
    var k := found.value;
    var active := db.roles[k];
    if request.name.Some? {
      var name := request.name.value;
      if exists i :: 0 <= i < |db.roles| && db.roles[i].name == name && db.roles[i].id != roleId {
        return Err(New(Conflict, ConflictMessage(name)));
      }
      active := active.(name := name);
    }
    if request.description.Some? {
      active := active.(description := request.description);
    }
    if request.level.Some? {
      active := active.(level := request.level.value);
    }
    if request.permissions.Some? {
      active := active.(permissions := request.permissions);
    }
    active := active.(updatedAt := now);
    db.roles := db.roles[k := active];
    r := Ok(active);
  }

  /** Renaming a role to its own name is not a conflict. */
  lemma RenameToOwnNameAllowed(roles: seq<RoleRow>, next: int, k: nat)
    requires RolesOk(roles, next) && k < |roles|
    ensures !NameTakenByOther(roles, roles[k].name, roles[k].id)
  {
  }

  /** `delete_role`: NotFound, or exactly that row disappears. */
  method DeleteRole(db: Database, roleId: int) returns (r: Result<(), CustomError>)
    requires db.Valid()
    modifies db
    ensures db.Valid()
    ensures r.Err? <==> RoleIndex(old(db.roles), roleId).None?
    ensures r.Err? ==> r.error == New(NotFound, "Role not found") && OnlyChanged(db, {})
    ensures r.Ok? ==> db.roles == RemoveAt(old(db.roles), RoleIndex(old(db.roles), roleId).value)
                      && OnlyChanged(db, {Roles}) && db.nextRoleId == old(db.nextRoleId)
    ensures forall i :: 0 <= i < |db.roles| ==> db.roles[i].id != roleId
  {
    var found := RoleIndex(db.roles, roleId);
    if found.None? {
      return Err(New(NotFound, "Role not found"));
    }
    db.roles := RemoveAt(db.roles, found.value);
    r := Ok(());
  }
}
