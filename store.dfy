/** The church database as the services see it: one table per entity they
    touch, held in memory. Rows are the ORM models of crates/models/src/dto;
    ids come from per-table counters, as an auto-increment key would. The
    uniqueness `Valid` states is the one the entities declare or the services
    enforce by checking before they insert. */
module Store {
  import opened Wrappers

  /** A `NaiveDateTime` supplied by the clock parameter. */
  type Timestamp = int

  /** A `NaiveDate`; validity is decided by the date parser parameter. */
  datatype Date = Date(year: int, month: int, day: int)

  /** Chronological order on dates. */
  predicate DateLe(a: Date, b: Date) {
    a.year < b.year || (a.year == b.year && (a.month < b.month || (a.month == b.month && a.day <= b.day)))
  }

  lemma DateLeTotal(a: Date, b: Date)
    ensures DateLe(a, b) || DateLe(b, a)
  {
  }

  lemma DateLeTransitive(a: Date, b: Date, c: Date)
    requires DateLe(a, b) && DateLe(b, c)
    ensures DateLe(a, c)
  {
  }

  datatype UserRow = UserRow(id: int, authUserId: string, createdAt: Timestamp, updatedAt: Timestamp)

  datatype RoleRow = RoleRow(
    id: int, name: string, description: Option<string>, level: int, permissions: Option<string>,
    createdAt: Timestamp, updatedAt: Timestamp)

  datatype UserRoleRow = UserRoleRow(
    id: int, userId: int, roleId: int, assignedDate: Date, assignedBy: Option<int>, isActive: bool,
    createdAt: Timestamp, updatedAt: Timestamp)

  datatype DinnerRow = DinnerRow(
    id: int, uuid: string, dinnerDate: Date, mealType: string, description: Option<string>,
    recordedBy: Option<int>, createdAt: Timestamp, updatedAt: Timestamp)

  datatype ParticipantRow = ParticipantRow(
    id: int, uuid: string, dinnerId: int, userId: int, notes: Option<string>,
    recordedBy: Option<int>, createdAt: Timestamp, updatedAt: Timestamp)

  /** The twelve free-text columns of a profile. */
  datatype ProfileText = ProfileText(
    middleName: Option<string>, phone: Option<string>, phoneSecondary: Option<string>,
    gender: Option<string>, maritalStatus: Option<string>, occupation: Option<string>,
    nationality: Option<string>, emergencyContactName: Option<string>,
    emergencyContactPhone: Option<string>, emergencyContactRelationship: Option<string>,
    profilePictureUrl: Option<string>, bio: Option<string>)

  datatype ProfileRow = ProfileRow(
    id: int, uuid: string, userId: int, text: ProfileText, dateOfBirth: Option<Date>,
    createdAt: Timestamp, updatedAt: Timestamp)

  /** The index of the first row satisfying `p` (`.one()` on a filtered query). */
  function FindFirst<T>(rows: seq<T>, p: T -> bool): (r: Option<nat>)
    ensures r.Some? ==> r.value < |rows| && p(rows[r.value])
    ensures r.Some? ==> forall j :: 0 <= j < r.value ==> !p(rows[j])
    ensures r.None? ==> forall j :: 0 <= j < |rows| ==> !p(rows[j])
  {
    if |rows| == 0 then None
    else if p(rows[0]) then Some(0)
    else match FindFirst(rows[1..], p)
      case None => None
      case Some(k) => Some(k + 1)
  }

  /** The rows satisfying `p`, in table order (`.all()` on a filtered query). */
  function Filter<T>(rows: seq<T>, p: T -> bool): (r: seq<T>)
    ensures |r| <= |rows|
    ensures forall i :: 0 <= i < |r| ==> r[i] in rows && p(r[i])
    ensures forall i :: 0 <= i < |rows| && p(rows[i]) ==> rows[i] in r
  {
    if |rows| == 0 then []
    else if p(rows[0]) then [rows[0]] + Filter(rows[1..], p)
    else Filter(rows[1..], p)
  }

  /** Filtering keeps table order: the rows of a concatenation are those of
      the first part, then those of the second. */
  lemma {:induction false} FilterAppend<T>(a: seq<T>, b: seq<T>, p: T -> bool)
    ensures Filter(a + b, p) == Filter(a, p) + Filter(b, p)
  {
    if a != [] {
      assert (a + b)[0] == a[0] && (a + b)[1..] == a[1..] + b;
      FilterAppend(a[1..], b, p);
    } else {
      assert a + b == b;
    }
  }

  /** The table without its `k`-th row. */
  function RemoveAt<T>(rows: seq<T>, k: nat): (r: seq<T>)
    requires k < |rows|
    ensures |r| == |rows| - 1
    ensures forall i :: 0 <= i < k ==> r[i] == rows[i]
    ensures forall i :: k <= i < |r| ==> r[i] == rows[i + 1]
  {
    rows[..k] + rows[k + 1..]
  }

  predicate UsersOk(users: seq<UserRow>, next: int) {
    && (forall i :: 0 <= i < |users| ==> users[i].id < next)
    && (forall i, j :: 0 <= i < |users| && 0 <= j < |users| && i != j ==>
          users[i].id != users[j].id && users[i].authUserId != users[j].authUserId)
  }

  predicate RolesOk(roles: seq<RoleRow>, next: int) {
    && (forall i :: 0 <= i < |roles| ==> roles[i].id < next)
    && (forall i, j :: 0 <= i < |roles| && 0 <= j < |roles| && i != j ==>
          roles[i].id != roles[j].id && roles[i].name != roles[j].name)
  }

  /** At most one ACTIVE assignment per (user, role). */
  predicate UserRolesOk(userRoles: seq<UserRoleRow>, next: int) {
    && (forall i :: 0 <= i < |userRoles| ==> userRoles[i].id < next)
    && (forall i, j :: 0 <= i < |userRoles| && 0 <= j < |userRoles| && i != j ==>
          userRoles[i].id != userRoles[j].id)
    && (forall i, j ::
          (0 <= i < |userRoles| && 0 <= j < |userRoles| && i != j
           && userRoles[i].isActive && userRoles[j].isActive) ==>
          (userRoles[i].userId, userRoles[i].roleId) != (userRoles[j].userId, userRoles[j].roleId))
  }

  predicate DinnersOk(dinners: seq<DinnerRow>, next: int) {
    && (forall i :: 0 <= i < |dinners| ==> dinners[i].id < next)
    && (forall i, j :: 0 <= i < |dinners| && 0 <= j < |dinners| && i != j ==> dinners[i].id != dinners[j].id)
  }

  /** At most one participant row per (dinner, user). */
  predicate ParticipantsOk(participants: seq<ParticipantRow>, next: int) {
    && (forall i :: 0 <= i < |participants| ==> participants[i].id < next)
    && (forall i, j :: 0 <= i < |participants| && 0 <= j < |participants| && i != j ==>
          participants[i].id != participants[j].id
          && (participants[i].dinnerId, participants[i].userId) != (participants[j].dinnerId, participants[j].userId))
  }

  /** At most one profile per user. */
  predicate ProfilesOk(profiles: seq<ProfileRow>, next: int) {
    && (forall i :: 0 <= i < |profiles| ==> profiles[i].id < next)
    && (forall i, j :: 0 <= i < |profiles| && 0 <= j < |profiles| && i != j ==>
          profiles[i].id != profiles[j].id && profiles[i].userId != profiles[j].userId)
  }

  class Database {
    var users: seq<UserRow>
    var roles: seq<RoleRow>
    var userRoles: seq<UserRoleRow>
    var dinners: seq<DinnerRow>
    var participants: seq<ParticipantRow>
    var profiles: seq<ProfileRow>
    var nextUserId: int
    var nextRoleId: int
    var nextUserRoleId: int
    var nextDinnerId: int
    var nextParticipantId: int
    var nextProfileId: int

    ghost predicate Valid()
      reads this
    {
      && UsersOk(users, nextUserId)
      && RolesOk(roles, nextRoleId)
      && UserRolesOk(userRoles, nextUserRoleId)
      && DinnersOk(dinners, nextDinnerId)
      && ParticipantsOk(participants, nextParticipantId)
      && ProfilesOk(profiles, nextProfileId)
    }

    /** An empty database whose counters start at 1. */
    constructor ()
      ensures Valid()
      ensures users == [] && roles == [] && userRoles == [] && dinners == [] && participants == [] && profiles == []
    {
      users, roles, userRoles, dinners, participants, profiles := [], [], [], [], [], [];
      nextUserId, nextRoleId, nextUserRoleId := 1, 1, 1;
      nextDinnerId, nextParticipantId, nextProfileId := 1, 1, 1;
    }
  }

  datatype Table = Users | Roles | UserRoles | Dinners | Participants | Profiles

  /** Only the tables in `changed` (and their id counters) differ from the
      state before the call. */
  twostate predicate OnlyChanged(db: Database, changed: set<Table>)
    reads db
  {
    && (Users !in changed ==> db.users == old(db.users) && db.nextUserId == old(db.nextUserId))
    && (Roles !in changed ==> db.roles == old(db.roles) && db.nextRoleId == old(db.nextRoleId))
    && (UserRoles !in changed ==> db.userRoles == old(db.userRoles) && db.nextUserRoleId == old(db.nextUserRoleId))
    && (Dinners !in changed ==> db.dinners == old(db.dinners) && db.nextDinnerId == old(db.nextDinnerId))
    && (Participants !in changed ==>
          db.participants == old(db.participants) && db.nextParticipantId == old(db.nextParticipantId))
    && (Profiles !in changed ==> db.profiles == old(db.profiles) && db.nextProfileId == old(db.nextProfileId))
  }
}
