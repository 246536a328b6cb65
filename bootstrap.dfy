/** crates/functions/src/features/bootstrap/handlers.rs: the first call a
    client makes after signing in. It links the caller, loads the church user
    and fetches the profile, creating it only when asked to and when it is
    missing. */
module Bootstrap {
  import opened Wrappers
  import opened Strings
  import opened HttpCode
  import opened ErrorHandler
  import opened Response
  import opened Store
  import Identity
  import UserQueries
  import UserLinking
  import ProfilesService

  datatype BootstrapRequest = BootstrapRequest(createProfileIfMissing: bool, profile: Option<ProfilesService.ProfileRequest>)

  datatype BootstrapCreated = BootstrapCreated(linked: bool, profile: bool)

  datatype BootstrapResponse = BootstrapResponse(user: UserRow, profile: Option<ProfileRow>, created: BootstrapCreated)

  /** The body asks for a missing profile to be created and carries one. */
  predicate WantsProfile(body: Option<BootstrapRequest>) {
    body.Some? && body.value.createProfileIfMissing && body.value.profile.Some?
  }

  /** The church user `link_user` leaves for `sub`: the linked row, or the
      row it inserts at the next id. */
  function LinkedUser(users: seq<UserRow>, nextUserId: int, sub: string, now: Timestamp): (u: UserRow)
    ensures u.authUserId == sub
    ensures UserLinking.UserIndex(users, sub).Some? ==> u in users
    ensures UserLinking.UserIndex(users, sub).None? ==> u == UserRow(nextUserId, sub, now, now)
  {
    match UserLinking.UserIndex(users, sub)
    case Some(k) => users[k]
    case None => UserRow(nextUserId, sub, now, now)
  }

  /** The profile row `create_profile` inserts for `userId` from the body. */
  function NewProfile(nextProfileId: int, userId: int, body: Option<BootstrapRequest>,
                      parseDate: string -> Option<Date>, now: Timestamp, uuid: string): ProfileRow
    requires WantsProfile(body)
    requires ProfilesService.ParseDate(body.value.profile.value.dateOfBirth, parseDate).Ok?
  {
    ProfileRow(nextProfileId, uuid, userId, body.value.profile.value.text,
               ProfilesService.ParseDate(body.value.profile.value.dateOfBirth, parseDate).value, now, now)
  }

  /** The body asks for a profile whose date of birth does not parse. */
  predicate BadBirthDate(body: Option<BootstrapRequest>, parseDate: string -> Option<Date>) {
    WantsProfile(body) && ProfilesService.ParseDate(body.value.profile.value.dateOfBirth, parseDate).Err?
  }

  /** `bootstrap`. The envelope says `Created` while the HTTP status is 200,
      as the handler writes them. The link is made first and stays made even
      when the profile step then fails. */
  method Bootstrap(db: Database, body: Option<BootstrapRequest>, subject: Identity.Subject,
                   parseDate: string -> Option<Date>, now: Timestamp, today: Date, uuid: string)
    returns (r: Result<HttpResponse<ResponseObject<BootstrapResponse>>, CustomError>)
    requires db.Valid()
    modifies db
    ensures db.Valid()
    ensures OnlyChanged(db, {Users, UserRoles, Profiles})
    ensures
      var user := LinkedUser(old(db.users), old(db.nextUserId), subject.sub, now);
      && (UserLinking.UserIndex(old(db.users), subject.sub).Some? ==>
            db.users == old(db.users) && db.userRoles == old(db.userRoles))
      && (UserLinking.UserIndex(old(db.users), subject.sub).None? ==>
            db.users == old(db.users) + [user] && UserLinking.MemberRoleStep(db, user.id, now, today))
      && (r.Err? <==> ProfilesService.GetProfile(old(db.profiles), user.id).Err? && BadBirthDate(body, parseDate))
    ensures r.Err? ==> r.error == New(BadRequest, ProfilesService.InvalidBirthDate)
                       && db.profiles == old(db.profiles) && db.nextProfileId == old(db.nextProfileId)
    ensures r.Ok? ==>
      var res := r.value.body.message;
      && r.value.status == 200 && r.value.body.code == Created
      && res.user == LinkedUser(old(db.users), old(db.nextUserId), subject.sub, now)
      && res.user in db.users
      && (res.created.linked <==> UserLinking.UserIndex(old(db.users), subject.sub).None?)
    ensures r.Ok? ==>
      var res := r.value.body.message;
      var existing := ProfilesService.GetProfile(old(db.profiles), res.user.id);
      && (existing.Ok? ==> res.profile == Some(existing.value) && !res.created.profile
                           && db.profiles == old(db.profiles) && db.nextProfileId == old(db.nextProfileId))
      && (existing.Err? && WantsProfile(body) ==>
            var row := NewProfile(old(db.nextProfileId), res.user.id, body, parseDate, now, uuid);
            res.created.profile && res.profile == Some(row) && db.profiles == old(db.profiles) + [row])
      && (existing.Err? && !WantsProfile(body) ==>
            res.profile.None? && !res.created.profile
            && db.profiles == old(db.profiles) && db.nextProfileId == old(db.nextProfileId))
  {
    var user, linked := LinkAndLoad(db, subject.sub, now, today);
    var step := LoadProfile(db, user, body, parseDate, now, uuid);
    if step.Err? {
      return Err(step.error);
    }
    var (profile, createdProfile) := step.value;
    var response := BootstrapResponse(user, profile, BootstrapCreated(linked, createdProfile));
    r := Ok(HttpResponse(200, CreateResponse(response, Created)));
  }

  /** Steps 1 and 2: link (idempotently), then load the user by the id the
      link reported. */
  method LinkAndLoad(db: Database, sub: string, now: Timestamp, today: Date) returns (user: UserRow, linked: bool)
    requires db.Valid()
    modifies db
    ensures db.Valid()
    ensures user == LinkedUser(old(db.users), old(db.nextUserId), sub, now)
    ensures user in db.users && user.authUserId == sub
    ensures linked <==> UserLinking.UserIndex(old(db.users), sub).None?
    ensures !linked ==> OnlyChanged(db, {})
    ensures linked ==> db.users == old(db.users) + [user] && UserLinking.MemberRoleStep(db, user.id, now, today)
                       && OnlyChanged(db, {Users, UserRoles})
  {
    var link := UserLinking.LinkUser(db, sub, now, today);
    var linkResponse := link.value;
    linked := !Contains(linkResponse.message, "already");
    UserLinking.LinkStatusOfMessages(linkResponse.id, linkResponse.authUserId, linkResponse.createdAt, linkResponse.updatedAt);
    var found := UserQueries.GetUserById(db.users, linkResponse.id);
    var k := UserLinking.UserIndex(db.users, sub).value;
    assert found.Ok? by {
      assert db.users[k].id == linkResponse.id;
    }
    user := found.value;
    UserIdsAreUnique(db, user, sub);
    assert user == db.users[k] by {
      var i :| 0 <= i < |db.users| && db.users[i] == user;
    }
  }

  /** Step 3: the stored profile, or a new one when it is missing and the body
      asks for it; the flag says whether one was created. */
  method LoadProfile(db: Database, user: UserRow, body: Option<BootstrapRequest>,
                     parseDate: string -> Option<Date>, now: Timestamp, uuid: string)
    returns (r: Result<(Option<ProfileRow>, bool), CustomError>)
    requires db.Valid()
    modifies db
    ensures db.Valid()
    ensures OnlyChanged(db, {Profiles})
    ensures
      var existing := ProfilesService.GetProfile(old(db.profiles), user.id);
      && (r.Err? <==> existing.Err? && BadBirthDate(body, parseDate))
      && (existing.Ok? ==> r == Ok((Some(existing.value), false)) && OnlyChanged(db, {}))
      && (existing.Err? && WantsProfile(body) && r.Ok? ==>
            var row := NewProfile(old(db.nextProfileId), user.id, body, parseDate, now, uuid);
            r == Ok((Some(row), true)) && db.profiles == old(db.profiles) + [row])
      && (existing.Err? && !WantsProfile(body) ==> r == Ok((None, false)) && OnlyChanged(db, {}))
    ensures r.Err? ==> r.error == New(BadRequest, ProfilesService.InvalidBirthDate) && OnlyChanged(db, {})
  {
    var existing := ProfilesService.GetProfile(db.profiles, user.id);
    if existing.Ok? {
      return Ok((Some(existing.value), false));
    }
    if body.Some? && body.value.createProfileIfMissing && body.value.profile.Some? {
      var made := ProfilesService.CreateProfile(db, user.id, body.value.profile.value, parseDate, now, uuid);
      if made.Err? {
        return Err(made.error);
      }
      return Ok((Some(made.value), true));
    }
    r := Ok((None, false));
  }

  /** The row found by id after linking is the one linked to `sub`. */
  lemma UserIdsAreUnique(db: Database, user: UserRow, sub: string)
    requires db.Valid()
    requires UserLinking.UserIndex(db.users, sub).Some?
    requires user in db.users && user.id == db.users[UserLinking.UserIndex(db.users, sub).value].id
    ensures user.authUserId == sub
  {
    var k := UserLinking.UserIndex(db.users, sub).value;
    var i :| 0 <= i < |db.users| && db.users[i] == user;
  }
}
