/** crates/functions/src/handlers/profiles.rs: the profile endpoints that talk
    to the database directly. Whether a database call fails is an input
    (`Some(e)` is the error it returns); the key of a new row is the table's
    counter (see `ProfilesService.AsWrittenCreatedRow` for the key as written). */
module LegacyProfiles {
  import opened Wrappers
  import opened ErrorHandler
  import opened Response
  import opened Store
  import opened LegacyUsers
  import ProfilesService

  /** `create_profile`. A failed lookup does not stop the handler: it goes on
      to insert, and the table's one-profile-per-user key then rejects the
      row if the user already has one (`uniqueViolation` is that error). */
  method CreateProfile(db: Database, userId: int, request: ProfilesService.ProfileRequest,
                       parseDate: string -> Option<Date>, now: Timestamp, uuid: string,
                       lookupFault: Option<DbErr>, insertFault: Option<DbErr>, uniqueViolation: DbErr)
    returns (r: HttpResponse<Body<ProfileRow>>)
    requires db.Valid()
    modifies db
    ensures db.Valid()
    ensures r.status != 201 ==> OnlyChanged(db, {})
    ensures lookupFault.None? && ProfilesService.ProfileIndex(old(db.profiles), userId).Some? ==>
      r == HttpResponse(409, Error("Profile already exists for this user"))
    ensures (lookupFault.Some? || ProfilesService.ProfileIndex(old(db.profiles), userId).None?) ==>
      var date := ProfilesService.ParseDate(request.dateOfBirth, parseDate);
      && (date.Err? ==> r == HttpResponse(400, Error(ProfilesService.InvalidBirthDate)))
      && (date.Ok? && insertFault.Some? ==> r == HttpResponse(500, Error(insertFault.value.display)))
      && (date.Ok? && insertFault.None? && ProfilesService.ProfileIndex(old(db.profiles), userId).Some? ==>
            r == HttpResponse(500, Error(uniqueViolation.display)))
      && (date.Ok? && insertFault.None? && ProfilesService.ProfileIndex(old(db.profiles), userId).None? ==>
            var row := ProfileRow(old(db.nextProfileId), uuid, userId, request.text, date.value, now, now);
            r == HttpResponse(201, Data(row)) && db.profiles == old(db.profiles) + [row] && OnlyChanged(db, {Profiles}))
  {
    var existing := ProfilesService.ProfileIndex(db.profiles, userId);
    if lookupFault.None? && existing.Some? {
      return HttpResponse(409, Error("Profile already exists for this user"));
    }
    var date := ProfilesService.ParseDate(request.dateOfBirth, parseDate);
    if date.Err? {
      return HttpResponse(400, Error(ProfilesService.InvalidBirthDate));
    }
    if insertFault.Some? {
      return HttpResponse(500, Error(insertFault.value.display));
    }
    if existing.Some? {
      return HttpResponse(500, Error(uniqueViolation.display));
    }
    var row := ProfileRow(db.nextProfileId, uuid, userId, request.text, date.value, now, now);
    db.profiles := db.profiles + [row];
    db.nextProfileId := db.nextProfileId + 1;
    r := HttpResponse(201, Data(row));
  }

  /** `update_profile`: lookup, then the date check, then the merge of the
      columns that are sent (as `ProfilesService.Updated` states). */
  method UpdateProfile(db: Database, userId: int, request: ProfilesService.ProfileRequest,
                       parseDate: string -> Option<Date>, now: Timestamp,
                       lookupFault: Option<DbErr>, updateFault: Option<DbErr>)
    returns (r: HttpResponse<Body<ProfileRow>>)
    requires db.Valid()
    modifies db
    ensures db.Valid()
    ensures r.status != 200 ==> OnlyChanged(db, {})
    ensures lookupFault.Some? ==> r == HttpResponse(500, Error(lookupFault.value.display))
    ensures lookupFault.None? && ProfilesService.ProfileIndex(old(db.profiles), userId).None? ==>
      r == HttpResponse(404, Error("Profile not found for this user"))
    ensures lookupFault.None? && ProfilesService.ProfileIndex(old(db.profiles), userId).Some? ==>
      var k := ProfilesService.ProfileIndex(old(db.profiles), userId).value;
      var date := ProfilesService.ParseDate(request.dateOfBirth, parseDate);
      && (date.Err? ==> r == HttpResponse(400, Error(ProfilesService.InvalidBirthDate)))
      && (date.Ok? && updateFault.Some? ==> r == HttpResponse(500, Error(updateFault.value.display)))
      && (date.Ok? && updateFault.None? ==>
            var row := ProfilesService.Updated(old(db.profiles)[k], request, date.value, now);
            r == HttpResponse(200, Data(row)) && db.profiles == old(db.profiles)[k := row]
            && OnlyChanged(db, {Profiles}) && db.nextProfileId == old(db.nextProfileId))
  {
    if lookupFault.Some? {
      return HttpResponse(500, Error(lookupFault.value.display));
    }
    var found := ProfilesService.ProfileIndex(db.profiles, userId);
    if found.None? {
      return HttpResponse(404, Error("Profile not found for this user"));
    }
    var date := ProfilesService.ParseDate(request.dateOfBirth, parseDate);
    if date.Err? {
      return HttpResponse(400, Error(ProfilesService.InvalidBirthDate));
    }
    var row := ProfilesService.Updated(db.profiles[found.value], request, date.value, now);
    if updateFault.Some? {
      return HttpResponse(500, Error(updateFault.value.display));
    }
    db.profiles := db.profiles[found.value := row];
    r := HttpResponse(200, Data(row));
  }

  /** `get_profile`; its not-found text is shorter than the service's. */
  function GetProfile(profiles: seq<ProfileRow>, userId: int, fault: Option<DbErr>): (r: HttpResponse<Body<ProfileRow>>)
    ensures fault.Some? ==> r == HttpResponse(500, Error(fault.value.display))
    ensures fault.None? ==> (r.status == 200 <==> ProfilesService.GetProfile(profiles, userId).Ok?)
    ensures fault.None? && r.status == 200 ==> r.body == Data(ProfilesService.GetProfile(profiles, userId).value)
    ensures fault.None? && r.status != 200 ==> r == HttpResponse(404, Error("Profile not found"))
  {
    if fault.Some? then HttpResponse(500, Error(fault.value.display))
    else match ProfilesService.ProfileIndex(profiles, userId)
      case Some(i) => HttpResponse(200, Data(profiles[i]))
      case None => HttpResponse(404, Error("Profile not found"))
  }
}
