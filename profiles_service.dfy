/** crates/functions/src/features/profiles/service.rs: one profile per church
    user. Date parsing, the clock and uuid generation are inputs. */
module ProfilesService {
  import opened Wrappers
  import opened HttpCode
  import opened ErrorHandler
  import opened Store

  /** The body of a create or update request: the twelve text columns and the
      date of birth as sent. */
  datatype ProfileRequest = ProfileRequest(text: ProfileText, dateOfBirth: Option<string>)

  const InvalidBirthDate := "Invalid date_of_birth format. Use YYYY-MM-DD"

  /** `parse_date`: no date is fine; a date that is sent must parse. */
  function ParseDate(dateOfBirth: Option<string>, parseDate: string -> Option<Date>)
    : (r: Result<Option<Date>, CustomError>)
    ensures dateOfBirth.None? ==> r == Ok(None)
    ensures dateOfBirth.Some? && parseDate(dateOfBirth.value).Some? ==> r == Ok(parseDate(dateOfBirth.value))
    ensures dateOfBirth.Some? && parseDate(dateOfBirth.value).None? ==> r == Err(New(BadRequest, InvalidBirthDate))
  {
    match dateOfBirth
    case None => Ok(None)
    case Some(s) =>
      match parseDate(s)
      case Some(d) => Ok(Some(d))
      case None => Err(New(BadRequest, InvalidBirthDate))
  }

  function ProfileIndex(profiles: seq<ProfileRow>, userId: int): Option<nat> {
    FindFirst(profiles, (p: ProfileRow) => p.userId == userId)
  }

  /** The row `create_profile` inserts as written: the key is set explicitly
      to `Default::default()`, that is 0. */
  function AsWrittenCreatedRow(userId: int, request: ProfileRequest, dateOfBirth: Option<Date>, now: Timestamp, uuid: string)
    : (row: ProfileRow)
    ensures row.id == 0 && row.userId == userId
  {
    ProfileRow(0, uuid, userId, request.text, dateOfBirth, now, now)
  }

  /** As written, the profile of a second user collides with the first one's
      primary key: any two created rows carry the same id, so a table holding
      both is not keyed by id. */
  lemma AsWrittenIdsCollide(first: ProfileRow, second: ProfileRow, request: ProfileRequest, now: Timestamp)
    requires first == AsWrittenCreatedRow(1, request, None, now, "u1")
    requires second == AsWrittenCreatedRow(2, request, None, now, "u2")
    ensures first.id == second.id && first.userId != second.userId
    ensures forall next :: !ProfilesOk([first, second], next)
  {
    forall next ensures !ProfilesOk([first, second], next) {
      var t := [first, second];
      assert t[0].id == t[1].id;
    }
  }

  /** `create_profile`, with the key generated by the table (the evidently
      intended behaviour): one profile per user, and a sent date must parse. */
  method CreateProfile(db: Database, userId: int, request: ProfileRequest, parseDate: string -> Option<Date>,
                       now: Timestamp, uuid: string)
    returns (r: Result<ProfileRow, CustomError>)
    requires db.Valid()
    modifies db
    ensures db.Valid()
    ensures ProfileIndex(old(db.profiles), userId).Some? ==> r == Err(New(Conflict, "Profile already exists for this user"))
    ensures ProfileIndex(old(db.profiles), userId).None? && ParseDate(request.dateOfBirth, parseDate).Err? ==>
      r == Err(ParseDate(request.dateOfBirth, parseDate).error)
    ensures r.Ok? <==> ProfileIndex(old(db.profiles), userId).None? && ParseDate(request.dateOfBirth, parseDate).Ok?
    ensures r.Err? ==> OnlyChanged(db, {})
    ensures r.Ok? ==>
      && r.value == ProfileRow(old(db.nextProfileId), uuid, userId, request.text,
                               ParseDate(request.dateOfBirth, parseDate).value, now, now)
      && db.profiles == old(db.profiles) + [r.value]
      && OnlyChanged(db, {Profiles})
  {
    var existing := ProfileIndex(db.profiles, userId);
    if existing.Some? {
      return Err(New(Conflict, "Profile already exists for this user"));
    }
    var dateOfBirth := ParseDate(request.dateOfBirth, parseDate);
    if dateOfBirth.Err? {
      return Err(dateOfBirth.error);
    }
    var row := ProfileRow(db.nextProfileId, uuid, userId, request.text, dateOfBirth.value, now, now);
    db.profiles := db.profiles + [row];
    db.nextProfileId := db.nextProfileId + 1;
    r := Ok(row);
  }

  /** One column of a partial update: a value that was sent replaces the
      stored one, and an absent one leaves it as it is. */
  function Pick(sent: Option<string>, current: Option<string>): Option<string> {
    if sent.Some? then sent else current
  }

  /** The text columns after a partial update: a column that is sent replaces
      the stored one; an absent one keeps it. */
  function MergeText(current: ProfileText, sent: ProfileText): ProfileText {
    ProfileText(
      Pick(sent.middleName, current.middleName), Pick(sent.phone, current.phone),
      Pick(sent.phoneSecondary, current.phoneSecondary), Pick(sent.gender, current.gender),
      Pick(sent.maritalStatus, current.maritalStatus), Pick(sent.occupation, current.occupation),
      Pick(sent.nationality, current.nationality), Pick(sent.emergencyContactName, current.emergencyContactName),
      Pick(sent.emergencyContactPhone, current.emergencyContactPhone),
      Pick(sent.emergencyContactRelationship, current.emergencyContactRelationship),
      Pick(sent.profilePictureUrl, current.profilePictureUrl), Pick(sent.bio, current.bio))
  }

  const NothingSent := ProfileText(None, None, None, None, None, None, None, None, None, None, None, None)

  /** A partial update that sends nothing keeps every column. */
  lemma MergeNothingKeepsText(current: ProfileText)
    ensures MergeText(current, NothingSent) == current
  {
  }

  /** Sending the same update twice has the effect of sending it once. */
  lemma MergeTextIdempotent(current: ProfileText, sent: ProfileText)
    ensures MergeText(MergeText(current, sent), sent) == MergeText(current, sent)
  {
  }

  /** Each of the twelve columns that is sent is stored exactly as sent, and
      each one that is not keeps its stored value. */
  lemma MergeTextColumns(current: ProfileText, sent: ProfileText)
    ensures sent.middleName.Some? ==> MergeText(current, sent).middleName == sent.middleName
    ensures sent.middleName.None? ==> MergeText(current, sent).middleName == current.middleName
    ensures sent.phone.Some? ==> MergeText(current, sent).phone == sent.phone
    ensures sent.phone.None? ==> MergeText(current, sent).phone == current.phone
    ensures sent.phoneSecondary.Some? ==> MergeText(current, sent).phoneSecondary == sent.phoneSecondary
    ensures sent.phoneSecondary.None? ==> MergeText(current, sent).phoneSecondary == current.phoneSecondary
    ensures sent.gender.Some? ==> MergeText(current, sent).gender == sent.gender
    ensures sent.gender.None? ==> MergeText(current, sent).gender == current.gender
    ensures sent.maritalStatus.Some? ==> MergeText(current, sent).maritalStatus == sent.maritalStatus
    ensures sent.maritalStatus.None? ==> MergeText(current, sent).maritalStatus == current.maritalStatus
    ensures sent.occupation.Some? ==> MergeText(current, sent).occupation == sent.occupation
    ensures sent.occupation.None? ==> MergeText(current, sent).occupation == current.occupation
    ensures sent.nationality.Some? ==> MergeText(current, sent).nationality == sent.nationality
    ensures sent.nationality.None? ==> MergeText(current, sent).nationality == current.nationality
    ensures sent.emergencyContactName.Some? ==> MergeText(current, sent).emergencyContactName == sent.emergencyContactName
    ensures sent.emergencyContactName.None? ==> MergeText(current, sent).emergencyContactName == current.emergencyContactName
    ensures sent.emergencyContactPhone.Some? ==> MergeText(current, sent).emergencyContactPhone == sent.emergencyContactPhone
    ensures sent.emergencyContactPhone.None? ==> MergeText(current, sent).emergencyContactPhone == current.emergencyContactPhone
    ensures sent.emergencyContactRelationship.Some? ==> MergeText(current, sent).emergencyContactRelationship == sent.emergencyContactRelationship
    ensures sent.emergencyContactRelationship.None? ==> MergeText(current, sent).emergencyContactRelationship == current.emergencyContactRelationship
    ensures sent.profilePictureUrl.Some? ==> MergeText(current, sent).profilePictureUrl == sent.profilePictureUrl
    ensures sent.profilePictureUrl.None? ==> MergeText(current, sent).profilePictureUrl == current.profilePictureUrl
    ensures sent.bio.Some? ==> MergeText(current, sent).bio == sent.bio
    ensures sent.bio.None? ==> MergeText(current, sent).bio == current.bio
  {
  }

  /** The row `update_profile` stores. */
  function Updated(row: ProfileRow, request: ProfileRequest, dateOfBirth: Option<Date>, now: Timestamp): (r: ProfileRow)
    ensures r.id == row.id && r.uuid == row.uuid && r.userId == row.userId && r.createdAt == row.createdAt
    ensures r.updatedAt == now
    ensures r.text == MergeText(row.text, request.text)
    ensures dateOfBirth.Some? ==> r.dateOfBirth == dateOfBirth
    ensures dateOfBirth.None? ==> r.dateOfBirth == row.dateOfBirth
  {
    row.(text := MergeText(row.text, request.text),
         dateOfBirth := if dateOfBirth.Some? then dateOfBirth else row.dateOfBirth,
         updatedAt := now)
  }

  /** `update_profile`: the profile must exist; columns that are sent are
      copied one by one, and a sent date that does not parse abandons the
      whole update before anything is saved. */
  method UpdateProfile(db: Database, userId: int, request: ProfileRequest, parseDate: string -> Option<Date>,
                       now: Timestamp)
    returns (r: Result<ProfileRow, CustomError>)
    requires db.Valid()
    modifies db
    ensures db.Valid()
    ensures ProfileIndex(old(db.profiles), userId).None? ==> r == Err(New(NotFound, "Profile not found for this user"))
    ensures ProfileIndex(old(db.profiles), userId).Some? && ParseDate(request.dateOfBirth, parseDate).Err? ==>
      r == Err(ParseDate(request.dateOfBirth, parseDate).error)
    ensures r.Ok? <==> ProfileIndex(old(db.profiles), userId).Some? && ParseDate(request.dateOfBirth, parseDate).Ok?
    ensures r.Err? ==> OnlyChanged(db, {})
    ensures r.Ok? ==>
      var k := ProfileIndex(old(db.profiles), userId).value;
      && r.value == Updated(old(db.profiles)[k], request, ParseDate(request.dateOfBirth, parseDate).value, now)
      && db.profiles == old(db.profiles)[k := r.value]
      && OnlyChanged(db, {Profiles}) && db.nextProfileId == old(db.nextProfileId)
  {
    var found := ProfileIndex(db.profiles, userId);
    if found.None? {
      return Err(New(NotFound, "Profile not found for this user"));
    }
    var k := found.value;
    var row := db.profiles[k];
    var text, sent := row.text, request.text;
    text := text.(middleName := Pick(sent.middleName, text.middleName));
    text := text.(phone := Pick(sent.phone, text.phone));
    text := text.(phoneSecondary := Pick(sent.phoneSecondary, text.phoneSecondary));
    var dateOfBirth := ParseDate(request.dateOfBirth, parseDate);
    if dateOfBirth.Err? {
      return Err(dateOfBirth.error);
    }
    if dateOfBirth.value.Some? { row := row.(dateOfBirth := dateOfBirth.value); }
    text := text.(gender := Pick(sent.gender, text.gender));
    text := text.(maritalStatus := Pick(sent.maritalStatus, text.maritalStatus));
    text := text.(occupation := Pick(sent.occupation, text.occupation));
    text := text.(nationality := Pick(sent.nationality, text.nationality));
    text := text.(emergencyContactName := Pick(sent.emergencyContactName, text.emergencyContactName));
    text := text.(emergencyContactPhone := Pick(sent.emergencyContactPhone, text.emergencyContactPhone));
    text := text.(emergencyContactRelationship := Pick(sent.emergencyContactRelationship, text.emergencyContactRelationship));
    text := text.(profilePictureUrl := Pick(sent.profilePictureUrl, text.profilePictureUrl));
    text := text.(bio := Pick(sent.bio, text.bio));
    row := row.(text := text, updatedAt := now);
    db.profiles := db.profiles[k := row];
    r := Ok(row);
  }

  /** `get_profile` */
  function GetProfile(profiles: seq<ProfileRow>, userId: int): (r: Result<ProfileRow, CustomError>)
    ensures r.Ok? <==> exists i :: 0 <= i < |profiles| && profiles[i].userId == userId
    ensures r.Ok? ==> r.value in profiles && r.value.userId == userId
    ensures r.Err? ==> r.error == New(NotFound, "Profile not found for this user")
  {
    match ProfileIndex(profiles, userId)
    case Some(i) => Ok(profiles[i])
    case None => Err(New(NotFound, "Profile not found for this user"))
  }
}
