/** crates/functions/src/features/dinners/service.rs: dinners and who attended
    them. Date parsing, the clock and uuid generation are inputs. */
module DinnersService {
  import opened Wrappers
  import opened HttpCode
  import opened ErrorHandler
  import opened Store
  import opened Paging

  datatype CreateDinnerRequest = CreateDinnerRequest(dinnerDate: string, mealType: string, description: Option<string>)

  datatype AddParticipantRequest = AddParticipantRequest(userId: int, notes: Option<string>)

  datatype DinnerWithParticipants = DinnerWithParticipants(dinner: DinnerRow, participants: seq<ParticipantRow>)

  const InvalidDate := "Invalid date format. Use YYYY-MM-DD"

  function DinnerIndex(dinners: seq<DinnerRow>, dinnerId: int): Option<nat> {
    FindFirst(dinners, (d: DinnerRow) => d.id == dinnerId)
  }

  /** `create_dinner`: the date must parse as YYYY-MM-DD before anything is
      stored. */
  method CreateDinner(db: Database, request: CreateDinnerRequest, recordedBy: Option<int>,
                      parseDate: string -> Option<Date>, now: Timestamp, uuid: string)
    returns (r: Result<DinnerRow, CustomError>)
    requires db.Valid()
    modifies db
    ensures db.Valid()
    ensures r.Err? <==> parseDate(request.dinnerDate).None?
    ensures r.Err? ==> r.error == New(BadRequest, InvalidDate) && OnlyChanged(db, {})
    ensures r.Ok? ==>
      && r.value == DinnerRow(old(db.nextDinnerId), uuid, parseDate(request.dinnerDate).value, request.mealType,
                              request.description, recordedBy, now, now)
      && db.dinners == old(db.dinners) + [r.value]
      && OnlyChanged(db, {Dinners})
  {
    var date := parseDate(request.dinnerDate);
    if date.None? {
      return Err(New(BadRequest, InvalidDate));
    }
    var row := DinnerRow(db.nextDinnerId, uuid, date.value, request.mealType, request.description, recordedBy, now, now);
    db.dinners := db.dinners + [row];
    db.nextDinnerId := db.nextDinnerId + 1;
    r := Ok(row);
  }

  /** `get_dinner` */
  function GetDinner(dinners: seq<DinnerRow>, dinnerId: int): (r: Result<DinnerRow, CustomError>)
    ensures r.Ok? <==> exists i :: 0 <= i < |dinners| && dinners[i].id == dinnerId
    ensures r.Ok? ==> r.value in dinners && r.value.id == dinnerId
    ensures r.Err? ==> r.error == New(NotFound, "Dinner not found")
  {
    match DinnerIndex(dinners, dinnerId)
    case Some(i) => Ok(dinners[i])
    case None => Err(New(NotFound, "Dinner not found"))
  }

  /** Latest dinner first. */
  predicate SortedDesc(s: seq<DinnerRow>) {
    forall i, j :: 0 <= i < j < |s| ==> DateLe(s[j].dinnerDate, s[i].dinnerDate)
  }

  /** `d` placed before the first row that is not later than it. */
  function Insert(d: DinnerRow, s: seq<DinnerRow>): (r: seq<DinnerRow>)
    ensures multiset(r) == multiset(s) + multiset{d}
    ensures |r| == |s| + 1
  {
    if s == [] then [d]
    else if DateLe(s[0].dinnerDate, d.dinnerDate) then [d] + s
    else
      assert s == [s[0]] + s[1..];
      [s[0]] + Insert(d, s[1..])
  }

  /** Inserting into a latest-first sequence keeps it latest first. */
  lemma {:induction false} InsertSorted(d: DinnerRow, s: seq<DinnerRow>)
    requires SortedDesc(s)
    ensures SortedDesc(Insert(d, s))
  {
    if s == [] {
    } else if DateLe(s[0].dinnerDate, d.dinnerDate) {
      forall j | 0 < j < |[d] + s| ensures DateLe(([d] + s)[j].dinnerDate, d.dinnerDate) {
        if j > 1 { DateLeTransitive(s[j - 1].dinnerDate, s[0].dinnerDate, d.dinnerDate); }
      }
    } else {
      var rest := Insert(d, s[1..]);
      SortedSlice(s, 1, |s|);
      InsertSorted(d, s[1..]);
      DateLeTotal(s[0].dinnerDate, d.dinnerDate);
      forall x | x in rest ensures DateLe(x.dinnerDate, s[0].dinnerDate) {
        assert x in multiset(rest);
        if x != d {
          assert x in multiset(s[1..]);
          var k :| 0 <= k < |s[1..]| && s[1..][k] == x;
          assert s[k + 1] == x;
        }
      }
      forall j | 0 < j < |[s[0]] + rest| ensures DateLe(([s[0]] + rest)[j].dinnerDate, s[0].dinnerDate) {
        assert ([s[0]] + rest)[j] == rest[j - 1];
        assert rest[j - 1] in rest;
      }
    }
  }

  /** The dinners in `ORDER BY dinner_date DESC`. */
  function SortByDateDesc(s: seq<DinnerRow>): (r: seq<DinnerRow>)
    ensures SortedDesc(r)
    ensures multiset(r) == multiset(s)
    ensures |r| == |s|
  {
    if s == [] then []
    else
      assert s == [s[0]] + s[1..];
      var sorted := SortByDateDesc(s[1..]);
      InsertSorted(s[0], sorted);
      Insert(s[0], sorted)
  }

  /** A slice of a sorted sequence is sorted. */
  lemma {:induction false} SortedSlice(s: seq<DinnerRow>, lo: int, hi: int)
    requires SortedDesc(s) && 0 <= lo <= hi <= |s|
    ensures SortedDesc(s[lo..hi])
  {
    forall i, j | 0 <= i < j < hi - lo
      ensures DateLe(s[lo..hi][j].dinnerDate, s[lo..hi][i].dinnerDate)
    {
      assert s[lo..hi][j] == s[lo + j] && s[lo..hi][i] == s[lo + i];
    }
  }

  /** A page of a sorted sequence is sorted and holds only its rows. */
  lemma PageOfSorted(sorted: seq<DinnerRow>, page: int, size: nat)
    requires SortedDesc(sorted) && page >= 1
    ensures SortedDesc(PageOf(sorted, page, size))
    ensures forall x :: x in PageOf(sorted, page, size) ==> x in sorted
  {
    var offset := Offset(page, size);
    if offset < |sorted| {
      SortedSlice(sorted, offset, Min(offset + size, |sorted|));
    }
  }

  /** `list_dinners`: the limit is clamped to 1..=100 (20 otherwise) and the
      page is taken from the dinners ordered latest first. */
  function ListDinners(dinners: seq<DinnerRow>, page: int, limit: int): (r: Listing<DinnerRow>)
    ensures r.page == NormalizePage(page) && r.limit == ClampLimit(limit)
    ensures r.total == |dinners|
    ensures r.data == PageOf(SortByDateDesc(dinners), r.page, r.limit)
    ensures SortedDesc(r.data)
    ensures forall x :: x in r.data ==> x in dinners
    ensures |r.data| <= r.limit
  {
    var p := NormalizePage(page);
    var l := ClampLimit(limit);
    var sorted := SortByDateDesc(dinners);
    var data := PageOf(sorted, p, l);
    PageOfSorted(sorted, p, l);
    assert forall x :: x in data ==> x in multiset(sorted);
    Listing(data, p, l, |dinners|)
  }

  function PairIndex(participants: seq<ParticipantRow>, dinnerId: int, userId: int): Option<nat> {
    FindFirst(participants, (p: ParticipantRow) => p.dinnerId == dinnerId && p.userId == userId)
  }

  /** `add_participant`: the dinner must exist and the user must not be
      recorded for it yet. */
  method AddParticipant(db: Database, dinnerId: int, request: AddParticipantRequest, recordedBy: Option<int>,
                        now: Timestamp, uuid: string)
    returns (r: Result<ParticipantRow, CustomError>)
    requires db.Valid()
    modifies db
    ensures db.Valid()
    ensures GetDinner(old(db.dinners), dinnerId).Err? ==> r == Err(New(NotFound, "Dinner not found"))
    ensures GetDinner(old(db.dinners), dinnerId).Ok? && PairIndex(old(db.participants), dinnerId, request.userId).Some? ==>
      r == Err(New(Conflict, "User already recorded for this dinner"))
    ensures r.Ok? <==> GetDinner(old(db.dinners), dinnerId).Ok? && PairIndex(old(db.participants), dinnerId, request.userId).None?
    ensures r.Err? ==> OnlyChanged(db, {})
    ensures r.Ok? ==>
      && r.value == ParticipantRow(old(db.nextParticipantId), uuid, dinnerId, request.userId, request.notes, recordedBy, now, now)
      && db.participants == old(db.participants) + [r.value]
      && OnlyChanged(db, {Participants})
  {
    var dinner := GetDinner(db.dinners, dinnerId);
    if dinner.Err? {
      return Err(dinner.error);
    }
    var existing := PairIndex(db.participants, dinnerId, request.userId);
    if existing.Some? {
      return Err(New(Conflict, "User already recorded for this dinner"));
    }
    var row := ParticipantRow(db.nextParticipantId, uuid, dinner.value.id, request.userId, request.notes,
                              recordedBy, now, now);
    db.participants := db.participants + [row];
    db.nextParticipantId := db.nextParticipantId + 1;
    r := Ok(row);
  }

  /** `get_dinner_with_participants`: the dinner, then every participant row
      of it in table order. */
  function GetDinnerWithParticipants(dinners: seq<DinnerRow>, participants: seq<ParticipantRow>, dinnerId: int)
    : (r: Result<DinnerWithParticipants, CustomError>)
    ensures r.Err? <==> GetDinner(dinners, dinnerId).Err?
    ensures r.Err? ==> r.error == New(NotFound, "Dinner not found")
    ensures r.Ok? ==> r.value.dinner == GetDinner(dinners, dinnerId).value
    ensures r.Ok? ==> forall i :: 0 <= i < |r.value.participants| ==>
              r.value.participants[i] in participants && r.value.participants[i].dinnerId == dinnerId
    ensures r.Ok? ==> forall i :: 0 <= i < |participants| && participants[i].dinnerId == dinnerId ==>
              participants[i] in r.value.participants
    ensures r.Ok? ==> r.value.participants == Filter(participants, (p: ParticipantRow) => p.dinnerId == dinnerId)
  {
    var dinner :- GetDinner(dinners, dinnerId);
    Ok(DinnerWithParticipants(dinner, Filter(participants, (p: ParticipantRow) => p.dinnerId == dinnerId)))
  }

  /** `remove_participant`: the row must exist and belong to the dinner named
      in the path; then it is deleted. */
  method RemoveParticipant(db: Database, dinnerId: int, participantId: int) returns (r: Result<(), CustomError>)
    requires db.Valid()
    modifies db
    ensures db.Valid()
    ensures FindFirst(old(db.participants), (p: ParticipantRow) => p.id == participantId).None? ==>
      r == Err(New(NotFound, "Participant not found"))
    ensures FindFirst(old(db.participants), (p: ParticipantRow) => p.id == participantId).Some? ==>
      var k := FindFirst(old(db.participants), (p: ParticipantRow) => p.id == participantId).value;
      && (old(db.participants)[k].dinnerId != dinnerId ==> r == Err(New(BadRequest, "Participant does not belong to this dinner")))
      && (old(db.participants)[k].dinnerId == dinnerId ==> r.Ok? && db.participants == RemoveAt(old(db.participants), k))
    ensures r.Err? ==> OnlyChanged(db, {})
    ensures r.Ok? ==> OnlyChanged(db, {Participants}) && db.nextParticipantId == old(db.nextParticipantId)
    ensures r.Ok? ==> forall i :: 0 <= i < |db.participants| ==> db.participants[i].id != participantId
  {
    var found := FindFirst(db.participants, (p: ParticipantRow) => p.id == participantId);
    if found.None? {
      return Err(New(NotFound, "Participant not found"));
    }
    if db.participants[found.value].dinnerId != dinnerId {
      return Err(New(BadRequest, "Participant does not belong to this dinner"));
    }
    db.participants := RemoveAt(db.participants, found.value);
    r := Ok(());
  }
}
