/** The read-only half of crates/functions/src/features/users/service.rs:
    `get_user_by_id` and `list_users`. */
module UserQueries {
  import opened Wrappers
  import opened HttpCode
  import opened ErrorHandler
  import opened Store
  import opened Paging

  /** `get_user_by_id` */
  function GetUserById(users: seq<UserRow>, userId: int): (r: Result<UserRow, CustomError>)
    ensures r.Ok? <==> exists i :: 0 <= i < |users| && users[i].id == userId
    ensures r.Ok? ==> r.value in users && r.value.id == userId
    ensures r.Err? ==> r.error == New(NotFound, "User not found")
  {
    match FindFirst(users, (u: UserRow) => u.id == userId)
    case Some(i) => Ok(users[i])
    case None => Err(New(NotFound, "User not found"))
  }

  /** `list_users`, with the limit test as written (see `Paging.InvertedLimit`):
      rows in table order, page size `limit as u64`. */
  function ListUsers(users: seq<UserRow>, page: int, limit: int): (r: Listing<UserRow>)
    ensures r.page == NormalizePage(page)
    ensures r.page >= 1 && (page >= 1 ==> r.page == page) && (page < 1 ==> r.page == 1)
    ensures 1 <= limit <= 100 ==> r.limit == 20
    ensures !(1 <= limit <= 100) ==> r.limit == limit
    ensures r.total == |users|
    ensures r.data == PageOf(users, r.page, AsU64(r.limit))
  {
    var p := NormalizePage(page);
    var l := InvertedLimit(limit);
    Listing(PageOf(users, p, AsU64(l)), p, l, |users|)
  }

  /** A request for 50 rows per page gets pages of 20, where the clamped
      listing gives 50. */
  lemma ListUsersIgnoresInRangeLimit(users: seq<UserRow>)
    requires |users| >= 50
    ensures |ListUsers(users, 1, 50).data| == 20
    ensures |ClampedListing(users, 1, 50).data| == 50
  {
  }
}
