/** The page/limit normalisation the list endpoints share, and the page of
    rows a `paginate(size).fetch_page(page - 1)` returns. */
module Paging {
  /** The page number a listing uses: any page below the first is read as
      the first one. */
  function NormalizePage(page: int): (p: int)
    ensures p >= 1
    ensures page >= 1 ==> p == page
    ensures page < 1 ==> p == 1
  {
    if page < 1 then 1 else page
  }

  /** The clamp of dinners/service.rs and handlers/users.rs: a limit in
      1..=100 is kept, any other becomes 20. */
  function ClampLimit(limit: int): (l: int)
    ensures 1 <= l <= 100
    ensures 1 <= limit <= 100 ==> l == limit
    ensures !(1 <= limit <= 100) ==> l == 20
  {
    if limit < 1 || limit > 100 then 20 else limit
  }

  /** The test as written in users/service.rs and roles/service.rs: a limit in
      1..=100 is REPLACED by 20 and any other is kept. */
  function InvertedLimit(limit: int): (l: int)
    ensures 1 <= limit <= 100 ==> l == 20
    ensures !(1 <= limit <= 100) ==> l == limit
  {
    if 1 <= limit <= 100 then 20 else limit
  }

  /** With the inverted test every in-range request gets 20 rows, and a zero
      limit yields an empty page of size 0; the clamp does neither. */
  lemma InvertedLimitCounterexample()
    ensures InvertedLimit(50) == 20 && ClampLimit(50) == 50
    ensures InvertedLimit(0) == 0 && ClampLimit(0) == 20
    ensures InvertedLimit(500) == 500 && ClampLimit(500) == 20
  {
  }

  /** The two tests agree only on the limit 20 itself. */
  lemma LimitsAgreeOnlyAt20(limit: int)
    ensures InvertedLimit(limit) == ClampLimit(limit) <==> limit == 20
  {
  }

  const U64Modulus := 0x1_0000_0000_0000_0000

  /** `limit as u64` for an `i64` limit: two's-complement reinterpretation. */
  function AsU64(limit: int): (n: nat)
    ensures n < U64Modulus
    ensures 0 <= limit < U64Modulus ==> n == limit
  {
    limit % U64Modulus
  }

  /** A negative limit that the inverted test lets through becomes a huge page
      size. */
  lemma NegativeLimitAsU64(limit: int)
    requires -U64Modulus < limit < 0
    ensures AsU64(InvertedLimit(limit)) == U64Modulus + limit
  {
  }

  function Min(a: int, b: int): int {
    if a <= b then a else b
  }

  /** The number of rows before page `page` (1-based): `(page - 1) * size`. */
  function Offset(page: int, size: nat): nat
    requires page >= 1
  {
    (page - 1) * size
  }

  /** Page `page` (1-based) of at most `size` rows. */
  function PageOf<T>(rows: seq<T>, page: int, size: nat): (r: seq<T>)
    requires page >= 1
    ensures |r| <= size
    ensures Offset(page, size) >= |rows| ==> r == []
    ensures Offset(page, size) < |rows| ==> |r| == Min(size, |rows| - Offset(page, size))
    ensures forall i :: 0 <= i < |r| ==> r[i] == rows[Offset(page, size) + i]
  {
    var offset := Offset(page, size);
    if offset >= |rows| then [] else rows[offset..Min(offset + size, |rows|)]
  }

  /** A listing: the page's rows and the pagination figures it reports
      (`total_pages` is left out). */
  datatype Listing<T> = Listing(data: seq<T>, page: int, limit: int, total: nat)

  /** The listing the list endpoints evidently intend: the clamped limit is
      the page size, so an in-range request gets as many rows as it asks for
      while they last. */
  function ClampedListing<T>(rows: seq<T>, page: int, limit: int): (r: Listing<T>)
    ensures r.page == NormalizePage(page) && r.limit == ClampLimit(limit)
    ensures r.total == |rows|
    ensures r.data == PageOf(rows, r.page, r.limit)
    ensures |r.data| <= 100
    ensures 1 <= limit <= 100 && page <= 1 && limit <= |rows| ==> |r.data| == limit
  {
    var p := NormalizePage(page);
    var l := ClampLimit(limit);
    Listing(PageOf(rows, p, l), p, l, |rows|)
  }
}
