/** crates/graphql/src/strapi_client.rs: how the answers of the content
    service are read. The HTTP exchange is left out; each operation takes the
    decoded JSON body. */
module Strapi {
  import opened Wrappers
  import opened Strings
  import opened Json

  /** `FinancialSanp` as this client builds it; its media and timestamp
      fields are always `None` here and are not represented. */
  datatype FinancialSnap = FinancialSnap(documentId: string, title: string, subTitle: string)

  /** The text held under `key`, if the key is there and holds text. */
  function StrAt(v: Json, key: string): Option<string> {
    match Get(v, key)
    case Some(x) => AsStr(x)
    case None => None
  }

  /** One element of the flat shape, at position `idx`: both texts are required. */
  function FlatSnap(idx: nat, item: Json): (r: Option<FinancialSnap>)
    ensures r.Some? <==> StrAt(item, "title").Some? && StrAt(item, "subTitle").Some?
    ensures r.Some? ==> r.value == FinancialSnap(NatToString(idx), StrAt(item, "title").value, StrAt(item, "subTitle").value)
  {
    match (StrAt(item, "title"), StrAt(item, "subTitle"))
    case (Some(t), Some(s)) => Some(FinancialSnap(NatToString(idx), t, s))
    case _ => None
  }

  /** The flat elements numbered from position `base`, kept in order: an
      element is numbered before it is dropped, so a dropped element still
      uses up its position. */
  function FlatSnaps(items: seq<Json>, base: nat): (r: seq<FinancialSnap>)
    ensures |r| <= |items|
  {
    if items == [] then [] else Emit(FlatSnap(base, items[0])) + FlatSnaps(items[1..], base + 1)
  }

  /** Every element that has both texts is collected, under its own position. */
  lemma {:induction false} FlatSnapsComplete(items: seq<Json>, base: nat)
    ensures forall i :: 0 <= i < |items| && FlatSnap(base + i, items[i]).Some? ==>
              FlatSnap(base + i, items[i]).value in FlatSnaps(items, base)
  {
    if items != [] {
      var rest := items[1..];
      FlatSnapsComplete(rest, base + 1);
      FlatSnapsCons(items, base);
      forall i | 0 < i < |items| && FlatSnap(base + i, items[i]).Some?
        ensures FlatSnap(base + i, items[i]).value in FlatSnaps(items, base)
      {
        assert rest[i - 1] == items[i] && base + 1 + (i - 1) == base + i;
      }
    }
  }

  /** Nothing else is collected: each result comes from an element, under
      that element's position. */
  lemma {:induction false} FlatSnapsSound(items: seq<Json>, base: nat)
    ensures forall x :: x in FlatSnaps(items, base) ==>
              exists i :: 0 <= i < |items| && FlatSnap(base + i, items[i]) == Some(x)
  {
    if items != [] {
      var rest := items[1..];
      FlatSnapsSound(rest, base + 1);
      FlatSnapsCons(items, base);
      forall x | x in FlatSnaps(items, base)
        ensures exists i :: 0 <= i < |items| && FlatSnap(base + i, items[i]) == Some(x)
      {
        if x in FlatSnaps(rest, base + 1) {
          var j :| 0 <= j < |rest| && FlatSnap(base + 1 + j, rest[j]) == Some(x);
          assert rest[j] == items[j + 1] && base + 1 + j == base + (j + 1);
        } else {
          assert FlatSnap(base + 0, items[0]) == Some(x);
        }
      }
    }
  }

  /** The flat collection of a concatenation is the collection of the first
      part followed by that of the second, numbered on from where the first
      part stops: order and multiplicity follow the input. */
  lemma {:induction false} FlatSnapsAppend(a: seq<Json>, b: seq<Json>, base: nat)
    ensures FlatSnaps(a + b, base) == FlatSnaps(a, base) + FlatSnaps(b, base + |a|)
  {
    if a != [] {
      var ab := a + b;
      assert ab[0] == a[0] && ab[1..] == a[1..] + b;
      FlatSnapsAppend(a[1..], b, base + 1);
      FlatSnapsCons(ab, base);
      FlatSnapsCons(a, base);
    } else {
      assert a + b == b;
    }
  }

  /** The snap an element contributes: itself, or nothing. */
  function Emit(s: Option<FinancialSnap>): seq<FinancialSnap> {
    if s.Some? then [s.value] else []
  }

  /** One unfolding of the flat collection. */
  lemma FlatSnapsCons(items: seq<Json>, base: nat)
    requires items != []
    ensures FlatSnaps(items, base) == Emit(FlatSnap(base, items[0])) + FlatSnaps(items[1..], base + 1)
  {
  }

  /** A single flat element contributes itself, or nothing when it is dropped. */
  lemma FlatSnapsOne(item: Json, base: nat)
    ensures FlatSnaps([item], base) == if FlatSnap(base, item).Some? then [FlatSnap(base, item).value] else []
  {
    assert [item][1..] == [];
  }

  /** Every element of the flat shape gets a different document id. */
  lemma {:induction false} FlatSnapIdsDistinct(items: seq<Json>, base: nat)
    ensures DistinctIds(FlatSnaps(items, base))
  {
    if items != [] {
      var rest := FlatSnaps(items[1..], base + 1);
      FlatSnapIdsDistinct(items[1..], base + 1);
      match FlatSnap(base, items[0])
      case None =>
        assert FlatSnaps(items, base) == rest;
      case Some(s) =>
        assert FlatSnaps(items, base) == [s] + rest;
        FlatIdsNotBelow(items[1..], base + 1, base);
        ConsDistinct(s, rest);
    }
  }

  predicate DistinctIds(r: seq<FinancialSnap>) {
    forall j, k :: 0 <= j < k < |r| ==> r[j].documentId != r[k].documentId
  }

  lemma ConsDistinct(s: FinancialSnap, rest: seq<FinancialSnap>)
    requires DistinctIds(rest)
    requires forall x :: x in rest ==> s.documentId != x.documentId
    ensures DistinctIds([s] + rest)
  {
    var r := [s] + rest;
    forall j, k | 0 <= j < k < |r| ensures r[j].documentId != r[k].documentId {
      assert r[k] == rest[k - 1];
      if j > 0 { assert r[j] == rest[j - 1]; }
    }
  }

  /** No element collected from position `base` on carries the id of an
      earlier position `m`. */
  lemma {:induction false} FlatIdsNotBelow(items: seq<Json>, base: nat, m: nat)
    requires m < base
    ensures forall x :: x in FlatSnaps(items, base) ==> x.documentId != NatToString(m)
  {
    if items != [] {
      FlatIdsNotBelow(items[1..], base + 1, m);
      FlatSnapsCons(items, base);
      if FlatSnap(base, items[0]).Some? && NatToString(base) == NatToString(m) {
        NatToStringInjective(base, m);
      }
    }
  }

  /** A flat element without a subtitle is dropped but still uses up its
      position: the next one is numbered "1". */
  lemma FlatPositionsSurviveDrops()
    ensures FlatSnaps([Obj([("title", Str("a"))]), Obj([("title", Str("b")), ("subTitle", Str("c"))])], 0)
            == [FinancialSnap("1", "b", "c")]
  {
    var items := [Obj([("title", Str("a"))]), Obj([("title", Str("b")), ("subTitle", Str("c"))])];
    assert FlatSnap(0, items[0]) == None;
    assert items[1..] == [items[1]];
    assert items[1..][1..] == [];
    assert NatToString(1) == "1";
  }

  /** The document id of a nested element: `documentId`, or `id` when that
      key is absent, as text; "unknown" otherwise. A `documentId` that is
      present but not text does NOT fall back to `id`. */
  function NestedDocumentId(item: Json): (r: string)
    ensures Get(item, "documentId").Some? ==> r == AsStr(Get(item, "documentId").value).GetOr("unknown")
    ensures Get(item, "documentId").None? && Get(item, "id").Some? ==> r == AsStr(Get(item, "id").value).GetOr("unknown")
    ensures Get(item, "documentId").None? && Get(item, "id").None? ==> r == "unknown"
  {
    var found := if Get(item, "documentId").Some? then Get(item, "documentId") else Get(item, "id");
    match found
    case Some(v) => AsStr(v).GetOr("unknown")
    case None => "unknown"
  }

  /** One element of the nested shape: `attributes` with both texts is required. */
  function NestedSnap(item: Json): (r: Option<FinancialSnap>)
    ensures r.Some? <==> Get(item, "attributes").Some?
                         && StrAt(Get(item, "attributes").value, "title").Some?
                         && StrAt(Get(item, "attributes").value, "subTitle").Some?
    ensures r.Some? ==> r.value.documentId == NestedDocumentId(item)
                        && r.value.title == StrAt(Get(item, "attributes").value, "title").value
                        && r.value.subTitle == StrAt(Get(item, "attributes").value, "subTitle").value
  {
    match Get(item, "attributes")
    case None => None
    case Some(attrs) =>
      match (StrAt(attrs, "title"), StrAt(attrs, "subTitle"))
      case (Some(t), Some(s)) => Some(FinancialSnap(NestedDocumentId(item), t, s))
      case _ => None
  }

  /** The nested elements that have both texts, kept in order. */
  function NestedSnaps(items: seq<Json>): (r: seq<FinancialSnap>)
    ensures |r| <= |items|
    ensures forall i :: 0 <= i < |items| && NestedSnap(items[i]).Some? ==> NestedSnap(items[i]).value in r
    ensures forall x :: x in r ==> exists i :: 0 <= i < |items| && NestedSnap(items[i]) == Some(x)
  {
    if items == [] then []
    else
      var rest := NestedSnaps(items[1..]);
      assert forall i :: 1 <= i < |items| ==> items[1..][i - 1] == items[i];
      match NestedSnap(items[0])
      case Some(s) => [s] + rest
      case None => rest
  }

  /** The nested collection of a concatenation is the collection of the first
      part followed by that of the second. */
  lemma {:induction false} NestedSnapsAppend(a: seq<Json>, b: seq<Json>)
    ensures NestedSnaps(a + b) == NestedSnaps(a) + NestedSnaps(b)
  {
    if a != [] {
      assert (a + b)[1..] == a[1..] + b;
      NestedSnapsAppend(a[1..], b);
    } else {
      assert a + b == b;
    }
  }

  /** A single nested element contributes itself, or nothing when it lacks a text. */
  lemma NestedSnapsOne(item: Json)
    ensures NestedSnaps([item]) == if NestedSnap(item).Some? then [NestedSnap(item).value] else []
  {
    assert [item][1..] == [];
  }

  /** The `financialSanps` member of the `data` member. */
  function Snaps(body: Json): (r: Option<Json>)
    ensures r.Some? <==> Get(body, "data").Some? && Get(Get(body, "data").value, "financialSanps").Some?
    ensures r.Some? ==> r == Get(Get(body, "data").value, "financialSanps")
  {
    match Get(body, "data")
    case Some(d) => Get(d, "financialSanps")
    case None => None
  }

  /** `fetch_financial_snaps`, after the exchange: the flat shape wins, then the
      nested one (`data.financialSanps.data`), else the list is empty. */
  function ParseSnaps(body: Json): (r: seq<FinancialSnap>)
    ensures Snaps(body).Some? && Snaps(body).value.Arr? ==> r == FlatSnaps(Snaps(body).value.items, 0)
    ensures Snaps(body).Some? && !Snaps(body).value.Arr? && Get(Snaps(body).value, "data").Some?
            && Get(Snaps(body).value, "data").value.Arr? ==>
            r == NestedSnaps(Get(Snaps(body).value, "data").value.items)
    ensures (Snaps(body).Some? && !Snaps(body).value.Arr?
             && !(Get(Snaps(body).value, "data").Some? && Get(Snaps(body).value, "data").value.Arr?)) ==> r == []
    ensures Snaps(body).None? ==> r == []
  {
    match Snaps(body)
    case None => []
    case Some(fs) =>
      if fs.Arr? then FlatSnaps(fs.items, 0)
      else match Get(fs, "data")
        case Some(Arr(items)) => NestedSnaps(items)
        case _ => []
  }

  /** `fetch_financial_snap`, after the exchange: an absent or null answer is
      "no snap"; otherwise missing texts become "". */
  function ParseSnap(body: Json, documentId: string): (r: Option<FinancialSnap>)
    ensures r.Some? <==> (Get(body, "data").Some? && Get(Get(body, "data").value, "financialSanp").Some?
                         && !Get(Get(body, "data").value, "financialSanp").value.Null?)
    ensures r.Some? ==> r.value.documentId == documentId
    ensures r.Some? ==>
      var snap := Get(Get(body, "data").value, "financialSanp").value;
      r.value.title == StrAt(snap, "title").GetOr("") && r.value.subTitle == StrAt(snap, "subTitle").GetOr("")
  {
    match Get(body, "data")
    case None => None
    case Some(d) =>
      match Get(d, "financialSanp")
      case None => None
      case Some(snap) =>
        if snap.Null? then None
        else Some(FinancialSnap(documentId, StrAt(snap, "title").GetOr(""), StrAt(snap, "subTitle").GetOr("")))
  }

  /** The request body of `execute_query`: the query, and the variables when
      there are some. */
  function QueryBody(query: string, variables: Option<Json>): (r: Json)
    ensures r.Obj?
    ensures Get(r, "query") == Some(Str(query))
    ensures Get(r, "variables") == variables
    ensures forall k :: k != "query" && k != "variables" ==> Get(r, k).None?
  {
    var body := Obj([("query", Str(query))]);
    if variables.Some? then Set(body, "variables", variables.value) else body
  }
}
