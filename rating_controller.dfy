/**
 * The rating handlers: submitRating, getUserRatingForStore, getStoreRatings,
 * getStoreAverageRating and deleteRating. Each reads the caller from the
 * verified token (`req.user`), its route parameters from `params` and its
 * query string as optional texts; each method is proved to answer what the
 * function of the same name (suffix Reply or Outcome) describes.
 */
module RatingController {
  import opened Wrappers
  import opened Js
  import opened Sql
  import opened Credentials
  import opened Seqs
  import opened Tables
  import Schema = Tables
  import opened Validators
  import opened Storage
  import opened TableFacts
  import opened Http
  import UserList

  const StoreIdRequired: string := "Store ID is required"
  const StoreNotFound: string := "Store not found"
  const RatingNotFound: string := "Rating not found"

  /** `{ message, rating }` after a submission. */
  datatype Submitted = Submitted(message: string, rating: RatingRecord)

  /** `{ averageRating, totalRatings }`. */
  datatype AverageBody = AverageBody(averageRating: real, totalRatings: nat)

  // ---------------------------------------------------------------------
  // submitRating
  // ---------------------------------------------------------------------

  function SubmitOutcome(t: Tables, caller: Claims, storeId: JsValue, rating: JsValue, now: int)
    : (Reply<Submitted>, Tables)
  {
    if !Truthy(storeId) then (Refuse(400, StoreIdRequired), t)
    else if ValidateRating(rating).Invalid? then (Refuse(400, ValidateRating(rating).error), t)
    else
      match StoreById(t, storeId)
      case Err(e) => (Fail(Query(e)), t)
      case Ok(None) => (Refuse(404, StoreNotFound), t)
      case Ok(Some(_)) =>
        var (r, t') := SubmitRatingOutcome(t, caller.id, storeId, rating, now);
        if r.Err? then (Fail(Query(r.error)), t')
        else (Reply(201, Json(Submitted("Rating submitted successfully", r.value))), t')
  }

  method SubmitRating(db: Database, caller: Claims, storeId: JsValue, rating: JsValue, now: int)
    returns (reply: Reply<Submitted>)
    requires db.Valid()
    modifies db
    ensures db.Valid()
    ensures (reply, db.State()) == SubmitOutcome(old(db.State()), caller, storeId, rating, now)
  {
    if !Truthy(storeId) {
      return Refuse(400, StoreIdRequired);
    }
    var verdict := ValidateRating(rating);
    if verdict.Invalid? {
      return Refuse(400, verdict.error);
    }
    var store := StoreById(db.State(), storeId);
    if store.Err? {
      return Fail(Query(store.error));
    }
    if store.value.None? {
      return Refuse(404, StoreNotFound);
    }
    var record := db.SubmitRating(caller.id, storeId, rating, now);
    if record.Err? {
      return Fail(Query(record.error));
    }
    reply := Reply(201, Json(Submitted("Rating submitted successfully", record.value)));
  }

  /**
   * submitRating's guards in order; every answer keeps the constraints, and
   * only a 201 adds or changes a rating.
   */
  lemma SubmitGuards(t: Tables, caller: Claims, storeId: JsValue, rating: JsValue, now: int)
    requires Consistent(t)
    ensures var (r, t') := SubmitOutcome(t, caller, storeId, rating, now);
            && Consistent(t')
            && t'.users == t.users && t'.stores == t.stores
            && (r.status != 201 ==> t'.ratings == t.ratings)
            && (!Truthy(storeId) ==> r == Refuse(400, StoreIdRequired))
            && (Truthy(storeId) && ToNumber(rating).None? ==> r == Refuse(400, RatingOutOfRange))
            && (Truthy(storeId) && ValidateRating(rating) == Valid && BindInt4(storeId).Ok?
                && BindInt4(storeId).value.Some? && BindInt4(storeId).value.value !in StoreIds(t.stores)
                ==> r == Refuse(404, StoreNotFound))
  {
    var (r, t') := SubmitOutcome(t, caller, storeId, rating, now);
    if !Truthy(storeId) {
      assert (r, t') == (Refuse(400, StoreIdRequired), t);
    } else if ValidateRating(rating).Invalid? {
      assert (r, t') == (Refuse(400, RatingOutOfRange), t);
    } else if StoreById(t, storeId).Err? {
      assert t' == t;
    } else if StoreById(t, storeId).value.None? {
      assert (r, t') == (Refuse(404, StoreNotFound), t);
    } else {
      UpsertKeepsConsistent(t, caller.id, storeId, rating, now);
      UpsertTouchesOnlyRatings(t, caller.id, storeId, rating, now);
      var (u, t2) := UpsertRating(t, caller.id, storeId, rating, now);
      assert (r, t') == (if u.Err? then Fail(Query(u.error)) else Reply(201, Json(Submitted("Rating submitted successfully", RatingReturned(u.value)))), t2);
    }
  }

  /**
   * After a 201 the stored rating is the caller's, of that store, with the
   * submitted value between 1 and 5, and the caller's only rating of it.
   */
  lemma SubmitStoresCallersRating(t: Tables, caller: Claims, storeId: JsValue, rating: JsValue, now: int)
    requires Consistent(t)
    ensures var (r, t') := SubmitOutcome(t, caller, storeId, rating, now);
            r.status == 201 ==>
              && r.body.Json?
              && ValidateRating(rating) == Valid
              && BindInt4(storeId).Ok? && BindInt4(storeId).value.Some?
              && BindInt4(rating).Ok? && BindInt4(rating).value.Some?
              && var s := BindInt4(storeId).value.value;
                 var v := BindInt4(rating).value.value;
                 var rec := r.body.value.rating;
                 && s in StoreIds(t.stores)
                 && rec.userId == caller.id && rec.storeId == s && rec.rating == v && 1 <= v <= 5
                 && (exists x :: x in t'.ratings && x.id == rec.id && IsPair(x, caller.id, s) && x.rating == v)
                 && (forall i, j :: 0 <= i < j < |t'.ratings| ==>
                       !(IsPair(t'.ratings[i], caller.id, s) && IsPair(t'.ratings[j], caller.id, s)))
  {
    var (r, t') := SubmitOutcome(t, caller, storeId, rating, now);
    if r.status == 201 {
      assert Truthy(storeId) && ValidateRating(rating) == Valid;
      assert StoreById(t, storeId).Ok? && StoreById(t, storeId).value.Some?;
      var (u, t2) := UpsertRating(t, caller.id, storeId, rating, now);
      assert (r, t') == (if u.Err? then Fail(Query(u.error)) else Reply(201, Json(Submitted("Rating submitted successfully", RatingReturned(u.value)))), t2);
      UpsertStoresThePair(t, caller.id, storeId, rating, now);
    }
  }

  /**
   * Resubmitting overwrites: when the caller has rated the store, a 201 keeps
   * the number of ratings and the rating's id and changes only its value.
   */
  lemma ResubmitKeepsId(t: Tables, caller: Claims, storeId: JsValue, rating: JsValue, now: int, k: nat)
    requires Consistent(t)
    requires k < |t.ratings| && t.ratings[k].userId == caller.id
    requires BindInt4(storeId) == Ok(Some(t.ratings[k].storeId))
    ensures var (r, t') := SubmitOutcome(t, caller, storeId, rating, now);
            r.status == 201 ==>
              && |t'.ratings| == |t.ratings|
              && r.body.value.rating.id == t.ratings[k].id
              && t'.ratings == t.ratings[k := t.ratings[k].(rating := r.body.value.rating.rating, updatedAt := now)]
  {
    var (r, t') := SubmitOutcome(t, caller, storeId, rating, now);
    if r.status == 201 {
      ResubmitOverwrites(t, k, storeId, rating, BindInt4(rating).value.value, now);
    }
  }

  /**
   * validateRating accepts 2.5, but the ratings column is an integer: the
   * insert fails with a server error and nothing is stored, even for an
   * existing store.
   */
  lemma FractionalRatingIsServerError(t: Tables, caller: Claims, s: int, now: int)
    requires Consistent(t) && s in StoreIds(t.stores) && s <= Int4Max
    ensures var (r, t') := SubmitOutcome(t, caller, Num(s as real), Num(2.5), now);
            && ValidateRating(Num(2.5)) == Valid
            && r.status == 500 && t'.ratings == t.ratings
  {
    RatingAcceptsFractions();
    assert (s as real).Floor == s;
    assert 2.5 != (2.5).Floor as real;
  }

  // ---------------------------------------------------------------------
  // getUserRatingForStore
  // ---------------------------------------------------------------------

  /** `{ rating }`, where a missing rating is `null`. */
  function UserRatingReply(t: Tables, caller: Claims, params: map<string, string>): Reply<Option<RatingRow>> {
    match FindRating(t, caller.id, RouteParam(params, "storeId"))
    case Err(e) => Fail(Query(e))
    case Ok(found) => Reply(200, Json(found))
  }

  method GetUserRatingForStore(db: Database, caller: Claims, params: map<string, string>)
    returns (reply: Reply<Option<RatingRow>>)
    ensures reply == UserRatingReply(db.State(), caller, params)
  {
    var found := FindRating(db.State(), caller.id, RouteParam(params, "storeId"));
    if found.Err? {
      return Fail(Query(found.error));
    }
    reply := Reply(200, Json(found.value));
  }

  /**
   * For a store id that binds, the answer is 200 and carries the caller's own
   * rating of that store exactly when there is one: never another user's.
   */
  lemma UserRatingIsOwn(t: Tables, caller: Claims, params: map<string, string>, s: int)
    requires BindInt4(RouteParam(params, "storeId")) == Ok(Some(s))
    ensures var r := UserRatingReply(t, caller, params);
            && r.status == 200 && r.body.Json?
            && (r.body.value.Some? <==> exists x :: x in t.ratings && IsPair(x, caller.id, s))
            && (r.body.value.Some? ==> r.body.value.value in t.ratings && IsPair(r.body.value.value, caller.id, s))
  {
    FindRatingFindsThePair(t, caller.id, RouteParam(params, "storeId"), s);
  }

  // ---------------------------------------------------------------------
  // getStoreRatings
  // ---------------------------------------------------------------------

  /** page = parseInt(page) || 1, limit = parseInt(limit) || 10, then Rating.getByStore. */
  function StoreRatingsReply(t: Tables, params: map<string, string>, page: Option<string>, limit: Option<string>)
    : Reply<UserList.ListPage<RatingListing>>
  {
    match RatingsByStore(t, RouteParam(params, "id"), IntOr(page, 1), IntOr(limit, 10))
    case Err(e) => Fail(Query(e))
    case Ok(listing) => Reply(200, Json(listing))
  }

  method GetStoreRatings(db: Database, params: map<string, string>, page: Option<string>, limit: Option<string>)
    returns (reply: Reply<UserList.ListPage<RatingListing>>)
    ensures reply == StoreRatingsReply(db.State(), params, page, limit)
  {
    var p := IntOr(page, 1);
    var l := IntOr(limit, 10);
    var listing := RatingsByStore(db.State(), RouteParam(params, "id"), p, l);
    if listing.Err? {
      return Fail(Query(listing.error));
    }
    reply := Reply(200, Json(listing.value));
  }

  /** With no query string the first ten ratings are listed, newest first, out of all of the store's. */
  lemma StoreRatingsDefaults(t: Tables, params: map<string, string>, s: int)
    requires BindInt4(RouteParam(params, "id")) == Ok(Some(s))
    ensures var r := StoreRatingsReply(t, params, None, None);
            && r.status == 200 && r.body.Json?
            && |r.body.value.data| <= 10
            && r.body.value.pagination == UserList.Pagination(|RatingsOf(t.ratings, s)|, 1, 10,
                                                               Some(PageCount(|RatingsOf(t.ratings, s)|, 10)))
            && (forall i, j :: 0 <= i < j < |r.body.value.data| ==>
                  r.body.value.data[i].createdAt >= r.body.value.data[j].createdAt)
  {
    RatingsByStoreMeaning(t, RouteParam(params, "id"), s, 1, 10);
    RatingsByStoreNewestFirst(t, RouteParam(params, "id"), s, 1, 10);
  }

  /**
   * A negative page, such as `?page=-1`, passes parseInt and `||`, and the
   * negative OFFSET it yields is a server error.
   */
  lemma NegativePageIsServerError(t: Tables, params: map<string, string>, page: string)
    requires BindInt4(RouteParam(params, "id")).Ok?
    requires ParseInt(page).Some? && ParseInt(page).value < 0
    ensures StoreRatingsReply(t, params, Some(page), None).status == 500
  {
    var id := RouteParam(params, "id");
    var p := ParseInt(page).value;
    assert IntOr(Some(page), 1) == p;
    assert RatingsPage(t, id, 10, (p - 1) * 10).Err?;
    assert RatingsByStore(t, id, p, 10).Err?;
  }

  // ---------------------------------------------------------------------
  // getStoreAverageRating
  // ---------------------------------------------------------------------

  function AverageReply(t: Tables, params: map<string, string>): Reply<AverageBody> {
    match AverageRating(t, RouteParam(params, "id"))
    case Err(e) => Fail(Query(e))
    case Ok((avg, n)) => Reply(200, Json(AverageBody(avg, n)))
  }

  method GetStoreAverageRating(db: Database, params: map<string, string>) returns (reply: Reply<AverageBody>)
    ensures reply == AverageReply(db.State(), params)
  {
    var result := AverageRating(db.State(), RouteParam(params, "id"));
    if result.Err? {
      return Fail(Query(result.error));
    }
    reply := Reply(200, Json(AverageBody(result.value.0, result.value.1)));
  }

  /**
   * The average is 0 exactly when the store has no ratings, and otherwise
   * lies between 1 and 5; the count is the number of the store's ratings.
   */
  lemma AverageMeaning(t: Tables, params: map<string, string>, s: int)
    requires Consistent(t)
    requires BindInt4(RouteParam(params, "id")) == Ok(Some(s))
    ensures var r := AverageReply(t, params);
            && r.status == 200 && r.body.Json?
            && r.body.value.totalRatings == |RatingsOf(t.ratings, s)|
            && (r.body.value.totalRatings == 0 <==> r.body.value.averageRating == 0.0)
            && (r.body.value.totalRatings > 0 ==> 1.0 <= r.body.value.averageRating <= 5.0)
  {
    AverageWithinBounds(t, RouteParam(params, "id"));
  }

  // ---------------------------------------------------------------------
  // deleteRating
  // ---------------------------------------------------------------------

  function DeleteOutcome(t: Tables, params: map<string, string>): (Reply<Notice>, Tables) {
    var (r, t') := Schema.DeleteRating(t, RouteParam(params, "id"));
    if r.Err? then (Fail(Query(r.error)), t')
    else if r.value.None? then (Refuse(404, RatingNotFound), t')
    else (Reply(200, Json(Notice("Rating deleted successfully"))), t')
  }

  method DeleteRating(db: Database, params: map<string, string>) returns (reply: Reply<Notice>)
    requires db.Valid()
    modifies db
    ensures db.Valid()
    ensures (reply, db.State()) == DeleteOutcome(old(db.State()), params)
  {
    var removed := db.DeleteRating(RouteParam(params, "id"));
    if removed.Err? {
      return Fail(Query(removed.error));
    }
    if removed.value.None? {
      return Refuse(404, RatingNotFound);
    }
    reply := Reply(200, Json(Notice("Rating deleted successfully")));
  }

  /**
   * deleteRating answers 200 exactly when a rating has that id, and then
   * that rating alone is gone; the handler does not look at who calls it,
   * so any caller the route admits removes any user's rating.
   */
  lemma DeleteMeaning(t: Tables, params: map<string, string>, k: int)
    requires Consistent(t)
    requires BindInt4(RouteParam(params, "id")) == Ok(Some(k))
    ensures var (r, t') := DeleteOutcome(t, params);
            && Consistent(t')
            && (r.status == 200 <==> exists x :: x in t.ratings && x.id == k)
            && (r.status != 200 ==> r == Refuse(404, RatingNotFound) && t' == t)
            && (forall x :: x in t'.ratings <==> x in t.ratings && x.id != k)
            && t'.users == t.users && t'.stores == t.stores
  {
    DeleteRatingRemovesOne(t, RouteParam(params, "id"), k);
  }
}
