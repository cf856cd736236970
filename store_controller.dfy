/**
 * The store handlers: addStore, getStores, getStoreDetails, updateStore and
 * deleteStore. Each method is proved to answer what the function of the same
 * name (suffix Reply or Outcome) describes; the lemmas state what those
 * answers mean, including the ones the code gives for partial updates.
 */
module StoreController {
  import opened Wrappers
  import opened Js
  import opened Seqs
  import opened Sql
  import opened Credentials
  import opened Tables
  import Schema = Tables
  import opened Validators
  import opened Storage
  import opened TableFacts
  import opened Http
  import opened Listing
  import UserList
  import StoreList
  import Constants

  const OwnerIdRequired: string := "Owner ID is required"
  const StoreEmailTaken: string := "Store email already registered"
  const StoreNotFound: string := "Store not found"

  /** `{ message, store }`. */
  datatype StoreSaved = StoreSaved(message: string, store: StoreRecord)

  /** `{ ...store, averageRating, totalRatings }`. */
  datatype StoreDetails = StoreDetails(store: StoreRow, averageRating: real, totalRatings: nat)

  // ---------------------------------------------------------------------
  // addStore
  // ---------------------------------------------------------------------

  function AddStoreOutcome(t: Tables, name: TextValue, email: TextValue, address: TextValue, ownerId: JsValue, now: int)
    : (Reply<StoreSaved>, Tables)
  {
    var errors := StoreDataErrors(StoreData(name, email, address));
    if errors != [] then (Reply(400, Errors(errors)), t)
    else if !Truthy(ownerId) then (Refuse(400, OwnerIdRequired), t)
    else
      StoreDataValidIff(StoreData(name, email, address));
      OpenStore(t, name.s, email.s, address.s, ownerId, now)
  }

  /** addStore once the body passed its checks: the email must be new, then Store.create. */
  function OpenStore(t: Tables, name: string, email: string, address: string, ownerId: JsValue, now: int)
    : (Reply<StoreSaved>, Tables)
  {
    if StoreWithEmail(t.stores, email).Some? then (Refuse(400, StoreEmailTaken), t)
    else
      var (r, t') := CreateStoreOutcome(t, name, email, address, ownerId, now);
      if r.Err? then (Fail(Query(r.error)), t')
      else (Reply(201, Json(StoreSaved("Store created successfully", r.value))), t')
  }

  /**
   * Opening a store: a 201 appends exactly that store, with the next id, an
   * owner that exists and an email no other store has; every other answer
   * leaves the rows as they were.
   */
  lemma OpenStoreMeaning(t: Tables, name: string, email: string, address: string, ownerId: JsValue, now: int)
    requires Consistent(t)
    ensures var (r, t') := OpenStore(t, name, email, address, ownerId, now);
            && Consistent(t')
            && t'.users == t.users && t'.ratings == t.ratings
            && (r.status != 201 ==> t'.stores == t.stores)
            && (r.status == 201 ==>
                  && email !in StoreEmails(t.stores)
                  && |t'.stores| == |t.stores| + 1
                  && var s := t'.stores[|t.stores|];
                     && t'.stores == t.stores + [s]
                     && s.id == t.storeSeq && s.name == name && s.email == email && s.address == address
                     && s.ownerId in UserIds(t.users) && BindInt4(ownerId) == Ok(Some(s.ownerId))
                     && r.body.value.store.id == s.id)
  {
    InsertStoreKeepsConsistent(t, name, email, address, ownerId, now);
  }

  method AddStore(db: Database, name: TextValue, email: TextValue, address: TextValue, ownerId: JsValue, now: int)
    returns (reply: Reply<StoreSaved>)
    requires db.Valid()
    modifies db
    ensures db.Valid()
    ensures (reply, db.State()) == AddStoreOutcome(old(db.State()), name, email, address, ownerId, now)
  {
    var validation := ValidateStoreData(StoreData(name, email, address));
    if !validation.valid {
      return Reply(400, Errors(validation.errors.value));
    }
    if !Truthy(ownerId) {
      return Refuse(400, OwnerIdRequired);
    }
    StoreDataValidIff(StoreData(name, email, address));
    var existing := StoreWithEmail(db.stores, email.s);
    if existing.Some? {
      return Refuse(400, StoreEmailTaken);
    }
    var created := db.CreateStore(name.s, email.s, address.s, ownerId, now);
    if created.Err? {
      return Fail(Query(created.error));
    }
    reply := Reply(201, Json(StoreSaved("Store created successfully", created.value)));
  }

  /**
   * addStore's checks in order: the body's messages, the owner id, then
   * opening the store; a store is added only with valid data.
   */
  lemma AddStoreMeaning(t: Tables, name: TextValue, email: TextValue, address: TextValue, ownerId: JsValue, now: int)
    ensures var (r, t') := AddStoreOutcome(t, name, email, address, ownerId, now);
            && (StoreDataErrors(StoreData(name, email, address)) != [] ==>
                  r == Reply(400, Errors(StoreDataErrors(StoreData(name, email, address)))) && t' == t)
            && (StoreDataErrors(StoreData(name, email, address)) == [] && !Truthy(ownerId) ==>
                  r == Refuse(400, OwnerIdRequired) && t' == t)
            && (StoreDataErrors(StoreData(name, email, address)) == [] && Truthy(ownerId) ==>
                  && ValidateName(name) == Valid && ValidateEmail(email)
                  && address.Str? && JsLength(address.s) <= Constants.AddressMaxLength
                  && (r, t') == OpenStore(t, name.s, email.s, address.s, ownerId, now))
  {
    StoreDataValidIff(StoreData(name, email, address));
  }

  /**
   * The owner's role is never checked: with valid data and a new email, any
   * existing user, whatever their role, becomes the owner of a new store.
   */
  lemma AnyUserCanOwnAStore(t: Tables, name: string, email: string, address: string, owner: nat, now: int)
    requires Consistent(t)
    requires StoreDataErrors(StoreData(Str(name), Str(email), Str(address))) == []
    requires email !in StoreEmails(t.stores) && owner in UserIds(t.users) && owner <= Int4Max
    requires StoreFits(StoreRow(t.storeSeq, name, email, address, owner, now, now))
    ensures AddStoreOutcome(t, Str(name), Str(email), Str(address), Num(owner as real), now).0.status == 201
  {
    assert (owner as real).Floor == owner;
    assert BindInt4(Num(owner as real)) == Ok(Some(owner));
  }

  // ---------------------------------------------------------------------
  // getStores
  // ---------------------------------------------------------------------

  /** The query string of GET /stores. */
  datatype StoreQuery = StoreQuery(name: Option<string>, email: Option<string>, address: Option<string>,
                                   sortBy: Option<string>, sortOrder: Option<string>,
                                   page: Option<string>, limit: Option<string>)

  /** sortBy defaults to "id" and sortOrder to "asc"; the other filters are passed on as they are. */
  function StoreFiltersOf(q: StoreQuery): (f: StoreList.StoreFilters)
    ensures f.sortBy.Some? && f.sortBy.value != "" && f.sortOrder.Some?
    ensures q.sortBy.None? ==> f.sortBy == Some("id")
    ensures q.sortOrder.None? ==> f.sortOrder == Some("asc")
  {
    StoreList.StoreFilters(q.name, q.email, q.address, Some(TextOr(q.sortBy, "id")), Some(TextOr(q.sortOrder, "asc")))
  }

  function StoresReply(t: Tables, caller: Claims, q: StoreQuery): Reply<UserList.ListPage<StoreList.StoreSummary>> {
    match StoreList.StoreListing(t, StoreFiltersOf(q), IntOr(q.page, 1), IntOr(q.limit, 10), Some(caller.id))
    case Err(e) => Fail(Query(e))
    case Ok(listing) => Reply(200, Json(listing))
  }

  method GetStores(db: Database, caller: Claims, q: StoreQuery) returns (reply: Reply<UserList.ListPage<StoreList.StoreSummary>>)
    ensures reply == StoresReply(db.State(), caller, q)
  {
    var page := IntOr(q.page, 1);
    var limit := IntOr(q.limit, 10);
    var filters := StoreList.StoreFilters(q.name, q.email, q.address, Some(TextOr(q.sortBy, "id")), Some(TextOr(q.sortOrder, "asc")));
    var listing := db.GetAllStores(filters, page, limit, Some(caller.id));
    if listing.Err? {
      return Fail(Query(listing.error));
    }
    reply := Reply(200, Json(listing.value));
  }

  /** Without sortBy the stores are ordered by id, descending only for sortOrder=desc. */
  lemma DefaultStoreOrder(q: StoreQuery)
    requires q.sortBy.None?
    ensures StoreList.StoreOrderBy(StoreFiltersOf(q)) == ("s.id", q.sortOrder == Some("desc"))
  {
    var f := StoreFiltersOf(q);
    assert f.sortBy == Some("id") && (f.sortOrder == Some("desc") <==> q.sortOrder == Some("desc"));
    assert StoreList.SortAccepted(f) by { assert "id" in StoreList.StoreSortFields; }
    assert "s." + "id" == "s.id";
  }

  /**
   * With a known sortBy the listing is the matching stores, in that order,
   * each with its average rating and the caller's own rating.
   */
  lemma StoresMeaning(t: Tables, caller: Claims, q: StoreQuery)
    requires q.sortBy.None? || q.sortBy.value in StoreList.StoreSortFields || q.sortBy.value !in ObjectPrototypeKeys
    ensures var r := StoresReply(t, caller, q);
            var expected := StoreList.ExpectedStoreListing(t, StoreFiltersOf(q), IntOr(q.page, 1), IntOr(q.limit, 10), Some(caller.id));
            && (r.status == 200 <==> expected.Ok?)
            && (r.status == 200 ==> r.body == Json(expected.value))
  {
    var f := StoreFiltersOf(q);
    var page, limit := IntOr(q.page, 1), IntOr(q.limit, 10);
    StoreList.StoreListingMeaning(t, f, page, limit, Some(caller.id));
    var listing := StoreList.StoreListing(t, f, page, limit, Some(caller.id));
    assert StoresReply(t, caller, q) == if listing.Err? then Fail(Query(listing.error)) else Reply(200, Json(listing.value));
  }

  // ---------------------------------------------------------------------
  // getStoreDetails
  // ---------------------------------------------------------------------

  function DetailsReply(t: Tables, params: map<string, string>): Reply<StoreDetails> {
    var id := RouteParam(params, "id");
    match StoreById(t, id)
    case Err(e) => Fail(Query(e))
    case Ok(None) => Refuse(404, StoreNotFound)
    case Ok(Some(s)) =>
      match AverageRating(t, id)
      case Err(e) => Fail(Query(e))
      case Ok((avg, n)) => Reply(200, Json(StoreDetails(s, avg, n)))
  }

  method GetStoreDetails(db: Database, params: map<string, string>) returns (reply: Reply<StoreDetails>)
    ensures reply == DetailsReply(db.State(), params)
  {
    var id := RouteParam(params, "id");
    var store := StoreById(db.State(), id);
    if store.Err? {
      return Fail(Query(store.error));
    }
    if store.value.None? {
      return Refuse(404, StoreNotFound);
    }
    var info := AverageRating(db.State(), id);
    if info.Err? {
      return Fail(Query(info.error));
    }
    reply := Reply(200, Json(StoreDetails(store.value.value, info.value.0, info.value.1)));
  }

  /**
   * For an id that binds, the details are found exactly when the store
   * exists, and then carry that store's row, the number of its ratings and
   * an average that is 0 for none and otherwise between 1 and 5.
   */
  lemma DetailsMeaning(t: Tables, params: map<string, string>, k: int)
    requires Consistent(t)
    requires BindInt4(RouteParam(params, "id")) == Ok(Some(k))
    ensures var r := DetailsReply(t, params);
            && (r.status == 200 <==> k in StoreIds(t.stores))
            && (r.status != 200 ==> r == Refuse(404, StoreNotFound))
            && (r.status == 200 ==>
                  var d := r.body.value;
                  && d.store in t.stores && d.store.id == k
                  && d.totalRatings == |RatingsOf(t.ratings, k)|
                  && (d.totalRatings == 0 <==> d.averageRating == 0.0)
                  && (d.totalRatings > 0 ==> 1.0 <= d.averageRating <= 5.0))
  {
    AverageWithinBounds(t, RouteParam(params, "id"));
  }

  // ---------------------------------------------------------------------
  // updateStore
  // ---------------------------------------------------------------------

  /** `v || ""`. */
  function OrEmpty(v: TextValue): (r: TextValue)
    ensures Truthy(v) ==> r == v
    ensures !Truthy(v) ==> r == Str("")
  {
    if Truthy(v) then v else Str("")
  }

  /** The messages updateStore reports: none unless a field is truthy, then all of validateStoreData's. */
  function UpdateErrors(name: TextValue, email: TextValue, address: TextValue): seq<string> {
    if Truthy(name) || Truthy(email) || Truthy(address) then
      StoreDataErrors(StoreData(OrEmpty(name), OrEmpty(email), OrEmpty(address)))
    else []
  }

  /** Another store already has the email: its id differs from parseInt(req.params.id). */
  predicate EmailConflict(t: Tables, storeId: JsValue, email: TextValue) {
    Truthy(email) && StoreWithEmail(t.stores, email.s).Some?
    && ParamInt(storeId) != Some(StoreWithEmail(t.stores, email.s).value.id)
  }

  function UpdateStoreReplyOutcome(t: Tables, params: map<string, string>, name: TextValue, email: TextValue,
                                   address: TextValue, now: int): (Reply<StoreSaved>, Tables)
  {
    var id := RouteParam(params, "id");
    var errors := UpdateErrors(name, email, address);
    if errors != [] then (Reply(400, Errors(errors)), t)
    else if EmailConflict(t, id, email) then (Refuse(400, StoreEmailTaken), t)
    else ApplyStorePatch(t, id, StorePatch(name, email, address), now)
  }

  /** updateStore once its checks passed: Store.update, 404 when no row has the id. */
  function ApplyStorePatch(t: Tables, id: JsValue, p: StorePatch, now: int): (Reply<StoreSaved>, Tables) {
    var (r, t') := UpdateStoreOutcome(t, id, p, now);
    if r.Err? then (Fail(Query(r.error)), t')
    else if r.value.None? then (Refuse(404, StoreNotFound), t')
    else (Reply(200, Json(StoreSaved("Store updated successfully", r.value.value))), t')
  }

  method UpdateStore(db: Database, params: map<string, string>, name: TextValue, email: TextValue, address: TextValue,
                     now: int) returns (reply: Reply<StoreSaved>)
    requires db.Valid()
    modifies db
    ensures db.Valid()
    ensures (reply, db.State()) == UpdateStoreReplyOutcome(old(db.State()), params, name, email, address, now)
  {
    ghost var t := db.State();
    var storeId := RouteParam(params, "id");
    if Truthy(name) || Truthy(email) || Truthy(address) {
      var validation := ValidateStoreData(StoreData(OrEmpty(name), OrEmpty(email), OrEmpty(address)));
      if !validation.valid {
        return Reply(400, Errors(validation.errors.value));
      }
    }
    assert UpdateErrors(name, email, address) == [];
    if Truthy(email) {
      var existing := StoreWithEmail(db.stores, email.s);
      if existing.Some? && ParamInt(storeId) != Some(existing.value.id) {
        return Refuse(400, StoreEmailTaken);
      }
    }
    assert !EmailConflict(t, storeId, email);
    reply := ApplyStoreUpdate(db, storeId, StorePatch(name, email, address), now);
  }

  /** The tail of updateStore once its checks passed: Store.update and the answer it leads to. */
  method ApplyStoreUpdate(db: Database, storeId: JsValue, p: StorePatch, now: int) returns (reply: Reply<StoreSaved>)
    requires db.Valid()
    modifies db
    ensures db.Valid()
    ensures (reply, db.State()) == ApplyStorePatch(old(db.State()), storeId, p, now)
  {
    var updated := db.UpdateStore(storeId, p, now);
    if updated.Err? {
      return Fail(Query(updated.error));
    }
    if updated.value.None? {
      return Refuse(404, StoreNotFound);
    }
    reply := Reply(200, Json(StoreSaved("Store updated successfully", updated.value.value)));
  }

  /** The row an UPDATE returns carries the id the statement was bound to. */
  lemma UpdateStoreAddressesId(t: Tables, id: JsValue, p: StorePatch, now: int)
    ensures var u := Schema.UpdateStore(t, id, p, now).0;
            u.Ok? && u.value.Some? ==> BindInt4(id) == Ok(Some(u.value.value.id))
  {
    var u := Schema.UpdateStore(t, id, p, now).0;
    if u.Ok? && u.value.Some? {
      var k := BindInt4(id).value.value;
      var j := IndexWhere(t.stores, (s: StoreRow) => s.id == k);
      assert j < |t.stores| && PatchStore(t.stores[j], p, now) == Ok(u.value.value);
    }
  }

  /**
   * Applying a patch: a 200 rewrites exactly the addressed store, keeping
   * its id, owner and creation time and every field the patch leaves
   * undefined; every other answer leaves the tables as they were.
   */
  lemma ApplyStorePatchMeaning(t: Tables, id: JsValue, p: StorePatch, now: int)
    requires Consistent(t)
    ensures var (r, t') := ApplyStorePatch(t, id, p, now);
            && Consistent(t')
            && t'.users == t.users && t'.ratings == t.ratings
            && (r.status != 200 ==> t' == t)
            && (r.status == 200 ==>
                  var rec := r.body.value.store;
                  && BindInt4(id) == Ok(Some(rec.id))
                  && exists i :: 0 <= i < |t.stores| && t.stores[i].id == rec.id
                       && t'.stores == t.stores[i := t'.stores[i]]
                       && t'.stores[i].ownerId == t.stores[i].ownerId
                       && t'.stores[i].createdAt == t.stores[i].createdAt && t'.stores[i].updatedAt == now
                       && (p.name.Undefined? ==> t'.stores[i].name == t.stores[i].name)
                       && (p.email.Undefined? ==> t'.stores[i].email == t.stores[i].email)
                       && (p.address.Undefined? ==> t'.stores[i].address == t.stores[i].address))
  {
    UpdateStoreKeepsConsistent(t, id, p, now);
    var (u, t2) := Schema.UpdateStore(t, id, p, now);
    assert UpdateStoreOutcome(t, id, p, now).1 == t2;
    if u.Ok? && u.value.Some? {
      var row := u.value.value;
      UpdateStoreAddressesId(t, id, p, now);
      assert ApplyStorePatch(t, id, p, now)
          == (Reply(200, Json(StoreSaved("Store updated successfully", UpdatedStore(row)))), t2);
      var i :| 0 <= i < |t.stores| && t2.stores == t.stores[i := row]
               && t.stores[i].id == row.id && t.stores[i].ownerId == row.ownerId
               && t.stores[i].createdAt == row.createdAt && row.updatedAt == now
               && (p.name.Undefined? ==> row.name == t.stores[i].name)
               && (p.email.Undefined? ==> row.email == t.stores[i].email)
               && (p.address.Undefined? ==> row.address == t.stores[i].address);
      assert t2.stores[i] == row;
    } else {
      assert t2 == t;
      assert ApplyStorePatch(t, id, p, now).0.status != 200;
    }
  }

  /**
   * updateStore's checks in order: the messages when a field is truthy, the
   * email held by another store, then the patch of the fields as sent.
   */
  lemma UpdateStoreMeaning(t: Tables, params: map<string, string>, name: TextValue, email: TextValue,
                           address: TextValue, now: int)
    ensures var (r, t') := UpdateStoreReplyOutcome(t, params, name, email, address, now);
            && (!Truthy(name) && !Truthy(email) && !Truthy(address) ==> UpdateErrors(name, email, address) == [])
            && (UpdateErrors(name, email, address) != [] ==> r == Reply(400, Errors(UpdateErrors(name, email, address))) && t' == t)
            && (UpdateErrors(name, email, address) == [] && EmailConflict(t, RouteParam(params, "id"), email) ==>
                  r == Refuse(400, StoreEmailTaken) && t' == t)
            && (UpdateErrors(name, email, address) == [] && !EmailConflict(t, RouteParam(params, "id"), email) ==>
                  (r, t') == ApplyStorePatch(t, RouteParam(params, "id"), StorePatch(name, email, address), now))
  {
  }

  /**
   * A body that renames only is refused: the missing email and address are
   * validated as "" and reported.
   */
  lemma RenameAloneIsRefused(t: Tables, params: map<string, string>, name: string, now: int)
    requires !IsBlank(name)
    ensures var (r, t') := UpdateStoreReplyOutcome(t, params, Str(name), Undefined, Undefined, now);
            && r.status == 400 && t' == t
            && r.body == Errors([InvalidEmailFormat, AddressRequired])
  {
    var errors := UpdateErrors(Str(name), Undefined, Undefined);
    assert errors == StoreDataErrors(StoreData(Str(name), Str(""), Str("")));
    assert VerdictErrors(ValidateName(Str(name))) == [];
    assert !EmailRegex("");
    assert EmailErrors(Str("")) == [InvalidEmailFormat];
    assert errors == [InvalidEmailFormat, AddressRequired];
    assert UpdateStoreReplyOutcome(t, params, Str(name), Undefined, Undefined, now) == (Reply(400, Errors(errors)), t);
  }

  /**
   * A falsy name skips validation altogether: `{ name: "" }` on an existing
   * store answers 200 and stores the empty name.
   */
  lemma EmptyNameSkipsValidation(t: Tables, params: map<string, string>, now: int, k: nat)
    requires Consistent(t)
    requires k < |t.stores| && BindInt4(RouteParam(params, "id")) == Ok(Some(t.stores[k].id))
    ensures var (r, t') := UpdateStoreReplyOutcome(t, params, Str(""), Undefined, Undefined, now);
            && r.status == 200 && k < |t'.stores| && t'.stores[k].name == ""
  {
    var id := RouteParam(params, "id");
    var p := StorePatch(Str(""), Undefined, Undefined);
    assert UpdateErrors(Str(""), Undefined, Undefined) == [];
    assert !EmailConflict(t, id, Undefined);
    var row := EmptyNamePatchApplies(t, id, k, now);
    assert UpdateStoreReplyOutcome(t, params, Str(""), Undefined, Undefined, now)
        == (Reply(200, Json(StoreSaved("Store updated successfully", UpdatedStore(row)))),
            t.(stores := t.stores[k := row]));
  }

  /** Store.update with only an empty name patches the row whose id matched and breaks no uniqueness. */
  lemma EmptyNamePatchApplies(t: Tables, id: JsValue, k: nat, now: int) returns (row: StoreRow)
    requires Consistent(t)
    requires k < |t.stores| && BindInt4(id) == Ok(Some(t.stores[k].id))
    ensures row.name == "" && Schema.UpdateStore(t, id, StorePatch(Str(""), Undefined, Undefined), now)
            == (Ok(Some(row)), t.(stores := t.stores[k := row]))
  {
    var p := StorePatch(Str(""), Undefined, Undefined);
    assert t.stores[k] in t.stores;
    var i := IndexWhere(t.stores, (s: StoreRow) => s.id == t.stores[k].id);
    assert i <= k;
    assert i == k by {
      assert t.stores[i].id == t.stores[k].id;
    }
    row := PatchStore(t.stores[k], p, now).value;
    forall j | 0 <= j < |t.stores| && j != k ensures t.stores[j].email != row.email {
      assert t.stores[j] in t.stores;
    }
  }

  // ---------------------------------------------------------------------
  // deleteStore
  // ---------------------------------------------------------------------

  function DeleteStoreReplyOutcome(t: Tables, params: map<string, string>): (Reply<Notice>, Tables) {
    var (r, t') := Schema.DeleteStore(t, RouteParam(params, "id"));
    if r.Err? then (Fail(Query(r.error)), t')
    else if r.value.None? then (Refuse(404, StoreNotFound), t')
    else (Reply(200, Json(Notice("Store deleted successfully"))), t')
  }

  method DeleteStore(db: Database, params: map<string, string>) returns (reply: Reply<Notice>)
    requires db.Valid()
    modifies db
    ensures db.Valid()
    ensures (reply, db.State()) == DeleteStoreReplyOutcome(old(db.State()), params)
  {
    var removed := db.DeleteStore(RouteParam(params, "id"));
    if removed.Err? {
      return Fail(Query(removed.error));
    }
    if removed.value.None? {
      return Refuse(404, StoreNotFound);
    }
    reply := Reply(200, Json(Notice("Store deleted successfully")));
  }

  /**
   * deleteStore answers 200 exactly for an existing store; the store and all
   * its ratings are then gone and every other rating stays.
   */
  lemma DeleteStoreMeaning(t: Tables, params: map<string, string>, k: int)
    requires Consistent(t)
    requires BindInt4(RouteParam(params, "id")) == Ok(Some(k))
    ensures var (r, t') := DeleteStoreReplyOutcome(t, params);
            && Consistent(t')
            && (r.status == 200 <==> k in StoreIds(t.stores))
            && (r.status != 200 ==> r == Refuse(404, StoreNotFound) && t' == t)
            && (r.status == 200 ==>
                  && StoreIds(t'.stores) == StoreIds(t.stores) - {k}
                  && (forall x :: x in t'.ratings ==> x.storeId != k)
                  && (forall x :: x in t.ratings && x.storeId != k ==> x in t'.ratings))
  {
    DeleteStoreCascades(t, RouteParam(params, "id"));
    if k in StoreIds(t.stores) {
      RemoveStoreKeepsConsistent(t, k);
    }
  }
}
