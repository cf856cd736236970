/**
 * The data layer as the controllers see it: one connection pool onto the
 * users, stores and ratings tables. `Database` holds the tables and id
 * sequences as fields; each model method that writes (User.create/update/
 * delete, Store.create/update/delete, Rating.create/delete) changes them in
 * place, and each is proved to leave exactly the state the statement's
 * function in module Tables describes, keeping the schema's constraints.
 * The listings run the imperative query builders and then the statements.
 */
module Storage {
  import opened Wrappers
  import opened Js
  import opened Seqs
  import opened Sql
  import opened Credentials
  import opened Tables
  import Schema = Tables
  import opened TableFacts
  import UserList
  import StoreList
  import Constants

  // ---------------------------------------------------------------------
  // What the writing statements return
  // ---------------------------------------------------------------------

  /** `RETURNING id, name, email, address, role, created_at` (or updated_at for UPDATE). */
  datatype UserRecord = UserRecord(id: int, name: string, email: string, address: Option<string>,
                                   role: string, stamp: int)

  /** `RETURNING id, name, email, address, owner_id, created_at` (or updated_at for UPDATE). */
  datatype StoreRecord = StoreRecord(id: int, name: string, email: string, address: string,
                                     ownerId: int, stamp: int)

  /** `RETURNING id, user_id, store_id, rating, created_at` of the rating upsert. */
  datatype RatingRecord = RatingRecord(id: int, userId: int, storeId: int, rating: int, createdAt: int)

  function CreatedUser(u: UserRow): (r: UserRecord)
    ensures r.id == u.id && r.role == u.role && r.stamp == u.createdAt
  {
    UserRecord(u.id, u.name, u.email, u.address, u.role, u.createdAt)
  }

  function UpdatedUser(u: UserRow): (r: UserRecord)
    ensures r.id == u.id && r.role == u.role && r.stamp == u.updatedAt
  {
    UserRecord(u.id, u.name, u.email, u.address, u.role, u.updatedAt)
  }

  function CreatedStore(s: StoreRow): (r: StoreRecord)
    ensures r.id == s.id && r.ownerId == s.ownerId && r.stamp == s.createdAt
  {
    StoreRecord(s.id, s.name, s.email, s.address, s.ownerId, s.createdAt)
  }

  function UpdatedStore(s: StoreRow): (r: StoreRecord)
    ensures r.id == s.id && r.ownerId == s.ownerId && r.stamp == s.updatedAt
  {
    StoreRecord(s.id, s.name, s.email, s.address, s.ownerId, s.updatedAt)
  }

  function RatingReturned(x: RatingRow): (r: RatingRecord)
    ensures r.id == x.id && r.userId == x.userId && r.storeId == x.storeId && r.rating == x.rating
  {
    RatingRecord(x.id, x.userId, x.storeId, x.rating, x.createdAt)
  }

  /** `address || null`: a missing or empty address is stored as NULL. */
  function StoredAddress(a: TextValue): (r: Option<string>)
    ensures r.None? <==> !Truthy(a)
    ensures r.Some? ==> a == Str(r.value)
  {
    if a.Str? && a.s != "" then Some(a.s) else None
  }

  // ---------------------------------------------------------------------
  // The model methods as functions of the database
  // ---------------------------------------------------------------------

  /** User.create: hash the password, default the role to normal_user, insert. */
  function CreateUserOutcome(t: Tables, name: string, email: string, password: string, address: TextValue,
                             role: Option<string>, now: int): (DbResult<UserRecord>, Tables)
  {
    var (r, t') := InsertUser(t, name, email, Hash(password), StoredAddress(address),
                              role.GetOr(Constants.NormalUser), now);
    (match r case Err(e) => Err(e) case Ok(row) => Ok(CreatedUser(row)), t')
  }

  /** User.update: the patched row's returned columns, or nothing when no user has the id. */
  function UpdateUserOutcome(t: Tables, id: JsValue, p: UserPatch, now: int): (DbResult<Option<UserRecord>>, Tables) {
    var (r, t') := UpdateUser(t, id, p, now);
    (match r
     case Err(e) => Err(e)
     case Ok(None) => Ok(None)
     case Ok(Some(row)) => Ok(Some(UpdatedUser(row))), t')
  }

  function CreateStoreOutcome(t: Tables, name: string, email: string, address: string, ownerId: JsValue, now: int)
    : (DbResult<StoreRecord>, Tables)
  {
    var (r, t') := InsertStore(t, name, email, address, ownerId, now);
    (match r case Err(e) => Err(e) case Ok(row) => Ok(CreatedStore(row)), t')
  }

  function UpdateStoreOutcome(t: Tables, id: JsValue, p: StorePatch, now: int): (DbResult<Option<StoreRecord>>, Tables) {
    var (r, t') := UpdateStore(t, id, p, now);
    (match r
     case Err(e) => Err(e)
     case Ok(None) => Ok(None)
     case Ok(Some(row)) => Ok(Some(UpdatedStore(row))), t')
  }

  function SubmitRatingOutcome(t: Tables, userId: int, storeId: JsValue, rating: JsValue, now: int)
    : (DbResult<RatingRecord>, Tables)
  {
    var (r, t') := UpsertRating(t, userId, storeId, rating, now);
    (match r case Err(e) => Err(e) case Ok(row) => Ok(RatingReturned(row)), t')
  }

  /** User.findById: the user without the password column; a NULL id finds nothing. */
  function UserById(t: Tables, id: JsValue): (r: DbResult<Option<PublicUser>>)
    ensures r.Ok? <==> BindInt4(id).Ok?
    ensures BindInt4(id) == Ok(None) ==> r == Ok(None)
    ensures forall k :: BindInt4(id) == Ok(Some(k)) ==>
              r.Ok? && (r.value.Some? <==> k in UserIds(t.users)) && (r.value.Some? ==> r.value.value.id == k)
  {
    match BindInt4(id)
    case Err(e) => Err(e)
    case Ok(None) => Ok(None)
    case Ok(Some(k)) =>
      match UserWithId(t.users, k)
      case None => Ok(None)
      case Some(u) => Ok(Some(Public(u)))
  }

  /** Store.findById. */
  function StoreById(t: Tables, id: JsValue): (r: DbResult<Option<StoreRow>>)
    ensures r.Ok? <==> BindInt4(id).Ok?
    ensures BindInt4(id) == Ok(None) ==> r == Ok(None)
    ensures forall k :: BindInt4(id) == Ok(Some(k)) ==>
              r.Ok? && (r.value.Some? <==> k in StoreIds(t.stores)) && (r.value.Some? ==> r.value.value.id == k && r.value.value in t.stores)
  {
    match BindInt4(id)
    case Err(e) => Err(e)
    case Ok(None) => Ok(None)
    case Ok(Some(k)) => Ok(StoreWithId(t.stores, k))
  }

  /**
   * `SELECT id FROM stores WHERE owner_id = $1`. The query has no ORDER BY;
   * the model returns the rows in table order, and only the set of ids is
   * promised.
   */
  function StoreIdsOwnedBy(stores: seq<StoreRow>, owner: int): (r: seq<int>)
    ensures forall k :: k in r <==> k in OwnedStoreIds(stores, owner)
  {
    var owned := Filter(stores, (s: StoreRow) => s.ownerId == owner);
    var r := Map(owned, (s: StoreRow) => s.id);
    assert forall k :: k in r ==> k in OwnedStoreIds(stores, owner) by {
      forall k | k in r ensures k in OwnedStoreIds(stores, owner) {
        var i :| 0 <= i < |r| && r[i] == k;
        assert owned[i] in owned;
      }
    }
    assert forall k :: k in OwnedStoreIds(stores, owner) ==> k in r by {
      forall k | k in OwnedStoreIds(stores, owner) ensures k in r {
        var s :| s in stores && s.ownerId == owner && s.id == k;
        assert s in owned;
        var i :| 0 <= i < |owned| && owned[i] == s;
        assert r[i] == k;
      }
    }
    r
  }

  /** User.create stores the hash of the password, the default role and a NULL for a falsy address, and always uses up an id. */
  lemma CreateUserStoresWhatItReturns(t: Tables, name: string, email: string, password: string, address: TextValue,
                                      role: Option<string>, now: int)
    requires Consistent(t)
    ensures var (r, t') := CreateUserOutcome(t, name, email, password, address, role, now);
            && Consistent(t')
            && t'.userSeq == t.userSeq + 1
            && (r.Ok? <==> |name| <= NameWidth && |email| <= EmailWidth && |role.GetOr(Constants.NormalUser)| <= RoleWidth
                           && (Truthy(address) ==> |address.s| <= AddressWidth)
                           && email !in UserEmails(t.users))
            && (r.Ok? ==> && |t'.users| == |t.users| + 1
                          && var row := t'.users[|t.users|];
                          && r.value == CreatedUser(row)
                          && row.id == t.userSeq
                          && row.role == (if role.Some? then role.value else Constants.NormalUser)
                          && (row.address.None? <==> !Truthy(address))
                          && Matches(password, row.password)
                          && (forall other :: other != password ==> !Matches(other, row.password)))
            && (r.Err? ==> t'.users == t.users)
  {
    InsertUserKeepsConsistent(t, name, email, Hash(password), StoredAddress(address), role.GetOr(Constants.NormalUser), now);
  }

  // ---------------------------------------------------------------------
  // Rating.getByStore
  // ---------------------------------------------------------------------

  /** Rating.getByStore: the rows at offset (page - 1) * limit, then the count; the first failure wins. */
  function RatingsByStore(t: Tables, storeId: JsValue, page: int, limit: int)
    : DbResult<UserList.ListPage<RatingListing>>
  {
    match RatingsPage(t, storeId, limit, (page - 1) * limit)
    case Err(e) => Err(e)
    case Ok(rows) =>
      match RatingsCount(t, storeId)
      case Err(e) => Err(e)
      case Ok(total) => Ok(UserList.ListPage(rows, UserList.Paginate(total, page, limit)))
  }

  /** A page of getByStore holds the window of the store's joined ratings at the page's offset. */
  lemma PageData(t: Tables, storeId: JsValue, s: int, page: int, limit: int, offset: nat)
    requires BindInt4(storeId) == Ok(Some(s))
    requires 1 <= limit <= Int8Max && offset == (page - 1) * limit <= Int8Max
    ensures var w := Window(StoreRatingRows(t, s), limit, offset);
            && (forall x :: x in w ==> x.userId in UserIds(t.users))
            && RatingsByStore(t, storeId, page, limit)
               == Ok(UserList.ListPage(Listings(t.users, w), UserList.Paginate(|RatingsOf(t.ratings, s)|, page, limit)))
  {
    var rows := StoreRatingRows(t, s);
    var w := Window(rows, limit, offset);
    forall x | x in w ensures x.userId in UserIds(t.users) {
      var i :| 0 <= i < |w| && w[i] == x;
      assert rows[offset + i] in rows;
    }
    assert RatingsPage(t, storeId, limit, offset) == Ok(Listings(t.users, w));
  }

  /** The k'th row of a page of getByStore is the k'th row of the window, joined with its author. */
  lemma PageRow(t: Tables, storeId: JsValue, s: int, page: int, limit: int, k: nat)
    requires BindInt4(storeId) == Ok(Some(s))
    requires 1 <= limit <= Int8Max && 0 <= (page - 1) * limit <= Int8Max
    requires k < |Window(StoreRatingRows(t, s), limit, (page - 1) * limit)|
    ensures RatingsByStore(t, storeId, page, limit).Ok?
    ensures var w := Window(StoreRatingRows(t, s), limit, (page - 1) * limit);
            k < |RatingsByStore(t, storeId, page, limit).value.data|
            && RatingsByStore(t, storeId, page, limit).value.data[k] == ListingOf(t.users, w[k])
  {
    var offset := (page - 1) * limit;
    PageData(t, storeId, s, page, limit, offset);
  }

  /**
   * For a positive page and limit, getByStore answers at most limit of the
   * store's ratings, each with its author's name and email; the total counts
   * every rating of the store and the page count covers them.
   */
  lemma RatingsByStoreMeaning(t: Tables, storeId: JsValue, s: int, page: int, limit: int)
    requires BindInt4(storeId) == Ok(Some(s))
    requires page >= 1 && 1 <= limit <= Int8Max && (page - 1) * limit <= Int8Max
    ensures var r := RatingsByStore(t, storeId, page, limit);
            && r.Ok?
            && |r.value.data| <= limit
            && (forall k :: 0 <= k < |r.value.data| ==> JoinedListing(t, s, r.value.data[k]))
            && r.value.pagination.total == |RatingsOf(t.ratings, s)|
            && r.value.pagination.pages == Some(PageCount(|RatingsOf(t.ratings, s)|, limit))
  {
    var offset := (page - 1) * limit;
    assert 0 <= offset;
    PageData(t, storeId, s, page, limit, offset);
    WindowListingsJoined(t, s, limit, offset);
  }

  /** l is one of store s's ratings, written by an existing user, joined with that user. */
  ghost predicate JoinedListing(t: Tables, s: int, l: RatingListing) {
    exists x :: x in t.ratings && x.storeId == s && x.userId in UserIds(t.users) && l == ListingOf(t.users, x)
  }

  /** Every listing of a window of the store's joined ratings is one of its ratings with an existing author. */
  lemma WindowListingsJoined(t: Tables, s: int, limit: nat, offset: nat)
    ensures var w := Window(StoreRatingRows(t, s), limit, offset);
            && (forall x :: x in w ==> x.userId in UserIds(t.users))
            && var data := Listings(t.users, w);
            forall k :: 0 <= k < |data| ==> JoinedListing(t, s, data[k])
  {
    var rows := StoreRatingRows(t, s);
    var w := Window(rows, limit, offset);
    RatingsNewestFirst(t, s);
    forall x | x in w ensures x.userId in UserIds(t.users) {
      var i :| 0 <= i < |w| && w[i] == x;
      assert rows[offset + i] in rows;
    }
    var data := Listings(t.users, w);
    forall k | 0 <= k < |data| ensures JoinedListing(t, s, data[k]) {
      assert w[k] == rows[offset + k];
      assert w[k] in rows;
    }
  }

  /** Each row of a page of getByStore carries the creation time of its window row. */
  lemma PageCreatedAt(t: Tables, storeId: JsValue, s: int, page: int, limit: int)
    requires BindInt4(storeId) == Ok(Some(s))
    requires page >= 1 && 1 <= limit <= Int8Max && (page - 1) * limit <= Int8Max
    ensures var r := RatingsByStore(t, storeId, page, limit);
            var rows := StoreRatingRows(t, s);
            && r.Ok?
            && (forall k :: 0 <= k < |r.value.data| ==>
                  (page - 1) * limit + k < |rows| && r.value.data[k].createdAt == rows[(page - 1) * limit + k].createdAt)
  {
    var offset := (page - 1) * limit;
    assert 0 <= offset;
    PageData(t, storeId, s, page, limit, offset);
  }

  /** getByStore lists a page newest first (ORDER BY r.created_at DESC). */
  lemma RatingsByStoreNewestFirst(t: Tables, storeId: JsValue, s: int, page: int, limit: int)
    requires BindInt4(storeId) == Ok(Some(s))
    requires page >= 1 && 1 <= limit <= Int8Max && (page - 1) * limit <= Int8Max
    ensures var r := RatingsByStore(t, storeId, page, limit);
            && r.Ok?
            && (forall i, j :: 0 <= i < j < |r.value.data| ==> r.value.data[i].createdAt >= r.value.data[j].createdAt)
  {
    var rows := StoreRatingRows(t, s);
    var offset := (page - 1) * limit;
    RatingsNewestFirst(t, s);
    PageCreatedAt(t, storeId, s, page, limit);
    var data := RatingsByStore(t, storeId, page, limit).value.data;
    forall i, j | 0 <= i < j < |data| ensures data[i].createdAt >= data[j].createdAt {
      NewerBefore(rows, offset + i, offset + j);
    }
  }

  /** In a list sorted newest first, an earlier row is no older than a later one. */
  lemma NewerBefore(rows: seq<RatingRow>, a: int, b: int)
    requires Sorted(rows, NewestFirst) && 0 <= a < b < |rows|
    ensures rows[a].createdAt >= rows[b].createdAt
  {
    assert NewestFirst(rows[a], rows[b]) <= 0;
  }

  /** Page i / limit + 1 starts at or before row i. */
  lemma PageStart(i: nat, limit: int)
    requires limit >= 1
    ensures 0 <= (i / limit + 1 - 1) * limit <= i
  {
    assert i == (i / limit) * limit + i % limit;
  }

  /**
   * Row i of the store's listing is on page i / limit + 1, within the page
   * count, when no two of the store's ratings share a created_at (ties are
   * ordered by the engine, possibly differently in each query).
   */
  lemma RowOnItsPageListed(t: Tables, storeId: JsValue, s: int, limit: int, i: nat)
    requires BindInt4(storeId) == Ok(Some(s))
    requires NoTies(StoreRatingRows(t, s), NewestFirst)
    requires 1 <= limit <= Int8Max && i < |StoreRatingRows(t, s)| <= Int8Max
    ensures var page := i / limit + 1;
            && 1 <= page <= PageCount(|StoreRatingRows(t, s)|, limit)
            && RatingsByStore(t, storeId, page, limit).Ok?
            && ListingOf(t.users, StoreRatingRows(t, s)[i]) in RatingsByStore(t, storeId, page, limit).value.data
  {
    var rows := StoreRatingRows(t, s);
    RowOnItsPage(rows, limit, i);
    var page := i / limit + 1;
    PageStart(i, limit);
    var w := Window(rows, limit, (page - 1) * limit);
    assert w[i % limit] == rows[i];
    PageRow(t, storeId, s, page, limit, i % limit);
  }

  /**
   * No rating is lost to paging: with limit rows a page, each rating of the
   * store is listed on some page between 1 and the page count, provided no
   * two of the store's ratings share a created_at.
   */
  lemma EveryRatingIsOnAPage(t: Tables, storeId: JsValue, s: int, limit: int, x: RatingRow)
    requires Consistent(t)
    requires BindInt4(storeId) == Ok(Some(s))
    requires NoTies(RatingsOf(t.ratings, s), NewestFirst)
    requires 1 <= limit <= Int8Max && |t.ratings| <= Int8Max
    requires x in t.ratings && x.storeId == s
    ensures x.userId in UserIds(t.users)
    ensures exists page :: 1 <= page <= PageCount(|RatingsOf(t.ratings, s)|, limit)
              && RatingsByStore(t, storeId, page, limit).Ok?
              && ListingOf(t.users, x) in RatingsByStore(t, storeId, page, limit).value.data
  {
    var rows := StoreRatingRows(t, s);
    JoinKeepsAllRatings(t, s);
    assert x in multiset(rows);
    var i :| 0 <= i < |rows| && rows[i] == x;
    assert |rows| <= |t.ratings|;
    RatingsNewestFirst(t, s);
    assert NoTies(rows, NewestFirst) by {
      forall a, b | a in rows && b in rows && a != b ensures NewestFirst(a, b) != 0 {
        assert a in RatingsOf(t.ratings, s) && b in RatingsOf(t.ratings, s);
      }
    }
    RowOnItsPageListed(t, storeId, s, limit, i);
  }

  // ---------------------------------------------------------------------
  // UPDATE ... SET: the assignment list grows with a placeholder counter
  // ---------------------------------------------------------------------

  /** `column = $placeholder` in the SET list. */
  datatype Assignment = Assignment(column: string, placeholder: nat)

  /** The columns User.update assigns from the request, in the order it tests them. */
  function UserPatchColumns(p: UserPatch): seq<string> {
    (if p.name != Undefined then ["name"] else [])
    + (if p.email != Undefined then ["email"] else [])
    + (if p.password.Some? then ["password"] else [])
    + (if p.address != Undefined then ["address"] else [])
  }

  /** The columns Store.update assigns. */
  function StorePatchColumns(p: StorePatch): seq<string> {
    (if p.name != Undefined then ["name"] else [])
    + (if p.email != Undefined then ["email"] else [])
    + (if p.address != Undefined then ["address"] else [])
  }

  /** The k-th supplied column gets $(k + 1); updated_at takes none. */
  predicate Numbered(sets: seq<Assignment>, columns: seq<string>) {
    && |sets| == |columns|
    && forall k :: 0 <= k < |sets| ==> sets[k] == Assignment(columns[k], k + 1)
  }

  lemma NumberedStep(sets: seq<Assignment>, columns: seq<string>, c: string)
    requires Numbered(sets, columns)
    ensures Numbered(sets + [Assignment(c, |sets| + 1)], columns + [c])
  {
  }

  /**
   * The SET list of User.update and the placeholder of `WHERE id = $n`: each
   * supplied column once, numbered from 1, and the id after them all.
   */
  method BuildUserUpdate(p: UserPatch) returns (sets: seq<Assignment>, idPlaceholder: nat)
    ensures Numbered(sets, UserPatchColumns(p))
    ensures idPlaceholder == |sets| + 1
  {
    sets := [];
    var paramCount := 1;
    ghost var columns: seq<string> := [];
    if p.name != Undefined {
      NumberedStep(sets, columns, "name");
      sets, columns := sets + [Assignment("name", paramCount)], columns + ["name"];
      paramCount := paramCount + 1;
    }
    if p.email != Undefined {
      NumberedStep(sets, columns, "email");
      sets, columns := sets + [Assignment("email", paramCount)], columns + ["email"];
      paramCount := paramCount + 1;
    }
    if p.password.Some? {
      NumberedStep(sets, columns, "password");
      sets, columns := sets + [Assignment("password", paramCount)], columns + ["password"];
      paramCount := paramCount + 1;
    }
    if p.address != Undefined {
      NumberedStep(sets, columns, "address");
      sets, columns := sets + [Assignment("address", paramCount)], columns + ["address"];
      paramCount := paramCount + 1;
    }
    assert columns == UserPatchColumns(p);
    idPlaceholder := paramCount;
  }

  method BuildStoreUpdate(p: StorePatch) returns (sets: seq<Assignment>, idPlaceholder: nat)
    ensures Numbered(sets, StorePatchColumns(p))
    ensures idPlaceholder == |sets| + 1
  {
    sets := [];
    var paramCount := 1;
    ghost var columns: seq<string> := [];
    if p.name != Undefined {
      NumberedStep(sets, columns, "name");
      sets, columns := sets + [Assignment("name", paramCount)], columns + ["name"];
      paramCount := paramCount + 1;
    }
    if p.email != Undefined {
      NumberedStep(sets, columns, "email");
      sets, columns := sets + [Assignment("email", paramCount)], columns + ["email"];
      paramCount := paramCount + 1;
    }
    if p.address != Undefined {
      NumberedStep(sets, columns, "address");
      sets, columns := sets + [Assignment("address", paramCount)], columns + ["address"];
      paramCount := paramCount + 1;
    }
    assert columns == StorePatchColumns(p);
    idPlaceholder := paramCount;
  }

  /** A column is assigned exactly when the request supplies it, and then exactly once. */
  lemma UserPatchColumnsExact(p: UserPatch)
    ensures "name" in UserPatchColumns(p) <==> p.name != Undefined
    ensures "email" in UserPatchColumns(p) <==> p.email != Undefined
    ensures "password" in UserPatchColumns(p) <==> p.password.Some?
    ensures "address" in UserPatchColumns(p) <==> p.address != Undefined
    ensures "role" !in UserPatchColumns(p)
    ensures forall i, j :: 0 <= i < j < |UserPatchColumns(p)| ==> UserPatchColumns(p)[i] != UserPatchColumns(p)[j]
  {
  }

  lemma StorePatchColumnsExact(p: StorePatch)
    ensures "name" in StorePatchColumns(p) <==> p.name != Undefined
    ensures "email" in StorePatchColumns(p) <==> p.email != Undefined
    ensures "address" in StorePatchColumns(p) <==> p.address != Undefined
    ensures "owner_id" !in StorePatchColumns(p)
    ensures forall i, j :: 0 <= i < j < |StorePatchColumns(p)| ==> StorePatchColumns(p)[i] != StorePatchColumns(p)[j]
  {
  }

  /**
   * The SET list is what the update applies: a column it assigns takes the
   * value the request supplied, and a column it leaves out keeps its value.
   */
  lemma UserSetListIsPatch(u: UserRow, p: UserPatch, now: int)
    requires PatchUser(u, p, now).Ok?
    ensures var row := PatchUser(u, p, now).value;
            && ("name" in UserPatchColumns(p) ==> p.name.Str? && row.name == p.name.s)
            && ("name" !in UserPatchColumns(p) ==> row.name == u.name)
            && ("email" in UserPatchColumns(p) ==> p.email.Str? && row.email == p.email.s)
            && ("email" !in UserPatchColumns(p) ==> row.email == u.email)
            && ("password" in UserPatchColumns(p) ==> row.password == Hash(p.password.value))
            && ("password" !in UserPatchColumns(p) ==> row.password == u.password)
            && ("address" in UserPatchColumns(p) ==> row.address == if p.address.Str? then Some(p.address.s) else None)
            && ("address" !in UserPatchColumns(p) ==> row.address == u.address)
  {
    UserPatchColumnsExact(p);
  }

  /** The same for Store.update's SET list and the patched store row. */
  lemma StoreSetListIsPatch(s: StoreRow, p: StorePatch, now: int)
    requires PatchStore(s, p, now).Ok?
    ensures var row := PatchStore(s, p, now).value;
            && ("name" in StorePatchColumns(p) ==> p.name.Str? && row.name == p.name.s)
            && ("name" !in StorePatchColumns(p) ==> row.name == s.name)
            && ("email" in StorePatchColumns(p) ==> p.email.Str? && row.email == p.email.s)
            && ("email" !in StorePatchColumns(p) ==> row.email == s.email)
            && ("address" in StorePatchColumns(p) ==> p.address.Str? && row.address == p.address.s)
            && ("address" !in StorePatchColumns(p) ==> row.address == s.address)
  {
    StorePatchColumnsExact(p);
  }

  // ---------------------------------------------------------------------
  // The database
  // ---------------------------------------------------------------------

  class Database {
    var users: seq<UserRow>
    var stores: seq<StoreRow>
    var ratings: seq<RatingRow>
    var userSeq: int
    var storeSeq: int
    var ratingSeq: int

    function State(): Tables
      reads this
    {
      Tables(users, stores, ratings, userSeq, storeSeq, ratingSeq)
    }

    /** The schema's constraints hold. */
    ghost predicate Valid()
      reads this
    {
      Consistent(State())
    }

    /** A freshly migrated, empty database. */
    constructor ()
      ensures State() == Empty && Valid()
    {
      users, stores, ratings := [], [], [];
      userSeq, storeSeq, ratingSeq := 1, 1, 1;
      EmptyConsistent();
    }

    /** Makes t the current state (the effect of a statement the engine evaluates as a whole). */
    method Commit(t: Tables)
      modifies this
      ensures State() == t
    {
      users, stores, ratings := t.users, t.stores, t.ratings;
      userSeq, storeSeq, ratingSeq := t.userSeq, t.storeSeq, t.ratingSeq;
    }

    // -- users --------------------------------------------------------------

    /** User.create. */
    method CreateUser(name: string, email: string, password: string, address: TextValue, role: Option<string>, now: int)
      returns (r: DbResult<UserRecord>)
      requires Valid()
      modifies this
      ensures Valid()
      ensures (r, State()) == CreateUserOutcome(old(State()), name, email, password, address, role, now)
    {
      ghost var t := State();
      InsertUserKeepsConsistent(t, name, email, Hash(password), StoredAddress(address), role.GetOr(Constants.NormalUser), now);
      var hashed := Hash(password);
      var row := UserRow(userSeq, name, email, hashed, StoredAddress(address), role.GetOr(Constants.NormalUser), now, now);
      userSeq := userSeq + 1;
      if !UserFits(row) {
        r := Err(StringDataRightTruncation);
      } else if email in UserEmails(users) {
        r := Err(UniqueViolation);
      } else {
        users := users + [row];
        r := Ok(CreatedUser(row));
      }
    }

    /** User.update: the SET list of the supplied columns, then the statement evaluated by the engine. */
    method UpdateUser(id: JsValue, p: UserPatch, now: int) returns (r: DbResult<Option<UserRecord>>)
      requires Valid()
      modifies this
      ensures Valid()
      ensures (r, State()) == UpdateUserOutcome(old(State()), id, p, now)
    {
      ghost var t := State();
      UpdateUserKeepsConsistent(t, id, p, now);
      var sets, idPlaceholder := BuildUserUpdate(p);
      var outcome := Schema.UpdateUser(State(), id, p, now);
      Commit(outcome.1);
      match outcome.0
      case Err(e) => r := Err(e);
      case Ok(None) => r := Ok(None);
      case Ok(Some(row)) => r := Ok(Some(UpdatedUser(row)));
    }

    /** User.delete, with the cascades of the schema. */
    method DeleteUser(id: JsValue) returns (r: DbResult<Option<int>>)
      requires Valid()
      modifies this
      ensures Valid()
      ensures (r, State()) == Schema.DeleteUser(old(State()), id)
    {
      ghost var t := State();
      DeleteUserCascades(t, id);
      var outcome := Schema.DeleteUser(State(), id);
      r := outcome.0;
      Commit(outcome.1);
    }

    /** User.getAll: the imperative builders, then the two statements. */
    method GetAllUsers(f: UserList.UserFilters, page: int, limit: int) returns (r: DbResult<UserList.ListPage<UserList.UserSummary>>)
      ensures r == UserList.UserListing(State(), f, page, limit)
    {
      var t := State();
      var q, params := UserList.BuildUserQuery(f, page, limit);
      var rows := ExecSelect((k: Option<int>) => t.users, q, params, UserList.UserColumn, UserList.UserColumns);
      if rows.Err? {
        return Err(rows.error);
      }
      var conds, countParams := UserList.BuildUserCount(f);
      var total := ExecCount(t.users, conds, countParams, UserList.UserColumn, UserList.UserColumns);
      if total.Err? {
        return Err(total.error);
      }
      r := Ok(UserList.ListPage(Map(rows.value, UserList.Summary), UserList.Paginate(total.value, page, limit)));
    }

    /** User.getTotalCount. */
    method UserCount() returns (n: nat)
      ensures n == |State().users|
    {
      n := |users|;
    }

    // -- stores -------------------------------------------------------------

    /** Store.create. */
    method CreateStore(name: string, email: string, address: string, ownerId: JsValue, now: int)
      returns (r: DbResult<StoreRecord>)
      requires Valid()
      modifies this
      ensures Valid()
      ensures (r, State()) == CreateStoreOutcome(old(State()), name, email, address, ownerId, now)
    {
      ghost var t := State();
      InsertStoreKeepsConsistent(t, name, email, address, ownerId, now);
      var owner := BindInt4(ownerId);
      if owner.Err? {
        return Err(owner.error);
      }
      var id := storeSeq;
      storeSeq := storeSeq + 1;
      if owner.value.None? {
        return Err(NotNullViolation);
      }
      var row := StoreRow(id, name, email, address, owner.value.value, now, now);
      if !StoreFits(row) {
        r := Err(StringDataRightTruncation);
      } else if email in StoreEmails(stores) {
        r := Err(UniqueViolation);
      } else if owner.value.value !in UserIds(users) {
        r := Err(ForeignKeyViolation);
      } else {
        stores := stores + [row];
        r := Ok(CreatedStore(row));
      }
    }

    /** Store.update: the SET list of the supplied columns, then the statement evaluated by the engine. */
    method UpdateStore(id: JsValue, p: StorePatch, now: int) returns (r: DbResult<Option<StoreRecord>>)
      requires Valid()
      modifies this
      ensures Valid()
      ensures (r, State()) == UpdateStoreOutcome(old(State()), id, p, now)
    {
      ghost var t := State();
      UpdateStoreKeepsConsistent(t, id, p, now);
      var sets, idPlaceholder := BuildStoreUpdate(p);
      var outcome := Schema.UpdateStore(State(), id, p, now);
      Commit(outcome.1);
      match outcome.0
      case Err(e) => r := Err(e);
      case Ok(None) => r := Ok(None);
      case Ok(Some(row)) => r := Ok(Some(UpdatedStore(row)));
    }

    /** Store.delete, with its ratings. */
    method DeleteStore(id: JsValue) returns (r: DbResult<Option<int>>)
      requires Valid()
      modifies this
      ensures Valid()
      ensures (r, State()) == Schema.DeleteStore(old(State()), id)
    {
      ghost var t := State();
      DeleteStoreCascades(t, id);
      var outcome := Schema.DeleteStore(State(), id);
      r := outcome.0;
      Commit(outcome.1);
    }

    /** Store.getAll. */
    method GetAllStores(f: StoreList.StoreFilters, page: int, limit: int, userId: Option<int>)
      returns (r: DbResult<UserList.ListPage<StoreList.StoreSummary>>)
      ensures r == StoreList.StoreListing(State(), f, page, limit, userId)
    {
      var t := State();
      var q, params := StoreList.BuildStoreQuery(f, page, limit, userId);
      var rows := ExecSelect((user: Option<int>) => StoreList.Groups(t, user), q, params,
                             StoreList.GroupColumn, StoreList.GroupedColumns);
      if rows.Err? {
        return Err(rows.error);
      }
      var conds, countParams := StoreList.BuildStoreCount(f);
      var total := ExecCount(t.stores, conds, countParams, StoreList.StoreColumn, StoreList.StoreColumns);
      if total.Err? {
        return Err(total.error);
      }
      r := Ok(UserList.ListPage(Map(rows.value, StoreList.Summary), UserList.Paginate(total.value, page, limit)));
    }

    /** Store.getTotalCount. */
    method StoreCount() returns (n: nat)
      ensures n == |State().stores|
    {
      n := |stores|;
    }

    // -- ratings ------------------------------------------------------------

    /** Rating.create: the upsert on (user_id, store_id), evaluated by the engine. */
    method SubmitRating(userId: int, storeId: JsValue, rating: JsValue, now: int) returns (r: DbResult<RatingRecord>)
      requires Valid()
      modifies this
      ensures Valid()
      ensures (r, State()) == SubmitRatingOutcome(old(State()), userId, storeId, rating, now)
    {
      ghost var t := State();
      UpsertKeepsConsistent(t, userId, storeId, rating, now);
      var outcome := UpsertRating(State(), userId, storeId, rating, now);
      Commit(outcome.1);
      match outcome.0
      case Err(e) => r := Err(e);
      case Ok(row) => r := Ok(RatingReturned(row));
    }

    /** Rating.delete. */
    method DeleteRating(id: JsValue) returns (r: DbResult<Option<int>>)
      requires Valid()
      modifies this
      ensures Valid()
      ensures (r, State()) == Schema.DeleteRating(old(State()), id)
    {
      ghost var t := State();
      var key := BindInt4(id);
      if key.Ok? && key.value.Some? {
        DeleteRatingRemovesOne(t, id, key.value.value);
      }
      var outcome := Schema.DeleteRating(State(), id);
      r := outcome.0;
      Commit(outcome.1);
    }

    /** Rating.getTotalCount. */
    method RatingCount() returns (n: nat)
      ensures n == |State().ratings|
    {
      n := |ratings|;
    }
  }
}
