/**
 * The users, stores and ratings tables and what each statement of the User,
 * Store and Rating models does to them. A `Tables` value is the database;
 * each statement is a function from the database before to its result and
 * the database after. Every INSERT draws its id from the table's sequence
 * before constraints are checked, so a failed insert still uses up an id.
 */
module Tables {
  import opened Wrappers
  import opened Js
  import opened Seqs
  import opened Sql
  import opened Credentials
  import Constants

  // ---------------------------------------------------------------------
  // Rows
  // ---------------------------------------------------------------------

  /** A row of users; timestamps are the CURRENT_TIMESTAMP of the writing statement. */
  datatype UserRow = UserRow(id: int, name: string, email: string, password: Digest,
                             address: Option<string>, role: string, createdAt: int, updatedAt: int)

  datatype StoreRow = StoreRow(id: int, name: string, email: string, address: string,
                               ownerId: int, createdAt: int, updatedAt: int)

  datatype RatingRow = RatingRow(id: int, userId: int, storeId: int, rating: int,
                                 createdAt: int, updatedAt: int)

  /** A user as every query but findByEmail returns it: without the password column. */
  datatype PublicUser = PublicUser(id: int, name: string, email: string, address: Option<string>,
                                   role: string, createdAt: int, updatedAt: int)

  function Public(u: UserRow): (p: PublicUser)
    ensures p.id == u.id && p.email == u.email && p.role == u.role
  {
    PublicUser(u.id, u.name, u.email, u.address, u.role, u.createdAt, u.updatedAt)
  }

  /** The database: three tables in primary-key order and the next value of each id sequence. */
  datatype Tables = Tables(users: seq<UserRow>, stores: seq<StoreRow>, ratings: seq<RatingRow>,
                           userSeq: int, storeSeq: int, ratingSeq: int)

  const Empty: Tables := Tables([], [], [], 1, 1, 1)

  // Column widths of the schema (VARCHAR(n) counts characters).
  const NameWidth: nat := 60
  const EmailWidth: nat := 255
  const AddressWidth: nat := 400
  const RoleWidth: nat := 50

  predicate UserFits(u: UserRow) {
    |u.name| <= NameWidth && |u.email| <= EmailWidth && |u.role| <= RoleWidth
    && (u.address.Some? ==> |u.address.value| <= AddressWidth)
  }

  predicate StoreFits(s: StoreRow) {
    |s.name| <= NameWidth && |s.email| <= EmailWidth && |s.address| <= AddressWidth
  }

  function UserIds(users: seq<UserRow>): set<int> {
    set u | u in users :: u.id
  }

  function StoreIds(stores: seq<StoreRow>): set<int> {
    set s | s in stores :: s.id
  }

  function UserEmails(users: seq<UserRow>): set<string> {
    set u | u in users :: u.email
  }

  function StoreEmails(stores: seq<StoreRow>): set<string> {
    set s | s in stores :: s.email
  }

  // ---------------------------------------------------------------------
  // Constraints of the schema
  // ---------------------------------------------------------------------

  /** Primary keys ascend; email is UNIQUE. */
  predicate UserOrder(a: UserRow, b: UserRow) {
    a.id < b.id && a.email != b.email
  }

  predicate StoreOrder(a: StoreRow, b: StoreRow) {
    a.id < b.id && a.email != b.email
  }

  /** Primary keys ascend; UNIQUE(user_id, store_id). */
  predicate RatingOrder(a: RatingRow, b: RatingRow) {
    a.id < b.id && (a.userId != b.userId || a.storeId != b.storeId)
  }

  ghost predicate UsersOk(t: Tables) {
    && (forall u :: u in t.users ==> 1 <= u.id < t.userSeq && UserFits(u))
    && Pairwise(t.users, UserOrder)
  }

  /** Every store fits its columns and has an owner (owner_id NOT NULL REFERENCES users). */
  ghost predicate StoresOk(t: Tables) {
    && (forall s :: s in t.stores ==> 1 <= s.id < t.storeSeq && StoreFits(s) && s.ownerId in UserIds(t.users))
    && Pairwise(t.stores, StoreOrder)
  }

  /** Every rating is in [1, 5] (the CHECK) and references an existing user and store. */
  ghost predicate RatingsOk(t: Tables) {
    && (forall r :: r in t.ratings ==>
          1 <= r.id < t.ratingSeq && 1 <= r.rating <= 5
          && r.userId in UserIds(t.users) && r.storeId in StoreIds(t.stores))
    && Pairwise(t.ratings, RatingOrder)
  }

  /** Everything the schema guarantees about the three tables. */
  ghost predicate Consistent(t: Tables) {
    1 <= t.userSeq && 1 <= t.storeSeq && 1 <= t.ratingSeq && UsersOk(t) && StoresOk(t) && RatingsOk(t)
  }

  lemma EmptyConsistent()
    ensures Consistent(Empty)
  {
  }

  // ---------------------------------------------------------------------
  // Lookups
  // ---------------------------------------------------------------------

  function UserWithId(users: seq<UserRow>, id: int): (r: Option<UserRow>)
    ensures r.Some? ==> r.value in users && r.value.id == id
    ensures r.None? <==> id !in UserIds(users)
  {
    var i := IndexWhere(users, (u: UserRow) => u.id == id);
    if i < |users| then Some(users[i])
    else
      assert forall u :: u in users ==> u.id != id;
      None
  }

  function UserWithEmail(users: seq<UserRow>, email: string): (r: Option<UserRow>)
    ensures r.Some? ==> r.value in users && r.value.email == email
    ensures r.None? <==> email !in UserEmails(users)
  {
    var i := IndexWhere(users, (u: UserRow) => u.email == email);
    if i < |users| then Some(users[i])
    else
      assert forall u :: u in users ==> u.email != email;
      None
  }

  function StoreWithId(stores: seq<StoreRow>, id: int): (r: Option<StoreRow>)
    ensures r.Some? ==> r.value in stores && r.value.id == id
    ensures r.None? <==> id !in StoreIds(stores)
  {
    var i := IndexWhere(stores, (s: StoreRow) => s.id == id);
    if i < |stores| then Some(stores[i])
    else
      assert forall s :: s in stores ==> s.id != id;
      None
  }

  function StoreWithEmail(stores: seq<StoreRow>, email: string): (r: Option<StoreRow>)
    ensures r.Some? ==> r.value in stores && r.value.email == email
    ensures r.None? <==> email !in StoreEmails(stores)
  {
    var i := IndexWhere(stores, (s: StoreRow) => s.email == email);
    if i < |stores| then Some(stores[i])
    else
      assert forall s :: s in stores ==> s.email != email;
      None
  }

  predicate IsPair(r: RatingRow, userId: int, storeId: int) {
    r.userId == userId && r.storeId == storeId
  }

  /** The position of the (user, store) rating, or |ratings|. */
  function PairIndex(ratings: seq<RatingRow>, userId: int, storeId: int): (i: nat)
    ensures i <= |ratings|
    ensures i < |ratings| ==> IsPair(ratings[i], userId, storeId)
    ensures forall k :: 0 <= k < i ==> !IsPair(ratings[k], userId, storeId)
  {
    IndexWhere(ratings, (r: RatingRow) => IsPair(r, userId, storeId))
  }

  /** Under UNIQUE(user_id, store_id) the row PairIndex finds is the only one. */
  lemma PairIndexUnique(t: Tables, userId: int, storeId: int, k: nat)
    requires Consistent(t)
    requires k < |t.ratings| && IsPair(t.ratings[k], userId, storeId)
    ensures PairIndex(t.ratings, userId, storeId) == k
  {
    var i := PairIndex(t.ratings, userId, storeId);
    assert i <= k;
    if i < k {
      assert false;
    }
  }

  // ---------------------------------------------------------------------
  // users
  // ---------------------------------------------------------------------

  /** INSERT INTO users ... RETURNING: the new row, or the constraint it breaks. */
  function InsertUser(t: Tables, name: string, email: string, password: Digest,
                      address: Option<string>, role: string, now: int): (DbResult<UserRow>, Tables)
  {
    var row := UserRow(t.userSeq, name, email, password, address, role, now, now);
    var t' := t.(userSeq := t.userSeq + 1);
    if !UserFits(row) then (Err(StringDataRightTruncation), t')
    else if email in UserEmails(t.users) then (Err(UniqueViolation), t')
    else (Ok(row), t'.(users := t.users + [row]))
  }

  /** The columns `UPDATE users SET` assigns: undefined leaves a column alone. */
  datatype UserPatch = UserPatch(name: TextValue, email: TextValue, password: Option<string>, address: TextValue)

  function PatchText(current: string, v: TextValue): DbResult<string> {
    match v
    case Undefined => Ok(current)
    case Null => Err(NotNullViolation)
    case Str(s) => Ok(s)
  }

  function PatchNullable(current: Option<string>, v: TextValue): Option<string> {
    match v
    case Undefined => current
    case Null => None
    case Str(s) => Some(s)
  }

  /** The new version of one row, with updated_at = CURRENT_TIMESTAMP. */
  function PatchUser(u: UserRow, p: UserPatch, now: int): (r: DbResult<UserRow>)
    ensures r.Ok? ==> r.value.id == u.id && r.value.role == u.role && r.value.createdAt == u.createdAt
    ensures r.Ok? ==> r.value.updatedAt == now && UserFits(r.value)
  {
    match PatchText(u.name, p.name)
    case Err(e) => Err(e)
    case Ok(name) =>
      match PatchText(u.email, p.email)
      case Err(e) => Err(e)
      case Ok(email) =>
        var password := if p.password.Some? then Hash(p.password.value) else u.password;
        var row := u.(name := name, email := email, password := password,
                      address := PatchNullable(u.address, p.address), updatedAt := now);
        if UserFits(row) then Ok(row) else Err(StringDataRightTruncation)
  }

  /** UPDATE users SET ... WHERE id = $n RETURNING ...: nothing when no row has the id. */
  function UpdateUser(t: Tables, id: JsValue, p: UserPatch, now: int): (DbResult<Option<UserRow>>, Tables) {
    match BindInt4(id)
    case Err(e) => (Err(e), t)
    case Ok(None) => (Ok(None), t)
    case Ok(Some(k)) =>
      var i := IndexWhere(t.users, (u: UserRow) => u.id == k);
      if i == |t.users| then (Ok(None), t)
      else
        match PatchUser(t.users[i], p, now)
        case Err(e) => (Err(e), t)
        case Ok(row) =>
          if exists j :: 0 <= j < |t.users| && j != i && t.users[j].email == row.email then (Err(UniqueViolation), t)
          else (Ok(Some(row)), t.(users := t.users[i := row]))
  }

  /** The ids of the stores a user owns. */
  function OwnedStoreIds(stores: seq<StoreRow>, owner: int): set<int> {
    set s | s in stores && s.ownerId == owner :: s.id
  }

  /** Removes a user with the cascades of the schema: their stores, and every rating by them or of those stores. */
  function RemoveUser(t: Tables, k: int): Tables {
    var gone := OwnedStoreIds(t.stores, k);
    t.(users := Filter(t.users, (u: UserRow) => u.id != k),
       stores := Filter(t.stores, (s: StoreRow) => s.ownerId != k),
       ratings := Filter(t.ratings, (r: RatingRow) => r.userId != k && r.storeId !in gone))
  }

  /** DELETE FROM users WHERE id = $1 RETURNING id. */
  function DeleteUser(t: Tables, id: JsValue): (DbResult<Option<int>>, Tables) {
    match BindInt4(id)
    case Err(e) => (Err(e), t)
    case Ok(None) => (Ok(None), t)
    case Ok(Some(k)) =>
      if k in UserIds(t.users) then (Ok(Some(k)), RemoveUser(t, k)) else (Ok(None), t)
  }

  // ---------------------------------------------------------------------
  // stores
  // ---------------------------------------------------------------------

  /** INSERT INTO stores ... RETURNING. */
  function InsertStore(t: Tables, name: string, email: string, address: string, ownerId: JsValue, now: int)
    : (DbResult<StoreRow>, Tables)
  {
    match BindInt4(ownerId)
    case Err(e) => (Err(e), t)
    case Ok(owner) =>
      var t' := t.(storeSeq := t.storeSeq + 1);
      if owner.None? then (Err(NotNullViolation), t')
      else
        var row := StoreRow(t.storeSeq, name, email, address, owner.value, now, now);
        if !StoreFits(row) then (Err(StringDataRightTruncation), t')
        else if email in StoreEmails(t.stores) then (Err(UniqueViolation), t')
        else if owner.value !in UserIds(t.users) then (Err(ForeignKeyViolation), t')
        else (Ok(row), t'.(stores := t.stores + [row]))
  }

  datatype StorePatch = StorePatch(name: TextValue, email: TextValue, address: TextValue)

  function PatchStore(s: StoreRow, p: StorePatch, now: int): (r: DbResult<StoreRow>)
    ensures r.Ok? ==> r.value.id == s.id && r.value.ownerId == s.ownerId && r.value.createdAt == s.createdAt
    ensures r.Ok? ==> r.value.updatedAt == now && StoreFits(r.value)
  {
    match PatchText(s.name, p.name)
    case Err(e) => Err(e)
    case Ok(name) =>
      match PatchText(s.email, p.email)
      case Err(e) => Err(e)
      case Ok(email) =>
        match PatchText(s.address, p.address)
        case Err(e) => Err(e)
        case Ok(address) =>
          var row := s.(name := name, email := email, address := address, updatedAt := now);
          if StoreFits(row) then Ok(row) else Err(StringDataRightTruncation)
  }

  /** UPDATE stores SET ... WHERE id = $n RETURNING ...: nothing when no row has the id. */
  function UpdateStore(t: Tables, id: JsValue, p: StorePatch, now: int): (DbResult<Option<StoreRow>>, Tables) {
    match BindInt4(id)
    case Err(e) => (Err(e), t)
    case Ok(None) => (Ok(None), t)
    case Ok(Some(k)) =>
      var i := IndexWhere(t.stores, (s: StoreRow) => s.id == k);
      if i == |t.stores| then (Ok(None), t)
      else
        match PatchStore(t.stores[i], p, now)
        case Err(e) => (Err(e), t)
        case Ok(row) =>
          if exists j :: 0 <= j < |t.stores| && j != i && t.stores[j].email == row.email then (Err(UniqueViolation), t)
          else (Ok(Some(row)), t.(stores := t.stores[i := row]))
  }

  /** Removes a store and, by ON DELETE CASCADE, its ratings. */
  function RemoveStore(t: Tables, k: int): Tables {
    t.(stores := Filter(t.stores, (s: StoreRow) => s.id != k),
       ratings := Filter(t.ratings, (r: RatingRow) => r.storeId != k))
  }

  /** DELETE FROM stores WHERE id = $1 RETURNING id. */
  function DeleteStore(t: Tables, id: JsValue): (DbResult<Option<int>>, Tables) {
    match BindInt4(id)
    case Err(e) => (Err(e), t)
    case Ok(None) => (Ok(None), t)
    case Ok(Some(k)) =>
      if k in StoreIds(t.stores) then (Ok(Some(k)), RemoveStore(t, k)) else (Ok(None), t)
  }

  // ---------------------------------------------------------------------
  // ratings
  // ---------------------------------------------------------------------

  /**
   * INSERT INTO ratings ... ON CONFLICT (user_id, store_id) DO UPDATE SET
   * rating, updated_at: overwrites the caller's existing rating of the store
   * in place, otherwise adds a row.
   */
  function UpsertRating(t: Tables, userId: int, storeId: JsValue, rating: JsValue, now: int)
    : (DbResult<RatingRow>, Tables)
  {
    match BindInt4(storeId)
    case Err(e) => (Err(e), t)
    case Ok(store) =>
      match BindInt4(rating)
      case Err(e) => (Err(e), t)
      case Ok(value) =>
        var t' := t.(ratingSeq := t.ratingSeq + 1);
        if store.None? || value.None? then (Err(NotNullViolation), t')
        else if !(Constants.RatingMinValue <= value.value <= Constants.RatingMaxValue) then (Err(CheckViolation), t')
        else
          var i := PairIndex(t.ratings, userId, store.value);
          if i < |t.ratings| then
            var row := t.ratings[i].(rating := value.value, updatedAt := now);
            (Ok(row), t'.(ratings := t.ratings[i := row]))
          else if userId !in UserIds(t.users) || store.value !in StoreIds(t.stores) then
            (Err(ForeignKeyViolation), t')
          else
            var row := RatingRow(t.ratingSeq, userId, store.value, value.value, now, now);
            (Ok(row), t'.(ratings := t.ratings + [row]))
  }

  /** SELECT ... FROM ratings WHERE user_id = $1 AND store_id = $2. */
  function FindRating(t: Tables, userId: int, storeId: JsValue): DbResult<Option<RatingRow>> {
    match BindInt4(storeId)
    case Err(e) => Err(e)
    case Ok(None) => Ok(None)
    case Ok(Some(s)) =>
      var i := PairIndex(t.ratings, userId, s);
      Ok(if i < |t.ratings| then Some(t.ratings[i]) else None)
  }

  function RatingsOf(ratings: seq<RatingRow>, storeId: int): seq<RatingRow> {
    Filter(ratings, (r: RatingRow) => r.storeId == storeId)
  }

  function Sum(rs: seq<RatingRow>): int {
    if rs == [] then 0 else rs[0].rating + Sum(rs[1..])
  }

  /** AVG(rating), with COALESCE(..., 0) for no rows. */
  function Average(rs: seq<RatingRow>): real {
    if rs == [] then 0.0 else Sum(rs) as real / |rs| as real
  }

  /** getAverageRating: (COALESCE(AVG(rating), 0), COUNT(*)) over the store's ratings; `store_id = NULL` matches none. */
  function AverageRating(t: Tables, storeId: JsValue): DbResult<(real, nat)> {
    match BindInt4(storeId)
    case Err(e) => Err(e)
    case Ok(None) => Ok((0.0, 0))
    case Ok(Some(s)) => var rs := RatingsOf(t.ratings, s); Ok((Average(rs), |rs|))
  }

  /** A row of getByStore: the rating joined with its author's name and email. */
  datatype RatingListing = RatingListing(id: int, userId: int, userName: string, email: string,
                                         rating: int, createdAt: int)

  /** ORDER BY created_at DESC. */
  function NewestFirst(a: RatingRow, b: RatingRow): int {
    if a.createdAt > b.createdAt then -1 else if a.createdAt < b.createdAt then 1 else 0
  }

  function ListingOf(users: seq<UserRow>, r: RatingRow): (l: RatingListing)
    requires r.userId in UserIds(users)
    ensures l.id == r.id && l.userId == r.userId && l.rating == r.rating && l.createdAt == r.createdAt
  {
    var u := UserWithId(users, r.userId).value;
    RatingListing(r.id, r.userId, u.name, u.email, r.rating, r.createdAt)
  }

  /** The store's ratings whose author exists (the inner JOIN users), newest first. */
  function StoreRatingRows(t: Tables, storeId: int): (rs: seq<RatingRow>)
    ensures forall r :: r in rs ==> r.userId in UserIds(t.users)
  {
    var joined := Filter(t.ratings, (r: RatingRow) => r.storeId == storeId && r.userId in UserIds(t.users));
    assert forall r :: r in joined ==> r.userId in UserIds(t.users);
    var rs := Sort(joined, NewestFirst);
    assert forall r :: r in rs ==> r in multiset(joined);
    rs
  }

  /**
   * getByStore's data query: `WHERE r.store_id = $1 ORDER BY r.created_at DESC
   * LIMIT $2 OFFSET $3`, with limit and offset sent as numbers.
   */
  function RatingsPage(t: Tables, storeId: JsValue, limit: int, offset: int): DbResult<seq<RatingListing>> {
    match BindInt4(storeId)
    case Err(e) => Err(e)
    case Ok(store) =>
      if !(Int8Min <= limit <= Int8Max && Int8Min <= offset <= Int8Max) then Err(NumericValueOutOfRange)
      else if limit < 0 then Err(InvalidRowCountInLimitClause)
      else if offset < 0 then Err(InvalidRowCountInResultOffset)
      else if store.None? then Ok([])
      else
        var rows := Window(StoreRatingRows(t, store.value), limit, offset);
        Ok(Listings(t.users, rows))
  }

  /** Each row joined with its author, in the order given. */
  function Listings(users: seq<UserRow>, rows: seq<RatingRow>): (ls: seq<RatingListing>)
    requires forall r :: r in rows ==> r.userId in UserIds(users)
    ensures |ls| == |rows| && forall k :: 0 <= k < |rows| ==> ls[k] == ListingOf(users, rows[k])
  {
    seq(|rows|, k requires 0 <= k < |rows| => ListingOf(users, rows[k]))
  }

  /** getByStore's count query: SELECT COUNT(*) FROM ratings WHERE store_id = $1. */
  function RatingsCount(t: Tables, storeId: JsValue): DbResult<nat> {
    match BindInt4(storeId)
    case Err(e) => Err(e)
    case Ok(None) => Ok(0)
    case Ok(Some(s)) => Ok(|RatingsOf(t.ratings, s)|)
  }

  /** DELETE FROM ratings WHERE id = $1 RETURNING id. */
  function DeleteRating(t: Tables, id: JsValue): (DbResult<Option<int>>, Tables) {
    match BindInt4(id)
    case Err(e) => (Err(e), t)
    case Ok(None) => (Ok(None), t)
    case Ok(Some(k)) =>
      if exists r :: r in t.ratings && r.id == k then
        (Ok(Some(k)), t.(ratings := Filter(t.ratings, (r: RatingRow) => r.id != k)))
      else (Ok(None), t)
  }
}
