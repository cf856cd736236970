/**
 * Store.getAll: stores LEFT JOINed with their ratings and grouped, so each
 * store carries COALESCE(AVG(rating), 0), plus the caller's own rating when
 * a user id is given. That id is placeholder $1, and every filter's
 * placeholder then moves up by one. The count query counts the stores under
 * the same filters and takes no user id.
 */
module StoreList {
  import opened Wrappers
  import opened Js
  import opened Seqs
  import opened Sql
  import opened Tables
  import opened Listing
  import UserList

  /** The filters object getStores passes. */
  datatype StoreFilters = StoreFilters(name: Option<string>, email: Option<string>, address: Option<string>,
                                       sortBy: Option<string>, sortOrder: Option<string>)

  /** The own keys of validSortFields. */
  const StoreSortFields: set<string> := {"id", "name", "email", "address", "rating"}

  /** The columns of stores s, qualified as the statement writes them. */
  const StoreColumns: set<string> := {"s.id", "s.name", "s.email", "s.address", "s.owner_id", "s.created_at", "s.updated_at"}

  /** What ORDER BY can name: the qualified columns and the output column rating. */
  const GroupedColumns: set<string> := StoreColumns + {"rating"}

  function StoreColumn(s: StoreRow, c: string): SqlValue {
    match c
    case "s.id" => SqlInt(s.id)
    case "s.name" => SqlText(s.name)
    case "s.email" => SqlText(s.email)
    case "s.address" => SqlText(s.address)
    case "s.owner_id" => SqlInt(s.ownerId)
    case "s.created_at" => SqlInt(s.createdAt)
    case "s.updated_at" => SqlInt(s.updatedAt)
    case _ => SqlNull
  }

  /**
   * A row of the grouped join: the store, its average rating, and the
   * user_rating column when the statement has one (inner None: no rating).
   */
  datatype StoreGroup = StoreGroup(store: StoreRow, rating: real, userRating: Option<Option<int>>)

  function GroupColumn(g: StoreGroup, c: string): SqlValue {
    if c == "rating" then SqlNum(g.rating) else StoreColumn(g.store, c)
  }

  /** The scalar subquery: the caller's rating of the store, if any. */
  function RatingBy(t: Tables, storeId: int, userId: int): (r: Option<int>)
    ensures r.Some? <==> exists k :: 0 <= k < |t.ratings| && IsPair(t.ratings[k], userId, storeId)
  {
    var i := PairIndex(t.ratings, userId, storeId);
    if i < |t.ratings| then Some(t.ratings[i].rating) else None
  }

  /** The grouped row of store s; user is the value bound to $1, None when there is no subquery. */
  function GroupOf(t: Tables, user: Option<int>, s: StoreRow): (g: StoreGroup)
    ensures g.store == s && g.rating == Average(RatingsOf(t.ratings, s.id))
  {
    StoreGroup(s, Average(RatingsOf(t.ratings, s.id)), if user.Some? then Some(RatingBy(t, s.id, user.value)) else None)
  }

  /** Every store appears once, whether or not it has ratings (LEFT JOIN ... GROUP BY s.id). */
  function Groups(t: Tables, user: Option<int>): (r: seq<StoreGroup>)
    ensures |r| == |t.stores| && forall k :: 0 <= k < |r| ==> r[k] == GroupOf(t, user, t.stores[k])
  {
    Map(t.stores, (s: StoreRow) => GroupOf(t, user, s))
  }

  /** The columns the data query returns. */
  datatype StoreSummary = StoreSummary(id: int, name: string, email: string, address: string, ownerId: int,
                                       rating: real, createdAt: int, userRating: Option<Option<int>>)

  function Summary(g: StoreGroup): (r: StoreSummary)
    ensures r.id == g.store.id && r.rating == g.rating && r.userRating == g.userRating
  {
    StoreSummary(g.store.id, g.store.name, g.store.email, g.store.address, g.store.ownerId, g.rating,
                 g.store.createdAt, g.userRating)
  }

  /** `if (userId)`. */
  predicate HasUser(userId: Option<int>) {
    userId.Some? && userId.value != 0
  }

  function StoreActive(f: StoreFilters): (a: seq<ActiveFilter>)
    ensures |a| <= 3
  {
    FilterIf(f.name, "s.name", false) + FilterIf(f.email, "s.email", false) + FilterIf(f.address, "s.address", false)
  }

  predicate SortAccepted(f: StoreFilters) {
    Given(f.sortBy) && InObject(f.sortBy.value, StoreSortFields)
  }

  /** `ORDER BY rating`, `ORDER BY s.<sortBy>`, or `ORDER BY s.id ASC`. */
  function StoreOrderBy(f: StoreFilters): (string, bool) {
    if SortAccepted(f) then
      (if f.sortBy.value == "rating" then "rating" else "s." + f.sortBy.value, f.sortOrder == Some("desc"))
    else ("s.id", false)
  }

  function SubParam(userId: Option<int>): Option<JsValue> {
    if HasUser(userId) then Some(Num(userId.value as real)) else None
  }

  function StoreStatement(f: StoreFilters, page: int, limit: int, userId: Option<int>): (Select, seq<Param>) {
    ListStatement(SubParam(userId), StoreActive(f), StoreOrderBy(f).0, StoreOrderBy(f).1, limit, (page - 1) * limit)
  }

  /** Builds the data statement the way getAll does: $1 for the user id when given, then one per truthy filter. */
  method BuildStoreQuery(f: StoreFilters, page: int, limit: int, userId: Option<int>) returns (q: Select, params: seq<Param>)
    ensures (q, params) == StoreStatement(f, page, limit, userId)
    ensures Consecutive(SelectPlaceholders(q), |params|)
  {
    params := [];
    var paramCount := 1;
    ghost var pre: seq<Param> := [];
    if HasUser(userId) {
      params := params + [Value(Num(userId.value as real))];
      paramCount := paramCount + 1;
      pre := params;
    }
    var conds: seq<Cond> := [];
    ghost var active: seq<ActiveFilter> := [];
    assert pre == if SubParam(userId).Some? then [Value(SubParam(userId).value)] else [];
    assert Built(conds, params, paramCount, active, pre);
    if Given(f.name) {
      BuiltStep(conds, params, paramCount, active, pre, ActiveFilter("s.name", false, f.name.value));
      active := active + [ActiveFilter("s.name", false, f.name.value)];
      conds := conds + [ILike("s.name", paramCount)];
      params := params + [Text(SubstringPattern(f.name.value))];
      paramCount := paramCount + 1;
    }
    assert active == FilterIf(f.name, "s.name", false) && Built(conds, params, paramCount, active, pre);
    if Given(f.email) {
      BuiltStep(conds, params, paramCount, active, pre, ActiveFilter("s.email", false, f.email.value));
      active := active + [ActiveFilter("s.email", false, f.email.value)];
      conds := conds + [ILike("s.email", paramCount)];
      params := params + [Text(SubstringPattern(f.email.value))];
      paramCount := paramCount + 1;
    }
    assert Built(conds, params, paramCount, active, pre);
    if Given(f.address) {
      BuiltStep(conds, params, paramCount, active, pre, ActiveFilter("s.address", false, f.address.value));
      active := active + [ActiveFilter("s.address", false, f.address.value)];
      conds := conds + [ILike("s.address", paramCount)];
      params := params + [Text(SubstringPattern(f.address.value))];
      paramCount := paramCount + 1;
    }
    assert active == StoreActive(f) && Built(conds, params, paramCount, active, pre) && paramCount >= 1;

    var orderBy, descending := "s.id", false;
    if Given(f.sortBy) && InObject(f.sortBy.value, StoreSortFields) {
      if f.sortBy.value == "rating" {
        orderBy := "rating";
      } else {
        orderBy := "s." + f.sortBy.value;
      }
      descending := f.sortOrder == Some("desc");
    }
    assert (orderBy, descending) == StoreOrderBy(f);

    var offset := (page - 1) * limit;
    BuiltStatement(conds, params, paramCount, active, SubParam(userId), orderBy, descending, limit, offset);
    q := Select(if HasUser(userId) then Some(1) else None, conds, orderBy, descending, paramCount, paramCount + 1);
    params := params + [Value(Num(limit as real)), Value(Num(offset as real))];
    assert (q, params) == ListStatement(SubParam(userId), StoreActive(f), orderBy, descending, limit, offset);
    ListStatementInStep(SubParam(userId), StoreActive(f), orderBy, descending, limit, offset);
  }

  /** Builds the count statement: the same filters from $1, no user id. */
  method BuildStoreCount(f: StoreFilters) returns (conds: seq<Cond>, params: seq<Param>)
    ensures conds == CondsFor(StoreActive(f), 1) && params == ParamsFor(StoreActive(f))
    ensures Consecutive(CondParams(conds), |params|)
  {
    conds := [];
    params := [];
    var countParamCount := 1;
    ghost var active: seq<ActiveFilter> := [];
    if Given(f.name) {
      BuiltStep(conds, params, countParamCount, active, [], ActiveFilter("s.name", false, f.name.value));
      active := active + [ActiveFilter("s.name", false, f.name.value)];
      conds := conds + [ILike("s.name", countParamCount)];
      params := params + [Text(SubstringPattern(f.name.value))];
      countParamCount := countParamCount + 1;
    }
    assert active == FilterIf(f.name, "s.name", false);
    if Given(f.email) {
      BuiltStep(conds, params, countParamCount, active, [], ActiveFilter("s.email", false, f.email.value));
      active := active + [ActiveFilter("s.email", false, f.email.value)];
      conds := conds + [ILike("s.email", countParamCount)];
      params := params + [Text(SubstringPattern(f.email.value))];
      countParamCount := countParamCount + 1;
    }
    if Given(f.address) {
      BuiltStep(conds, params, countParamCount, active, [], ActiveFilter("s.address", false, f.address.value));
      active := active + [ActiveFilter("s.address", false, f.address.value)];
      conds := conds + [ILike("s.address", countParamCount)];
      params := params + [Text(SubstringPattern(f.address.value))];
      countParamCount := countParamCount + 1;
    }
    assert active == StoreActive(f);
    assert params == ParamsFor(active);
    CountStatementInStep(active);
  }

  /** What getAll returns: the data query's rows, then the count query's total. */
  function StoreListing(t: Tables, f: StoreFilters, page: int, limit: int, userId: Option<int>)
    : DbResult<UserList.ListPage<StoreSummary>>
  {
    var (q, params) := StoreStatement(f, page, limit, userId);
    match ExecSelect((user: Option<int>) => Groups(t, user), q, params, GroupColumn, GroupedColumns)
    case Err(e) => Err(e)
    case Ok(rows) =>
      match ExecCount(t.stores, CondsFor(StoreActive(f), 1), ParamsFor(StoreActive(f)), StoreColumn, StoreColumns)
      case Err(e) => Err(e)
      case Ok(total) => Ok(UserList.ListPage(Map(rows, Summary), UserList.Paginate(total, page, limit)))
  }

  // ---------------------------------------------------------------------
  // What the statement and the listing mean
  // ---------------------------------------------------------------------

  /**
   * The user_rating subquery is present exactly when the user id is truthy;
   * it then takes $1 and filter k takes $(k + 2) instead of $(k + 1).
   */
  lemma UserIdShiftsFilters(f: StoreFilters, page: int, limit: int, userId: Option<int>)
    ensures var (q, params) := StoreStatement(f, page, limit, userId);
            && (q.subqueryParam.Some? <==> HasUser(userId))
            && (HasUser(userId) ==> q.subqueryParam == Some(1) && params[0] == Value(Num(userId.value as real)))
            && |q.where| == |StoreActive(f)|
            && forall k :: 0 <= k < |q.where| ==> q.where[k].param == k + (if HasUser(userId) then 2 else 1)
  {
  }

  predicate StoreMatches(f: StoreFilters, s: StoreRow) {
    && (Given(f.name) ==> ILikeMatch(SubstringPattern(f.name.value), s.name))
    && (Given(f.email) ==> ILikeMatch(SubstringPattern(f.email.value), s.email))
    && (Given(f.address) ==> ILikeMatch(SubstringPattern(f.address.value), s.address))
  }

  function MatchingStores(t: Tables, f: StoreFilters): (r: seq<StoreRow>)
    ensures forall s :: s in r <==> s in t.stores && StoreMatches(f, s)
  {
    Filter(t.stores, (s: StoreRow) => StoreMatches(f, s))
  }

  lemma AllHoldIsStoreMatches(f: StoreFilters, s: StoreRow)
    ensures AllHold(BoundFor(StoreActive(f)), StoreColumn, s) == StoreMatches(f, s)
  {
    var n, e, a := FilterIf(f.name, "s.name", false), FilterIf(f.email, "s.email", false),
                   FilterIf(f.address, "s.address", false);
    AllHoldAppend(n + e, a, StoreColumn, s);
    AllHoldAppend(n, e, StoreColumn, s);
    AllHoldFilterIf(f.name, "s.name", false, StoreColumn, s);
    AllHoldFilterIf(f.email, "s.email", false, StoreColumn, s);
    AllHoldFilterIf(f.address, "s.address", false, StoreColumn, s);
  }

  /** The filters read only store columns, so filtering the grouped rows is grouping the filtered stores. */
  lemma WhereOnGroups(t: Tables, f: StoreFilters, user: Option<int>)
    ensures Where(Groups(t, user), BoundFor(StoreActive(f)), GroupColumn)
            == Map(MatchingStores(t, f), (s: StoreRow) => GroupOf(t, user, s))
    ensures Where(t.stores, BoundFor(StoreActive(f)), StoreColumn) == MatchingStores(t, f)
  {
    var bs := BoundFor(StoreActive(f));
    var group := (s: StoreRow) => GroupOf(t, user, s);
    forall i | 0 <= i < |t.stores|
      ensures AllHold(bs, StoreColumn, t.stores[i]) == StoreMatches(f, t.stores[i])
      ensures AllHold(bs, GroupColumn, group(t.stores[i])) == StoreMatches(f, t.stores[i])
    {
      var s := t.stores[i];
      AllHoldIsStoreMatches(f, s);
      forall k | 0 <= k < |bs| ensures GroupColumn(group(s), bs[k].column) == StoreColumn(s, bs[k].column) {
        assert bs[k].column in {"s.name", "s.email", "s.address"};
      }
      assert AllHold(bs, GroupColumn, group(s)) == AllHold(bs, StoreColumn, s);
    }
    FilterMap(t.stores, group, (g: StoreGroup) => AllHold(bs, GroupColumn, g), (s: StoreRow) => StoreMatches(f, s));
    FilterCongruent(t.stores, (s: StoreRow) => AllHold(bs, StoreColumn, s), (s: StoreRow) => StoreMatches(f, s));
  }

  function SortedGroups(t: Tables, f: StoreFilters, user: Option<int>): (r: seq<StoreGroup>)
    ensures |r| == |MatchingStores(t, f)|
  {
    var rows := Map(MatchingStores(t, f), (s: StoreRow) => GroupOf(t, user, s));
    var cmp := OrderCmp(GroupColumn, Lower(StoreOrderBy(f).0), StoreOrderBy(f).1);
    SortLength(rows, cmp);
    Sort(rows, cmp)
  }

  /**
   * The listing without placeholders: the matching stores, each with its
   * average (0 when unrated) and, for a truthy user id, that user's rating;
   * ordered, windowed at (page - 1) * limit; the total counts the matching
   * stores. The errors are the user id's range and LIMIT's and OFFSET's.
   */
  function ExpectedStoreListing(t: Tables, f: StoreFilters, page: int, limit: int, userId: Option<int>)
    : DbResult<UserList.ListPage<StoreSummary>>
  {
    var offset := (page - 1) * limit;
    if HasUser(userId) && !(Int4Min <= userId.value <= Int4Max) then Err(NumericValueOutOfRange)
    else if !(Int8Min <= limit <= Int8Max && Int8Min <= offset <= Int8Max) then Err(NumericValueOutOfRange)
    else if limit < 0 then Err(InvalidRowCountInLimitClause)
    else if offset < 0 then Err(InvalidRowCountInResultOffset)
    else
      var user := if HasUser(userId) then Some(userId.value) else None;
      Ok(UserList.ListPage(Map(Window(SortedGroups(t, f, user), limit, offset), Summary),
                           UserList.Paginate(|MatchingStores(t, f)|, page, limit)))
  }

  lemma StoreSortKnown(f: StoreFilters)
    requires !Given(f.sortBy) || f.sortBy.value in StoreSortFields || f.sortBy.value !in ObjectPrototypeKeys
    ensures Lower(StoreOrderBy(f).0) in GroupedColumns
  {
    var k := StoreOrderBy(f).0;
    if k != "rating" {
      var b := if SortAccepted(f) then f.sortBy.value else "id";
      assert k == "s." + b;
      LowerConcat("s.", b);
      assert Lower("s.") == "s.";
      if b == "id" { assert Lower(b) == "id"; assert Lower(k) == "s.id"; }
      else if b == "name" { assert Lower(b) == "name"; assert Lower(k) == "s.name"; }
      else if b == "email" { assert Lower(b) == "email"; assert Lower(k) == "s.email"; }
      else { assert b == "address"; assert Lower(b) == "address"; assert Lower(k) == "s.address"; }
    } else {
      assert Lower(k) == "rating";
    }
  }

  lemma StoreListingMeaning(t: Tables, f: StoreFilters, page: int, limit: int, userId: Option<int>)
    requires !Given(f.sortBy) || f.sortBy.value in StoreSortFields || f.sortBy.value !in ObjectPrototypeKeys
    ensures StoreListing(t, f, page, limit, userId) == ExpectedStoreListing(t, f, page, limit, userId)
  {
    var a := StoreActive(f);
    assert forall k :: 0 <= k < |a| ==> a[k].column in StoreColumns;
    ExecCountStatement(t.stores, a, StoreColumn, StoreColumns);
    WhereOnGroups(t, f, None);
    StoreSelectMeaning(t, f, page, limit, userId);
  }

  /** The data statement's result: the range errors, or the window of the sorted matching groups. */
  lemma StoreSelectMeaning(t: Tables, f: StoreFilters, page: int, limit: int, userId: Option<int>)
    requires !Given(f.sortBy) || f.sortBy.value in StoreSortFields || f.sortBy.value !in ObjectPrototypeKeys
    ensures var (q, params) := StoreStatement(f, page, limit, userId);
            var offset := (page - 1) * limit;
            var user := if HasUser(userId) then Some(userId.value) else None;
            ExecSelect((u: Option<int>) => Groups(t, u), q, params, GroupColumn, GroupedColumns)
              == if HasUser(userId) && !(Int4Min <= userId.value <= Int4Max) then Err(NumericValueOutOfRange)
                 else if !(Int8Min <= limit <= Int8Max && Int8Min <= offset <= Int8Max) then Err(NumericValueOutOfRange)
                 else if limit < 0 then Err(InvalidRowCountInLimitClause)
                 else if offset < 0 then Err(InvalidRowCountInResultOffset)
                 else Ok(Window(SortedGroups(t, f, user), limit, offset))
  {
    var a := StoreActive(f);
    var (column, descending) := StoreOrderBy(f);
    var offset := (page - 1) * limit;
    var rowsFor := (u: Option<int>) => Groups(t, u);
    assert forall k :: 0 <= k < |a| ==> a[k].column in GroupedColumns;
    StoreSortKnown(f);
    ExecListStatement(rowsFor, SubParam(userId), a, column, descending, limit, offset, GroupColumn, GroupedColumns);
    if HasUser(userId) {
      assert BindInt4(Num(userId.value as real)) ==
        if Int4Min <= userId.value <= Int4Max then Ok(Some(userId.value)) else Err(NumericValueOutOfRange);
    }
    var user := if HasUser(userId) then Some(userId.value) else None;
    WhereOnGroups(t, f, user);
  }

  /** A store nobody rated is still listed, with rating 0. */
  lemma UnratedStoreListed(t: Tables, f: StoreFilters, user: Option<int>, s: StoreRow)
    requires s in MatchingStores(t, f) && RatingsOf(t.ratings, s.id) == []
    ensures GroupOf(t, user, s) in multiset(SortedGroups(t, f, user))
    ensures GroupOf(t, user, s).rating == 0.0
  {
    var rows := Map(MatchingStores(t, f), (x: StoreRow) => GroupOf(t, user, x));
    var k :| 0 <= k < |MatchingStores(t, f)| && MatchingStores(t, f)[k] == s;
    assert rows[k] == GroupOf(t, user, s);
  }

  /** With a user id, each row's user_rating is that user's rating of the store, or NULL if there is none. */
  lemma UserRatingColumn(t: Tables, f: StoreFilters, u: int, g: StoreGroup)
    requires g in multiset(SortedGroups(t, f, Some(u)))
    ensures g.userRating == Some(RatingBy(t, g.store.id, u))
  {
    var rows := Map(MatchingStores(t, f), (x: StoreRow) => GroupOf(t, Some(u), x));
    assert g in rows;
  }

  /** A sortBy naming an Object.prototype property reaches ORDER BY as s.<name>, which does not exist. */
  lemma InheritedSortFails(t: Tables, f: StoreFilters, page: int, limit: int, userId: Option<int>)
    requires f.sortBy == Some("toString")
    ensures StoreListing(t, f, page, limit, userId) == Err(UndefinedColumn)
  {
    var (q, params) := StoreStatement(f, page, limit, userId);
    assert q.orderBy == "s." + "toString";
    var k := Lower(q.orderBy);
    assert |k| == 10 && k[2] == 't';
    assert k !in GroupedColumns;
  }
}
