/**
 * User.getAll: the filtered, sorted and paginated listing of users, and the
 * count that goes with it. The two builders grow their WHERE clause and
 * parameter array side by side with a running placeholder counter.
 */
module UserList {
  import opened Wrappers
  import opened Js
  import opened Seqs
  import opened Sql
  import opened Tables
  import opened Listing

  /** The filters object getUsers passes: query-string values, absent when not sent. */
  datatype UserFilters = UserFilters(name: Option<string>, email: Option<string>, address: Option<string>,
                                     role: Option<string>, sortBy: Option<string>, sortOrder: Option<string>)

  /** The own keys of the sort allow-list object. */
  const UserSortFields: set<string> := {"id", "name", "email", "address", "role"}

  /** The columns of the users table. */
  const UserColumns: set<string> := {"id", "name", "email", "password", "address", "role", "created_at", "updated_at"}

  /** A users row read by column name; the password column holds the stored hash. */
  function UserColumn(u: UserRow, c: string): SqlValue {
    match c
    case "id" => SqlInt(u.id)
    case "name" => SqlText(u.name)
    case "email" => SqlText(u.email)
    case "password" => SqlText(u.password.secret)
    case "address" => if u.address.Some? then SqlText(u.address.value) else SqlNull
    case "role" => SqlText(u.role)
    case "created_at" => SqlInt(u.createdAt)
    case "updated_at" => SqlInt(u.updatedAt)
    case _ => SqlNull
  }

  /** The columns the data query returns. */
  datatype UserSummary = UserSummary(id: int, name: string, email: string, address: Option<string>,
                                     role: string, createdAt: int)

  function Summary(u: UserRow): (s: UserSummary)
    ensures s.id == u.id && s.email == u.email && s.role == u.role
  {
    UserSummary(u.id, u.name, u.email, u.address, u.role, u.createdAt)
  }

  /** The filters that take part, in the order the builder tests them. */
  function UserActive(f: UserFilters): (a: seq<ActiveFilter>)
    ensures |a| <= 4
  {
    FilterIf(f.name, "name", false) + FilterIf(f.email, "email", false)
    + FilterIf(f.address, "address", false) + FilterIf(f.role, "role", true)
  }

  /** sortBy is used when truthy and `in` the allow-list object, which also holds Object.prototype's names. */
  predicate SortAccepted(f: UserFilters) {
    Given(f.sortBy) && InObject(f.sortBy.value, UserSortFields)
  }

  /** The ORDER BY column and direction. */
  function UserOrderBy(f: UserFilters): (string, bool) {
    if SortAccepted(f) then (f.sortBy.value, f.sortOrder == Some("desc")) else ("id", false)
  }

  /** The data statement getAll sends. */
  function UserStatement(f: UserFilters, page: int, limit: int): (Select, seq<Param>) {
    ListStatement(None, UserActive(f), UserOrderBy(f).0, UserOrderBy(f).1, limit, (page - 1) * limit)
  }

  /** Builds the data statement the way getAll does: a conjunct and a parameter per truthy filter. */
  method BuildUserQuery(f: UserFilters, page: int, limit: int) returns (q: Select, params: seq<Param>)
    ensures (q, params) == UserStatement(f, page, limit)
    ensures Consecutive(SelectPlaceholders(q), |params|)
  {
    var conds: seq<Cond> := [];
    params := [];
    var paramCount := 1;
    ghost var active: seq<ActiveFilter> := [];
    if Given(f.name) {
      BuiltStep(conds, params, paramCount, active, [], ActiveFilter("name", false, f.name.value));
      active := active + [ActiveFilter("name", false, f.name.value)];
      conds := conds + [ILike("name", paramCount)];
      params := params + [Text(SubstringPattern(f.name.value))];
      paramCount := paramCount + 1;
    }
    assert active == FilterIf(f.name, "name", false);
    if Given(f.email) {
      BuiltStep(conds, params, paramCount, active, [], ActiveFilter("email", false, f.email.value));
      active := active + [ActiveFilter("email", false, f.email.value)];
      conds := conds + [ILike("email", paramCount)];
      params := params + [Text(SubstringPattern(f.email.value))];
      paramCount := paramCount + 1;
    }
    assert active == FilterIf(f.name, "name", false) + FilterIf(f.email, "email", false);
    if Given(f.address) {
      BuiltStep(conds, params, paramCount, active, [], ActiveFilter("address", false, f.address.value));
      active := active + [ActiveFilter("address", false, f.address.value)];
      conds := conds + [ILike("address", paramCount)];
      params := params + [Text(SubstringPattern(f.address.value))];
      paramCount := paramCount + 1;
    }
    if Given(f.role) {
      BuiltStep(conds, params, paramCount, active, [], ActiveFilter("role", true, f.role.value));
      active := active + [ActiveFilter("role", true, f.role.value)];
      conds := conds + [Equals("role", paramCount)];
      params := params + [Text(f.role.value)];
      paramCount := paramCount + 1;
    }
    assert active == UserActive(f);

    var orderBy, descending := "id", false;
    if Given(f.sortBy) && InObject(f.sortBy.value, UserSortFields) {
      orderBy := f.sortBy.value;
      descending := f.sortOrder == Some("desc");
    }

    assert (orderBy, descending) == UserOrderBy(f);

    var offset := (page - 1) * limit;
    BuiltStatement(conds, params, paramCount, active, None, orderBy, descending, limit, offset);
    q := Select(None, conds, orderBy, descending, paramCount, paramCount + 1);
    params := params + [Value(Num(limit as real)), Value(Num(offset as real))];
    assert (q, params) == ListStatement(None, UserActive(f), orderBy, descending, limit, offset);
    ListStatementInStep(None, UserActive(f), orderBy, descending, limit, offset);
  }

  /** Builds the count statement: the same conjuncts with their own counter from $1. */
  method BuildUserCount(f: UserFilters) returns (conds: seq<Cond>, params: seq<Param>)
    ensures conds == CondsFor(UserActive(f), 1) && params == ParamsFor(UserActive(f))
    ensures Consecutive(CondParams(conds), |params|)
  {
    conds := [];
    params := [];
    var countParamCount := 1;
    ghost var active: seq<ActiveFilter> := [];
    if Given(f.name) {
      BuiltStep(conds, params, countParamCount, active, [], ActiveFilter("name", false, f.name.value));
      active := active + [ActiveFilter("name", false, f.name.value)];
      conds := conds + [ILike("name", countParamCount)];
      params := params + [Text(SubstringPattern(f.name.value))];
      countParamCount := countParamCount + 1;
    }
    assert active == FilterIf(f.name, "name", false);
    if Given(f.email) {
      BuiltStep(conds, params, countParamCount, active, [], ActiveFilter("email", false, f.email.value));
      active := active + [ActiveFilter("email", false, f.email.value)];
      conds := conds + [ILike("email", countParamCount)];
      params := params + [Text(SubstringPattern(f.email.value))];
      countParamCount := countParamCount + 1;
    }
    assert active == FilterIf(f.name, "name", false) + FilterIf(f.email, "email", false);
    if Given(f.address) {
      BuiltStep(conds, params, countParamCount, active, [], ActiveFilter("address", false, f.address.value));
      active := active + [ActiveFilter("address", false, f.address.value)];
      conds := conds + [ILike("address", countParamCount)];
      params := params + [Text(SubstringPattern(f.address.value))];
      countParamCount := countParamCount + 1;
    }
    if Given(f.role) {
      BuiltStep(conds, params, countParamCount, active, [], ActiveFilter("role", true, f.role.value));
      active := active + [ActiveFilter("role", true, f.role.value)];
      conds := conds + [Equals("role", countParamCount)];
      params := params + [Text(f.role.value)];
      countParamCount := countParamCount + 1;
    }
    assert active == UserActive(f);
    assert params == ParamsFor(active);
    CountStatementInStep(active);
  }

  /** The pagination object; pages is null when limit is 0 (ceil of a division by zero is not finite). */
  datatype Pagination = Pagination(total: nat, page: int, limit: int, pages: Option<nat>)

  datatype ListPage<T> = ListPage(data: seq<T>, pagination: Pagination)

  function Paginate(total: nat, page: int, limit: int): (p: Pagination)
    ensures limit > 0 ==> p.pages == Some(PageCount(total, limit))
  {
    Pagination(total, page, limit, if limit > 0 then Some(PageCount(total, limit)) else None)
  }

  /** What getAll returns: the data query's rows, then the count query's total; the first failure wins. */
  function UserListing(t: Tables, f: UserFilters, page: int, limit: int): DbResult<ListPage<UserSummary>> {
    var (q, params) := UserStatement(f, page, limit);
    match ExecSelect((k: Option<int>) => t.users, q, params, UserColumn, UserColumns)
    case Err(e) => Err(e)
    case Ok(rows) =>
      match ExecCount(t.users, CondsFor(UserActive(f), 1), ParamsFor(UserActive(f)), UserColumn, UserColumns)
      case Err(e) => Err(e)
      case Ok(total) => Ok(ListPage(Map(rows, Summary), Paginate(total, page, limit)))
  }

  // ---------------------------------------------------------------------
  // What the listing means
  // ---------------------------------------------------------------------

  /** The reference filter: name, email and address match '%f%' case-insensitively, role exactly. */
  predicate UserMatches(f: UserFilters, u: UserRow) {
    && (Given(f.name) ==> ILikeMatch(SubstringPattern(f.name.value), u.name))
    && (Given(f.email) ==> ILikeMatch(SubstringPattern(f.email.value), u.email))
    && (Given(f.address) ==> u.address.Some? && ILikeMatch(SubstringPattern(f.address.value), u.address.value))
    && (Given(f.role) ==> u.role == f.role.value)
  }

  lemma WhereIsUserMatches(users: seq<UserRow>, f: UserFilters)
    ensures Where(users, BoundFor(UserActive(f)), UserColumn) == Filter(users, (u: UserRow) => UserMatches(f, u))
  {
    forall i | 0 <= i < |users|
      ensures AllHold(BoundFor(UserActive(f)), UserColumn, users[i]) == UserMatches(f, users[i])
    {
      var u := users[i];
      var n, e, a, r := FilterIf(f.name, "name", false), FilterIf(f.email, "email", false),
                        FilterIf(f.address, "address", false), FilterIf(f.role, "role", true);
      AllHoldAppend(n + e + a, r, UserColumn, u);
      AllHoldAppend(n + e, a, UserColumn, u);
      AllHoldAppend(n, e, UserColumn, u);
      AllHoldFilterIf(f.name, "name", false, UserColumn, u);
      AllHoldFilterIf(f.email, "email", false, UserColumn, u);
      AllHoldFilterIf(f.address, "address", false, UserColumn, u);
      AllHoldFilterIf(f.role, "role", true, UserColumn, u);
    }
    FilterCongruent(users, (u: UserRow) => AllHold(BoundFor(UserActive(f)), UserColumn, u),
                    (u: UserRow) => UserMatches(f, u));
  }

  /** A filter free of '%', '_' and '\' is a plain case-insensitive substring test. */
  lemma UserMatchesIsSubstring(f: UserFilters, u: UserRow)
    requires Given(f.name) ==> NoWildcards(f.name.value)
    requires Given(f.email) ==> NoWildcards(f.email.value)
    requires Given(f.address) ==> NoWildcards(f.address.value)
    ensures UserMatches(f, u) <==>
      && (Given(f.name) ==> Contains(Lower(u.name), Lower(f.name.value)))
      && (Given(f.email) ==> Contains(Lower(u.email), Lower(f.email.value)))
      && (Given(f.address) ==> u.address.Some? && Contains(Lower(u.address.value), Lower(f.address.value)))
      && (Given(f.role) ==> u.role == f.role.value)
  {
    if Given(f.name) { ILikeSubstring(f.name.value, u.name); }
    if Given(f.email) { ILikeSubstring(f.email.value, u.email); }
    if Given(f.address) && u.address.Some? { ILikeSubstring(f.address.value, u.address.value); }
  }

  lemma AllowedSortKnown(f: UserFilters)
    requires !Given(f.sortBy) || f.sortBy.value in UserSortFields || f.sortBy.value !in ObjectPrototypeKeys
    ensures Lower(UserOrderBy(f).0) in UserColumns
    ensures Lower(UserOrderBy(f).0) == UserOrderBy(f).0
  {
    var k := UserOrderBy(f).0;
    assert k in UserSortFields;
    if k == "id" { assert Lower(k) == "id"; }
    else if k == "name" { assert Lower(k) == "name"; }
    else if k == "email" { assert Lower(k) == "email"; }
    else if k == "address" { assert Lower(k) == "address"; }
    else { assert Lower(k) == "role"; }
  }

  /**
   * The listing stated without placeholders: the users that match every
   * truthy filter, ordered by the accepted sort column (ties in id order),
   * windowed at offset (page - 1) * limit; the total counts the same
   * matching users whatever the page. The only errors are LIMIT's and
   * OFFSET's.
   */
  function ExpectedUserListing(t: Tables, f: UserFilters, page: int, limit: int): DbResult<ListPage<UserSummary>> {
    var matching := MatchingUsers(t, f);
    var offset := (page - 1) * limit;
    if !(Int8Min <= limit <= Int8Max && Int8Min <= offset <= Int8Max) then Err(NumericValueOutOfRange)
    else if limit < 0 then Err(InvalidRowCountInLimitClause)
    else if offset < 0 then Err(InvalidRowCountInResultOffset)
    else Ok(ListPage(Map(Window(SortedUsers(t, f), limit, offset), Summary), Paginate(|matching|, page, limit)))
  }

  /** The users every truthy filter admits, in table order. */
  function MatchingUsers(t: Tables, f: UserFilters): (r: seq<UserRow>)
    ensures forall u :: u in r <==> u in t.users && UserMatches(f, u)
  {
    Filter(t.users, (u: UserRow) => UserMatches(f, u))
  }

  /** The matching users in ORDER BY order. */
  function SortedUsers(t: Tables, f: UserFilters): (r: seq<UserRow>)
    ensures |r| == |MatchingUsers(t, f)|
    ensures multiset(r) == multiset(MatchingUsers(t, f))
  {
    var cmp := OrderCmp(UserColumn, UserOrderBy(f).0, UserOrderBy(f).1);
    SortLength(MatchingUsers(t, f), cmp);
    Sort(MatchingUsers(t, f), cmp)
  }

  /** getAll returns the expected listing whenever the sort column is an own key of the allow-list or not a property at all. */
  lemma UserListingMeaning(t: Tables, f: UserFilters, page: int, limit: int)
    requires !Given(f.sortBy) || f.sortBy.value in UserSortFields || f.sortBy.value !in ObjectPrototypeKeys
    ensures UserListing(t, f, page, limit) == ExpectedUserListing(t, f, page, limit)
  {
    var a := UserActive(f);
    var (column, descending) := UserOrderBy(f);
    var offset := (page - 1) * limit;
    var rowsFor := (k: Option<int>) => t.users;
    assert forall k :: 0 <= k < |a| ==> a[k].column in UserColumns;
    AllowedSortKnown(f);
    var (q, params) := UserStatement(f, page, limit);
    ExecListStatement(rowsFor, None, a, column, descending, limit, offset, UserColumn, UserColumns);
    ExecCountStatement(t.users, a, UserColumn, UserColumns);
    WhereIsUserMatches(t.users, f);
    var kept := Where(t.users, BoundFor(a), UserColumn);
    assert kept == MatchingUsers(t, f);
    assert Sort(kept, OrderCmp(UserColumn, Lower(column), descending)) == SortedUsers(t, f);
    var select := ExecSelect(rowsFor, q, params, UserColumn, UserColumns);
    assert select == ListResult(rowsFor, None, a, column, descending, limit, offset, UserColumn);
    if select.Ok? {
      assert select.value == Window(SortedUsers(t, f), limit, offset);
    }
  }

  /** A sortBy outside the allow-list, or none, orders by id ascending. */
  lemma UnlistedSortFallsBack(f: UserFilters)
    requires !Given(f.sortBy) || (f.sortBy.value !in UserSortFields && f.sortBy.value !in ObjectPrototypeKeys)
    ensures UserOrderBy(f) == ("id", false)
  {
  }

  /** The direction is descending only for sortOrder "desc" exactly. */
  lemma DescendingOnlyForDesc(f: UserFilters)
    ensures UserOrderBy(f).1 <==> SortAccepted(f) && f.sortOrder == Some("desc")
  {
  }

  /**
   * A sortBy naming one of Object.prototype's properties passes the `in`
   * test and reaches ORDER BY, where no such column exists: the listing fails.
   */
  lemma InheritedSortFails(t: Tables, f: UserFilters, page: int, limit: int)
    requires f.sortBy == Some("toString")
    ensures UserListing(t, f, page, limit) == Err(UndefinedColumn)
  {
    var (q, params) := UserStatement(f, page, limit);
    assert q.orderBy == "toString";
    var k := Lower(q.orderBy);
    assert |k| == 8 && k[0] == 't';
    assert k !in UserColumns;
  }

  /**
   * A matching user at position i of the sorted listing is on page
   * i / limit + 1, within the page count, when no two matches tie on the
   * ORDER BY column (ties are ordered by the engine, possibly differently in
   * each query).
   */
  lemma EveryMatchIsOnAPage(t: Tables, f: UserFilters, limit: int, i: nat)
    requires !Given(f.sortBy) || f.sortBy.value in UserSortFields || f.sortBy.value !in ObjectPrototypeKeys
    requires NoTies(MatchingUsers(t, f), OrderCmp(UserColumn, UserOrderBy(f).0, UserOrderBy(f).1))
    requires 0 < limit <= Int8Max && (i / limit) * limit <= Int8Max
    requires i < |MatchingUsers(t, f)|
    ensures var page := i / limit + 1;
            var r := UserListing(t, f, page, limit);
            && r.Ok? && r.value.pagination.pages.Some? && page <= r.value.pagination.pages.value
            && i % limit < |r.value.data| && r.value.data[i % limit] == Summary(SortedUsers(t, f)[i])
  {
    SortedRowOnItsPage(t, f, limit, i);
  }

  /**
   * Position i of the model's sorted matches, whose sort breaks ties in table
   * order, is row i % limit of page i / limit + 1.
   */
  lemma SortedRowOnItsPage(t: Tables, f: UserFilters, limit: int, i: nat)
    requires !Given(f.sortBy) || f.sortBy.value in UserSortFields || f.sortBy.value !in ObjectPrototypeKeys
    requires 0 < limit <= Int8Max && (i / limit) * limit <= Int8Max
    requires i < |MatchingUsers(t, f)|
    ensures var page := i / limit + 1;
            var r := UserListing(t, f, page, limit);
            && r.Ok? && r.value.pagination.pages.Some? && page <= r.value.pagination.pages.value
            && i % limit < |r.value.data| && r.value.data[i % limit] == Summary(SortedUsers(t, f)[i])
  {
    var sorted := SortedUsers(t, f);
    var page := i / limit + 1;
    var offset := (page - 1) * limit;
    assert offset == (i / limit) * limit && 0 <= offset <= Int8Max;
    UserListingMeaning(t, f, page, limit);
    var expected := ExpectedUserListing(t, f, page, limit);
    assert expected == Ok(ListPage(Map(Window(sorted, limit, offset), Summary), Paginate(|MatchingUsers(t, f)|, page, limit)));
    RowOnItsPage(sorted, limit, i);
    PageHoldsRow(sorted, limit, i, Summary);
  }
}
