/**
 * The part of PostgreSQL the models rely on: integer parameter input,
 * value ordering (NULL sorts last), LIKE / ILIKE matching, and a
 * parameterised `SELECT ... WHERE ... ORDER BY ... LIMIT $n OFFSET $m` and
 * `SELECT COUNT(*) ... WHERE ...` over a table held as a sequence of rows in
 * primary-key order.
 */
module Sql {
  import opened Wrappers
  import opened Js
  import opened Seqs

  /** The error classes a statement of this application can raise. */
  datatype DbError =
    | InvalidTextRepresentation       // 22P02: a parameter is not an integer
    | NumericValueOutOfRange          // 22003: an integer beyond the column's range
    | StringDataRightTruncation       // 22001: a string longer than VARCHAR(n)
    | NotNullViolation                // 23502
    | UniqueViolation                 // 23505
    | ForeignKeyViolation             // 23503
    | CheckViolation                  // 23514
    | UndefinedColumn                 // 42703: ORDER BY a name that is no column
    | InvalidRowCountInLimitClause    // 2201W: negative LIMIT
    | InvalidRowCountInResultOffset   // 2201X: negative OFFSET
    | ParameterMismatch               // 08P01: placeholders and parameters disagree

  type DbResult<T> = Result<T, DbError>

  const Int4Min: int := -0x8000_0000
  const Int4Max: int := 0x7FFF_FFFF
  const Int8Min: int := -0x8000_0000_0000_0000
  const Int8Max: int := 0x7FFF_FFFF_FFFF_FFFF

  // ---------------------------------------------------------------------
  // Integer input
  // ---------------------------------------------------------------------

  /** The C isspace set that int4in skips around the digits. */
  predicate IsPgSpace(c: char) {
    c == ' ' || c == '\t' || c == '\n' || c == '\r' || c == '\U{B}' || c == '\U{C}'
  }

  function DropLeadingSpace(s: string): (r: string)
    ensures |r| <= |s| && r == s[|s| - |r|..]
    ensures r != [] ==> !IsPgSpace(r[0])
  {
    if s != [] && IsPgSpace(s[0]) then DropLeadingSpace(s[1..]) else s
  }

  function DropTrailingSpace(s: string): (r: string)
    ensures |r| <= |s| && r == s[..|r|]
    ensures r != [] ==> !IsPgSpace(r[|r| - 1])
  {
    if s != [] && IsPgSpace(s[|s| - 1]) then DropTrailingSpace(s[..|s| - 1]) else s
  }

  /**
   * Integer input of a parameter: optional surrounding whitespace, an
   * optional sign and at least one decimal digit, within [lo, hi].
   */
  function ParsePgInt(s: string, lo: int, hi: int): (r: DbResult<int>)
    ensures r.Ok? ==> lo <= r.value <= hi
  {
    var (neg, body) := SplitSign(DropTrailingSpace(DropLeadingSpace(s)));
    if body == [] || !AllDigits(body) then Err(InvalidTextRepresentation)
    else
      var m: int := DigitsValue(body);
      var v := if neg then -m else m;
      if v < lo || v > hi then Err(NumericValueOutOfRange) else Ok(v)
  }

  /** Postgres reads back exactly the decimal text JavaScript writes for an integer. */
  lemma ParseIntText(i: int, lo: int, hi: int)
    requires lo <= i <= hi
    ensures ParsePgInt(IntText(i), lo, hi) == Ok(i)
  {
    var t := IntText(i);
    var m: int := if i < 0 then -i else i;
    var digits := NatText(m);
    IntTextUnpadded(i);
    assert SplitSign(t) == (i < 0, digits) by {
      if i < 0 {
        assert t[1..] == digits;
      } else {
        assert t == digits;
        assert IsDigit(digits[0]);
      }
    }
    assert digits != [] && AllDigits(digits) && DigitsValue(digits) == m;
    assert (if i < 0 then -m else m) == i;
  }

  /** The text JavaScript writes for an integer has no surrounding space. */
  lemma IntTextUnpadded(i: int)
    ensures DropLeadingSpace(IntText(i)) == IntText(i)
    ensures DropTrailingSpace(IntText(i)) == IntText(i)
  {
    var t := IntText(i);
    var digits := NatText(if i < 0 then -i else i);
    assert t[0] == '-' || IsDigit(t[0]) by {
      if i >= 0 {
        assert t[0] == digits[0];
      }
    }
    assert IsDigit(t[|t| - 1]) by {
      assert t[|t| - 1] == digits[|digits| - 1];
    }
  }

  /**
   * How node-postgres hands a JavaScript value to an integer column of range
   * [lo, hi]: undefined and null are NULL, a number travels as its decimal
   * text, a string as it is.
   */
  function BindInteger(v: JsValue, lo: int, hi: int): (r: DbResult<Option<int>>)
    ensures r == Ok(None) <==> v.Undefined? || v.Null?
    ensures r.Ok? && r.value.Some? ==> lo <= r.value.value <= hi
    ensures v.Num? && v.n == v.n.Floor as real && lo <= v.n.Floor <= hi ==> r == Ok(Some(v.n.Floor))
  {
    match v
    case Undefined => Ok(None)
    case Null => Ok(None)
    case Num(n) =>
      if n != n.Floor as real then Err(InvalidTextRepresentation)
      else if n.Floor < lo || n.Floor > hi then Err(NumericValueOutOfRange)
      else Ok(Some(n.Floor))
    case Str(s) =>
      match ParsePgInt(s, lo, hi)
      case Ok(i) => Ok(Some(i))
      case Err(e) => Err(e)
  }

  /** An `integer` parameter. */
  function BindInt4(v: JsValue): DbResult<Option<int>> {
    BindInteger(v, Int4Min, Int4Max)
  }

  /** A digit string that fits int4 binds to its value. */
  lemma BindInt4Digits(s: string)
    requires s != [] && AllDigits(s) && DigitsValue(s) <= Int4Max
    ensures BindInt4(Str(s)) == Ok(Some(DigitsValue(s)))
  {
    assert DropLeadingSpace(s) == s by {
      assert IsDigit(s[0]);
    }
    assert DropTrailingSpace(s) == s by {
      assert IsDigit(s[|s| - 1]);
    }
    assert !(s[0] == '-' || s[0] == '+') by {
      assert IsDigit(s[0]);
    }
  }

  // ---------------------------------------------------------------------
  // Values and their order
  // ---------------------------------------------------------------------

  datatype SqlValue = SqlNull | SqlInt(i: int) | SqlNum(x: real) | SqlText(s: string)

  function NumericOf(v: SqlValue): real
    requires v.SqlInt? || v.SqlNum?
  {
    if v.SqlInt? then v.i as real else v.x
  }

  /** Numbers before text; NULL after everything (the default NULLS LAST of ASC). */
  function Rank(v: SqlValue): int {
    match v
    case SqlInt(_) => 0
    case SqlNum(_) => 0
    case SqlText(_) => 1
    case SqlNull => 2
  }

  /** The ascending order of ORDER BY; text compares by code point. */
  function CompareSql(a: SqlValue, b: SqlValue): (r: int)
    ensures -1 <= r <= 1
    ensures a.SqlNull? && !b.SqlNull? ==> r == 1
    ensures a.SqlText? && b.SqlText? ==> r == StrCompare(a.s, b.s)
  {
    if Rank(a) != Rank(b) then (if Rank(a) < Rank(b) then -1 else 1)
    else if a.SqlNull? then 0
    else if a.SqlText? then StrCompare(a.s, b.s)
    else Sign(NumericOf(a) - NumericOf(b))
  }

  lemma CompareSqlFlip(a: SqlValue, b: SqlValue)
    ensures CompareSql(b, a) == -CompareSql(a, b)
  {
    if Rank(a) == Rank(b) && a.SqlText? {
      StrCompareFlip(a.s, b.s);
    }
  }

  lemma CompareSqlTransitive(a: SqlValue, b: SqlValue, c: SqlValue)
    requires CompareSql(a, b) <= 0 && CompareSql(b, c) <= 0
    ensures CompareSql(a, c) <= 0
  {
    if a.SqlText? && b.SqlText? && c.SqlText? {
      StrCompareTransitive(a.s, b.s, c.s);
    }
  }

  /** The comparator of `ORDER BY column [DESC]` over rows read through get. */
  function OrderCmp<T>(get: (T, string) -> SqlValue, column: string, descending: bool): (T, T) -> int {
    (a: T, b: T) =>
      if descending then CompareSql(get(b, column), get(a, column))
      else CompareSql(get(a, column), get(b, column))
  }

  /** Every ORDER BY comparator is a total preorder, so the sorted result is ordered. */
  lemma OrderCmpIsPreorder<T>(s: seq<T>, get: (T, string) -> SqlValue, column: string, descending: bool)
    ensures TotalPreorderOn(s, OrderCmp(get, column, descending))
  {
    var cmp := OrderCmp(get, column, descending);
    forall a, b | a in s && b in s ensures cmp(a, b) <= 0 || cmp(b, a) <= 0 {
      CompareSqlFlip(get(a, column), get(b, column));
    }
    forall a, b, c | a in s && b in s && c in s && cmp(a, b) <= 0 && cmp(b, c) <= 0
      ensures cmp(a, c) <= 0
    {
      if descending {
        CompareSqlTransitive(get(c, column), get(b, column), get(a, column));
      } else {
        CompareSqlTransitive(get(a, column), get(b, column), get(c, column));
      }
    }
  }

  // ---------------------------------------------------------------------
  // LIKE and ILIKE
  // ---------------------------------------------------------------------

  /** LIKE with '%', '_' and the default escape character '\'. */
  predicate LikeMatch(p: string, t: string)
    decreases |p| + |t|
  {
    if p == [] then t == []
    else if p[0] == '%' then LikeMatch(p[1..], t) || (t != [] && LikeMatch(p, t[1..]))
    else if p[0] == '_' then t != [] && LikeMatch(p[1..], t[1..])
    else if p[0] == '\\' && |p| >= 2 then t != [] && t[0] == p[1] && LikeMatch(p[2..], t[1..])
    else t != [] && t[0] == p[0] && LikeMatch(p[1..], t[1..])
  }

  /** ILIKE: LIKE after lower-casing pattern and text. */
  predicate ILikeMatch(p: string, t: string) {
    LikeMatch(Lower(p), Lower(t))
  }

  /** The pattern does not end in an unpaired escape, which Postgres would reject. */
  predicate WellFormedPattern(p: string) {
    if p == [] then true
    else if p[0] == '\\' then |p| >= 2 && WellFormedPattern(p[2..])
    else WellFormedPattern(p[1..])
  }

  /** The substring pattern the models build, `%` + f + `%`. */
  function SubstringPattern(f: string): string {
    "%" + f + "%"
  }

  lemma {:induction false} PercentSuffixWellFormed(f: string)
    ensures WellFormedPattern(f + "%")
  {
    if f != [] {
      if f[0] == '\\' && |f| >= 2 {
        assert (f + "%")[2..] == f[2..] + "%";
        PercentSuffixWellFormed(f[2..]);
      } else if f[0] == '\\' {
        assert (f + "%")[2..] == [];
      } else {
        assert (f + "%")[1..] == f[1..] + "%";
        PercentSuffixWellFormed(f[1..]);
      }
    }
  }

  /** Whatever the filter text, the built pattern is well formed: its closing '%' absorbs a trailing escape. */
  lemma SubstringPatternWellFormed(f: string)
    ensures WellFormedPattern(SubstringPattern(f))
  {
    PercentSuffixWellFormed(f);
    assert SubstringPattern(f)[1..] == f + "%";
  }

  /** f has none of the characters LIKE treats specially. */
  predicate NoWildcards(f: string) {
    forall k :: 0 <= k < |f| ==> f[k] != '%' && f[k] != '_' && f[k] != '\\'
  }

  lemma {:induction false} PercentMatchesAll(t: string)
    ensures LikeMatch("%", t)
  {
    if t != [] {
      PercentMatchesAll(t[1..]);
    }
  }

  lemma {:induction false} LiteralThenPercent(f: string, u: string)
    requires NoWildcards(f)
    ensures LikeMatch(f + "%", u) <==> IsPrefix(f, u)
    decreases |f|
  {
    if f == [] {
      PercentMatchesAll(u);
      assert f + "%" == "%";
    } else {
      assert (f + "%")[0] == f[0] && (f + "%")[1..] == f[1..] + "%";
      if u != [] {
        LiteralThenPercent(f[1..], u[1..]);
        if IsPrefix(f, u) {
          assert u[1..][..|f| - 1] == u[..|f|][1..];
        }
        if IsPrefix(f[1..], u[1..]) && u[0] == f[0] {
          assert u[..|f|] == [u[0]] + u[1..][..|f| - 1];
          assert f == [f[0]] + f[1..];
        }
      }
    }
  }

  lemma {:induction false} SubstringPatternIsContains(f: string, t: string)
    requires NoWildcards(f)
    ensures LikeMatch(SubstringPattern(f), t) <==> Contains(t, f)
    decreases |t|
  {
    var p := SubstringPattern(f);
    assert p[0] == '%' && p[1..] == f + "%";
    LiteralThenPercent(f, t);
    if t != [] {
      SubstringPatternIsContains(f, t[1..]);
    }
  }

  /**
   * For a filter free of '%', '_' and '\', `column ILIKE '%f%'` is exactly
   * the case-insensitive substring test `lower(column).includes(lower(f))`.
   */
  lemma ILikeSubstring(f: string, t: string)
    requires NoWildcards(f)
    ensures ILikeMatch(SubstringPattern(f), t) <==> Contains(Lower(t), Lower(f))
  {
    LowerConcat("%", f);
    LowerConcat("%" + f, "%");
    assert Lower("%") == "%";
    assert Lower(SubstringPattern(f)) == SubstringPattern(Lower(f));
    assert NoWildcards(Lower(f));
    SubstringPatternIsContains(Lower(f), Lower(t));
  }

  /** As written, '_' in a filter matches any one character: the filter "a_c" finds "abc". */
  lemma UnderscoreIsWildcard()
    ensures ILikeMatch(SubstringPattern("a_c"), "abc")
    ensures !Contains(Lower("abc"), Lower("a_c"))
  {
    var p := SubstringPattern("a_c");
    assert Lower(p) == p;
    assert Lower("abc") == "abc";
    assert p[1..] == "a_c%";
    assert LikeMatch("%", []);
    assert LikeMatch(p[1..][1..][1..][1..], []);
    assert LikeMatch(p[1..], "abc");
    assert !Contains("abc", "a_c") by {
      assert !IsPrefix("a_c", "abc");
      assert !IsPrefix("a_c", "bc");
      assert !IsPrefix("a_c", "c");
      assert !IsPrefix("a_c", "");
      assert "abc"[1..] == "bc" && "bc"[1..] == "c" && "c"[1..] == "";
    }
  }

  // ---------------------------------------------------------------------
  // Parameterised statements
  // ---------------------------------------------------------------------

  /** A value in the params array: text the code builds, or a value taken from the request. */
  datatype Param = Text(s: string) | Value(v: JsValue)

  /** A WHERE conjunct comparing a column with placeholder $param. */
  datatype Cond = ILike(column: string, param: nat) | Equals(column: string, param: nat)

  /**
   * `SELECT ... [, (scalar subquery on $subqueryParam)] FROM ... WHERE 1=1
   * AND <where> ORDER BY <orderBy> [DESC] LIMIT $limitParam OFFSET $offsetParam`.
   */
  datatype Select = Select(subqueryParam: Option<nat>, where: seq<Cond>, orderBy: string, descending: bool,
                           limitParam: nat, offsetParam: nat)

  /** A conjunct with its parameter substituted. */
  datatype BoundCond = BoundILike(column: string, pattern: string) | BoundEquals(column: string, text: string)

  function CondParams(conds: seq<Cond>): (r: seq<nat>)
    ensures |r| == |conds|
    ensures forall k :: 0 <= k < |conds| ==> r[k] == conds[k].param
  {
    seq(|conds|, k requires 0 <= k < |conds| => conds[k].param)
  }

  /** The placeholders of a SELECT in the order they appear in its text. */
  function SelectPlaceholders(q: Select): (ps: seq<nat>)
    ensures |ps| >= 2 && ps[|ps| - 2] == q.limitParam && ps[|ps| - 1] == q.offsetParam
    ensures q.subqueryParam.Some? ==> ps[0] == q.subqueryParam.value
  {
    (if q.subqueryParam.Some? then [q.subqueryParam.value] else []) + CondParams(q.where) + [q.limitParam, q.offsetParam]
  }

  /** Placeholders $1..$n appear in this order, one per parameter. */
  predicate Consecutive(ps: seq<nat>, n: nat) {
    |ps| == n && forall k :: 0 <= k < |ps| ==> ps[k] == k + 1
  }

  /** What Postgres demands at bind time: the placeholders used are exactly $1..$n. */
  predicate CoversParams(ps: seq<nat>, n: nat) {
    (forall k :: 0 <= k < |ps| ==> 1 <= ps[k] <= n) && (forall j :: 1 <= j <= n ==> j in ps)
  }

  lemma ConsecutiveCovers(ps: seq<nat>, n: nat)
    requires Consecutive(ps, n)
    ensures CoversParams(ps, n)
  {
    forall j | 1 <= j <= n ensures j in ps {
      assert ps[j - 1] == j;
    }
  }

  function BindCond(c: Cond, params: seq<Param>): DbResult<BoundCond> {
    if !(1 <= c.param <= |params|) || !params[c.param - 1].Text? then Err(ParameterMismatch)
    else if c.ILike? then Ok(BoundILike(c.column, params[c.param - 1].s))
    else Ok(BoundEquals(c.column, params[c.param - 1].s))
  }

  function BindConds(conds: seq<Cond>, params: seq<Param>): (r: DbResult<seq<BoundCond>>)
    ensures r.Ok? ==> |r.value| == |conds|
    ensures r.Ok? ==> forall k :: 0 <= k < |conds| ==> BindCond(conds[k], params) == Ok(r.value[k])
    ensures r.Err? ==> exists k :: 0 <= k < |conds| && BindCond(conds[k], params).Err?
  {
    if conds == [] then Ok([])
    else
      match BindCond(conds[0], params)
      case Err(e) => Err(e)
      case Ok(b) =>
        match BindConds(conds[1..], params)
        case Err(e) =>
          ghost var k :| 0 <= k < |conds[1..]| && BindCond(conds[1..][k], params).Err?;
          assert BindCond(conds[k + 1], params).Err?;
          Err(e)
        case Ok(bs) => Ok([b] + bs)
  }

  /** A bound conjunct on one row; NULL never satisfies it. */
  predicate CondHolds<T>(b: BoundCond, get: (T, string) -> SqlValue, row: T) {
    match b
    case BoundILike(c, p) => get(row, c).SqlText? && ILikeMatch(p, get(row, c).s)
    case BoundEquals(c, v) => get(row, c) == SqlText(v)
  }

  predicate AllHold<T>(bs: seq<BoundCond>, get: (T, string) -> SqlValue, row: T) {
    forall k :: 0 <= k < |bs| ==> CondHolds(bs[k], get, row)
  }

  /** The rows the WHERE clause keeps, in table order. */
  function Where<T(!new)>(rows: seq<T>, bs: seq<BoundCond>, get: (T, string) -> SqlValue): seq<T> {
    Filter(rows, (r: T) => AllHold(bs, get, r))
  }

  predicate ColumnsKnown(conds: seq<Cond>, known: set<string>) {
    forall k :: 0 <= k < |conds| ==> conds[k].column in known
  }

  /**
   * A SELECT over rows in primary-key order; rowsFor gives the rows for the
   * value bound to the subquery's placeholder (None: no subquery, or NULL).
   * Unquoted identifiers fold to lower case; rows that tie under ORDER BY
   * stay in primary-key order.
   */
  function ExecSelect<T(!new)>(rowsFor: Option<int> -> seq<T>, q: Select, params: seq<Param>,
                               get: (T, string) -> SqlValue, known: set<string>): DbResult<seq<T>>
  {
    if !ColumnsKnown(q.where, known) || Lower(q.orderBy) !in known then Err(UndefinedColumn)
    else if !CoversParams(SelectPlaceholders(q), |params|) then Err(ParameterMismatch)
    else
      assert q.limitParam in SelectPlaceholders(q) && q.offsetParam in SelectPlaceholders(q);
      assert q.subqueryParam.Some? ==> q.subqueryParam.value in SelectPlaceholders(q);
      if !params[q.limitParam - 1].Value? || !params[q.offsetParam - 1].Value?
         || (q.subqueryParam.Some? && !params[q.subqueryParam.value - 1].Value?)
      then Err(ParameterMismatch)
      else
        var sub := if q.subqueryParam.Some? then BindInt4(params[q.subqueryParam.value - 1].v) else Ok(None);
        match sub
        case Err(e) => Err(e)
        case Ok(key) =>
          match BindConds(q.where, params)
          case Err(e) => Err(e)
          case Ok(bs) =>
            match BindInteger(params[q.limitParam - 1].v, Int8Min, Int8Max)
            case Err(e) => Err(e)
            case Ok(limit) =>
              match BindInteger(params[q.offsetParam - 1].v, Int8Min, Int8Max)
              case Err(e) => Err(e)
              case Ok(offset) =>
                if limit.Some? && limit.value < 0 then Err(InvalidRowCountInLimitClause)
                else if offset.Some? && offset.value < 0 then Err(InvalidRowCountInResultOffset)
                else
                  var kept := Where(rowsFor(key), bs, get);
                  var sorted := Sort(kept, OrderCmp(get, Lower(q.orderBy), q.descending));
                  Ok(Window(sorted, limit.GetOr(|sorted|), offset.GetOr(0)))
  }

  /** `SELECT COUNT(*) ... WHERE 1=1 AND <where>`. */
  function ExecCount<T(!new)>(rows: seq<T>, where: seq<Cond>, params: seq<Param>,
                              get: (T, string) -> SqlValue, known: set<string>): DbResult<nat>
  {
    if !ColumnsKnown(where, known) then Err(UndefinedColumn)
    else if !CoversParams(CondParams(where), |params|) then Err(ParameterMismatch)
    else
      match BindConds(where, params)
      case Err(e) => Err(e)
      case Ok(bs) => Ok(|Where(rows, bs, get)|)
  }
}
