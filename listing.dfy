/**
 * The statement shape both getAll builders produce: one WHERE conjunct and
 * one parameter per active filter, numbered consecutively after an optional
 * leading subquery parameter, then LIMIT and OFFSET; and the count statement
 * with the same conjuncts numbered from $1. ListResult is what such a
 * statement returns.
 */
module Listing {
  import opened Wrappers
  import opened Js
  import opened Seqs
  import opened Sql

  /** A filter that takes part in the query: `column ILIKE '%value%'`, or `column = value` when exact. */
  datatype ActiveFilter = ActiveFilter(column: string, exact: bool, value: string)

  /** A query-string filter is applied when it is truthy: present and not "". */
  predicate Given(f: Option<string>) {
    f.Some? && f.value != ""
  }

  function FilterIf(f: Option<string>, column: string, exact: bool): (r: seq<ActiveFilter>)
    ensures |r| <= 1
  {
    if Given(f) then [ActiveFilter(column, exact, f.value)] else []
  }

  function CondOf(x: ActiveFilter, n: nat): Cond {
    if x.exact then Equals(x.column, n) else ILike(x.column, n)
  }

  function ParamOf(x: ActiveFilter): Param {
    Text(if x.exact then x.value else SubstringPattern(x.value))
  }

  function BoundOf(x: ActiveFilter): BoundCond {
    if x.exact then BoundEquals(x.column, x.value) else BoundILike(x.column, SubstringPattern(x.value))
  }

  /** The conjuncts, numbered first, first + 1, ... */
  function CondsFor(a: seq<ActiveFilter>, first: nat): (r: seq<Cond>)
    ensures |r| == |a| && forall k :: 0 <= k < |a| ==> r[k] == CondOf(a[k], first + k)
  {
    seq(|a|, k requires 0 <= k < |a| => CondOf(a[k], first + k))
  }

  function ParamsFor(a: seq<ActiveFilter>): (r: seq<Param>)
    ensures |r| == |a| && forall k :: 0 <= k < |a| ==> r[k] == ParamOf(a[k])
  {
    seq(|a|, k requires 0 <= k < |a| => ParamOf(a[k]))
  }

  function BoundFor(a: seq<ActiveFilter>): (r: seq<BoundCond>)
    ensures |r| == |a| && forall k :: 0 <= k < |a| ==> r[k] == BoundOf(a[k])
  {
    seq(|a|, k requires 0 <= k < |a| => BoundOf(a[k]))
  }

  lemma ExtendFilters(a: seq<ActiveFilter>, x: ActiveFilter, first: nat)
    ensures CondsFor(a + [x], first) == CondsFor(a, first) + [CondOf(x, first + |a|)]
    ensures ParamsFor(a + [x]) == ParamsFor(a) + [ParamOf(x)]
  {
  }

  /** The data statement: `$1` for the subquery when there is one, the filters, then LIMIT and OFFSET. */
  function ListStatement(sub: Option<JsValue>, a: seq<ActiveFilter>, orderBy: string, descending: bool,
                         limit: int, offset: int): (Select, seq<Param>)
  {
    var first := if sub.Some? then 2 else 1;
    var n := first + |a|;
    (Select(if sub.Some? then Some(1) else None, CondsFor(a, first), orderBy, descending, n, n + 1),
     (if sub.Some? then [Value(sub.value)] else []) + ParamsFor(a) + [Value(Num(limit as real)), Value(Num(offset as real))])
  }

  /** Where each value sits in the data statement's parameter list: the subquery's, then the filters'. */
  lemma ListParams(sub: Option<JsValue>, a: seq<ActiveFilter>, orderBy: string, descending: bool,
                   limit: int, offset: int)
    ensures var (q, params) := ListStatement(sub, a, orderBy, descending, limit, offset);
            var first := if sub.Some? then 2 else 1;
            && |params| == first + |a| + 1
            && (sub.Some? ==> params[0] == Value(sub.value))
            && params[first - 1 .. first - 1 + |a|] == ParamsFor(a)
  {
    var (q, params) := ListStatement(sub, a, orderBy, descending, limit, offset);
    var pre: seq<Param> := if sub.Some? then [Value(sub.value)] else [];
    var window := [Value(Num(limit as real)), Value(Num(offset as real))];
    assert params == pre + ParamsFor(a) + window;
    assert params[|pre| .. |pre| + |a|] == ParamsFor(a);
  }

  /** LIMIT and OFFSET are the last two parameters. */
  lemma ListWindowParams(sub: Option<JsValue>, a: seq<ActiveFilter>, orderBy: string, descending: bool,
                         limit: int, offset: int)
    ensures var (q, params) := ListStatement(sub, a, orderBy, descending, limit, offset);
            && q.offsetParam == |params| && q.limitParam == |params| - 1
            && params[|params| - 2] == Value(Num(limit as real))
            && params[|params| - 1] == Value(Num(offset as real))
  {
  }

  /** Placeholders and parameters stay in step: $1..$n in order of appearance, one per parameter. */
  lemma ListStatementInStep(sub: Option<JsValue>, a: seq<ActiveFilter>, orderBy: string, descending: bool,
                            limit: int, offset: int)
    ensures var (q, params) := ListStatement(sub, a, orderBy, descending, limit, offset);
            Consecutive(SelectPlaceholders(q), |params|)
  {
    var (q, params) := ListStatement(sub, a, orderBy, descending, limit, offset);
    var first := if sub.Some? then 2 else 1;
    var ps := SelectPlaceholders(q);
    var pre: seq<nat> := if sub.Some? then [1] else [];
    assert ps == pre + CondParams(q.where) + [first + |a|, first + |a| + 1];
    forall k | 0 <= k < |ps| ensures ps[k] == k + 1 {
      if k < |pre| {
      } else if k < |pre| + |a| {
        assert ps[k] == CondParams(q.where)[k - |pre|];
      }
    }
  }

  /** The count statement: the same conjuncts, numbered from $1. */
  lemma CountStatementInStep(a: seq<ActiveFilter>)
    ensures Consecutive(CondParams(CondsFor(a, 1)), |ParamsFor(a)|)
  {
  }

  lemma {:induction false} BindActive(a: seq<ActiveFilter>, first: nat, params: seq<Param>)
    requires first >= 1 && first - 1 + |a| <= |params|
    requires params[first - 1 .. first - 1 + |a|] == ParamsFor(a)
    ensures BindConds(CondsFor(a, first), params) == Ok(BoundFor(a))
  {
    if a != [] {
      var conds := CondsFor(a, first);
      CondsForTail(a, first);
      ParamsForTail(a);
      assert params[first .. first + |a[1..]|] == params[first - 1 .. first - 1 + |a|][1..];
      BindActive(a[1..], first + 1, params);
      assert params[first - 1] == params[first - 1 .. first - 1 + |a|][0];
      BindOne(a[0], first, params);
      BindCons(conds, params, BoundOf(a[0]), BoundFor(a[1..]));
      BoundForCons(a);
    }
  }

  lemma ParamsForTail(a: seq<ActiveFilter>)
    requires a != []
    ensures ParamsFor(a)[1..] == ParamsFor(a[1..])
  {
    forall k | 0 <= k < |a| - 1 ensures ParamsFor(a)[1..][k] == ParamsFor(a[1..])[k] {
      assert ParamsFor(a)[1..][k] == ParamOf(a[k + 1]);
    }
  }

  lemma CondsForTail(a: seq<ActiveFilter>, first: nat)
    requires a != []
    ensures CondsFor(a, first)[1..] == CondsFor(a[1..], first + 1)
  {
    var conds := CondsFor(a, first);
    forall k | 0 <= k < |a| - 1 ensures conds[1..][k] == CondsFor(a[1..], first + 1)[k] {
      assert conds[1..][k] == CondOf(a[k + 1], first + (k + 1));
    }
  }

  lemma BoundForCons(a: seq<ActiveFilter>)
    requires a != []
    ensures BoundFor(a) == [BoundOf(a[0])] + BoundFor(a[1..])
  {
    var bound := [BoundOf(a[0])] + BoundFor(a[1..]);
    forall k | 0 <= k < |a| ensures bound[k] == BoundOf(a[k]) {
      if k > 0 {
        assert bound[k] == BoundFor(a[1..])[k - 1];
      }
    }
  }

  lemma BindCons(conds: seq<Cond>, params: seq<Param>, b: BoundCond, bs: seq<BoundCond>)
    requires conds != [] && BindCond(conds[0], params) == Ok(b) && BindConds(conds[1..], params) == Ok(bs)
    ensures BindConds(conds, params) == Ok([b] + bs)
  {
  }

  lemma BindOne(x: ActiveFilter, n: nat, params: seq<Param>)
    requires 1 <= n <= |params| && params[n - 1] == ParamOf(x)
    ensures BindCond(CondOf(x, n), params) == Ok(BoundOf(x))
  {
  }

  /** What a listing statement returns: the kept rows, ordered, then windowed. */
  function ListResult<T(!new)>(rowsFor: Option<int> -> seq<T>, sub: Option<JsValue>, a: seq<ActiveFilter>,
                               orderBy: string, descending: bool, limit: int, offset: int,
                               get: (T, string) -> SqlValue): DbResult<seq<T>>
  {
    match (if sub.Some? then BindInt4(sub.value) else Ok(None))
    case Err(e) => Err(e)
    case Ok(key) =>
      if !(Int8Min <= limit <= Int8Max && Int8Min <= offset <= Int8Max) then Err(NumericValueOutOfRange)
      else if limit < 0 then Err(InvalidRowCountInLimitClause)
      else if offset < 0 then Err(InvalidRowCountInResultOffset)
      else Ok(Window(Sort(Where(rowsFor(key), BoundFor(a), get), OrderCmp(get, Lower(orderBy), descending)), limit, offset))
  }

  /**
   * Executing a listing statement over known columns yields ListResult: the
   * placeholders bind, and the only errors are the subquery parameter's and
   * LIMIT / OFFSET's.
   */
  lemma ExecListStatement<T(!new)>(rowsFor: Option<int> -> seq<T>, sub: Option<JsValue>, a: seq<ActiveFilter>,
                                   orderBy: string, descending: bool, limit: int, offset: int,
                                   get: (T, string) -> SqlValue, known: set<string>)
    requires forall k :: 0 <= k < |a| ==> a[k].column in known
    requires Lower(orderBy) in known
    ensures var (q, params) := ListStatement(sub, a, orderBy, descending, limit, offset);
            ExecSelect(rowsFor, q, params, get, known)
              == ListResult(rowsFor, sub, a, orderBy, descending, limit, offset, get)
  {
    var (q, params) := ListStatement(sub, a, orderBy, descending, limit, offset);
    var first := if sub.Some? then 2 else 1;
    ListStatementInStep(sub, a, orderBy, descending, limit, offset);
    ConsecutiveCovers(SelectPlaceholders(q), |params|);
    ListWindowParams(sub, a, orderBy, descending, limit, offset);
    ListBinds(sub, a, orderBy, descending, limit, offset);
    assert ColumnsKnown(q.where, known);
  }

  /** The data statement's filters bind to their bound conditions. */
  lemma ListBinds(sub: Option<JsValue>, a: seq<ActiveFilter>, orderBy: string, descending: bool,
                  limit: int, offset: int)
    ensures var (q, params) := ListStatement(sub, a, orderBy, descending, limit, offset);
            BindConds(q.where, params) == Ok(BoundFor(a))
  {
    var (q, params) := ListStatement(sub, a, orderBy, descending, limit, offset);
    ListParams(sub, a, orderBy, descending, limit, offset);
    BindActive(a, if sub.Some? then 2 else 1, params);
  }


  /** The count statement counts exactly the rows the data statement keeps before LIMIT and OFFSET. */
  lemma ExecCountStatement<T(!new)>(rows: seq<T>, a: seq<ActiveFilter>, get: (T, string) -> SqlValue, known: set<string>)
    requires forall k :: 0 <= k < |a| ==> a[k].column in known
    ensures ExecCount(rows, CondsFor(a, 1), ParamsFor(a), get, known) == Ok(|Where(rows, BoundFor(a), get)|)
  {
    var conds := CondsFor(a, 1);
    CountStatementInStep(a);
    ConsecutiveCovers(CondParams(conds), |ParamsFor(a)|);
    assert ColumnsKnown(conds, known);
    assert ParamsFor(a)[0 .. |a|] == ParamsFor(a);
    BindActive(a, 1, ParamsFor(a));
  }

  /** `$n ILIKE '%f%'` on a column read through get, for a filter free of LIKE's special characters. */
  lemma BoundSubstring<T>(x: ActiveFilter, get: (T, string) -> SqlValue, row: T)
    requires !x.exact && NoWildcards(x.value)
    ensures CondHolds(BoundOf(x), get, row)
            <==> get(row, x.column).SqlText? && Contains(Lower(get(row, x.column).s), Lower(x.value))
  {
    if get(row, x.column).SqlText? {
      ILikeSubstring(x.value, get(row, x.column).s);
    }
  }

  /** The conjunction over a concatenation of filters is the conjunction of the two parts. */
  lemma AllHoldAppend<T>(a: seq<ActiveFilter>, b: seq<ActiveFilter>, get: (T, string) -> SqlValue, row: T)
    ensures AllHold(BoundFor(a + b), get, row) <==> AllHold(BoundFor(a), get, row) && AllHold(BoundFor(b), get, row)
  {
    var ab := BoundFor(a + b);
    if AllHold(BoundFor(a), get, row) && AllHold(BoundFor(b), get, row) {
      forall k | 0 <= k < |ab| ensures CondHolds(ab[k], get, row) {
        if k < |a| {
          assert ab[k] == BoundFor(a)[k];
        } else {
          assert ab[k] == BoundFor(b)[k - |a|];
        }
      }
    }
    if AllHold(ab, get, row) {
      forall k | 0 <= k < |b| ensures CondHolds(BoundFor(b)[k], get, row) {
        assert ab[|a| + k] == BoundFor(b)[k];
      }
      forall k | 0 <= k < |a| ensures CondHolds(BoundFor(a)[k], get, row) {
        assert ab[k] == BoundFor(a)[k];
      }
    }
  }

  /** A query-string filter that is not given imposes nothing; a given one imposes its conjunct. */
  lemma AllHoldFilterIf<T>(f: Option<string>, column: string, exact: bool, get: (T, string) -> SqlValue, row: T)
    ensures AllHold(BoundFor(FilterIf(f, column, exact)), get, row)
            <==> (Given(f) ==> CondHolds(BoundOf(ActiveFilter(column, exact, f.value)), get, row))
  {
    if Given(f) {
      assert BoundFor(FilterIf(f, column, exact))[0] == BoundOf(ActiveFilter(column, exact, f.value));
    }
  }

  // ---------------------------------------------------------------------
  // Building a statement step by step
  // ---------------------------------------------------------------------

  /**
   * The state of a builder after the leading parameters pre and the filters
   * active: one conjunct per filter numbered from |pre| + 1, the parameters
   * in the same order, and the counter at the next free placeholder.
   */
  ghost predicate Built(conds: seq<Cond>, params: seq<Param>, count: int, active: seq<ActiveFilter>, pre: seq<Param>) {
    conds == CondsFor(active, |pre| + 1) && params == pre + ParamsFor(active) && count == |pre| + 1 + |active|
  }

  /** Appending a conjunct on $count and its parameter, then bumping the counter, keeps them in step. */
  lemma BuiltStep(conds: seq<Cond>, params: seq<Param>, count: int, active: seq<ActiveFilter>, pre: seq<Param>,
                  x: ActiveFilter)
    requires Built(conds, params, count, active, pre)
    ensures count >= 1
    ensures Built(conds + [CondOf(x, count)], params + [ParamOf(x)], count + 1, active + [x], pre)
  {
    ExtendFilters(active, x, |pre| + 1);
  }

  /** A finished builder with LIMIT and OFFSET appended is the listing statement. */
  lemma BuiltStatement(conds: seq<Cond>, params: seq<Param>, count: int, active: seq<ActiveFilter>,
                       sub: Option<JsValue>, orderBy: string, descending: bool, limit: int, offset: int)
    requires Built(conds, params, count, active, if sub.Some? then [Value(sub.value)] else [])
    ensures count >= 1
    ensures (Select(if sub.Some? then Some(1) else None, conds, orderBy, descending, count, count + 1),
             params + [Value(Num(limit as real)), Value(Num(offset as real))])
            == ListStatement(sub, active, orderBy, descending, limit, offset)
  {
  }
}
