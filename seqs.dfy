/**
 * Sequence operations shared by the SQL engine model and the client pages:
 * Array.prototype.filter, a stable comparator sort (Array.prototype.sort and
 * ORDER BY over an id-ordered table), and LIMIT/OFFSET windows with the page
 * count Math.ceil(total / limit).
 */
module Seqs {

  // ---------------------------------------------------------------------
  // Filter
  // ---------------------------------------------------------------------

  /** The elements of s that satisfy p, in their original order. */
  function Filter<T(!new)>(s: seq<T>, p: T -> bool): (r: seq<T>)
    ensures |r| <= |s|
    ensures forall x :: x in r <==> x in s && p(x)
  {
    if s == [] then [] else (if p(s[0]) then [s[0]] else []) + Filter(s[1..], p)
  }

  /** Filter keeps every selected element as often as it occurs, and nothing else. */
  lemma {:induction false} FilterMultiset<T(!new)>(s: seq<T>, p: T -> bool, x: T)
    ensures multiset(Filter(s, p))[x] == if p(x) then multiset(s)[x] else 0
  {
    if s != [] {
      FilterMultiset(s[1..], p, x);
      assert s == [s[0]] + s[1..];
    }
  }

  /** Filtering an extended sequence filters the extension separately. */
  lemma {:induction false} FilterAppend<T(!new)>(s: seq<T>, x: T, p: T -> bool)
    ensures Filter(s + [x], p) == Filter(s, p) + (if p(x) then [x] else [])
  {
    if s == [] {
      assert [x][1..] == [];
    } else {
      assert (s + [x])[1..] == s[1..] + [x];
      FilterAppend(s[1..], x, p);
    }
  }

  function Map<T, U>(s: seq<T>, f: T -> U): (r: seq<U>)
    ensures |r| == |s| && forall i :: 0 <= i < |s| ==> r[i] == f(s[i])
  {
    seq(|s|, i requires 0 <= i < |s| => f(s[i]))
  }

  /** Filtering the images is filtering by the composed predicate, then mapping. */
  lemma {:induction false} FilterMap<T(!new), U(!new)>(s: seq<T>, f: T -> U, p: U -> bool, q: T -> bool)
    requires forall i :: 0 <= i < |s| ==> q(s[i]) == p(f(s[i]))
    ensures Filter(Map(s, f), p) == Map(Filter(s, q), f)
  {
    if s != [] {
      assert Map(s, f)[1..] == Map(s[1..], f);
      FilterMap(s[1..], f, p, q);
    }
  }

  /** Two predicates that agree on the elements of s select the same elements. */
  lemma {:induction false} FilterCongruent<T(!new)>(s: seq<T>, p: T -> bool, q: T -> bool)
    requires forall i :: 0 <= i < |s| ==> p(s[i]) == q(s[i])
    ensures Filter(s, p) == Filter(s, q)
  {
    if s != [] {
      FilterCongruent(s[1..], p, q);
    }
  }

  /** R holds between every element and each later one (ids ascending, keys distinct). */
  predicate Pairwise<T>(s: seq<T>, R: (T, T) -> bool) {
    forall i, j :: 0 <= i < j < |s| ==> R(s[i], s[j])
  }

  /** Filtering keeps every pairwise relation among what it keeps. */
  lemma {:induction false} FilterPairwise<T(!new)>(s: seq<T>, p: T -> bool, R: (T, T) -> bool)
    requires Pairwise(s, R)
    ensures Pairwise(Filter(s, p), R)
  {
    if s != [] {
      FilterPairwise(s[1..], p, R);
      var t := Filter(s[1..], p);
      var r := Filter(s, p);
      if p(s[0]) {
        assert r == [s[0]] + t;
        forall i, j | 0 <= i < j < |r| ensures R(r[i], r[j]) {
          assert r[j] == t[j - 1] && t[j - 1] in s[1..];
          if i == 0 {
            var k :| 0 <= k < |s[1..]| && s[1..][k] == r[j];
            assert s[k + 1] == r[j] && r[0] == s[0];
          } else {
            assert r[i] == t[i - 1];
          }
        }
      }
    }
  }

  lemma PairwiseAppend<T>(s: seq<T>, x: T, R: (T, T) -> bool)
    requires Pairwise(s, R)
    requires forall i :: 0 <= i < |s| ==> R(s[i], x)
    ensures Pairwise(s + [x], R)
  {
    var r := s + [x];
    forall i, j | 0 <= i < j < |r| ensures R(r[i], r[j]) {
      assert r[i] == s[i];
      if j < |s| {
        assert r[j] == s[j];
      }
    }
  }

  lemma PairwiseUpdate<T>(s: seq<T>, i: nat, x: T, R: (T, T) -> bool)
    requires Pairwise(s, R) && i < |s|
    requires forall j :: 0 <= j < i ==> R(s[j], x)
    requires forall j :: i < j < |s| ==> R(x, s[j])
    ensures Pairwise(s[i := x], R)
  {
  }

  /** The first index whose element satisfies p, or |s| when none does. */
  function IndexWhere<T>(s: seq<T>, p: T -> bool): (i: nat)
    ensures i <= |s|
    ensures i < |s| ==> p(s[i])
    ensures forall k :: 0 <= k < i ==> !p(s[k])
  {
    if s == [] then 0 else if p(s[0]) then 0 else 1 + IndexWhere(s[1..], p)
  }

  // ---------------------------------------------------------------------
  // Stable insertion sort under a three-way comparator
  // ---------------------------------------------------------------------

  /** r is ordered by cmp: no later element compares below an earlier one. */
  ghost predicate Sorted<T>(r: seq<T>, cmp: (T, T) -> int) {
    forall i, j :: 0 <= i < j < |r| ==> cmp(r[i], r[j]) <= 0
  }

  /**
   * No two different elements of s compare equal under cmp: an ORDER BY on
   * that key fixes the order of every row, leaving no tie for the engine to
   * break.
   */
  ghost predicate NoTies<T>(s: seq<T>, cmp: (T, T) -> int) {
    forall a, b :: a in s && b in s && a != b ==> cmp(a, b) != 0
  }

  /** cmp, read as "a <= b iff cmp(a, b) <= 0", is a total preorder on the elements of s. */
  ghost predicate TotalPreorderOn<T>(s: seq<T>, cmp: (T, T) -> int) {
    && (forall a, b :: a in s && b in s ==> cmp(a, b) <= 0 || cmp(b, a) <= 0)
    && (forall a, b, c :: a in s && b in s && c in s && cmp(a, b) <= 0 && cmp(b, c) <= 0 ==> cmp(a, c) <= 0)
  }

  /** Inserts x after every element of s that does not compare above it. */
  function Insert<T>(x: T, s: seq<T>, cmp: (T, T) -> int): (r: seq<T>)
    ensures multiset(r) == multiset(s) + multiset{x}
  {
    if s == [] then [x]
    else if cmp(s[0], x) > 0 then [x] + s
    else
      var r := [s[0]] + Insert(x, s[1..], cmp);
      assert s == [s[0]] + s[1..];
      r
  }

  /** The sort the model uses for Array.prototype.sort and for ORDER BY. */
  function Sort<T>(s: seq<T>, cmp: (T, T) -> int): (r: seq<T>)
    ensures multiset(r) == multiset(s)
  {
    if s == [] then []
    else
      var r := Insert(s[|s| - 1], Sort(s[..|s| - 1], cmp), cmp);
      assert s == s[..|s| - 1] + [s[|s| - 1]];
      r
  }

  lemma SortLength<T>(s: seq<T>, cmp: (T, T) -> int)
    ensures |Sort(s, cmp)| == |s|
  {
    assert |multiset(Sort(s, cmp))| == |multiset(s)|;
  }

  /** Prepending an element that compares at or below all of t keeps t ordered. */
  lemma SortedCons<T>(a: T, t: seq<T>, cmp: (T, T) -> int)
    requires Sorted(t, cmp)
    requires forall y :: y in t ==> cmp(a, y) <= 0
    ensures Sorted([a] + t, cmp)
  {
    var r := [a] + t;
    forall i, j | 0 <= i < j < |r| ensures cmp(r[i], r[j]) <= 0 {
      assert r[j] == t[j - 1];
      if i > 0 {
        assert r[i] == t[i - 1];
      }
    }
  }

  lemma {:induction false} InsertSorted<T>(x: T, s: seq<T>, cmp: (T, T) -> int)
    requires Sorted(s, cmp)
    requires TotalPreorderOn(s + [x], cmp)
    ensures Sorted(Insert(x, s, cmp), cmp)
  {
    if s == [] {
    } else if cmp(s[0], x) > 0 {
      assert s[0] in s + [x] && x in s + [x];
      assert cmp(x, s[0]) <= 0;
      forall y | y in s ensures cmp(x, y) <= 0 {
        var k :| 0 <= k < |s| && s[k] == y;
        if k > 0 {
          assert cmp(s[0], s[k]) <= 0;
          assert y in s + [x];
        }
      }
      SortedCons(x, s, cmp);
    } else {
      var t := s[1..];
      assert s == [s[0]] + t;
      assert Sorted(t, cmp);
      assert forall y :: y in t + [x] ==> y in s + [x];
      InsertSorted(x, t, cmp);
      var u := Insert(x, t, cmp);
      forall y | y in u ensures cmp(s[0], y) <= 0 {
        assert y in multiset(t) + multiset{x};
        if y in t {
          var k :| 0 <= k < |t| && t[k] == y;
          assert s[k + 1] == y;
        }
      }
      SortedCons(s[0], u, cmp);
    }
  }

  /** Sort orders its input whenever cmp is a total preorder on it. */
  lemma {:induction false} SortSorted<T>(s: seq<T>, cmp: (T, T) -> int)
    requires TotalPreorderOn(s, cmp)
    ensures Sorted(Sort(s, cmp), cmp)
  {
    if s != [] {
      var init := s[..|s| - 1];
      assert forall y :: y in init ==> y in s;
      SortSorted(init, cmp);
      var sorted := Sort(init, cmp);
      assert forall y :: y in sorted ==> y in multiset(init);
      assert forall y :: y in sorted + [s[|s| - 1]] ==> y in s;
      InsertSorted(s[|s| - 1], sorted, cmp);
    }
  }

  lemma {:induction false} InsertAfterAll<T>(x: T, s: seq<T>, cmp: (T, T) -> int)
    requires forall i :: 0 <= i < |s| ==> cmp(s[i], x) <= 0
    ensures Insert(x, s, cmp) == s + [x]
  {
    if s != [] {
      InsertAfterAll(x, s[1..], cmp);
    }
  }

  /** Stability: an input that is already ordered comes back unchanged. */
  lemma {:induction false} SortKeepsSorted<T>(s: seq<T>, cmp: (T, T) -> int)
    requires Sorted(s, cmp)
    ensures Sort(s, cmp) == s
  {
    if s != [] {
      var init := s[..|s| - 1];
      assert Sorted(init, cmp);
      SortKeepsSorted(init, cmp);
      InsertAfterAll(s[|s| - 1], init, cmp);
      InitAndLast(s);
    }
  }

  /** A non-empty sequence is its prefix followed by its last element. */
  lemma InitAndLast<T>(s: seq<T>)
    requires s != []
    ensures s == s[..|s| - 1] + [s[|s| - 1]]
  {
  }

  // ---------------------------------------------------------------------
  // LIMIT / OFFSET and the page count
  // ---------------------------------------------------------------------

  function Min(a: int, b: int): int {
    if a <= b then a else b
  }

  /** `LIMIT limit OFFSET offset` over rows already in their final order. */
  function Window<T>(s: seq<T>, limit: nat, offset: nat): (r: seq<T>)
    ensures |r| == if offset >= |s| then 0 else Min(limit, |s| - offset)
    ensures forall i :: 0 <= i < |r| ==> r[i] == s[offset + i]
  {
    if offset >= |s| then [] else s[offset..offset + Min(limit, |s| - offset)]
  }

  /** Math.ceil(total / limit) for a positive limit. */
  function PageCount(total: nat, limit: int): (pages: nat)
    requires limit > 0
    ensures (pages - 1) * limit < total <= pages * limit || (total == 0 && pages == 0)
  {
    var pages := (total + limit - 1) / limit;
    CeilBounds(total, limit, pages);
    pages
  }

  lemma CeilBounds(total: nat, limit: int, pages: int)
    requires limit > 0 && pages == (total + limit - 1) / limit
    ensures pages >= 0
    ensures (pages - 1) * limit < total <= pages * limit || (total == 0 && pages == 0)
  {
    var q, m := (total + limit - 1) / limit, (total + limit - 1) % limit;
    assert total + limit - 1 == q * limit + m;
    assert (q - 1) * limit == q * limit - limit;
  }

  /**
   * Paging covers every row exactly where expected: row i is row i % limit
   * of page i / limit + 1, and that page is within the page count.
   */
  lemma RowOnItsPage<T>(s: seq<T>, limit: int, i: nat)
    requires limit > 0 && i < |s|
    ensures var page := i / limit + 1;
            && 1 <= page <= PageCount(|s|, limit)
            && var w := Window(s, limit, (page - 1) * limit);
               i % limit < |w| && w[i % limit] == s[i]
  {
    var page := i / limit + 1;
    var pages := PageCount(|s|, limit);
    assert i == (i / limit) * limit + i % limit;
    assert (page - 1) * limit <= i;
    MulCancel(page - 1, pages, limit);
  }

  /** The same, for a page whose rows are mapped through f. */
  lemma PageHoldsRow<T, U>(s: seq<T>, limit: int, i: nat, f: T -> U)
    requires limit > 0 && i < |s|
    ensures var w := Map(Window(s, limit, (i / limit) * limit), f);
            i % limit < |w| && w[i % limit] == f(s[i])
  {
    RowOnItsPage(s, limit, i);
  }

  lemma MulCancel(a: int, b: int, c: int)
    requires c > 0 && a * c < b * c
    ensures a < b
  {
  }
}
