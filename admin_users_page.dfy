/**
 * The admin's user list: the fetched users, narrowed by the name, email,
 * address and role filters and sorted by the clicked column.
 */
module AdminUsersPage {
  import opened Js
  import opened Wrappers
  import opened ClientTable
  import Seqs

  /** The filters state when the page opens. */
  const InitialFilters: Filters := map["name" := "", "email" := "", "address" := "", "role" := ""]

  /** A user object as the filters read it: name and email are strings (toLowerCase is called on them). */
  predicate UserRow(r: Row) {
    Field(r, "name").Str? && Field(r, "email").Str?
  }

  predicate AllUserRows(users: seq<Row>) {
    forall i :: 0 <= i < |users| ==> UserRow(users[i])
  }

  /** The four tests of the filter chain; an empty filter imposes nothing. */
  predicate ByName(f: Filters, r: Row) {
    FilterText(f, "name") != "" ==> TextMatch(Field(r, "name"), FilterText(f, "name"))
  }

  predicate ByEmail(f: Filters, r: Row) {
    FilterText(f, "email") != "" ==> TextMatch(Field(r, "email"), FilterText(f, "email"))
  }

  predicate ByAddress(f: Filters, r: Row) {
    FilterText(f, "address") != "" ==> TextMatch(Field(r, "address"), FilterText(f, "address"))
  }

  predicate ByRole(f: Filters, r: Row) {
    FilterText(f, "role") != "" ==> Field(r, "role") == Str(FilterText(f, "role"))
  }

  predicate Passes(f: Filters, r: Row) {
    ByName(f, r) && ByEmail(f, r) && ByAddress(f, r) && ByRole(f, r)
  }

  /** The filter chain: each non-empty filter narrows the previous result. */
  function Visible(users: seq<Row>, f: Filters): (r: seq<Row>)
    ensures forall x :: x in r <==> x in users && Passes(f, x)
  {
    var r1 := Narrow(users, FilterText(f, "name") != "", x => ByName(f, x));
    var r2 := Narrow(r1, FilterText(f, "email") != "", x => ByEmail(f, x));
    var r3 := Narrow(r2, FilterText(f, "address") != "", x => ByAddress(f, x));
    Narrow(r3, FilterText(f, "role") != "", x => ByRole(f, x))
  }

  /** The filtered list holds every fetched user that passes all filters, each as often as fetched, and nothing else. */
  lemma VisibleCounts(users: seq<Row>, f: Filters, x: Row)
    ensures multiset(Visible(users, f))[x] == if Passes(f, x) then multiset(users)[x] else 0
  {
    var r1 := Narrow(users, FilterText(f, "name") != "", y => ByName(f, y));
    var r2 := Narrow(r1, FilterText(f, "email") != "", y => ByEmail(f, y));
    var r3 := Narrow(r2, FilterText(f, "address") != "", y => ByAddress(f, y));
    NarrowCounts(users, FilterText(f, "name") != "", y => ByName(f, y), x);
    NarrowCounts(r1, FilterText(f, "email") != "", y => ByEmail(f, y), x);
    NarrowCounts(r2, FilterText(f, "address") != "", y => ByAddress(f, y), x);
    NarrowCounts(r3, FilterText(f, "role") != "", y => ByRole(f, y), x);
  }

  /** The sort value of a user field as text; the user columns hold strings or nothing. */
  function SortText(r: Row, key: string): string {
    TextOf(Field(r, key))
  }

  /** The comparator: `aVal.localeCompare(bVal)` ascending, the operands swapped otherwise. */
  function Compare(cfg: SortConfig, a: Row, b: Row): int {
    if Ascending(cfg) then StrCompare(SortText(a, cfg.key), SortText(b, cfg.key))
    else StrCompare(SortText(b, cfg.key), SortText(a, cfg.key))
  }

  /** Descending is the ascending comparator with its operands exchanged. */
  lemma DescendingReversesAscending(key: string, direction: string, a: Row, b: Row)
    requires direction != "asc"
    ensures Compare(SortConfig(key, direction), a, b) == Compare(SortConfig(key, "asc"), b, a)
    ensures Compare(SortConfig(key, direction), a, b) == -Compare(SortConfig(key, "asc"), a, b)
  {
    StrCompareFlip(SortText(a, key), SortText(b, key));
  }

  /** The comparator is a total preorder on any list of users. */
  lemma ComparePreorder(cfg: SortConfig, s: seq<Row>)
    ensures Seqs.TotalPreorderOn(s, (a, b) => Compare(cfg, a, b))
  {
    var cmp := (a, b) => Compare(cfg, a, b);
    forall a, b | a in s && b in s ensures cmp(a, b) <= 0 || cmp(b, a) <= 0 {
      StrCompareFlip(SortText(a, cfg.key), SortText(b, cfg.key));
    }
    forall a, b, c | a in s && b in s && c in s && cmp(a, b) <= 0 && cmp(b, c) <= 0 ensures cmp(a, c) <= 0 {
      var ta, tb, tc := SortText(a, cfg.key), SortText(b, cfg.key), SortText(c, cfg.key);
      if Ascending(cfg) {
        StrCompareTransitive(ta, tb, tc);
      } else {
        StrCompareTransitive(tc, tb, ta);
      }
    }
  }

  /** What the table shows: the filter chain's result, sorted. */
  function Displayed(users: seq<Row>, f: Filters, cfg: SortConfig): seq<Row> {
    Seqs.Sort(Visible(users, f), (a, b) => Compare(cfg, a, b))
  }

  /** The table is a permutation of exactly the fetched users that pass every filter, ordered by the comparator. */
  lemma DisplayedMeaning(users: seq<Row>, f: Filters, cfg: SortConfig, x: Row)
    ensures multiset(Displayed(users, f, cfg))[x] == if Passes(f, x) then multiset(users)[x] else 0
    ensures x in Displayed(users, f, cfg) <==> x in users && Passes(f, x)
    ensures Seqs.Sorted(Displayed(users, f, cfg), (a, b) => Compare(cfg, a, b))
  {
    VisibleCounts(users, f, x);
    ComparePreorder(cfg, Visible(users, f));
    Seqs.SortSorted(Visible(users, f), (a, b) => Compare(cfg, a, b));
  }

  /** The name and email filters are case-insensitive substring tests. */
  lemma NameAndEmailFilters(f: Filters, r: Row)
    requires UserRow(r)
    ensures ByName(f, r) <==> FilterText(f, "name") == "" || Contains(Lower(Field(r, "name").s), Lower(FilterText(f, "name")))
    ensures ByEmail(f, r) <==> FilterText(f, "email") == "" || Contains(Lower(Field(r, "email").s), Lower(FilterText(f, "email")))
  {
  }

  /** A user without an address fails any non-empty address filter; the role filter is exact equality. */
  lemma AddressAndRoleFilters(f: Filters, r: Row)
    ensures FilterText(f, "address") != "" && !Truthy(Field(r, "address")) ==> !Passes(f, r)
    ensures Passes(f, r) && FilterText(f, "role") != "" ==> Field(r, "role") == Str(FilterText(f, "role"))
  {
    TextMatchEdges(Field(r, "address"), FilterText(f, "address"));
  }

  /** With the initial filters nothing is filtered out. */
  lemma InitialFiltersKeepAll(users: seq<Row>)
    ensures Visible(users, InitialFilters) == users
  {
  }

  /** The rows on screen are the filtered, sorted users. */
  predicate Shows(users: seq<Row>, f: Filters, cfg: SortConfig, shown: seq<Row>) {
    AllUserRows(users) && shown == Displayed(users, f, cfg)
  }

  /** The page's state: the users fetched, the filters, the sort, and the rows on screen. */
  class View {
    var users: seq<Row>
    var filters: Filters
    var sortConfig: SortConfig
    var filteredUsers: seq<Row>
    var loading: bool

    /** After every effect has run, the rows on screen are the filtered, sorted users. */
    predicate Valid()
      reads this
    {
      Shows(users, filters, sortConfig, filteredUsers)
    }

    /** The first render: nothing fetched, no filter, sorted by name ascending, loading. */
    constructor()
      ensures users == [] && filteredUsers == [] && loading
      ensures filters == InitialFilters && sortConfig == InitialSort
      ensures Valid()
    {
      users := [];
      filters := InitialFilters;
      sortConfig := InitialSort;
      filteredUsers := [];
      loading := true;
      InitialFiltersKeepAll([]);
    }

    /** The filter-and-sort effect, run whenever users, filters or the sort change. */
    method Refresh()
      requires AllUserRows(users)
      modifies this
      ensures users == old(users) && filters == old(filters) && sortConfig == old(sortConfig)
      ensures loading == old(loading)
      ensures Valid()
    {
      var f, cfg := filters, sortConfig;
      var result := users;
      if FilterText(f, "name") != "" {
        result := Seqs.Filter(result, x => ByName(f, x));
      }
      if FilterText(f, "email") != "" {
        result := Seqs.Filter(result, x => ByEmail(f, x));
      }
      if FilterText(f, "address") != "" {
        result := Seqs.Filter(result, x => ByAddress(f, x));
      }
      if FilterText(f, "role") != "" {
        result := Seqs.Filter(result, x => ByRole(f, x));
      }
      result := Seqs.Sort(result, (a, b) => Compare(cfg, a, b));
      filteredUsers := result;
    }

    /** fetchUsers: a response replaces the users (a failed request keeps them); loading ends either way. */
    method FetchUsers(response: Option<seq<Row>>)
      requires Valid()
      requires response.Some? ==> AllUserRows(response.value)
      modifies this
      ensures users == (if response.Some? then response.value else old(users))
      ensures filters == old(filters) && sortConfig == old(sortConfig) && !loading
      ensures Valid()
    {
      loading := false;
      if response.Some? {
        users := response.value;
        filteredUsers := response.value;
        Refresh();
      }
    }

    /** handleFilterChange: sets one filter and reruns the effect. */
    method HandleFilterChange(name: string, value: string)
      requires Valid()
      modifies this
      ensures filters == old(filters)[name := value]
      ensures users == old(users) && sortConfig == old(sortConfig) && loading == old(loading)
      ensures Valid()
    {
      filters := filters[name := value];
      Refresh();
    }

    /** handleSort: toggles or resets the sort and reruns the effect. */
    method HandleSort(key: string)
      requires Valid()
      modifies this
      ensures sortConfig == ClientTable.HandleSort(old(sortConfig), key)
      ensures users == old(users) && filters == old(filters) && loading == old(loading)
      ensures Valid()
    {
      sortConfig := ClientTable.HandleSort(sortConfig, key);
      Refresh();
    }
  }
}
