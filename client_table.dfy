/**
 * What the three list pages of the client share: rows as the JSON objects
 * the backend sends, the text filters, the sort configuration with its
 * toggle, and the comparators handed to Array.prototype.sort.
 *
 * Array.prototype.sort is stable, so for a comparator that orders the rows
 * consistently its result is fully determined; the model takes
 * Seqs.Sort, a stable insertion sort, as that result.
 */
module ClientTable {
  import opened Js
  import opened Wrappers
  import Seqs

  /** A row object: field name to JSON value; a missing field reads as undefined. */
  type Row = map<string, JsValue>

  function Field(r: Row, key: string): (v: JsValue)
    ensures key in r ==> v == r[key]
    ensures key !in r ==> v == Undefined
  {
    if key in r then r[key] else Undefined
  }

  // ---------------------------------------------------------------------
  // Filters
  // ---------------------------------------------------------------------

  /** The filters state object; handleFilterChange sets one entry. */
  type Filters = map<string, string>

  /** `filters[name]`, which is undefined (as falsy as "") when never set. */
  function FilterText(f: Filters, name: string): (t: string)
    ensures name !in f ==> t == ""
  {
    if name in f then f[name] else ""
  }

  /** The text of a field a filter reads, `|| ""` applied: falsy values read as "". */
  function TextOf(v: JsValue): string {
    if v.Str? then v.s else ""
  }

  /** `(field || "").toLowerCase().includes(needle.toLowerCase())`. */
  predicate TextMatch(field: JsValue, needle: string) {
    Contains(Lower(TextOf(field)), Lower(needle))
  }

  /** A filter with an empty needle passes every row; a non-empty one passes no row whose field is falsy. */
  lemma TextMatchEdges(field: JsValue, needle: string)
    ensures needle == "" ==> TextMatch(field, needle)
    ensures needle != "" && !Truthy(field) ==> !TextMatch(field, needle)
  {
    ContainsEmpty(Lower(TextOf(field)));
    if needle != "" && !Truthy(field) {
      assert Lower(TextOf(field)) == "";
      ContainsAt("", Lower(needle));
    }
  }

  /** The match ignores the case of the needle: needles with equal lower-case forms match the same fields. */
  lemma TextMatchIgnoresCase(field: JsValue, x: string, y: string)
    requires Lower(x) == Lower(y)
    ensures TextMatch(field, x) <==> TextMatch(field, y)
  {
  }

  /** `if (filters.x) result = result.filter(p)`: one step of a filter chain. */
  function Narrow(s: seq<Row>, active: bool, p: Row -> bool): (r: seq<Row>)
    ensures forall x :: x in r <==> x in s && (active ==> p(x))
  {
    if active then Seqs.Filter(s, p) else s
  }

  /** A step keeps each row it passes as often as it occurs and drops the rest. */
  lemma NarrowCounts(s: seq<Row>, active: bool, p: Row -> bool, x: Row)
    ensures multiset(Narrow(s, active, p))[x] == if active && !p(x) then 0 else multiset(s)[x]
  {
    if active {
      Seqs.FilterMultiset(s, p, x);
    }
  }

  // ---------------------------------------------------------------------
  // The sort configuration
  // ---------------------------------------------------------------------

  datatype SortConfig = SortConfig(key: string, direction: string)

  /** Every list page starts sorted by name, ascending. */
  const InitialSort: SortConfig := SortConfig("name", "asc")

  predicate Ascending(cfg: SortConfig) {
    cfg.direction == "asc"
  }

  /** handleSort: a click on the current key while ascending turns to descending; any other click sorts the clicked key ascending. */
  function HandleSort(prev: SortConfig, key: string): (next: SortConfig)
    ensures next.key == key
    ensures next.direction == "desc" <==> prev.key == key && prev.direction == "asc"
    ensures next.direction == "asc" <==> !(prev.key == key && prev.direction == "asc")
  {
    SortConfig(key, if prev.key == key && prev.direction == "asc" then "desc" else "asc")
  }

  /** Clicking one header repeatedly alternates between ascending and descending, starting ascending unless it was ascending already. */
  lemma HandleSortAlternates(prev: SortConfig, key: string)
    ensures HandleSort(HandleSort(prev, key), key) ==
      SortConfig(key, if prev.key == key && prev.direction == "asc" then "asc" else "desc")
    ensures HandleSort(HandleSort(HandleSort(prev, key), key), key) == HandleSort(prev, key)
  {
  }

  // ---------------------------------------------------------------------
  // Sort values and the comparators
  // ---------------------------------------------------------------------

  /** `row[key] || ""`: a falsy value becomes "", any other is kept. */
  datatype SortValue = Blank | Text(s: string) | Number(n: real)

  function SortValueOf(r: Row, key: string): (v: SortValue)
    ensures v == Blank <==> !Truthy(Field(r, key))
    ensures v.Text? ==> Field(r, key) == Str(v.s) && v.s != ""
    ensures v.Number? ==> Field(r, key) == Num(v.n) && v.n != 0.0
  {
    match Field(r, key)
    case Str(s) => if s != "" then Text(s) else Blank
    case Num(n) => if n != 0.0 then Number(n) else Blank
    case _ => Blank
  }

  /** What `String(n)` gives for a number: a non-empty text. */
  type Numeral = s: string | s != [] witness "0"

  /** `String(value)`; `numeral` stands for Number.prototype.toString. */
  function StringOf(v: SortValue, numeral: real -> Numeral): (t: string)
    ensures v == Blank ==> t == ""
    ensures v.Number? ==> t != ""
    ensures v.Text? ==> t == v.s
  {
    match v
    case Blank => ""
    case Text(s) => s
    case Number(n) => numeral(n)
  }

  /** `aVal - bVal` for a numeric aVal: bVal is converted with Number(); None is NaN. */
  function Difference(x: real, b: SortValue): Option<real> {
    match b
    case Blank => Some(x)
    case Number(y) => Some(x - y)
    case Text(s) => if StringToNumber(s).Some? then Some(x - StringToNumber(s).value) else None
  }

  /**
   * The comparator of the two stores pages, as the sign sort reads from it:
   * a numeric first value compares by subtraction (NaN counts as 0), any
   * other compares as text; descending swaps the operands.
   */
  function MixedCompare(cfg: SortConfig, numeral: real -> Numeral, a: Row, b: Row): int {
    var va, vb := SortValueOf(a, cfg.key), SortValueOf(b, cfg.key);
    if va.Number? then
      var d := Difference(va.n, vb);
      if d.None? then 0 else if Ascending(cfg) then Sign(d.value) else Sign(-d.value)
    else if Ascending(cfg) then StrCompare(StringOf(va, numeral), StringOf(vb, numeral))
    else StrCompare(StringOf(vb, numeral), StringOf(va, numeral))
  }

  /** The two branches: subtraction exactly when the first value is a non-zero number, text comparison otherwise. */
  lemma MixedCompareBranches(cfg: SortConfig, numeral: real -> Numeral, a: Row, b: Row)
    ensures Field(a, cfg.key).Num? && Field(a, cfg.key).n != 0.0 && Field(b, cfg.key).Num? ==>
      MixedCompare(cfg, numeral, a, b) ==
        (if Ascending(cfg) then Sign(Field(a, cfg.key).n - Field(b, cfg.key).n)
         else Sign(Field(b, cfg.key).n - Field(a, cfg.key).n))
    ensures !SortValueOf(a, cfg.key).Number? ==>
      MixedCompare(cfg, numeral, a, b) ==
        (if Ascending(cfg) then StrCompare(StringOf(SortValueOf(a, cfg.key), numeral), StringOf(SortValueOf(b, cfg.key), numeral))
         else StrCompare(StringOf(SortValueOf(b, cfg.key), numeral), StringOf(SortValueOf(a, cfg.key), numeral)))
  {
  }

  /** A column the stores comparator orders consistently: no number meets a non-empty text, and numbers are positive. */
  predicate TextSort(v: SortValue) {
    !v.Number?
  }

  predicate NumericSort(v: SortValue) {
    !v.Text? && (v.Number? ==> v.n > 0.0)
  }

  predicate Homogeneous(s: seq<Row>, key: string) {
    || (forall r :: r in s ==> TextSort(SortValueOf(r, key)))
    || (forall r :: r in s ==> NumericSort(SortValueOf(r, key)))
  }

  /** A list drawn from a homogeneous list is homogeneous. */
  lemma HomogeneousPart(s: seq<Row>, t: seq<Row>, key: string)
    requires Homogeneous(s, key)
    requires forall r :: r in t ==> r in s
    ensures Homogeneous(t, key)
  {
  }

  /** The rank of a value in a numeric column: its number, 0 for a blank. */
  function Magnitude(v: SortValue): real {
    if v.Number? then v.n else 0.0
  }

  /** On a text column the comparator is localeCompare of the two texts. */
  lemma MixedOnText(cfg: SortConfig, numeral: real -> Numeral, a: Row, b: Row)
    requires TextSort(SortValueOf(a, cfg.key)) && TextSort(SortValueOf(b, cfg.key))
    ensures MixedCompare(cfg, numeral, a, b) <= 0 <==>
      if Ascending(cfg) then StrCompare(TextOf(Field(a, cfg.key)), TextOf(Field(b, cfg.key))) <= 0
      else StrCompare(TextOf(Field(b, cfg.key)), TextOf(Field(a, cfg.key))) <= 0
  {
  }

  /** On a column of positive numbers and blanks the comparator orders by magnitude, a blank as 0. */
  lemma MixedOnNumbers(cfg: SortConfig, numeral: real -> Numeral, a: Row, b: Row)
    requires NumericSort(SortValueOf(a, cfg.key)) && NumericSort(SortValueOf(b, cfg.key))
    ensures MixedCompare(cfg, numeral, a, b) <= 0 <==>
      if Ascending(cfg) then Magnitude(SortValueOf(a, cfg.key)) <= Magnitude(SortValueOf(b, cfg.key))
      else Magnitude(SortValueOf(b, cfg.key)) <= Magnitude(SortValueOf(a, cfg.key))
  {
    var va, vb := SortValueOf(a, cfg.key), SortValueOf(b, cfg.key);
    if !va.Number? && vb.Number? {
      assert StringOf(vb, numeral) != "";
      assert StrCompare("", StringOf(vb, numeral)) == -1;
      StrCompareFlip("", StringOf(vb, numeral));
    }
  }

  /** The stores comparator is a total preorder on any homogeneous list of rows. */
  lemma MixedPreorder(cfg: SortConfig, numeral: real -> Numeral, s: seq<Row>)
    requires Homogeneous(s, cfg.key)
    ensures Seqs.TotalPreorderOn(s, (a, b) => MixedCompare(cfg, numeral, a, b))
  {
    var cmp := (a, b) => MixedCompare(cfg, numeral, a, b);
    var k := cfg.key;
    if forall r :: r in s ==> TextSort(SortValueOf(r, k)) {
      forall a, b | a in s && b in s ensures cmp(a, b) <= 0 || cmp(b, a) <= 0 {
        MixedOnText(cfg, numeral, a, b);
        MixedOnText(cfg, numeral, b, a);
        StrCompareFlip(TextOf(Field(a, k)), TextOf(Field(b, k)));
      }
      forall a, b, c | a in s && b in s && c in s && cmp(a, b) <= 0 && cmp(b, c) <= 0 ensures cmp(a, c) <= 0 {
        MixedOnText(cfg, numeral, a, b);
        MixedOnText(cfg, numeral, b, c);
        MixedOnText(cfg, numeral, a, c);
        var ta, tb, tc := TextOf(Field(a, k)), TextOf(Field(b, k)), TextOf(Field(c, k));
        if Ascending(cfg) {
          StrCompareTransitive(ta, tb, tc);
        } else {
          StrCompareTransitive(tc, tb, ta);
        }
      }
    } else {
      forall a, b | a in s && b in s ensures cmp(a, b) <= 0 || cmp(b, a) <= 0 {
        MixedOnNumbers(cfg, numeral, a, b);
        MixedOnNumbers(cfg, numeral, b, a);
      }
      forall a, b, c | a in s && b in s && c in s && cmp(a, b) <= 0 && cmp(b, c) <= 0 ensures cmp(a, c) <= 0 {
        MixedOnNumbers(cfg, numeral, a, b);
        MixedOnNumbers(cfg, numeral, b, c);
        MixedOnNumbers(cfg, numeral, a, c);
      }
    }
  }

  /** A key no row carries sorts nothing: every comparison is 0, so the stable sort keeps the order it is given. */
  lemma AbsentKeyKeepsOrder(cfg: SortConfig, numeral: real -> Numeral, s: seq<Row>)
    requires forall i :: 0 <= i < |s| ==> cfg.key !in s[i]
    ensures Seqs.Sort(s, (a, b) => MixedCompare(cfg, numeral, a, b)) == s
  {
    var cmp := (a, b) => MixedCompare(cfg, numeral, a, b);
    forall i, j | 0 <= i < j < |s| ensures cmp(s[i], s[j]) <= 0 {
      assert SortValueOf(s[i], cfg.key) == Blank && SortValueOf(s[j], cfg.key) == Blank;
    }
    Seqs.SortKeepsSorted(s, cmp);
  }
}
