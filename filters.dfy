/**
 * The filter panel of the public startup listing. It holds six filter values, writes the
 * non-empty ones into the page's query string in a fixed order, toggles tags without a cap,
 * clears everything at once, and shows a badge with the number of active filters other than
 * the search text.
 *
 * The router is modelled by the list of navigations the panel asks for; the query string is
 * the list of parameters it sets, before URL encoding.
 */
module Filters {
  import opened Wrappers
  import opened JsText
  import TagSelection

  /** The six filter values, as the panel's state holds them. */
  datatype FilterValues = FilterValues(
    query: string,
    location: string,
    tags: seq<string>,
    yearFrom: string,
    yearTo: string,
    employees: string)

  /** `hasActiveFilters`: any of the six values is non-empty. */
  predicate HasActiveFilters(f: FilterValues) {
    f.query != "" || f.location != "" || |f.tags| > 0 || f.yearFrom != "" || f.yearTo != "" || f.employees != ""
  }

  /** One point for a truthy flag. */
  function Point(b: bool): nat { if b then 1 else 0 }

  /** The badge: location, tags, the year range (either end counts once) and employees. */
  function BadgeCount(f: FilterValues): nat {
    Point(f.location != "") + Point(|f.tags| > 0) + Point(f.yearFrom != "" || f.yearTo != "") + Point(f.employees != "")
  }

  /**
   * The badge never exceeds four and ignores the search text: with no search text it is
   * positive exactly when some filter is active, and a search alone leaves it at zero.
   */
  lemma BadgeCountBounds(f: FilterValues)
    ensures BadgeCount(f) <= 4
    ensures BadgeCount(f) > 0 ==> HasActiveFilters(f)
    ensures f.query == "" ==> (BadgeCount(f) > 0 <==> HasActiveFilters(f))
    ensures BadgeCount(f) == BadgeCount(f.(query := ""))
    ensures BadgeCount(f) == 4 <==> f.location != "" && |f.tags| > 0 && (f.yearFrom != "" || f.yearTo != "") && f.employees != ""
  {
  }

  /** The parameter names in the order `applyFilters` sets them. */
  const ParamOrder: seq<string> := ["query", "location", "tags", "yearFrom", "yearTo", "employees"]

  /** The position of a parameter name in that order. */
  function Rank(name: string): nat {
    if name == "query" then 0 else if name == "location" then 1 else if name == "tags" then 2
    else if name == "yearFrom" then 3 else if name == "yearTo" then 4 else 5
  }

  /** The value of the first parameter named `name`, as `params.get` returns it. */
  function Lookup(params: seq<(string, string)>, name: string): Option<string> {
    if params == [] then None
    else if params[0].0 == name then Some(params[0].1)
    else Lookup(params[1..], name)
  }

  lemma {:induction false} LookupAppend(params: seq<(string, string)>, p: (string, string), name: string)
    ensures Lookup(params + [p], name) == if Lookup(params, name).Some? then Lookup(params, name) else if p.0 == name then Some(p.1) else None
  {
    if params != [] {
      assert (params + [p])[1..] == params[1..] + [p];
      LookupAppend(params[1..], p, name);
    }
  }

  lemma {:induction false} LookupConcat(a: seq<(string, string)>, b: seq<(string, string)>, name: string)
    ensures Lookup(a + b, name) == if Lookup(a, name).Some? then Lookup(a, name) else Lookup(b, name)
  {
    if a == [] {
      assert a + b == b;
    } else {
      assert (a + b)[1..] == a[1..] + b;
      LookupConcat(a[1..], b, name);
    }
  }

  /** The parameter `name=value` when `on`, nothing otherwise. */
  function Piece(name: string, value: string, on: bool): seq<(string, string)> {
    if on then [(name, value)] else []
  }

  /** The parameters `applyFilters` sets for the values `f`, in order. */
  function FilterParams(f: FilterValues): seq<(string, string)> {
    Piece("query", f.query, f.query != "")
    + (Piece("location", f.location, f.location != "")
    + (Piece("tags", Join(f.tags, ","), |f.tags| > 0)
    + (Piece("yearFrom", f.yearFrom, f.yearFrom != "")
    + (Piece("yearTo", f.yearTo, f.yearTo != "")
    + Piece("employees", f.employees, f.employees != "")))))
  }

  /** A name is read from the first piece that has it. */
  lemma FilterParamsLookupName(f: FilterValues, name: string)
    ensures
      var p0, p1, p2 := Piece("query", f.query, f.query != ""), Piece("location", f.location, f.location != ""),
        Piece("tags", Join(f.tags, ","), |f.tags| > 0);
      var p3, p4, p5 := Piece("yearFrom", f.yearFrom, f.yearFrom != ""), Piece("yearTo", f.yearTo, f.yearTo != ""),
        Piece("employees", f.employees, f.employees != "");
      Lookup(FilterParams(f), name) ==
        if Lookup(p0, name).Some? then Lookup(p0, name)
        else if Lookup(p1, name).Some? then Lookup(p1, name)
        else if Lookup(p2, name).Some? then Lookup(p2, name)
        else if Lookup(p3, name).Some? then Lookup(p3, name)
        else if Lookup(p4, name).Some? then Lookup(p4, name)
        else Lookup(p5, name)
  {
    var p0, p1, p2 := Piece("query", f.query, f.query != ""), Piece("location", f.location, f.location != ""),
      Piece("tags", Join(f.tags, ","), |f.tags| > 0);
    var p3, p4, p5 := Piece("yearFrom", f.yearFrom, f.yearFrom != ""), Piece("yearTo", f.yearTo, f.yearTo != ""),
      Piece("employees", f.employees, f.employees != "");
    LookupConcat(p0, p1 + (p2 + (p3 + (p4 + p5))), name);
    LookupConcat(p1, p2 + (p3 + (p4 + p5)), name);
    LookupConcat(p2, p3 + (p4 + p5), name);
    LookupConcat(p3, p4 + p5, name);
    LookupConcat(p4, p5, name);
  }

  /** Each name is read back exactly when its value is set. */
  lemma FilterParamsLookup(f: FilterValues)
    ensures Lookup(FilterParams(f), "query") == (if f.query != "" then Some(f.query) else None)
    ensures Lookup(FilterParams(f), "location") == (if f.location != "" then Some(f.location) else None)
    ensures Lookup(FilterParams(f), "tags") == (if |f.tags| > 0 then Some(Join(f.tags, ",")) else None)
    ensures Lookup(FilterParams(f), "yearFrom") == (if f.yearFrom != "" then Some(f.yearFrom) else None)
    ensures Lookup(FilterParams(f), "yearTo") == (if f.yearTo != "" then Some(f.yearTo) else None)
    ensures Lookup(FilterParams(f), "employees") == (if f.employees != "" then Some(f.employees) else None)
  {
    FilterParamsLookupName(f, "query");
    FilterParamsLookupName(f, "location");
    FilterParamsLookupName(f, "tags");
    FilterParamsLookupName(f, "yearFrom");
    FilterParamsLookupName(f, "yearTo");
    FilterParamsLookupName(f, "employees");
  }

  lemma ConcatRegroup<T>(a: seq<T>, b: seq<T>, c: seq<T>, d: seq<T>, e: seq<T>, g: seq<T>)
    ensures a + b + c + d + e + g == a + (b + (c + (d + (e + g))))
  {
    assert a + b + c + d + e + g == a + (b + c + d + e + g);
    assert b + c + d + e + g == b + (c + d + e + g);
    assert c + d + e + g == c + (d + e + g);
    assert d + e + g == d + (e + g);
  }

  /** Parameters whose names follow the fixed order. */
  predicate InOrder(params: seq<(string, string)>) {
    && (forall i :: 0 <= i < |params| ==> params[i].0 in ParamOrder)
    && (forall i, j :: 0 <= i < j < |params| ==> Rank(params[i].0) < Rank(params[j].0))
  }

  /** Every name ranks at `r` or later. */
  predicate RanksFrom(params: seq<(string, string)>, r: nat) {
    forall i :: 0 <= i < |params| ==> Rank(params[i].0) >= r
  }

  lemma InOrderPrepend(name: string, value: string, on: bool, rest: seq<(string, string)>)
    requires InOrder(rest) && name in ParamOrder && RanksFrom(rest, Rank(name) + 1)
    ensures InOrder(Piece(name, value, on) + rest) && RanksFrom(Piece(name, value, on) + rest, Rank(name))
  {
  }

  /** The parameters come in the fixed order, and there are none exactly when no filter is active. */
  lemma FilterParamsOrder(f: FilterValues)
    ensures InOrder(FilterParams(f))
    ensures FilterParams(f) == [] <==> !HasActiveFilters(f)
  {
    var p1, p2 := Piece("location", f.location, f.location != ""), Piece("tags", Join(f.tags, ","), |f.tags| > 0);
    var p3, p4, p5 := Piece("yearFrom", f.yearFrom, f.yearFrom != ""), Piece("yearTo", f.yearTo, f.yearTo != ""),
      Piece("employees", f.employees, f.employees != "");
    var t4, t3 := p4 + p5, p3 + (p4 + p5);
    var t2 := p2 + t3;
    var t1 := p1 + t2;
    assert Rank("employees") == 5 && Rank("yearTo") == 4 && Rank("yearFrom") == 3;
    assert Rank("tags") == 2 && Rank("location") == 1 && Rank("query") == 0;
    InOrderPrepend("employees", f.employees, f.employees != "", []);
    assert p5 + [] == p5;
    InOrderPrepend("yearTo", f.yearTo, f.yearTo != "", p5);
    InOrderPrepend("yearFrom", f.yearFrom, f.yearFrom != "", t4);
    InOrderPrepend("tags", Join(f.tags, ","), |f.tags| > 0, t3);
    InOrderPrepend("location", f.location, f.location != "", t2);
    InOrderPrepend("query", f.query, f.query != "", t1);
  }

  /** The query string the search page reads the filters from, and the path it belongs to. */
  datatype Navigation = Navigation(path: string, params: seq<(string, string)>)

  /** `value === sentinel ? '' : value`: a select's "any" entry stands for no filter. */
  function FromSelect(value: string, sentinel: string): (r: string)
    ensures r == "" <==> value == sentinel || value == ""
    ensures r != "" ==> r == value
  {
    if value == sentinel then "" else value
  }

  /** `Array.from({length: max - min + 1}, (_, i) => min + i).reverse()`. */
  function YearOptions(min: int, max: int): (r: seq<int>)
    ensures |r| == if max >= min then max - min + 1 else 0
    ensures forall i :: 0 <= i < |r| ==> r[i] == max - i
  {
    var n := if max >= min then max - min + 1 else 0;
    var ascending := seq(n, i requires 0 <= i < n => min + i);
    seq(n, i requires 0 <= i < n => ascending[n - 1 - i])
  }

  /** The year options run from the newest to the oldest, each year of the range exactly once. */
  lemma YearOptionsCover(min: int, max: int, y: int)
    ensures y in YearOptions(min, max) <==> min <= y <= max
    ensures forall i, j :: 0 <= i < j < |YearOptions(min, max)| ==> YearOptions(min, max)[i] > YearOptions(min, max)[j]
  {
    if min <= y <= max {
      assert YearOptions(min, max)[max - y] == y;
    }
  }

  /** The search page splits the `tags` parameter on commas, which gives back tags that hold no comma. */
  lemma TagsParamRoundTrip(tags: seq<string>)
    requires |tags| > 0 && forall k :: 0 <= k < |tags| ==> ',' !in tags[k]
    ensures Split(Join(tags, ","), ',') == tags
  {
    assert "," == [','];
    SplitJoin(tags, ',');
  }

  /** What the panel is first given by the page. */
  datatype InitialFilters = InitialFilters(
    query: Option<string>,
    location: Option<string>,
    tags: Option<seq<string>>,
    yearFrom: Option<int>,
    yearTo: Option<int>,
    employees: Option<string>)

  /** `value || ''`. */
  function OrEmpty(v: Option<string>): string {
    if v.Some? then v.value else ""
  }

  function YearText(v: Option<int>): (r: string)
    ensures v.Some? ==> r == IntToDecimal(v.value)
    ensures v.None? ==> r == ""
  {
    if v.Some? then IntToDecimal(v.value) else ""
  }

  /** `if (on) params.set(name, value)` on parameters that do not yet hold `name`. */
  method SetParam(params: seq<(string, string)>, name: string, value: string, on: bool) returns (r: seq<(string, string)>)
    ensures r == params + Piece(name, value, on)
  {
    r := params;
    if on {
      r := r + [(name, value)];
    }
  }

  class FilterPanel {
    const pathname: string
    var query: string
    var location: string
    var selectedTags: seq<string>
    var yearFrom: string
    var yearTo: string
    var employees: string
    /** The navigations asked of the router, oldest first. */
    var navigations: seq<Navigation>

    function Values(): FilterValues
      reads this
    {
      FilterValues(query, location, selectedTags, yearFrom, yearTo, employees)
    }

    constructor(pathname: string, initial: InitialFilters)
      ensures this.pathname == pathname
      ensures Values() == FilterValues(
        OrEmpty(initial.query), OrEmpty(initial.location),
        if initial.tags.Some? then initial.tags.value else [],
        YearText(initial.yearFrom), YearText(initial.yearTo), OrEmpty(initial.employees))
      ensures navigations == []
    {
      this.pathname := pathname;
      query := OrEmpty(initial.query);
      location := OrEmpty(initial.location);
      selectedTags := if initial.tags.Some? then initial.tags.value else [];
      yearFrom := YearText(initial.yearFrom);
      yearTo := YearText(initial.yearTo);
      employees := OrEmpty(initial.employees);
      navigations := [];
    }

    /**
     * `applyFilters`: one navigation to the same path with the parameters of the current
     * values, which `FilterParamsLookup` and `FilterParamsOrder` describe.
     */
    method ApplyFilters() returns (params: seq<(string, string)>)
      modifies this
      ensures params == FilterParams(Values())
      ensures navigations == old(navigations) + [Navigation(pathname, params)]
      ensures Values() == old(Values())
    {
      var f := Values();
      var p0 := SetParam([], "query", query, query != "");
      var p1 := SetParam(p0, "location", location, location != "");
      var p2 := SetParam(p1, "tags", Join(selectedTags, ","), |selectedTags| > 0);
      var p3 := SetParam(p2, "yearFrom", yearFrom, yearFrom != "");
      var p4 := SetParam(p3, "yearTo", yearTo, yearTo != "");
      params := SetParam(p4, "employees", employees, employees != "");
      assert [] + Piece("query", f.query, f.query != "") == Piece("query", f.query, f.query != "");
      ConcatRegroup(Piece("query", f.query, f.query != ""), Piece("location", f.location, f.location != ""),
        Piece("tags", Join(f.tags, ","), |f.tags| > 0), Piece("yearFrom", f.yearFrom, f.yearFrom != ""),
        Piece("yearTo", f.yearTo, f.yearTo != ""), Piece("employees", f.employees, f.employees != ""));
      navigations := navigations + [Navigation(pathname, params)];
    }

    /** `clearFilters`: every value emptied and one navigation to the bare path. */
    method ClearFilters()
      modifies this
      ensures Values() == FilterValues("", "", [], "", "", "")
      ensures !HasActiveFilters(Values()) && BadgeCount(Values()) == 0
      ensures navigations == old(navigations) + [Navigation(pathname, [])]
    {
      query := "";
      location := "";
      selectedTags := [];
      yearFrom := "";
      yearTo := "";
      employees := "";
      navigations := navigations + [Navigation(pathname, [])];
    }

    /** `toggleTag`: the uncapped toggle. */
    method ToggleTag(tag: string)
      modifies this
      ensures Values() == old(Values()).(tags := TagSelection.Toggle(old(selectedTags), tag))
      ensures navigations == old(navigations)
    {
      selectedTags := TagSelection.Toggle(selectedTags, tag);
    }

    /** Typing in the search box. */
    method SetQuery(text: string)
      modifies this
      ensures Values() == old(Values()).(query := text) && navigations == old(navigations)
    {
      query := text;
    }

    /** The location select, whose `all` entry clears the filter. */
    method SelectLocation(value: string)
      modifies this
      ensures Values() == old(Values()).(location := FromSelect(value, "all")) && navigations == old(navigations)
    {
      location := FromSelect(value, "all");
    }

    /** The two year selects and the size select, whose `any` entries clear their filter. */
    method SelectYearFrom(value: string)
      modifies this
      ensures Values() == old(Values()).(yearFrom := FromSelect(value, "any")) && navigations == old(navigations)
    {
      yearFrom := FromSelect(value, "any");
    }

    method SelectYearTo(value: string)
      modifies this
      ensures Values() == old(Values()).(yearTo := FromSelect(value, "any")) && navigations == old(navigations)
    {
      yearTo := FromSelect(value, "any");
    }

    method SelectEmployees(value: string)
      modifies this
      ensures Values() == old(Values()).(employees := FromSelect(value, "any")) && navigations == old(navigations)
    {
      employees := FromSelect(value, "any");
    }
  }
}
