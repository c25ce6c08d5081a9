/**
 * The public reads of published startups: the filtered, paginated listing, the detail read
 * with its premium-field gate, the six featured startups, the filter options, and the
 * investor-only pitch-deck link.
 *
 * The database is modelled in memory. A table is the sequence of rows in the order the
 * query's `order` clause asks for; the listing query is built step by step as a list of
 * clauses and evaluated row by row.
 */
module Listing {
  import opened Wrappers
  import opened JsText
  import opened Types

  /** The listing's optional filters. */
  datatype StartupFilters = StartupFilters(
    query: Option<string>,
    location: Option<string>,
    tags: Option<seq<string>>,
    yearFrom: Option<int>,
    yearTo: Option<int>,
    employees: Option<string>)

  /** A JavaScript truthiness test on an optional text: present and non-empty. */
  predicate TextSet(v: Option<string>) { v.Some? && v.value != "" }

  /** A JavaScript truthiness test on an optional number: present and not zero. */
  predicate NumberSet(v: Option<int>) { v.Some? && v.value != 0 }

  /** The service reads `*` in a `like` or `ilike` pattern as `%`. */
  function StarsAsPercent(p: string): (r: string)
    ensures |r| == |p| && forall i :: 0 <= i < |p| ==> r[i] == (if p[i] == '*' then '%' else p[i])
  {
    seq(|p|, i requires 0 <= i < |p| => if p[i] == '*' then '%' else p[i])
  }

  /**
   * SQL `LIKE`: `%` matches any run of characters, `_` any one character, and `\` makes the
   * next character literal. The patterns built here end in `%`, so no escape is left dangling.
   */
  predicate Like(p: string, t: string)
    decreases |p| + |t|
  {
    if p == [] then t == []
    else if p[0] == '%' then Like(p[1..], t) || (t != [] && Like(p, t[1..]))
    else if t == [] then false
    else if p[0] == '_' then Like(p[1..], t[1..])
    else if p[0] == '\\' && |p| >= 2 then t[0] == p[1] && Like(p[2..], t[1..])
    else t[0] == p[0] && Like(p[1..], t[1..])
  }

  /** `column ILIKE '%needle%'`, as the filters build it: the pattern matches the value, both lower-cased. */
  predicate ContainsIgnoringCase(hay: string, needle: string) {
    Like(ToLower(StarsAsPercent("%" + needle + "%")), ToLower(hay))
  }

  /** A character the pattern language gives a meaning of its own. */
  predicate IsPatternChar(c: char) {
    c == '%' || c == '_' || c == '*' || c == '\\'
  }

  /** A needle without pattern characters matches exactly where it occurs as a substring, ignoring case. */
  lemma PlainNeedleIsSubstring(hay: string, needle: string)
    requires forall i :: 0 <= i < |needle| ==> !IsPatternChar(needle[i])
    ensures ContainsIgnoringCase(hay, needle) <==> Contains(ToLower(hay), ToLower(needle))
  {
    var m := ToLower(needle);
    assert StarsAsPercent("%" + needle + "%") == "%" + needle + "%";
    assert ToLower("%" + needle + "%") == "%" + m + "%";
    forall i | 0 <= i < |m| ensures !IsPatternChar(m[i]) {
      assert m[i] == ToLowerChar(needle[i]);
    }
    AroundMeansContains(m, ToLower(hay));
  }

  /** `'%' + m + '%'` for a plain `m` matches exactly the texts that contain `m`. */
  lemma {:induction false} AroundMeansContains(m: string, t: string)
    requires forall i :: 0 <= i < |m| ==> !IsPatternChar(m[i])
    ensures Like("%" + m + "%", t) <==> Contains(t, m)
    decreases |t|
  {
    var p := "%" + m + "%";
    assert p[1..] == m + "%";
    PlainThenPercent(m, t);
    if t != [] {
      AroundMeansContains(m, t[1..]);
    }
  }

  /** `m + '%'` for a plain `m` matches exactly the texts that start with `m`. */
  lemma {:induction false} PlainThenPercent(m: string, t: string)
    requires forall i :: 0 <= i < |m| ==> !IsPatternChar(m[i])
    ensures Like(m + "%", t) <==> StartsWith(t, m)
  {
    if m == [] {
      assert m + "%" == "%";
      PercentMatchesAll(t);
    } else {
      assert (m + "%")[1..] == m[1..] + "%";
      assert !IsPatternChar(m[0]);
      if t != [] {
        PlainThenPercent(m[1..], t[1..]);
        if StartsWith(t, m) {
          assert t[1..][..|m| - 1] == t[..|m|][1..];
        }
        if t[0] == m[0] && StartsWith(t[1..], m[1..]) {
          assert t[..|m|] == [t[0]] + t[1..][..|m| - 1];
        }
      }
    }
  }

  /** A lone `%` matches every text. */
  lemma {:induction false} PercentMatchesAll(t: string)
    ensures Like("%", t)
  {
    assert "%"[1..] == [];
    if t != [] {
      PercentMatchesAll(t[1..]);
    }
  }

  /** Unlike a substring search, `_` in the text query matches any one character. */
  lemma UnderscoreMatchesAnyCharacter()
    ensures ContainsIgnoringCase("abc", "a_c")
    ensures !Contains("abc", "a_c")
  {
    var p := ToLower(StarsAsPercent("%" + "a_c" + "%"));
    assert p == ['%', 'a', '_', 'c', '%'];
    assert ToLower("abc") == ['a', 'b', 'c'];
    assert p[1..] == ['a', '_', 'c', '%'];
    UnderscoreMatchesOne('a', 'b', 'c');
    var h := "abc";
    assert h[..3] != "a_c" by { assert h[..3][1] != "a_c"[1]; }
    ContainsNeedsRoom(h[1..], "a_c");
  }

  /** `a_c%` matches `a`, any one character, then `c`. */
  lemma UnderscoreMatchesOne(a: char, x: char, c: char)
    requires !IsPatternChar(a) && !IsPatternChar(c)
    ensures Like([a, '_', c, '%'], [a, x, c])
  {
    var p := [a, '_', c, '%'];
    var t := [a, x, c];
    assert p[1..] == ['_', c, '%'] && t[1..] == [x, c];
    assert p[1..][1..] == [c, '%'] && t[1..][1..] == [c];
    assert p[1..][1..][1..] == ['%'] && t[1..][1..][1..] == [];
    PercentMatchesAll([]);
  }

  /** A needle longer than the text does not occur in it. */
  lemma {:induction false} ContainsNeedsRoom(hay: string, needle: string)
    requires |needle| > |hay|
    ensures !Contains(hay, needle)
  {
    if hay != [] {
      ContainsNeedsRoom(hay[1..], needle);
    }
  }

  /** One clause of the query builder chain. */
  datatype Clause =
    | EqApproved
    | OrderNewestFirst
    | TextSearch(text: string)
    | LocationLike(text: string)
    | TagsOverlap(tags: seq<string>)
    | YearAtLeast(year: int)
    | YearAtMost(year: int)
    | EmployeesEq(range: string)
    | Range(from: int, to: int)

  /** Whether a row satisfies a clause; ordering and range do not filter rows. */
  predicate ClauseHolds(c: Clause, s: Startup) {
    match c
    case EqApproved => s.isApproved
    case OrderNewestFirst => true
    case TextSearch(q) =>
      ContainsIgnoringCase(s.nombre, q) || ContainsIgnoringCase(s.descripcionBreve, q)
      || ContainsIgnoringCase(s.descripcionLarga, q)
    case LocationLike(l) => s.ubicacion.Some? && ContainsIgnoringCase(s.ubicacion.value, l)
    case TagsOverlap(ts) => exists t :: t in ts && t in s.tags
    case YearAtLeast(y) => s.anoFundacion.Some? && s.anoFundacion.value >= y
    case YearAtMost(y) => s.anoFundacion.Some? && s.anoFundacion.value <= y
    case EmployeesEq(e) => s.numEmpleados == Some(e)
    case Range(_, _) => true
  }

  predicate RowPasses(q: seq<Clause>, s: Startup) {
    forall i :: 0 <= i < |q| ==> ClauseHolds(q[i], s)
  }

  /** The text query, when set, occurs in the name or one of the two descriptions. */
  predicate QueryOk(f: StartupFilters, s: Startup) {
    TextSet(f.query) ==>
      ContainsIgnoringCase(s.nombre, f.query.value) || ContainsIgnoringCase(s.descripcionBreve, f.query.value)
      || ContainsIgnoringCase(s.descripcionLarga, f.query.value)
  }

  /** The location filter, when set, occurs in the recorded location. */
  predicate LocationOk(f: StartupFilters, s: Startup) {
    TextSet(f.location) ==> s.ubicacion.Some? && ContainsIgnoringCase(s.ubicacion.value, f.location.value)
  }

  /** The tag filter, when non-empty, shares at least one tag with the startup. */
  predicate TagsOk(f: StartupFilters, s: Startup) {
    f.tags.Some? && |f.tags.value| > 0 ==> exists t :: t in f.tags.value && t in s.tags
  }

  /** The founding year lies within the bounds that are set, both inclusive. */
  predicate YearsOk(f: StartupFilters, s: Startup) {
    && (NumberSet(f.yearFrom) ==> s.anoFundacion.Some? && s.anoFundacion.value >= f.yearFrom.value)
    && (NumberSet(f.yearTo) ==> s.anoFundacion.Some? && s.anoFundacion.value <= f.yearTo.value)
  }

  /** The employee range, when set, is exactly the one recorded. */
  predicate EmployeesOk(f: StartupFilters, s: Startup) {
    TextSet(f.employees) ==> s.numEmpleados == Some(f.employees.value)
  }

  /**
   * What the listing promises, stated directly: an approved startup that satisfies every
   * filter that is set; unset filters do not apply.
   */
  predicate Matches(f: StartupFilters, s: Startup) {
    s.isApproved && QueryOk(f, s) && LocationOk(f, s) && TagsOk(f, s) && YearsOk(f, s) && EmployeesOk(f, s)
  }

  /** The first and last index of page `page` of `limit` rows. */
  function PageRange(page: int, limit: int): (r: (int, int))
    ensures r.1 - r.0 + 1 == limit
  {
    var from := (page - 1) * limit;
    (from, from + limit - 1)
  }

  /** The query `getApprovedStartups` builds, one `query = query.…` step after another. */
  method BuildQuery(f: StartupFilters, page: int, limit: int) returns (q: seq<Clause>)
    ensures |q| >= 3 && q[0] == EqApproved && q[1] == OrderNewestFirst
    ensures q[|q| - 1] == Range(PageRange(page, limit).0, PageRange(page, limit).1)
    ensures forall i :: 0 <= i < |q| - 1 ==> !q[i].Range?
    ensures forall s :: RowPasses(q, s) <==> Matches(f, s)
  {
    q := FilterQuery(f);
    var from := (page - 1) * limit;
    var to := from + limit - 1;
    q := q + [Range(from, to)];
    BuiltQuery(f, from, to);
  }

  /** The approved-only filter, the order and the filters that are set, before the range. */
  method FilterQuery(f: StartupFilters) returns (q: seq<Clause>)
    ensures q == FilterClauses(f)
  {
    q := [EqApproved, OrderNewestFirst];
    // `built` follows `q` one filter piece at a time
    ghost var built := q;
    if TextSet(f.query) {
      q := q + [TextSearch(f.query.value)];
    }
    built := built + QueryClause(f);
    assert q == built;
    if TextSet(f.location) {
      q := q + [LocationLike(f.location.value)];
    }
    built := built + LocationClause(f);
    assert q == built;
    if f.tags.Some? && |f.tags.value| > 0 {
      q := q + [TagsOverlap(f.tags.value)];
    }
    built := built + TagsClause(f);
    assert q == built;
    if NumberSet(f.yearFrom) {
      q := q + [YearAtLeast(f.yearFrom.value)];
    }
    built := built + YearFromClause(f);
    assert q == built;
    if NumberSet(f.yearTo) {
      q := q + [YearAtMost(f.yearTo.value)];
    }
    built := built + YearToClause(f);
    assert q == built;
    if TextSet(f.employees) {
      q := q + [EmployeesEq(f.employees.value)];
    }
    built := built + EmployeesClause(f);
    assert q == built;
  }

  /** The shape and meaning of the filter clauses followed by the range. */
  lemma BuiltQuery(f: StartupFilters, from: int, to: int)
    ensures var q := FilterClauses(f) + [Range(from, to)];
      && |q| >= 3 && q[0] == EqApproved && q[1] == OrderNewestFirst && q[|q| - 1] == Range(from, to)
      && (forall i :: 0 <= i < |q| - 1 ==> !q[i].Range?)
      && (forall s :: RowPasses(q, s) <==> Matches(f, s))
  {
    FilterClausesShape(f);
    forall s ensures RowPasses(FilterClauses(f) + [Range(from, to)], s) <==> Matches(f, s) {
      RangeFiltersNothing(FilterClauses(f), from, to, s);
      ClausesMatch(f, s, FilterClauses(f));
    }
  }

  /** The filter clauses start with the approved-only filter and the order, and hold no range. */
  lemma FilterClausesShape(f: StartupFilters)
    ensures var q := FilterClauses(f); |q| >= 2 && q[0] == EqApproved && q[1] == OrderNewestFirst
    ensures forall i :: 0 <= i < |FilterClauses(f)| ==> !FilterClauses(f)[i].Range?
  {
    var p0: seq<Clause> := [EqApproved, OrderNewestFirst];
    var p1 := p0 + QueryClause(f);
    var p2 := p1 + LocationClause(f);
    var p3 := p2 + TagsClause(f);
    var p4 := p3 + YearFromClause(f);
    var p5 := p4 + YearToClause(f);
    KeepsHead(p0, QueryClause(f));
    KeepsHead(p1, LocationClause(f));
    KeepsHead(p2, TagsClause(f));
    KeepsHead(p3, YearFromClause(f));
    KeepsHead(p4, YearToClause(f));
    KeepsHead(p5, EmployeesClause(f));
  }

  /** Appending clauses without a range keeps the first two clauses and adds no range. */
  lemma KeepsHead(a: seq<Clause>, b: seq<Clause>)
    requires |a| >= 2 && forall i :: 0 <= i < |a| ==> !a[i].Range?
    requires |b| <= 1 && forall i :: 0 <= i < |b| ==> !b[i].Range?
    ensures |a + b| >= 2 && (a + b)[0] == a[0] && (a + b)[1] == a[1]
    ensures forall i :: 0 <= i < |a + b| ==> !(a + b)[i].Range?
  {
  }

  /** A final range lets through the rows the clauses before it let through. */
  lemma RangeFiltersNothing(q: seq<Clause>, from: int, to: int, s: Startup)
    ensures RowPasses(q + [Range(from, to)], s) <==> RowPasses(q, s)
  {
    RowPassesAppend(q, [Range(from, to)], s);
    RowPassesOne(Range(from, to), s);
  }


  function QueryClause(f: StartupFilters): seq<Clause> {
    if TextSet(f.query) then [TextSearch(f.query.value)] else []
  }

  function LocationClause(f: StartupFilters): seq<Clause> {
    if TextSet(f.location) then [LocationLike(f.location.value)] else []
  }

  function TagsClause(f: StartupFilters): seq<Clause> {
    if f.tags.Some? && |f.tags.value| > 0 then [TagsOverlap(f.tags.value)] else []
  }

  function YearFromClause(f: StartupFilters): seq<Clause> {
    if NumberSet(f.yearFrom) then [YearAtLeast(f.yearFrom.value)] else []
  }

  function YearToClause(f: StartupFilters): seq<Clause> {
    if NumberSet(f.yearTo) then [YearAtMost(f.yearTo.value)] else []
  }

  function EmployeesClause(f: StartupFilters): seq<Clause> {
    if TextSet(f.employees) then [EmployeesEq(f.employees.value)] else []
  }

  /** The filter clauses a set of filters produces, in builder order. */
  function FilterClauses(f: StartupFilters): seq<Clause> {
    [EqApproved, OrderNewestFirst] + QueryClause(f) + LocationClause(f) + TagsClause(f) + YearFromClause(f)
    + YearToClause(f) + EmployeesClause(f)
  }

  lemma RowPassesAppend(a: seq<Clause>, b: seq<Clause>, s: Startup)
    ensures RowPasses(a + b, s) <==> RowPasses(a, s) && RowPasses(b, s)
  {
    if RowPasses(a, s) && RowPasses(b, s) {
      forall i | 0 <= i < |a + b| ensures ClauseHolds((a + b)[i], s) {
        if i >= |a| { assert (a + b)[i] == b[i - |a|]; }
      }
    }
    if RowPasses(a + b, s) {
      forall i | 0 <= i < |a| ensures ClauseHolds(a[i], s) {
        assert (a + b)[i] == a[i];
      }
      forall i | 0 <= i < |b| ensures ClauseHolds(b[i], s) {
        assert (a + b)[|a| + i] == b[i];
      }
    }
  }

  lemma RowPassesOne(c: Clause, s: Startup)
    ensures RowPasses([c], s) <==> ClauseHolds(c, s)
  {
    assert [c][0] == c;
  }

  lemma ClausesMatch(f: StartupFilters, s: Startup, q: seq<Clause>)
    requires q == FilterClauses(f)
    ensures RowPasses(q, s) <==> Matches(f, s)
  {
    var p0: seq<Clause> := [EqApproved, OrderNewestFirst];
    var p1 := p0 + QueryClause(f);
    var p2 := p1 + LocationClause(f);
    var p3 := p2 + TagsClause(f);
    var p4 := p3 + YearFromClause(f);
    var p5 := p4 + YearToClause(f);
    RowPassesAppend(p5, EmployeesClause(f), s);
    RowPassesAppend(p4, YearToClause(f), s);
    RowPassesAppend(p3, YearFromClause(f), s);
    RowPassesAppend(p2, TagsClause(f), s);
    RowPassesAppend(p1, LocationClause(f), s);
    RowPassesAppend(p0, QueryClause(f), s);
    FixedClausesMean(s);
    QueryClauseMeans(f, s);
    OtherClausesMean(f, s);
  }

  lemma FixedClausesMean(s: Startup)
    ensures RowPasses([EqApproved, OrderNewestFirst], s) <==> s.isApproved
  {
    var p0: seq<Clause> := [EqApproved, OrderNewestFirst];
    assert ClauseHolds(p0[0], s) <==> s.isApproved;
    assert ClauseHolds(p0[1], s);
  }

  lemma QueryClauseMeans(f: StartupFilters, s: Startup)
    ensures RowPasses(QueryClause(f), s) <==> QueryOk(f, s)
  {
    if TextSet(f.query) { RowPassesOne(QueryClause(f)[0], s); }
  }

  lemma OtherClausesMean(f: StartupFilters, s: Startup)
    ensures RowPasses(LocationClause(f), s) <==> LocationOk(f, s)
    ensures RowPasses(TagsClause(f), s) <==> TagsOk(f, s)
    ensures RowPasses(YearFromClause(f), s) && RowPasses(YearToClause(f), s) <==> YearsOk(f, s)
    ensures RowPasses(EmployeesClause(f), s) <==> EmployeesOk(f, s)
  {
    if TextSet(f.location) { RowPassesOne(LocationClause(f)[0], s); }
    if f.tags.Some? && |f.tags.value| > 0 { RowPassesOne(TagsClause(f)[0], s); }
    if NumberSet(f.yearFrom) { RowPassesOne(YearFromClause(f)[0], s); }
    if NumberSet(f.yearTo) { RowPassesOne(YearToClause(f)[0], s); }
    if TextSet(f.employees) { RowPassesOne(EmployeesClause(f)[0], s); }
  }

  /** The rows of `table` that pass every clause, in table order. */
  function Select(q: seq<Clause>, table: seq<Startup>): (r: seq<Startup>)
    ensures |r| <= |table|
    ensures forall s :: s in r <==> s in table && RowPasses(q, s)
  {
    if table == [] then []
    else (if RowPasses(q, table[0]) then [table[0]] else []) + Select(q, table[1..])
  }

  /** `range(from, to)`: the rows at positions `from..to`, clipped to the rows there are. */
  function Window(rows: seq<Startup>, from: int, to: int): (r: seq<Startup>)
    ensures |r| <= |rows|
    ensures 0 <= from && from + |r| <= |rows| ==> r == rows[from..from + |r|]
    ensures 0 <= from <= to + 1 && to < |rows| ==> |r| == to - from + 1
  {
    var lo := if from < 0 then 0 else if from > |rows| then |rows| else from;
    var hi := if to + 1 < lo then lo else if to + 1 > |rows| then |rows| else to + 1;
    rows[lo..hi]
  }

  /** The error the service reports: message and code, either possibly empty. */
  datatype ServiceError = ServiceError(message: string, code: string)

  datatype ListResult = ListResult(data: seq<Startup>, count: nat, error: Option<string>)

  /** The service's error rendered as the listing reports it. */
  function DatabaseErrorText(e: ServiceError): string {
    "Error de base de datos: " + (if e.message != "" then e.message else "Error desconocido")
    + ". Código: " + (if e.code != "" then e.code else "N/A")
  }

  /**
   * `getApprovedStartups(page, limit, filters)` against a table listed newest first: the
   * matching rows on the requested page and the count of all matching rows, or an empty
   * result carrying the service's error. `thrown` is the message of an unexpected exception
   * (`Error inesperado` when what was thrown is not an `Error`), which the `catch` reports.
   */
  method GetApprovedStartups(page: int, limit: int, f: StartupFilters, table: seq<Startup>, failure: Option<ServiceError>,
                             thrown: Option<string>)
    returns (r: ListResult)
    ensures thrown.Some? ==> r == ListResult([], 0, Some("Error al cargar startups: " + thrown.value))
    ensures thrown.None? && failure.Some? ==> r == ListResult([], 0, Some(DatabaseErrorText(failure.value)))
    ensures thrown.None? && failure.None? ==> r.error.None?
    ensures thrown.None? && failure.None? ==> r.count == |Select(FilterClauses(f), table)|
    ensures thrown.None? && failure.None? ==> forall s :: s in r.data ==> s in table && Matches(f, s)
    ensures thrown.None? && failure.None? ==>
      r.data == Window(Select(FilterClauses(f), table), PageRange(page, limit).0, PageRange(page, limit).1)
  {
    if thrown.Some? {
      return ListResult([], 0, Some("Error al cargar startups: " + thrown.value));
    }
    var q := BuildQuery(f, page, limit);
    if failure.Some? {
      return ListResult([], 0, Some(DatabaseErrorText(failure.value)));
    }
    var matching := Select(q, table);
    assert matching == Select(FilterClauses(f), table) by {
      SelectSamePredicate(q, FilterClauses(f), table, f);
    }
    var range := q[|q| - 1];
    r := ListResult(Window(matching, range.from, range.to), |matching|, None);
    SelectedRowsMatch(f, table);
    WindowWithin(matching, range.from, range.to);
  }

  /** Every selected row is a row of the table that matches the filters. */
  lemma SelectedRowsMatch(f: StartupFilters, table: seq<Startup>)
    ensures forall s :: s in Select(FilterClauses(f), table) ==> s in table && Matches(f, s)
  {
    forall s | s in Select(FilterClauses(f), table) ensures s in table && Matches(f, s) {
      ClausesMatch(f, s, FilterClauses(f));
    }
  }

  /** A window holds only rows of what it is taken from. */
  lemma WindowWithin(rows: seq<Startup>, from: int, to: int)
    ensures forall s :: s in Window(rows, from, to) ==> s in rows
  {
  }

  lemma {:induction false} SelectSamePredicate(q1: seq<Clause>, q2: seq<Clause>, table: seq<Startup>, f: StartupFilters)
    requires forall s :: RowPasses(q1, s) <==> Matches(f, s)
    requires q2 == FilterClauses(f)
    ensures Select(q1, table) == Select(q2, table)
  {
    if table != [] {
      ClausesMatch(f, table[0], q2);
      SelectSamePredicate(q1, q2, table[1..], f);
    }
  }

  /** Each page holds exactly `limit` positions, and page `p + 1` starts right after page `p` ends. */
  lemma PagesTile(page: int, limit: int)
    ensures PageRange(page, limit).1 - PageRange(page, limit).0 + 1 == limit
    ensures PageRange(page + 1, limit).0 == PageRange(page, limit).1 + 1
    ensures page >= 1 && limit >= 0 ==> PageRange(page, limit).0 >= 0
  {
    assert (page + 1 - 1) * limit == (page - 1) * limit + limit;
    if page >= 1 && limit >= 0 {
      assert (page - 1) * limit >= 0;
    }
  }

  /** Every row is on exactly one page: the page numbered by its position divided by the page size, plus one. */
  lemma PageOfPosition(k: nat, limit: nat)
    requires limit > 0
    ensures var p := k / limit + 1; PageRange(p, limit).0 <= k <= PageRange(p, limit).1
    ensures forall p: int :: PageRange(p, limit).0 <= k <= PageRange(p, limit).1 ==> p == k / limit + 1
  {
    var p0 := k / limit + 1;
    assert (p0 - 1) * limit == (k / limit) * limit;
    forall p: int | PageRange(p, limit).0 <= k <= PageRange(p, limit).1 ensures p == k / limit + 1 {
      var from := (p - 1) * limit;
      assert from <= k < from + limit;
      if p - 1 < k / limit {
        MulMonotone(p - 1, k / limit - 1, limit);
        assert false;
      } else if p - 1 > k / limit {
        MulMonotone(k / limit + 1, p - 1, limit);
        assert false;
      }
    }
  }

  lemma MulMonotone(a: int, b: int, c: nat)
    requires a <= b
    ensures a * c <= b * c
  {
  }

  /** The published rows a table holds, newest first. */
  predicate NewestFirst(rows: seq<Startup>) {
    forall i, j :: 0 <= i < j < |rows| ==> rows[i].createdAt.millis >= rows[j].createdAt.millis
  }

  /** The featured startups' answer. */
  datatype FeaturedResult = FeaturedResult(data: seq<Startup>, error: Option<string>)

  /**
   * `getFeaturedStartups`: the first six approved rows of the newest-first table. `failure` is
   * the message of an error the service reports, and `thrown` an unexpected exception.
   */
  function FeaturedStartups(table: seq<Startup>, failure: Option<string>, thrown: bool): (r: FeaturedResult)
    ensures thrown ==> r == FeaturedResult([], Some("Error inesperado al cargar startups destacadas"))
    ensures !thrown && failure.Some? ==> r == FeaturedResult([], failure)
    ensures !thrown && failure.None? ==> r.error.None? && |r.data| <= 6
    ensures !thrown && failure.None? ==> forall s :: s in r.data ==> s in table && s.isApproved
    ensures !thrown && failure.None? ==>
      var all := Select([EqApproved], table); r.data == all[..if |all| < 6 then |all| else 6]
  {
    if thrown then FeaturedResult([], Some("Error inesperado al cargar startups destacadas"))
    else if failure.Some? then FeaturedResult([], failure)
    else
      var all := Select([EqApproved], table);
      forall s | s in all ensures s.isApproved {
        assert ClauseHolds([EqApproved][0], s);
      }
      FeaturedResult(all[..if |all| < 6 then |all| else 6], None)
  }

  /** The detail read's answer. */
  datatype DetailResult = DetailResult(data: Option<Startup>, error: Option<string>, isPremiumVisible: bool)

  /** The public copy of a record: email, phone and pitch-deck path removed. */
  function HidePremium(s: Startup): (r: Startup)
    ensures r.email.None? && r.phone.None? && r.pitchDeckUrl.None?
    ensures r.(email := s.email, phone := s.phone, pitchDeckUrl := s.pitchDeckUrl) == s
  {
    s.(email := None, phone := None, pitchDeckUrl := None)
  }

  /** The rows `.eq('slug', slug).eq('is_approved', true)` selects. */
  function WithSlug(table: seq<Startup>, slug: string): (r: seq<Startup>)
    ensures forall s :: s in r <==> s in table && s.slug == slug && s.isApproved
  {
    if table == [] then []
    else (if table[0].slug == slug && table[0].isApproved then [table[0]] else []) + WithSlug(table[1..], slug)
  }

  /**
   * `getStartupBySlug(slug)`: `.single()` fails unless exactly one approved row has the slug
   * (`singleError` is the service's message then). An investor, as the stored metadata role
   * says, gets the whole record; anyone else gets the public copy. `thrown` is an unexpected
   * exception on the way, which the catch turns into a fixed message.
   */
  function GetStartupBySlug(user: Option<AuthUser>, slug: string, table: seq<Startup>, singleError: string, thrown: bool): (r: DetailResult)
    ensures thrown ==> r == DetailResult(None, Some("Error inesperado al cargar la startup"), false)
    ensures !thrown && |WithSlug(table, slug)| != 1 ==> r == DetailResult(None, Some(singleError), false)
    ensures !thrown && |WithSlug(table, slug)| == 1 ==> r.data.Some? && r.error.None?
    ensures r.data.Some? ==> r.data.value.slug == slug && r.data.value.isApproved && r.error.None?
    ensures r.isPremiumVisible <==> r.data.Some? && user.Some? && user.value.metadata.role == Some("investor")
    ensures r.data.Some? && !r.isPremiumVisible ==> r.data.value.email.None? && r.data.value.phone.None? && r.data.value.pitchDeckUrl.None?
    ensures r.data.Some? && r.isPremiumVisible ==> r.data == Some(WithSlug(table, slug)[0])
  {
    var isInvestor := user.Some? && user.value.metadata.role == Some("investor");
    var rows := WithSlug(table, slug);
    if thrown then DetailResult(None, Some("Error inesperado al cargar la startup"), false)
    else if |rows| != 1 then DetailResult(None, Some(singleError), false)
    else
      assert rows[0] in rows;
      if !isInvestor then DetailResult(Some(HidePremium(rows[0])), None, false)
      else DetailResult(Some(rows[0]), None, true)
  }

  /** A non-investor sees every field of the record except the three premium ones. */
  lemma NonInvestorSeesPublicCopy(user: Option<AuthUser>, slug: string, table: seq<Startup>, e: string)
    requires |WithSlug(table, slug)| == 1
    requires user.None? || user.value.metadata.role != Some("investor")
    ensures GetStartupBySlug(user, slug, table, e, false) == DetailResult(Some(HidePremium(WithSlug(table, slug)[0])), None, false)
  {
  }

  /**
   * Lexicographic order on texts, character by character, a proper prefix first: the default
   * `sort()` on them, which compares UTF-16 code units; the two orders agree on texts inside
   * the basic plane.
   */
  predicate StrLess(a: string, b: string) {
    if a == [] then b != []
    else if b == [] then false
    else if a[0] != b[0] then a[0] < b[0]
    else StrLess(a[1..], b[1..])
  }

  lemma {:induction false} StrLessIrreflexive(a: string)
    ensures !StrLess(a, a)
  {
    if a != [] { StrLessIrreflexive(a[1..]); }
  }

  lemma {:induction false} StrLessTransitive(a: string, b: string, c: string)
    requires StrLess(a, b) && StrLess(b, c)
    ensures StrLess(a, c)
  {
    if a != [] && b != [] && c != [] && a[0] == b[0] && b[0] == c[0] {
      StrLessTransitive(a[1..], b[1..], c[1..]);
    }
  }

  lemma {:induction false} StrLessTotal(a: string, b: string)
    ensures a == b || StrLess(a, b) || StrLess(b, a)
  {
    if a != [] && b != [] && a[0] == b[0] {
      StrLessTotal(a[1..], b[1..]);
      if a[1..] == b[1..] {
        assert a == [a[0]] + a[1..] && b == [b[0]] + b[1..];
      }
    }
  }

  /** Strictly increasing: sorted and free of duplicates. */
  predicate StrictlySorted(xs: seq<string>) {
    forall i, j :: 0 <= i < j < |xs| ==> StrLess(xs[i], xs[j])
  }

  /** Adds `x` to a strictly sorted list, keeping it strictly sorted. */
  function Insert(x: string, xs: seq<string>): (r: seq<string>)
    requires StrictlySorted(xs)
    ensures StrictlySorted(r)
    ensures forall y :: y in r <==> y == x || y in xs
  {
    if xs == [] then [x]
    else if x == xs[0] then xs
    else if StrLess(x, xs[0]) then
      var r := [x] + xs;
      assert StrictlySorted(r) by {
        forall i, j | 0 <= i < j < |r| ensures StrLess(r[i], r[j]) {
          if i == 0 && j > 1 { StrLessTransitive(x, xs[0], xs[j - 1]); }
        }
      }
      r
    else
      StrLessTotal(x, xs[0]);
      var rest := Insert(x, xs[1..]);
      var r := [xs[0]] + rest;
      assert StrictlySorted(r) by {
        forall i, j | 0 <= i < j < |r| ensures StrLess(r[i], r[j]) {
          if i == 0 {
            assert r[j] in rest;
          }
        }
      }
      r
  }

  /** `Array.from(new Set(xs)).sort()`: the distinct texts of `xs` in increasing order. */
  function SortedDistinct(xs: seq<string>): (r: seq<string>)
    ensures StrictlySorted(r)
    ensures forall y :: y in r <==> y in xs
  {
    if xs == [] then [] else Insert(xs[|xs| - 1], SortedDistinct(xs[..|xs| - 1]))
  }

  /** Two strictly sorted lists with the same elements are the same list: the result above is the only one possible. */
  lemma {:induction false} StrictlySortedUnique(a: seq<string>, b: seq<string>)
    requires StrictlySorted(a) && StrictlySorted(b)
    requires forall y :: y in a <==> y in b
    ensures a == b
  {
    if a != [] { assert a[0] in a; }
    if b != [] { assert b[0] in b; }
    if a != [] && b != [] {
      assert a[0] in b && b[0] in a;
      var k :| 0 <= k < |b| && b[k] == a[0];
      var j :| 0 <= j < |a| && a[j] == b[0];
      if a[0] != b[0] {
        assert StrLess(b[0], b[k]) && StrLess(a[0], a[j]);
        StrLessAsymmetric(a[0], b[0]);
        assert false;
      }
      assert a == [a[0]] + a[1..] && b == [b[0]] + b[1..];
      forall y ensures y in a[1..] <==> y in b[1..] {
        if y in a[1..] {
          var i :| 1 <= i < |a| && a[i] == y;
          assert StrLess(a[0], a[i]);
          StrLessIrreflexive(y);
          assert y in b && y != b[0];
        }
        if y in b[1..] {
          var i :| 1 <= i < |b| && b[i] == y;
          assert StrLess(b[0], b[i]);
          StrLessIrreflexive(y);
          assert y in a && y != a[0];
        }
      }
      StrictlySortedUnique(a[1..], b[1..]);
    }
  }

  lemma StrLessAsymmetric(a: string, b: string)
    requires StrLess(a, b)
    ensures !StrLess(b, a)
  {
    if StrLess(b, a) {
      StrLessTransitive(a, b, a);
      StrLessIrreflexive(a);
    }
  }

  /** The filter options: distinct sorted locations and tags, and the span of founding years. */
  datatype FilterOptions = FilterOptions(locations: seq<string>, tags: seq<string>, minYear: int, maxYear: int, error: Option<string>)

  function Locations(rows: seq<Startup>): (r: seq<string>)
    ensures forall l :: l in r <==> exists s :: s in rows && s.isApproved && s.ubicacion == Some(l)
  {
    if rows == [] then []
    else
      var rest := Locations(rows[1..]);
      assert forall s :: s in rows[1..] ==> s in rows;
      assert forall s :: s in rows ==> s == rows[0] || s in rows[1..];
      (if rows[0].isApproved && rows[0].ubicacion.Some? then [rows[0].ubicacion.value] else []) + rest
  }

  function AllTags(rows: seq<Startup>): (r: seq<string>)
    ensures forall t :: t in r <==> exists s :: s in rows && s.isApproved && t in s.tags
  {
    if rows == [] then []
    else
      var rest := AllTags(rows[1..]);
      assert forall s :: s in rows[1..] ==> s in rows;
      assert forall s :: s in rows ==> s == rows[0] || s in rows[1..];
      (if rows[0].isApproved then rows[0].tags else []) + rest
  }

  function Years(rows: seq<Startup>): (r: seq<int>)
    ensures forall y :: y in r <==> exists s :: s in rows && s.isApproved && s.anoFundacion == Some(y)
  {
    if rows == [] then []
    else
      var rest := Years(rows[1..]);
      assert forall s :: s in rows[1..] ==> s in rows;
      assert forall s :: s in rows ==> s == rows[0] || s in rows[1..];
      (if rows[0].isApproved && rows[0].anoFundacion.Some? then [rows[0].anoFundacion.value] else []) + rest
  }

  /** `Math.min(...ys)` on a non-empty list. */
  function Min(ys: seq<int>): (m: int)
    requires ys != []
    ensures m in ys && forall y :: y in ys ==> m <= y
  {
    if |ys| == 1 then ys[0]
    else
      var rest := Min(ys[1..]);
      assert forall y :: y in ys ==> y == ys[0] || y in ys[1..];
      if ys[0] <= rest then ys[0] else rest
  }

  /** `Math.max(...ys)` on a non-empty list. */
  function Max(ys: seq<int>): (m: int)
    requires ys != []
    ensures m in ys && forall y :: y in ys ==> y <= m
  {
    if |ys| == 1 then ys[0]
    else
      var rest := Max(ys[1..]);
      assert forall y :: y in ys ==> y == ys[0] || y in ys[1..];
      if ys[0] >= rest then ys[0] else rest
  }

  /**
   * `getFilterOptions()`: three queries on the approved rows, each answering rows or no data
   * (`None`), which the code reads as no values; the year bounds then fall back to the current
   * year. `thrown` is an unexpected exception, which yields the fallback answer with years
   * 2000 to the current year. The errors of the three queries are never read.
   */
  function GetFilterOptions(locationData: Option<seq<Startup>>, tagsData: Option<seq<Startup>>, yearData: Option<seq<Startup>>,
                            currentYear: int, thrown: bool): (r: FilterOptions)
    ensures thrown ==> r == FilterOptions([], [], 2000, currentYear, Some("Error al cargar opciones de filtro"))
    ensures !thrown ==> r.error.None? && StrictlySorted(r.locations) && StrictlySorted(r.tags)
    ensures !thrown && locationData.None? ==> r.locations == []
    ensures !thrown && locationData.Some? ==>
      forall l :: l in r.locations <==> exists s :: s in locationData.value && s.isApproved && s.ubicacion == Some(l)
    ensures !thrown && tagsData.None? ==> r.tags == []
    ensures !thrown && tagsData.Some? ==>
      forall t :: t in r.tags <==> exists s :: s in tagsData.value && s.isApproved && t in s.tags
    ensures !thrown ==> r.minYear <= r.maxYear
    ensures !thrown && (yearData.None? || Years(yearData.value) == []) ==> r.minYear == currentYear && r.maxYear == currentYear
    ensures !thrown && yearData.Some? && Years(yearData.value) != [] ==>
      (r.minYear in Years(yearData.value) && r.maxYear in Years(yearData.value)
       && forall y :: y in Years(yearData.value) ==> r.minYear <= y <= r.maxYear)
  {
    if thrown then FilterOptions([], [], 2000, currentYear, Some("Error al cargar opciones de filtro"))
    else
      var locations := if locationData.Some? then SortedDistinct(Locations(locationData.value)) else [];
      var tags := if tagsData.Some? then SortedDistinct(AllTags(tagsData.value)) else [];
      var years := if yearData.Some? then Years(yearData.value) else [];
      var lo := if years != [] then Min(years) else currentYear;
      var hi := if years != [] then Max(years) else currentYear;
      FilterOptions(locations, tags, lo, hi, None)
  }

  /** What the storage service answers when asked to sign a path for an hour. */
  datatype SignOutcome = Signed(url: string) | SignFailed(message: string)

  /** The pitch-deck link's answer, and the lookups that were made to produce it. */
  datatype PitchDeckResult = PitchDeckResult(url: Option<string>, error: Option<string>, lookups: nat)

  /**
   * `getPitchDeckUrl(id)`: refused to anyone whose stored role is not `investor` before any
   * lookup; otherwise the stored path (`storedPath`, `None` when there is no row or no path) is
   * signed for an hour. `thrown` is an unexpected exception on the way, which the catch turns
   * into a fixed message; how many calls were made before it is not recorded (`lookups` is 0).
   */
  function GetPitchDeckUrl(user: Option<AuthUser>, storedPath: Option<string>, sign: SignOutcome, thrown: bool): (r: PitchDeckResult)
    ensures thrown ==> r == PitchDeckResult(None, Some("Error al obtener el pitch deck"), 0)
    ensures !thrown && (user.None? || user.value.metadata.role != Some("investor")) ==>
      r == PitchDeckResult(None, Some("Acceso no autorizado"), 0)
    ensures r.url.Some? ==>
      (!thrown && user.Some? && user.value.metadata.role == Some("investor")
       && storedPath.Some? && storedPath.value != "" && sign == Signed(r.url.value))
    ensures !thrown && user.Some? && user.value.metadata.role == Some("investor") && (storedPath.None? || storedPath == Some("")) ==>
      r == PitchDeckResult(None, Some("Pitch deck no disponible"), 1)
    ensures r.url.Some? <==> r.error.None?
    ensures !thrown && user.Some? && user.value.metadata.role == Some("investor") && storedPath.Some? && storedPath.value != "" ==>
      r == (match sign
            case Signed(u) => PitchDeckResult(Some(u), None, 2)
            case SignFailed(m) => PitchDeckResult(None, Some(m), 2))
  {
    if thrown then PitchDeckResult(None, Some("Error al obtener el pitch deck"), 0)
    else if user.None? || user.value.metadata.role != Some("investor") then PitchDeckResult(None, Some("Acceso no autorizado"), 0)
    else if storedPath.None? || storedPath.value == "" then PitchDeckResult(None, Some("Pitch deck no disponible"), 1)
    else match sign
      case Signed(u) => PitchDeckResult(Some(u), None, 2)
      case SignFailed(m) => PitchDeckResult(None, Some(m), 2)
  }
}
