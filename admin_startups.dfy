/**
 * The statistics on the admin's startups page, computed from the fetched startups: the total,
 * how many are approved and pending, how many are active, how many were created this month,
 * the rounded mean founding year, and the approved share as a whole percentage.
 *
 * The query's answer and the first instant of the current month are inputs.
 */
module AdminStartups {
  import opened Wrappers
  import opened Types
  import opened JsText
  import opened AdminGate
  import opened Sequences

  /** What the startups query answered: an error, or data that may be `null`. */
  datatype StartupsFetch = StartupsError | StartupsData(rows: Option<seq<Startup>>)

  /**
   * The page's statistics. The error path builds its object with `avgEmployees` in place of
   * `avgFoundingYear`, so there the mean is absent (`None`).
   */
  datatype Stats = Stats(total: nat, approved: nat, pending: int, active: nat, thisMonth: nat, avgFoundingYear: Option<int>)

  datatype StartupsPage = StartupsRedirect(to: string) | StartupsShown(startups: seq<Startup>, stats: Stats)

  function IsApproved(): Startup -> bool {
    (s: Startup) => s.isApproved
  }

  function IsUnapproved(): Startup -> bool {
    (s: Startup) => !s.isApproved
  }

  function IsActive(): Startup -> bool {
    (s: Startup) => s.estado == Active
  }

  /** `new Date(s.created_at) >= firstDayOfMonth`, on instants in milliseconds. */
  function CreatedFrom(since: int): Startup -> bool {
    (s: Startup) => s.createdAt.millis >= since
  }

  /** `startups.filter((s) => s.is_approved).length`: the number of approved startups. */
  function ApprovedCount(rows: seq<Startup>): (r: nat)
    ensures r == |set i: nat | i < |rows| && rows[i].isApproved|
  {
    CountIsIndices(rows, IsApproved());
    assert IndicesWhere(rows, IsApproved()) == set i: nat | i < |rows| && rows[i].isApproved;
    CountWhere(rows, IsApproved())
  }

  /** `startups.filter((s) => s.estado === 'active').length`: the number of active startups. */
  function ActiveCount(rows: seq<Startup>): (r: nat)
    ensures r == |set i: nat | i < |rows| && rows[i].estado == Active|
  {
    CountIsIndices(rows, IsActive());
    assert IndicesWhere(rows, IsActive()) == set i: nat | i < |rows| && rows[i].estado == Active;
    CountWhere(rows, IsActive())
  }

  /** The number of startups created at or after `since` (milliseconds since the epoch). */
  function CreatedSince(rows: seq<Startup>, since: int): (r: nat)
    ensures r == |set i: nat | i < |rows| && rows[i].createdAt.millis >= since|
  {
    CountIsIndices(rows, CreatedFrom(since));
    assert IndicesWhere(rows, CreatedFrom(since)) == set i: nat | i < |rows| && rows[i].createdAt.millis >= since;
    CountWhere(rows, CreatedFrom(since))
  }

  function HasYear(): Startup -> bool {
    (s: Startup) => s.anoFundacion.Some?
  }

  /** `.map((s) => s.año_fundacion).filter((year) => year !== null)`: the founding years that are set. */
  function FoundingYears(rows: seq<Startup>): (r: seq<int>)
    ensures |r| == CountWhere(rows, HasYear())
  {
    if rows == [] then []
    else (if rows[0].anoFundacion.Some? then [rows[0].anoFundacion.value] else []) + FoundingYears(rows[1..])
  }

  /** A year is listed exactly when some startup was founded in it. */
  lemma {:induction false} FoundingYearListed(rows: seq<Startup>, y: int)
    ensures y in FoundingYears(rows) <==> exists s :: s in rows && s.anoFundacion == Some(y)
  {
    if rows != [] {
      FoundingYearListed(rows[1..], y);
      if exists s :: s in rows && s.anoFundacion == Some(y) {
        var s :| s in rows && s.anoFundacion == Some(y);
        if s != rows[0] {
          assert s in rows[1..];
        }
      }
      if y in FoundingYears(rows[1..]) {
        var s :| s in rows[1..] && s.anoFundacion == Some(y);
        assert s in rows;
      }
    }
  }

  /** The years keep the order of their rows: those of a concatenation are those of each part. */
  lemma {:induction false} FoundingYearsAppend(a: seq<Startup>, b: seq<Startup>)
    ensures FoundingYears(a + b) == FoundingYears(a) + FoundingYears(b)
  {
    if a == [] {
      assert a + b == b;
    } else {
      assert (a + b)[1..] == a[1..] + b;
      FoundingYearsAppend(a[1..], b);
    }
  }

  /** There is one year for each row whose founding year is set. */
  lemma FoundingYearsCount(rows: seq<Startup>)
    ensures |FoundingYears(rows)| == |set i: nat | i < |rows| && rows[i].anoFundacion.Some?|
  {
    CountIsIndices(rows, HasYear());
    assert IndicesWhere(rows, HasYear()) == set i: nat | i < |rows| && rows[i].anoFundacion.Some?;
  }

  function Sum(xs: seq<int>): int {
    if xs == [] then 0 else xs[0] + Sum(xs[1..])
  }

  /** `Math.round(sum / n)`: the nearest integer, halves rounded up. */
  function RoundedMean(sum: int, n: nat): (r: int)
    requires n > 0
    ensures r * (2 * n) <= 2 * sum + n < r * (2 * n) + 2 * n
  {
    (2 * sum + n) / (2 * n)
  }

  /** The mean founding year, or 0 with no years. */
  function AvgFoundingYear(rows: seq<Startup>): int {
    var years := FoundingYears(rows);
    if |years| > 0 then RoundedMean(Sum(years), |years|) else 0
  }

  function StatsOf(rows: seq<Startup>, firstDayOfMonth: int): Stats {
    Stats(|rows|, ApprovedCount(rows), |rows| - ApprovedCount(rows), ActiveCount(rows),
          CreatedSince(rows, firstDayOfMonth), Some(AvgFoundingYear(rows)))
  }

  const ErrorStats := Stats(0, 0, 0, 0, 0, None)

  /** The page's data: the admin gate, then the statistics of the fetched list, zeros on an error. */
  function GetStartupsData(authError: bool, user: Option<AuthUser>, fetch: StartupsFetch, firstDayOfMonth: int): (r: StartupsPage)
    ensures (authError || user.None?) ==> r == StartupsRedirect("/login")
    ensures AdminGateFor(authError, user) == ToDashboard ==> r == StartupsRedirect("/dashboard")
    ensures AdminGateFor(authError, user).Admitted? && fetch.StartupsError? ==> r == StartupsShown([], ErrorStats)
    ensures AdminGateFor(authError, user).Admitted? && fetch.StartupsData? ==>
      var rows := if fetch.rows.Some? then fetch.rows.value else [];
      r == StartupsShown(rows, StatsOf(rows, firstDayOfMonth))
  {
    match AdminGateFor(authError, user)
    case ToLogin => StartupsRedirect("/login")
    case ToDashboard => StartupsRedirect("/dashboard")
    case Admitted(_) =>
      if fetch.StartupsError? then StartupsShown([], ErrorStats)
      else
        var rows := if fetch.rows.Some? then fetch.rows.value else [];
        StartupsShown(rows, StatsOf(rows, firstDayOfMonth))
  }

  /**
   * What each statistic counts: all rows, the approved ones, the others, the active ones and
   * those created since the first instant of the month; the mean is that of the years that are
   * set, or 0 when none is.
   */
  lemma StatsCount(rows: seq<Startup>, firstDayOfMonth: int)
    ensures var st := StatsOf(rows, firstDayOfMonth);
      && st.total == |rows|
      && st.approved == |set i: nat | i < |rows| && rows[i].isApproved|
      && st.pending == |set i: nat | i < |rows| && !rows[i].isApproved|
      && st.active == |set i: nat | i < |rows| && rows[i].estado == Active|
      && st.thisMonth == |set i: nat | i < |rows| && rows[i].createdAt.millis >= firstDayOfMonth|
    ensures var years := FoundingYears(rows);
      StatsOf(rows, firstDayOfMonth).avgFoundingYear == Some(if |years| > 0 then RoundedMean(Sum(years), |years|) else 0)
  {
    PendingIsUnapproved(rows);
    CountIsIndices(rows, IsUnapproved());
    assert IndicesWhere(rows, IsUnapproved()) == set i: nat | i < |rows| && !rows[i].isApproved;
  }

  /** Approved and pending add up to the total and neither is negative; the other counts stay within it. */
  lemma StatsAddUp(authError: bool, user: Option<AuthUser>, fetch: StartupsFetch, firstDayOfMonth: int)
    requires GetStartupsData(authError, user, fetch, firstDayOfMonth).StartupsShown?
    ensures var st := GetStartupsData(authError, user, fetch, firstDayOfMonth).stats;
      && st.total == |GetStartupsData(authError, user, fetch, firstDayOfMonth).startups|
      && st.approved + st.pending == st.total && 0 <= st.pending <= st.total
      && st.active <= st.total && st.thisMonth <= st.total
  {
  }

  /** `pending`, computed as total minus approved, is exactly the number of startups not approved. */
  lemma {:induction false} PendingIsUnapproved(rows: seq<Startup>)
    ensures |rows| - ApprovedCount(rows) == CountWhere(rows, IsUnapproved())
  {
    if rows != [] {
      PendingIsUnapproved(rows[1..]);
    }
  }

  /** `m * a <= m * b` for `a <= b` and a positive `m`. */
  lemma MulMonotone(a: int, b: int, m: int)
    requires a <= b && m > 0
    ensures a * m <= b * m
  {
    assert b * m - a * m == (b - a) * m;
  }

  /** A floor quotient `q` of `x` by `m` lies in `lo..hi` when `x` lies in `lo * m .. (hi + 1) * m`. */
  lemma FloorBetween(x: int, m: int, q: int, lo: int, hi: int)
    requires m > 0 && q * m <= x < q * m + m
    requires lo * m <= x < hi * m + m
    ensures lo <= q <= hi
  {
    if q > hi {
      MulMonotone(hi + 1, q, m);
    }
    if q < lo {
      MulMonotone(q + 1, lo, m);
    }
  }

  /** The mean lies between the smallest and the largest founding year. */
  lemma MeanWithinYears(rows: seq<Startup>, lo: int, hi: int)
    requires |FoundingYears(rows)| > 0
    requires forall y :: y in FoundingYears(rows) ==> lo <= y <= hi
    ensures lo <= AvgFoundingYear(rows) <= hi
  {
    var years := FoundingYears(rows);
    SumBounds(years, lo, hi);
    RoundedMeanBetween(Sum(years), |years|, lo, hi);
  }

  /** A rounded mean of values within `lo..hi` stays within `lo..hi`. */
  lemma RoundedMeanBetween(sum: int, n: nat, lo: int, hi: int)
    requires n > 0 && n * lo <= sum <= n * hi
    ensures lo <= RoundedMean(sum, n) <= hi
  {
    assert lo * (2 * n) == 2 * (n * lo) && hi * (2 * n) == 2 * (n * hi);
    FloorBetween(2 * sum + n, 2 * n, RoundedMean(sum, n), lo, hi);
  }

  lemma {:induction false} SumBounds(xs: seq<int>, lo: int, hi: int)
    requires forall y :: y in xs ==> lo <= y <= hi
    ensures |xs| * lo <= Sum(xs) <= |xs| * hi
  {
    if xs != [] {
      var k := |xs[1..]|;
      assert xs[0] in xs;
      assert forall y :: y in xs[1..] ==> y in xs;
      SumBounds(xs[1..], lo, hi);
      assert Sum(xs) == xs[0] + Sum(xs[1..]);
      StepBounds(k, lo, hi, xs[0], Sum(xs[1..]));
    }
  }

  lemma StepBounds(k: nat, lo: int, hi: int, x: int, rest: int)
    requires lo <= x <= hi && k * lo <= rest <= k * hi
    ensures (k + 1) * lo <= x + rest <= (k + 1) * hi
  {
  }

  /** The approved share shown beside the approved count: 0 with no startups. */
  function ApprovalPercent(approved: nat, total: nat): (r: int)
    ensures total == 0 ==> r == 0
    ensures total > 0 ==> r * (2 * total) <= 200 * approved + total < r * (2 * total) + 2 * total
  {
    if total > 0 then RoundedMean(100 * approved, total) else 0
  }

  /** A share of the total lies between 0 and 100, with both ends reached. */
  lemma PercentWithinBounds(approved: nat, total: nat)
    requires approved <= total
    ensures 0 <= ApprovalPercent(approved, total) <= 100
    ensures total > 0 && approved == total ==> ApprovalPercent(approved, total) == 100
    ensures approved == 0 ==> ApprovalPercent(approved, total) == 0
  {
    if total > 0 {
      var r := ApprovalPercent(approved, total);
      var x := 200 * approved + total;
      MulMonotone(approved, total, 200);
      FloorBetween(x, 2 * total, r, 0, 100);
      if approved == total {
        FloorBetween(x, 2 * total, r, 100, 100);
      }
      if approved == 0 {
        FloorBetween(x, 2 * total, r, 0, 0);
      }
    }
  }

  /** The mean's card: `avgFoundingYear || 'N/A'`. */
  function AvgDisplay(avg: Option<int>): (r: string)
    ensures avg.None? || avg == Some(0) ==> r == "N/A"
    ensures avg.Some? && avg.value != 0 ==> r == IntToDecimal(avg.value)
  {
    if avg.Some? && avg.value != 0 then IntToDecimal(avg.value) else "N/A"
  }

  /** On a query error every count is zero and the mean's card reads as it does with no years. */
  lemma ErrorShowsZeros(user: AuthUser, firstDayOfMonth: int)
    requires user.metadata.role == Some("admin")
    ensures var page := GetStartupsData(false, Some(user), StartupsError, firstDayOfMonth);
      && page == StartupsShown([], Stats(0, 0, 0, 0, 0, None))
      && AvgDisplay(page.stats.avgFoundingYear) == AvgDisplay(StatsOf([], firstDayOfMonth).avgFoundingYear) == "N/A"
  {
  }
}
