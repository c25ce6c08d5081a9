/**
 * The admin's users page: the identity provider's users mapped to display rows with defaults,
 * sorted newest first in place, and counted by role and by confirmed email.
 *
 * The identity provider's answers are inputs.
 */
module AdminUsers {
  import opened Wrappers
  import opened Types
  import opened Sequences
  import opened AdminGate
  import Roles
  import AdminStartups
  import JsText

  /** A user as the page lists it. */
  datatype UserRow = UserRow(
    id: string,
    email: string,
    fullName: string,
    role: string,
    createdAt: Timestamp,
    lastSignInAt: Option<string>,
    emailConfirmedAt: Option<string>)

  /** The row for one user: email `''`, name `Sin nombre` and role `entrepreneur` when missing or empty. */
  function ToRow(u: AuthUser): (r: UserRow)
    ensures r.id == u.id && r.createdAt == u.createdAt
    ensures r.email == (if u.email.Some? then u.email.value else "")
    ensures u.metadata.fullName.Some? && u.metadata.fullName.value != "" ==> r.fullName == u.metadata.fullName.value
    ensures u.metadata.fullName.None? || u.metadata.fullName == Some("") ==> r.fullName == "Sin nombre"
    ensures r.role == Roles.GetUserRole(Some(u)) && r.role != ""
    ensures r.lastSignInAt == u.lastSignInAt && r.emailConfirmedAt == u.emailConfirmedAt
  {
    UserRow(
      u.id,
      if u.email.Some? then u.email.value else "",
      if u.metadata.fullName.Some? && u.metadata.fullName.value != "" then u.metadata.fullName.value else "Sin nombre",
      Roles.GetUserRole(Some(u)),
      u.createdAt,
      u.lastSignInAt,
      u.emailConfirmedAt)
  }

  function ToRows(users: seq<AuthUser>): (r: seq<UserRow>)
    ensures |r| == |users|
    ensures forall i :: 0 <= i < |users| ==> r[i] == ToRow(users[i])
  {
    if users == [] then [] else [ToRow(users[0])] + ToRows(users[1..])
  }

  /** The sort key: the creation instant. */
  function Key(u: UserRow): int {
    u.createdAt.millis
  }

  /** Newest `created_at` first. */
  predicate NewestFirst(rows: seq<UserRow>) {
    forall k, l :: 0 <= k < l < |rows| ==> Key(rows[k]) >= Key(rows[l])
  }

  /**
   * `users.sort((a, b) => b.created_at - a.created_at)`: insertion sort, moving each row left
   * past the older rows before it.
   */
  method SortNewestFirst(a: array<UserRow>)
    modifies a
    ensures NewestFirst(a[..])
    ensures multiset(a[..]) == multiset(old(a[..]))
  {
    if a.Length == 0 {
      return;
    }
    var i := 1;
    while i < a.Length
      invariant 1 <= i <= a.Length
      invariant NewestFirst(a[..i])
      invariant multiset(a[..]) == multiset(old(a[..]))
    {
      InsertNewest(a, i);
      i := i + 1;
    }
    assert a[..i] == a[..];
  }

  /** While `s[j]` moves left: the slots of `s[..i + 1]` other than `j` are newest first. */
  predicate SortedAround(s: seq<UserRow>, i: nat, j: nat)
    requires j <= i < |s|
  {
    forall k, l :: 0 <= k < l <= i && k != j && l != j ==> Key(s[k]) >= Key(s[l])
  }

  /** While `s[j]` moves left: it is newer than every row it has passed, and its two neighbours are in order. */
  predicate Passed(s: seq<UserRow>, i: nat, j: nat)
    requires j <= i < |s|
  {
    && (forall l :: j < l <= i ==> Key(s[j]) > Key(s[l]))
    && (0 < j < i ==> Key(s[j - 1]) >= Key(s[j + 1]))
  }

  /** One step left keeps both facts. */
  lemma SwapStep(s: seq<UserRow>, i: nat, j: nat)
    requires 0 < j <= i < |s| && SortedAround(s, i, j) && Passed(s, i, j)
    requires Key(s[j - 1]) < Key(s[j])
    ensures SortedAround(s[j - 1 := s[j]][j := s[j - 1]], i, j - 1)
    ensures Passed(s[j - 1 := s[j]][j := s[j - 1]], i, j - 1)
  {
  }

  /** Before `s[i]` moves, the prefix before it is newest first. */
  lemma StartSorted(s: seq<UserRow>, i: nat)
    requires i < |s| && NewestFirst(s[..i])
    ensures SortedAround(s, i, i) && Passed(s, i, i)
  {
    var t := s[..i];
    forall k, l | 0 <= k < l <= i && k != i && l != i ensures Key(s[k]) >= Key(s[l]) {
      assert t[k] == s[k] && t[l] == s[l];
    }
  }

  /** Swapping two neighbours keeps the same rows. */
  lemma SwapKeepsRows(s: seq<UserRow>, j: nat)
    requires 0 < j < |s|
    ensures multiset(s[j - 1 := s[j]][j := s[j - 1]]) == multiset(s)
  {
    var t := s[j - 1 := s[j]][j := s[j - 1]];
    assert s == s[..j - 1] + [s[j - 1], s[j]] + s[j + 1..];
    assert t == s[..j - 1] + [s[j], s[j - 1]] + s[j + 1..];
  }

  /** When `s[j]` stops, the prefix is newest first. */
  lemma StopSorted(s: seq<UserRow>, i: nat, j: nat)
    requires j <= i < |s| && SortedAround(s, i, j) && Passed(s, i, j)
    requires j == 0 || Key(s[j - 1]) >= Key(s[j])
    ensures NewestFirst(s[..i + 1])
  {
    var t := s[..i + 1];
    forall k, l | 0 <= k < l < |t| ensures Key(t[k]) >= Key(t[l]) {
      if l == j && k < j - 1 {
        assert Key(s[k]) >= Key(s[j - 1]);
      }
    }
  }

  /** Moves `a[i]` left into the newest-first prefix `a[..i]`. */
  method InsertNewest(a: array<UserRow>, i: nat)
    requires 1 <= i < a.Length && NewestFirst(a[..i])
    modifies a
    ensures NewestFirst(a[..i + 1])
    ensures multiset(a[..]) == multiset(old(a[..]))
  {
    var j := i;
    StartSorted(a[..], i);
    while j > 0 && Key(a[j - 1]) < Key(a[j])
      invariant 0 <= j <= i
      invariant multiset(a[..]) == multiset(old(a[..]))
      invariant SortedAround(a[..], i, j) && Passed(a[..], i, j)
    {
      ghost var s := a[..];
      a[j - 1], a[j] := a[j], a[j - 1];
      assert a[..] == s[j - 1 := s[j]][j := s[j - 1]];
      SwapStep(s, i, j);
      SwapKeepsRows(s, j);
      j := j - 1;
    }
    StopSorted(a[..], i, j);
  }

  datatype UsersPage = UsersRedirect(to: string) | UsersShown(users: seq<UserRow>, currentUserId: string)

  /**
   * `getAllUsers`: the admin gate, then the listed users as sorted rows; a listing error gives
   * no users but still the admin's own id.
   */
  method GetAllUsers(authError: bool, user: Option<AuthUser>, listed: Option<seq<AuthUser>>) returns (page: UsersPage)
    ensures AdminGateFor(authError, user) == ToLogin ==> page == UsersRedirect("/login")
    ensures AdminGateFor(authError, user) == ToDashboard ==> page == UsersRedirect("/dashboard")
    ensures AdminGateFor(authError, user).Admitted? ==> page.UsersShown? && page.currentUserId == user.value.id
    ensures AdminGateFor(authError, user).Admitted? && listed.None? ==> page.users == []
    ensures AdminGateFor(authError, user).Admitted? && listed.Some? ==>
      NewestFirst(page.users) && multiset(page.users) == multiset(ToRows(listed.value))
  {
    var gate := AdminGateFor(authError, user);
    if gate == ToLogin {
      return UsersRedirect("/login");
    }
    if gate == ToDashboard {
      return UsersRedirect("/dashboard");
    }
    if listed.None? {
      return UsersShown([], user.value.id);
    }
    var rows := ToRows(listed.value);
    var a := new UserRow[|rows|](k requires 0 <= k < |rows| => rows[k]);
    assert a[..] == rows;
    SortNewestFirst(a);
    page := UsersShown(a[..], user.value.id);
  }

  function WithRole(role: string): UserRow -> bool {
    (u: UserRow) => u.role == role
  }

  /** `u.email_confirmed_at` is truthy: present and not empty. */
  function EmailConfirmed(): UserRow -> bool {
    (u: UserRow) => u.emailConfirmedAt.Some? && u.emailConfirmedAt.value != ""
  }

  /** The five numbers at the top of the page. */
  datatype UserStats = UserStats(total: nat, entrepreneurs: nat, investors: nat, admins: nat, confirmedEmails: nat)

  function StatsOf(users: seq<UserRow>): UserStats {
    UserStats(|users|, CountWhere(users, WithRole("entrepreneur")), CountWhere(users, WithRole("investor")),
              CountWhere(users, WithRole("admin")), CountWhere(users, EmailConfirmed()))
  }

  /** The share shown under the confirmed-email count: a whole percentage, or NaN (`0 / 0`) with no users. */
  datatype Percent = Whole(value: int) | NaN

  /**
   * `Math.round((confirmedEmails / totalUsers) * 100)`, with the quotient taken exactly and
   * halves rounded up.
   */
  function ConfirmedPercent(confirmed: nat, total: nat): (r: Percent)
    ensures r.NaN? <==> total == 0
    ensures r.Whole? ==> r.value * (2 * total) <= 200 * confirmed + total < r.value * (2 * total) + 2 * total
  {
    if total == 0 then NaN else Whole(AdminStartups.RoundedMean(100 * confirmed, total))
  }

  /** The line under the count: the percentage, rendered as React renders a number, and `% del total`. */
  function PercentLine(p: Percent): string {
    (match p
     case Whole(v) => JsText.IntToDecimal(v)
     case NaN => "NaN") + "% del total"
  }

  /**
   * The confirmed share reads `NaN% del total` exactly when there are no users, and is
   * otherwise a percentage from 0 to 100, reaching 100 when every user is confirmed. The
   * page's counts meet the requirement by `RoleCountsBound`.
   */
  lemma ConfirmedShareShown(confirmed: nat, total: nat)
    requires confirmed <= total
    ensures total == 0 <==> PercentLine(ConfirmedPercent(confirmed, total)) == "NaN% del total"
    ensures var p := ConfirmedPercent(confirmed, total);
      total > 0 ==> p.Whole? && 0 <= p.value <= 100 && (confirmed == total ==> p.value == 100)
  {
    var p := ConfirmedPercent(confirmed, total);
    if total > 0 {
      AdminStartups.PercentWithinBounds(confirmed, total);
      assert p.value == AdminStartups.ApprovalPercent(confirmed, total);
      assert PercentLine(p)[0] == JsText.NatToDecimal(p.value)[0];
    }
  }

  /** No user is counted under two roles, and every user is counted when each holds one of the three. */
  lemma {:induction false} RoleCountsBound(users: seq<UserRow>)
    ensures var st := StatsOf(users);
      st.entrepreneurs + st.investors + st.admins <= st.total
      && st.confirmedEmails <= st.total
    ensures (forall u :: u in users ==> u.role in {"entrepreneur", "investor", "admin"}) ==>
      var st := StatsOf(users); st.entrepreneurs + st.investors + st.admins == st.total
  {
    if users != [] {
      assert forall u :: u in users[1..] ==> u in users;
      RoleCountsBound(users[1..]);
      assert users[0] in users;
    }
  }

  /** The statistics do not depend on the sort: they are those of the rows in the provider's order. */
  lemma StatsIgnoreOrder(sorted: seq<UserRow>, listed: seq<AuthUser>)
    requires multiset(sorted) == multiset(ToRows(listed))
    ensures StatsOf(sorted) == StatsOf(ToRows(listed))
  {
    var rows := ToRows(listed);
    assert |sorted| == |multiset(sorted)| == |multiset(rows)| == |rows|;
    CountPermutation(sorted, rows, WithRole("entrepreneur"));
    CountPermutation(sorted, rows, WithRole("investor"));
    CountPermutation(sorted, rows, WithRole("admin"));
    CountPermutation(sorted, rows, EmailConfirmed());
  }

  /** Every mapped row has a role, so the role counts cover every user whose stored role is one of the three or missing. */
  lemma MissingRolesCountAsEntrepreneurs(listed: seq<AuthUser>)
    requires forall u :: u in listed ==> u.metadata.role.None? || u.metadata.role == Some("")
    ensures StatsOf(ToRows(listed)).entrepreneurs == |listed|
  {
    var rows := ToRows(listed);
    forall u | u in rows ensures WithRole("entrepreneur")(u) {
      var k :| 0 <= k < |rows| && rows[k] == u;
      assert listed[k] in listed;
    }
    AllCounted(rows, WithRole("entrepreneur"));
  }

  lemma {:induction false} AllCounted<T>(s: seq<T>, p: T -> bool)
    requires forall x :: x in s ==> p(x)
    ensures CountWhere(s, p) == |s|
  {
    if s != [] {
      assert forall x :: x in s[1..] ==> x in s;
      assert s[0] in s;
      AllCounted(s[1..], p);
    }
  }
}
