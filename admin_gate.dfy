/**
 * The check the admin's startups and users pages run before loading anything: no signed-in
 * user goes to the login page, and a user whose stored role is not exactly `admin` goes to
 * the dashboard. Unlike the role helpers, it reads the stored role with no default.
 */
module AdminGate {
  import opened Wrappers
  import opened Types
  import Roles

  datatype Gate = ToLogin | ToDashboard | Admitted(user: AuthUser)

  function AdminGateFor(authError: bool, user: Option<AuthUser>): (r: Gate)
    ensures r == ToLogin <==> authError || user.None?
    ensures r.Admitted? <==> !authError && user.Some? && user.value.metadata.role == Some("admin")
    ensures r.Admitted? ==> r.user == user.value
  {
    if authError || user.None? then ToLogin
    else if user.value.metadata.role != Some("admin") then ToDashboard
    else Admitted(user.value)
  }

  /** Reading the role without a default still admits exactly the users the role helpers call admins. */
  lemma GateAgreesWithIsAdmin(user: AuthUser)
    ensures AdminGateFor(false, Some(user)).Admitted? <==> Roles.IsAdmin(Some(user))
    ensures user.metadata.role.None? ==> AdminGateFor(false, Some(user)) == ToDashboard
  {
  }
}
