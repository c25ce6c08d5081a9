/**
 * How the application reads a user's role: the metadata `role` when it is a non-empty
 * string, `entrepreneur` otherwise, and the three predicates that compare against it. The
 * metadata a sign-up stores is here too, because it is what those helpers later read.
 */
module Roles {
  import opened Wrappers
  import opened Types

  /** `getUserRole(user)`: `user?.user_metadata?.role || 'entrepreneur'`. */
  function GetUserRole(user: Option<AuthUser>): (r: string)
    ensures r != ""
    ensures user.Some? && user.value.metadata.role.Some? && user.value.metadata.role.value != "" ==>
      r == user.value.metadata.role.value
    ensures user.None? || user.value.metadata.role.None? || user.value.metadata.role == Some("") ==>
      r == "entrepreneur"
  {
    if user.Some? && user.value.metadata.role.Some? && user.value.metadata.role.value != "" then
      user.value.metadata.role.value
    else "entrepreneur"
  }

  predicate IsAdmin(user: Option<AuthUser>) { GetUserRole(user) == "admin" }
  predicate IsInvestor(user: Option<AuthUser>) { GetUserRole(user) == "investor" }
  predicate IsEntrepreneur(user: Option<AuthUser>) { GetUserRole(user) == "entrepreneur" }

  /** The role the metadata names, if it names one of the three. */
  function KnownRole(role: string): Option<UserRole> {
    if role == "entrepreneur" then Some(Entrepreneur)
    else if role == "investor" then Some(Investor)
    else if role == "admin" then Some(Admin)
    else None
  }

  /** No user, or no role in the metadata, counts as an entrepreneur and nothing else. */
  lemma MissingUserIsEntrepreneur(user: Option<AuthUser>)
    requires user.None? || user.value.metadata.role.None?
    ensures IsEntrepreneur(user) && !IsAdmin(user) && !IsInvestor(user)
  {
  }

  /**
   * At most one of the three predicates holds; exactly one holds when the stored role is
   * missing, empty, or one of the three roles; none holds for any other text.
   */
  lemma RolePredicatesExclusive(user: Option<AuthUser>)
    ensures !(IsAdmin(user) && IsInvestor(user))
    ensures !(IsAdmin(user) && IsEntrepreneur(user))
    ensures !(IsInvestor(user) && IsEntrepreneur(user))
    ensures (IsAdmin(user) || IsInvestor(user) || IsEntrepreneur(user)) <==> KnownRole(GetUserRole(user)).Some?
    ensures (user.None? || user.value.metadata.role.None? || KnownRole(user.value.metadata.role.value).Some?
             || user.value.metadata.role == Some("")) ==>
      (IsAdmin(user) || IsInvestor(user) || IsEntrepreneur(user))
    ensures user.Some? && user.value.metadata.role.Some? && user.value.metadata.role.value != ""
            && KnownRole(user.value.metadata.role.value).None? ==>
      !IsAdmin(user) && !IsInvestor(user) && !IsEntrepreneur(user)
  {
  }

  /** Each predicate holds exactly when the role read back is that role's name. */
  lemma PredicateMatchesKnownRole(user: Option<AuthUser>)
    ensures IsAdmin(user) <==> KnownRole(GetUserRole(user)) == Some(Admin)
    ensures IsInvestor(user) <==> KnownRole(GetUserRole(user)) == Some(Investor)
    ensures IsEntrepreneur(user) <==> KnownRole(GetUserRole(user)) == Some(Entrepreneur)
  {
  }

  /** `KnownRole` inverts the role names. */
  lemma KnownRoleOfName(r: UserRole)
    ensures KnownRole(RoleName(r)) == Some(r)
  {
  }

  /** What a sign-up sends: the form's name, role and optional company. */
  datatype SignUpData = SignUpData(email: string, password: string, fullName: string, role: UserRole, company: Option<string>)

  /** The metadata `signUp` stores: `full_name`, `role`, and `company || null`. */
  function SignUpMetadata(d: SignUpData): (m: Metadata)
    ensures m.fullName == Some(d.fullName)
    ensures m.role == Some(RoleName(d.role))
    ensures m.company.None? <==> d.company.None? || d.company == Some("")
    ensures m.company.Some? ==> m.company == d.company
  {
    Metadata(
      Some(RoleName(d.role)),
      Some(d.fullName),
      if d.company.Some? && d.company.value != "" then d.company else None)
  }

  /** A user created by sign-up reads back exactly the role chosen at sign-up. */
  lemma SignUpRoleReadsBack(d: SignUpData, u: AuthUser)
    requires u.metadata == SignUpMetadata(d)
    ensures GetUserRole(Some(u)) == RoleName(d.role)
    ensures KnownRole(GetUserRole(Some(u))) == Some(d.role)
  {
    assert RoleName(d.role) != "";
  }
}
