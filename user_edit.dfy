/**
 * The admin's dialog for editing one user: a two-field schema (a name of at least two
 * characters and one of three roles, admin included), a role selector locked when the admin is
 * editing their own account, a save button that needs a change, and a PATCH whose body is only
 * the two validated fields.
 *
 * Each request's outcome is an input; calls of the parent's `onSuccess` are counted.
 */
module UserEdit {
  import opened Wrappers
  import opened JsText
  import AuthSchema

  /** The user the dialog edits, as the users page hands it over. */
  datatype User = User(id: string, email: string, fullName: string, role: string)

  /** The form's two values. */
  datatype UserEditValues = UserEditValues(fullName: string, role: string)

  /** The roles the selector offers and the schema's enum accepts. */
  const EditRoles: seq<string> := ["entrepreneur", "investor", "admin"]

  datatype UserEditKey = FullNameKey | RoleKey

  /** The schema's issues, in the order of its keys. */
  function UserEditIssues(v: UserEditValues): (r: seq<UserEditKey>)
    ensures FullNameKey in r <==> Utf16Length(v.fullName) < 2
    ensures RoleKey in r <==> v.role !in EditRoles
  {
    (if Utf16Length(v.fullName) < 2 then [FullNameKey] else [])
    + (if v.role !in EditRoles then [RoleKey] else [])
  }

  predicate UserEditPasses(v: UserEditValues) {
    UserEditIssues(v) == []
  }

  /** The schema holds exactly for a name of two or more UTF-16 units and one of the three roles. */
  lemma UserEditRule(v: UserEditValues)
    ensures UserEditPasses(v) <==> Utf16Length(v.fullName) >= 2 && v.role in {"entrepreneur", "investor", "admin"}
  {
    if v.role in EditRoles {
      assert UserEditIssues(v) == (if Utf16Length(v.fullName) < 2 then [FullNameKey] else []);
    } else {
      assert RoleKey in UserEditIssues(v);
    }
  }

  /** Unlike sign-up, this dialog may give a user the admin role. */
  lemma AdminAllowedOnlyHere(name: string)
    requires Utf16Length(name) >= 2
    ensures UserEditPasses(UserEditValues(name, "admin"))
    ensures "admin" !in AuthSchema.SignUpRoles
  {
    assert "admin" in EditRoles;
  }

  /** A name of one character outside the Basic Multilingual Plane already has length two. */
  lemma AstralNameIsLongEnough()
    ensures UserEditPasses(UserEditValues("😀", "investor"))
    ensures !UserEditPasses(UserEditValues("a", "investor"))
  {
    assert Utf16Length("😀") == 2;
    assert Utf16Length("a") == 1;
    assert "investor" in EditRoles;
  }

  /** The form starts from the user's name and stored role, whatever that role is. */
  function EditDefaults(u: User): (r: UserEditValues)
    ensures r.fullName == u.fullName && r.role == u.role
  {
    UserEditValues(u.fullName, u.role)
  }

  /** The PATCH body: the parsed values, which the schema strips down to its two keys. */
  function PatchBody(v: UserEditValues): (r: seq<(string, string)>)
    ensures |r| == 2
  {
    [("full_name", v.fullName), ("role", v.role)]
  }

  /** The body names exactly the two fields, carries their values, and never the email. */
  lemma PatchBodyFields(v: UserEditValues)
    ensures forall e :: e in PatchBody(v) ==> e.0 in {"full_name", "role"}
    ensures ("full_name", v.fullName) in PatchBody(v) && ("role", v.role) in PatchBody(v)
    ensures forall x :: ("email", x) !in PatchBody(v)
  {
  }

  /** A PATCH the dialog sent: the URL and the body. */
  datatype UserRequest = UserRequest(url: string, body: seq<(string, string)>)

  /** How the PATCH ended. */
  datatype UserOutcome =
    | UserUpdated
    /** A failure status, with the answer's `error` member. */
    | UserRefused(error: Option<string>)
    /** The request or reading its answer threw; `message` is the error's message when it is an `Error`. */
    | UserThrew(message: Option<string>)

  /** The message a failed save shows. */
  function UserError(o: UserOutcome): (r: Option<string>)
    ensures o.UserUpdated? <==> r.None?
    ensures o.UserRefused? && (o.error.None? || o.error == Some("")) ==> r == Some("Error al actualizar el usuario")
    ensures o.UserRefused? && o.error.Some? && o.error.value != "" ==> r == o.error
    ensures o.UserThrew? ==> r == Some(if o.message.Some? then o.message.value else "Error desconocido")
  {
    match o
    case UserUpdated => None
    case UserRefused(e) => Some(if e.Some? && e.value != "" then e.value else "Error al actualizar el usuario")
    case UserThrew(m) => Some(if m.Some? then m.value else "Error desconocido")
  }

  /** The save button: disabled while submitting or while the values equal the defaults. */
  predicate SaveDisabled(isSubmitting: bool, values: UserEditValues, defaults: UserEditValues) {
    isSubmitting || values == defaults
  }

  class UserEditModal {
    const user: User
    const isCurrentUser: bool
    var values: UserEditValues
    var isSubmitting: bool
    var error: Option<string>
    var requests: seq<UserRequest>
    var successes: nat

    /** An admin editing their own account keeps the stored role. */
    predicate RoleLocked()
      reads this
    {
      isCurrentUser ==> values.role == user.role
    }

    /** The dialog opened on a user, its form at the defaults. */
    constructor(user: User, isCurrentUser: bool)
      ensures this.user == user && this.isCurrentUser == isCurrentUser
      ensures values == EditDefaults(user) && RoleLocked()
      ensures !isSubmitting && error.None? && requests == [] && successes == 0
    {
      this.user := user;
      this.isCurrentUser := isCurrentUser;
      values := EditDefaults(user);
      isSubmitting := false;
      error := None;
      requests := [];
      successes := 0;
    }

    /** Typing a name. */
    method TypeName(text: string)
      requires RoleLocked()
      modifies this
      ensures values == old(values).(fullName := text) && RoleLocked()
      ensures isSubmitting == old(isSubmitting) && error == old(error)
      ensures requests == old(requests) && successes == old(successes)
    {
      values := values.(fullName := text);
    }

    /** Picking a role, which the disabled selector of one's own account does not allow. */
    method SelectRole(role: string)
      requires RoleLocked()
      requires role in EditRoles
      modifies this
      ensures values == (if isCurrentUser then old(values) else old(values).(role := role))
      ensures RoleLocked()
      ensures isSubmitting == old(isSubmitting) && error == old(error)
      ensures requests == old(requests) && successes == old(successes)
    {
      if !isCurrentUser {
        values := values.(role := role);
      }
    }

    /**
     * "Guardar Cambios": nothing while the button is disabled or the schema fails; otherwise
     * one PATCH to the user's endpoint with the two fields, the error cleared and then set from
     * a failure, `onSuccess` called on success, and submitting ends.
     */
    method Submit(outcome: UserOutcome)
      requires RoleLocked()
      modifies this
      ensures values == old(values) && RoleLocked()
      ensures isSubmitting == old(isSubmitting)
      ensures SaveDisabled(old(isSubmitting), old(values), EditDefaults(user)) || !UserEditPasses(old(values)) ==>
        error == old(error) && requests == old(requests) && successes == old(successes)
      ensures !SaveDisabled(old(isSubmitting), old(values), EditDefaults(user)) && UserEditPasses(old(values)) ==>
        && requests == old(requests) + [UserRequest("/api/admin/users/" + user.id, PatchBody(values))]
        && error == UserError(outcome)
        && successes == old(successes) + (if outcome.UserUpdated? then 1 else 0)
    {
      if SaveDisabled(isSubmitting, values, EditDefaults(user)) || !UserEditPasses(values) {
        return;
      }
      isSubmitting := true;
      error := None;
      requests := requests + [UserRequest("/api/admin/users/" + user.id, PatchBody(values))];
      if outcome.UserUpdated? {
        successes := successes + 1;
      } else {
        error := UserError(outcome);
      }
      isSubmitting := false;
    }
  }
}
