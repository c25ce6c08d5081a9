/**
 * The "claim this startup" button on a startup's page. What it shows is decided by an if-cascade
 * on the viewer's role and any claim they already hold. Only an entrepreneur with no claim gets
 * the dialog, whose confirm button posts the claim and either closes the dialog and refreshes
 * the page or keeps it open with an error message.
 *
 * Each request's outcome is an input; page refreshes are counted.
 */
module ClaimButton {
  import opened Wrappers

  /** A claim the viewer already holds on this startup. */
  datatype Claim = Claim(id: string, approved: bool)

  /** What the component renders. */
  datatype View =
    | Hidden
    /** "Esta es tu startup": an approved claim. */
    | OwnedBadge
    /** "Reclamación pendiente de aprobación": a claim not yet approved. */
    | PendingBadge
    /** The "Reclamar esta startup" trigger and its dialog. */
    | ClaimDialog

  /**
   * The render cascade: no role or another role renders nothing, then an approved claim, then
   * an unapproved one, and only otherwise the dialog. A missing and a `null` claim are the same.
   */
  function ViewFor(userRole: Option<string>, existingClaim: Option<Claim>): (r: View)
    ensures r == Hidden <==> userRole != Some("entrepreneur")
    ensures r == OwnedBadge <==> userRole == Some("entrepreneur") && existingClaim.Some? && existingClaim.value.approved
    ensures r == PendingBadge <==> userRole == Some("entrepreneur") && existingClaim.Some? && !existingClaim.value.approved
    ensures r == ClaimDialog <==> userRole == Some("entrepreneur") && existingClaim.None?
  {
    if userRole.None? || userRole.value == "" || userRole.value != "entrepreneur" then Hidden
    else if existingClaim.Some? && existingClaim.value.approved then OwnedBadge
    else if existingClaim.Some? && !existingClaim.value.approved then PendingBadge
    else ClaimDialog
  }

  /** How a claim request ended. */
  datatype ClaimOutcome =
    | ClaimSent
    /** A failure status, with the answer's `error` member. */
    | ClaimRefused(error: Option<string>)
    /** The request or reading its answer threw; `message` is the error's message when it is an `Error`. */
    | ClaimThrew(message: Option<string>)

  /** The message a failed claim shows in the dialog. */
  function ClaimError(o: ClaimOutcome): (r: Option<string>)
    ensures o.ClaimSent? <==> r.None?
    ensures o.ClaimRefused? && (o.error.None? || o.error == Some("")) ==> r == Some("Error al enviar la reclamación")
    ensures o.ClaimRefused? && o.error.Some? && o.error.value != "" ==> r == o.error
    ensures o.ClaimThrew? ==> r == Some(if o.message.Some? then o.message.value else "Error desconocido")
  {
    match o
    case ClaimSent => None
    case ClaimRefused(e) => Some(if e.Some? && e.value != "" then e.value else "Error al enviar la reclamación")
    case ClaimThrew(m) => Some(if m.Some? then m.value else "Error desconocido")
  }

  class ClaimButtonState {
    const startupId: string
    const userRole: Option<string>
    const existingClaim: Option<Claim>
    var isOpen: bool
    var isSubmitting: bool
    var error: Option<string>
    /** The URLs posted to. */
    var requests: seq<string>
    var refreshes: nat

    /** Between events no request is in flight. */
    predicate Idle()
      reads this
    {
      !isSubmitting
    }

    /** The component for a viewer, with its dialog closed. */
    constructor(startupId: string, userRole: Option<string>, existingClaim: Option<Claim>)
      ensures this.startupId == startupId && this.userRole == userRole && this.existingClaim == existingClaim
      ensures !isOpen && Idle() && error.None?
      ensures requests == [] && refreshes == 0
    {
      this.startupId := startupId;
      this.userRole := userRole;
      this.existingClaim := existingClaim;
      isOpen := false;
      isSubmitting := false;
      error := None;
      requests := [];
      refreshes := 0;
    }

    function View(): View
      reads this
    {
      ViewFor(userRole, existingClaim)
    }

    /** Clicking the trigger, which exists only when the dialog is rendered. */
    method OpenDialog()
      modifies this
      ensures isOpen == (old(isOpen) || View() == ClaimDialog)
      ensures isSubmitting == old(isSubmitting) && error == old(error)
      ensures requests == old(requests) && refreshes == old(refreshes)
    {
      if View() == ClaimDialog {
        isOpen := true;
      }
    }

    /** "Cancelar", disabled while submitting. */
    method Cancel()
      modifies this
      ensures isOpen == (old(isOpen) && old(isSubmitting))
      ensures isSubmitting == old(isSubmitting) && error == old(error)
      ensures requests == old(requests) && refreshes == old(refreshes)
    {
      if !isSubmitting {
        isOpen := false;
      }
    }

    /**
     * "Confirmar reclamación", which needs the dialog rendered and open and is disabled while
     * submitting: one POST to the startup's claim endpoint, then success closes the dialog and
     * refreshes, failure keeps it open with the message; the error is cleared first either way,
     * and submitting ends, so it is never left on.
     */
    method HandleClaim(outcome: ClaimOutcome)
      modifies this
      ensures isSubmitting == old(isSubmitting)
      ensures !(old(View()) == ClaimDialog && old(isOpen) && old(Idle())) ==>
        isOpen == old(isOpen) && error == old(error) && requests == old(requests) && refreshes == old(refreshes)
      ensures old(View()) == ClaimDialog && old(isOpen) && old(Idle()) ==>
        && requests == old(requests) + ["/api/startups/" + startupId + "/claim"]
        && error == ClaimError(outcome)
        && isOpen == !outcome.ClaimSent?
        && refreshes == old(refreshes) + (if outcome.ClaimSent? then 1 else 0)
    {
      if !(View() == ClaimDialog && isOpen && Idle()) {
        return;
      }
      isSubmitting := true;
      error := None;
      requests := requests + ["/api/startups/" + startupId + "/claim"];
      if outcome.ClaimSent? {
        isOpen := false;
        refreshes := refreshes + 1;
      } else {
        error := ClaimError(outcome);
      }
      isSubmitting := false;
    }
  }
}
