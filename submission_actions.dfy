/**
 * The approve and reject buttons on an admin's view of one submission. Both ask for
 * confirmation, mark the panel as processing, post the admin notes to the submission's approve
 * or reject endpoint, report the outcome in an alert, and go to the matching submissions list
 * on success. A rejection needs notes that are not blank. A slug conflict on approval gets
 * its own alert.
 *
 * The `confirm` dialog's answer and each request's outcome are inputs; alerts and router
 * pushes are recorded, and page refreshes are counted.
 */
module SubmissionActions {
  import opened Wrappers
  import opened JsText

  /** A request the panel sent: the endpoint and the `admin_notes` of its JSON body. */
  datatype ActionRequest = ActionRequest(url: string, adminNotes: string)

  /** How an approval request ended. */
  datatype ApproveOutcome =
    | Approved
    /** Status 409: the startup's slug is taken; `error` is the answer's `error` member. */
    | SlugConflict(error: Option<string>)
    /** Another failure status, with the answer's `error` member. */
    | ApproveRefused(error: Option<string>)
    /** The request or reading its answer threw; `message` is the error's message when it is an `Error`. */
    | ApproveThrew(message: Option<string>)

  /** How a rejection request ended. */
  datatype RejectOutcome =
    | Rejected
    /** A failure status, with the answer's `message` member. */
    | RejectRefused(message: Option<string>)
    | RejectThrew(message: Option<string>)

  /** `text || fallback` on an optional text. */
  function OrElse(v: Option<string>, fallback: string): (r: string)
    ensures v.Some? && v.value != "" ==> r == v.value
    ensures v.None? || v == Some("") ==> r == fallback
  {
    if v.Some? && v.value != "" then v.value else fallback
  }

  /** An alert the panel shows; `AlertText` gives its words. */
  datatype Alert =
    | ApprovedAlert
    /** The slug-conflict alert, with the answer's error (`undefined` when missing). */
    | ConflictAlert(error: Option<string>)
    /** An approval that failed, with the reason shown under the heading. */
    | ApproveFailedAlert(reason: string)
    | RejectedAlert
    /** A rejection that failed, with the text shown. */
    | RejectFailedAlert(text: string)
    | NotesRequiredAlert

  function AlertText(a: Alert): string {
    match a
    case ApprovedAlert => "✅ Solicitud aprobada con éxito\n\nLa startup ha sido creada y publicada."
    case ConflictAlert(error) =>
      "⚠️ Conflicto de Slug\n\n" + (if error.Some? then error.value else "undefined") + "\n\n"
      + "Por favor, edita el nombre de la startup en la submission para generar un slug único, "
      + "o elimina la startup existente si es un duplicado."
    case ApproveFailedAlert(reason) => "❌ Error al aprobar la solicitud\n\n" + reason
    case RejectedAlert => "Solicitud rechazada con éxito"
    case RejectFailedAlert(text) => text
    case NotesRequiredAlert => "Por favor, añade una nota explicando el motivo del rechazo"
  }

  /** The alert an approval ends with. */
  function ApproveAlert(o: ApproveOutcome): (r: Alert)
    ensures o.Approved? ==> r == ApprovedAlert
    ensures o.SlugConflict? ==> r == ConflictAlert(o.error)
    ensures o.ApproveRefused? ==> r == ApproveFailedAlert(OrElse(o.error, "Error al aprobar"))
    ensures o.ApproveThrew? ==> r == ApproveFailedAlert(if o.message.Some? then o.message.value else "Error desconocido")
  {
    match o
    case Approved => ApprovedAlert
    case SlugConflict(e) => ConflictAlert(e)
    case ApproveRefused(e) => ApproveFailedAlert(OrElse(e, "Error al aprobar"))
    case ApproveThrew(m) => ApproveFailedAlert(if m.Some? then m.value else "Error desconocido")
  }

  /** The alert a sent rejection ends with. */
  function RejectAlert(o: RejectOutcome): (r: Alert)
    ensures o.Rejected? ==> r == RejectedAlert
    ensures o.RejectRefused? ==> r == RejectFailedAlert(OrElse(o.message, "Error al rechazar"))
    ensures o.RejectThrew? ==> r == RejectFailedAlert(if o.message.Some? then o.message.value else "Error al rechazar la solicitud")
  {
    match o
    case Rejected => RejectedAlert
    case RejectRefused(m) => RejectFailedAlert(OrElse(m, "Error al rechazar"))
    case RejectThrew(m) => RejectFailedAlert(if m.Some? then m.value else "Error al rechazar la solicitud")
  }

  /** The two endpoints of a submission. */
  function ApproveUrl(id: string): string {
    "/api/submissions/" + id + "/approve"
  }

  function RejectUrl(id: string): string {
    "/api/submissions/" + id + "/reject"
  }

  const ApprovedList := "/admin/submissions?status=approved"
  const RejectedList := "/admin/submissions?status=rejected"

  /** Notes of spaces and line breaks count as blank; a single visible character does not. */
  lemma BlankNotes()
    ensures Trim("") == "" && Trim(" \n") == ""
    ensures Trim(" x ") != ""
  {
    assert IsJsWhitespace(" \n"[0]) && IsJsWhitespace(" \n"[1]);
    assert !IsJsWhitespace(" x "[1]);
  }

  /** Notes of white space only. */
  predicate Blank(notes: string) {
    forall i :: 0 <= i < |notes| ==> IsJsWhitespace(notes[i])
  }

  /** `!adminNotes.trim()` holds exactly for blank notes. */
  lemma BlankIffTrimmedEmpty(notes: string)
    ensures Blank(notes) <==> Trim(notes) == ""
  {
    TrimEmptyIff(notes);
  }

  class ActionPanel {
    const submissionId: string
    const status: string
    var adminNotes: string
    var isProcessing: bool
    var requests: seq<ActionRequest>
    var alerts: seq<Alert>
    var navigations: seq<string>
    var refreshes: nat

    /** The panel for a submission, its notes box seeded with the stored notes or `''`. */
    constructor(submissionId: string, status: string, storedNotes: Option<string>)
      ensures this.submissionId == submissionId && this.status == status
      ensures adminNotes == OrElse(storedNotes, "") && !isProcessing
      ensures requests == [] && alerts == [] && navigations == [] && refreshes == 0
    {
      this.submissionId := submissionId;
      this.status := status;
      adminNotes := OrElse(storedNotes, "");
      isProcessing := false;
      requests := [];
      alerts := [];
      navigations := [];
      refreshes := 0;
    }

    /** The two buttons are shown only for a pending submission. */
    predicate ButtonsShown()
      reads this
    {
      status == "pending"
    }

    /** The buttons are disabled while a request is in flight. */
    predicate ButtonsEnabled()
      reads this
    {
      ButtonsShown() && !isProcessing
    }

    /** The notes box is disabled unless the submission is pending and nothing is in flight. */
    predicate NotesEnabled()
      reads this
    {
      status == "pending" && !isProcessing
    }

    /** Typing in the notes box, which only an enabled box accepts. */
    method TypeNotes(text: string)
      modifies this
      ensures adminNotes == (if old(NotesEnabled()) then text else old(adminNotes))
      ensures isProcessing == old(isProcessing) && requests == old(requests)
      ensures alerts == old(alerts) && navigations == old(navigations) && refreshes == old(refreshes)
    {
      if NotesEnabled() {
        adminNotes := text;
      }
    }

    /**
     * Clicking "Aprobar": nothing unless the button is there and enabled and the admin
     * confirms; then one request with the current notes, the outcome's alert, the approved
     * list and a refresh on success only (a slug conflict stays on the page), and processing
     * ends.
     */
    method ClickApprove(confirmed: bool, outcome: ApproveOutcome)
      modifies this
      ensures !old(ButtonsEnabled()) || !confirmed ==>
        requests == old(requests) && alerts == old(alerts) && navigations == old(navigations)
        && refreshes == old(refreshes) && isProcessing == old(isProcessing)
      ensures old(ButtonsEnabled()) && confirmed ==>
        && requests == old(requests) + [ActionRequest(ApproveUrl(submissionId), adminNotes)]
        && alerts == old(alerts) + [ApproveAlert(outcome)]
        && navigations == old(navigations) + (if outcome.Approved? then [ApprovedList] else [])
        && refreshes == old(refreshes) + (if outcome.Approved? then 1 else 0)
        && !isProcessing
      ensures adminNotes == old(adminNotes)
    {
      if !ButtonsEnabled() || !confirmed {
        return;
      }
      isProcessing := true;
      requests := requests + [ActionRequest(ApproveUrl(submissionId), adminNotes)];
      alerts := alerts + [ApproveAlert(outcome)];
      if outcome.Approved? {
        navigations := navigations + [ApprovedList];
        refreshes := refreshes + 1;
      }
      isProcessing := false;
    }

    /**
     * Clicking "Rechazar": blank notes only raise the reminder, before any confirmation; a
     * declined confirmation does nothing; otherwise one request with the notes as typed, the
     * outcome's alert, the rejected list and a refresh on success only, and processing ends.
     */
    method ClickReject(confirmed: bool, outcome: RejectOutcome)
      modifies this
      ensures !old(ButtonsEnabled()) ==>
        requests == old(requests) && alerts == old(alerts) && navigations == old(navigations)
        && refreshes == old(refreshes) && isProcessing == old(isProcessing)
      ensures old(ButtonsEnabled()) && Blank(adminNotes) ==>
        requests == old(requests) && alerts == old(alerts) + [NotesRequiredAlert]
        && navigations == old(navigations) && refreshes == old(refreshes) && isProcessing == old(isProcessing)
      ensures old(ButtonsEnabled()) && !Blank(adminNotes) && !confirmed ==>
        requests == old(requests) && alerts == old(alerts) && navigations == old(navigations)
        && refreshes == old(refreshes) && isProcessing == old(isProcessing)
      ensures old(ButtonsEnabled()) && !Blank(adminNotes) && confirmed ==>
        && requests == old(requests) + [ActionRequest(RejectUrl(submissionId), adminNotes)]
        && alerts == old(alerts) + [RejectAlert(outcome)]
        && navigations == old(navigations) + (if outcome.Rejected? then [RejectedList] else [])
        && refreshes == old(refreshes) + (if outcome.Rejected? then 1 else 0)
        && !isProcessing
      ensures adminNotes == old(adminNotes)
    {
      if !ButtonsEnabled() {
        return;
      }
      if Blank(adminNotes) {
        alerts := alerts + [NotesRequiredAlert];
      } else if confirmed {
        isProcessing := true;
        requests := requests + [ActionRequest(RejectUrl(submissionId), adminNotes)];
        alerts := alerts + [RejectAlert(outcome)];
        if outcome.Rejected? {
          navigations := navigations + [RejectedList];
          refreshes := refreshes + 1;
        }
        isProcessing := false;
      }
    }
  }
}
