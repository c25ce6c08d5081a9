/**
 * The form an owner uses to edit an approved startup. It starts from the stored startup, keeps
 * at most five tags, enables saving only when something changed, and sends the thirteen
 * editable fields as a JSON `PATCH` to the startup's endpoint.
 *
 * The form is checked with the full submission schema, which also demands a submitter email;
 * the form seeds that field with `''` and never shows it, so as written no edit can pass. The
 * class keeps both submits: `Submit` with the check as written, proved never to send, and
 * `SubmitIntended` with the evidently intended check (steps one to four).
 */
module EditForm {
  import opened Wrappers
  import opened Types
  import opened SubmissionSchema
  import opened JsValue
  import TagSelection

  /** `value || ''`. */
  function OrEmpty(v: Option<string>): (r: string)
    ensures v.Some? && v.value != "" ==> r == v.value
    ensures v.None? ==> r == ""
  {
    if v.Some? then v.value else ""
  }

  /** `value || undefined`: a missing or empty text is left out. */
  function OrUndefined(v: Option<string>): (r: Nullable<string>)
    ensures r.Undefined? <==> v.None? || v == Some("")
    ensures r.Defined? ==> v == Some(r.value)
  {
    if v.Some? && v.value != "" then Defined(v.value) else Undefined
  }

  /** `startup.redes_sociales?.[name] || ''`. */
  function LinkOf(links: map<string, string>, name: string): (r: string)
    ensures name in links ==> r == links[name]
    ensures name !in links ==> r == ""
  {
    if name in links then links[name] else ""
  }

  /** The form's `defaultValues` for a stored startup. */
  function EditDefaults(s: Startup): SubmissionForm {
    SubmissionForm(
      Defined(s.nombre), Defined(s.descripcionBreve), Defined(s.descripcionLarga),
      if s.anoFundacion.Some? && s.anoFundacion.value != 0 then Defined(Num(s.anoFundacion.value as real)) else Undefined,
      if s.ubicacion.Some? then Defined(s.ubicacion.value) else Null,
      Defined(s.tags),
      OrUndefined(s.numEmpleados),
      Defined(EstadoName(s.estado)),
      Defined(OrEmpty(s.web)), Defined(OrEmpty(s.email)), Defined(OrEmpty(s.phone)),
      Defined(SocialLinks(
        Defined(LinkOf(s.redesSociales, "linkedin")), Defined(LinkOf(s.redesSociales, "twitter")),
        Defined(LinkOf(s.redesSociales, "facebook")), Defined(LinkOf(s.redesSociales, "instagram")))),
      OrUndefined(s.inversionRecibida),
      Undefined, Undefined,
      Defined(""))
  }

  /** The keys of `updateData`, in order. */
  const UpdateKeys: seq<string> := [
    "nombre", "descripcion_breve", "descripcion_larga", "ubicacion", "año_fundacion", "estado",
    "tags", "num_empleados", "web", "email", "phone", "redes_sociales", "inversion_recibida"]

  /** `updateData`: the thirteen editable fields of the validated values. */
  function UpdateData(v: SubmissionForm): seq<(string, Value)> {
    [("nombre", TextValue(v.nombre)),
     ("descripcion_breve", TextValue(v.descripcionBreve)),
     ("descripcion_larga", TextValue(v.descripcionLarga)),
     ("ubicacion", TextValue(v.ubicacion)),
     ("año_fundacion", YearValue(v.anoFundacion)),
     ("estado", TextValue(v.estado)),
     ("tags", ArrayValue(v.tags)),
     ("num_empleados", TextValue(v.numEmpleados)),
     ("web", TextValue(v.web)),
     ("email", TextValue(v.email)),
     ("phone", TextValue(v.phone)),
     ("redes_sociales", LinksValue(v.redesSociales)),
     ("inversion_recibida", TextValue(v.inversionRecibida))]
  }

  /** The update holds exactly the editable keys, in order. */
  lemma UpdateDataKeys(v: SubmissionForm)
    ensures |UpdateData(v)| == |UpdateKeys| && forall k :: 0 <= k < |UpdateData(v)| ==> UpdateData(v)[k].0 == UpdateKeys[k]
  {
  }

  /** The members `JSON.stringify` writes for an object: those whose value is not `undefined`, in order. */
  function JsonMembers(members: seq<(string, Value)>): (r: seq<(string, Value)>)
    ensures forall m :: m in r <==> m in members && !m.1.JsUndefined?
  {
    if members == [] then []
    else (if members[0].1.JsUndefined? then [] else [members[0]]) + JsonMembers(members[1..])
  }

  /** No submitter email and no file is among the editable keys. */
  lemma UpdateKeysExcludeOthers()
    ensures "submitter_email" !in UpdateKeys && "logo_file" !in UpdateKeys && "pitch_deck_file" !in UpdateKeys
  {
  }

  /**
   * The `PATCH` body names only editable fields, and an editable field is sent exactly when it
   * has a value.
   */
  lemma PatchBodyKeys(v: SubmissionForm, m: (string, Value))
    ensures m in JsonMembers(UpdateData(v)) ==> m.0 in UpdateKeys
    ensures m in JsonMembers(UpdateData(v)) <==> m in UpdateData(v) && !m.1.JsUndefined?
  {
    var data := UpdateData(v);
    UpdateDataKeys(v);
    if m in data {
      var k :| 0 <= k < |data| && data[k] == m;
      assert data[k].0 == UpdateKeys[k];
    }
  }

  /** Saving an untouched form writes the stored name, descriptions, state and tags back unchanged. */
  lemma UntouchedSaveWritesBack(s: Startup)
    ensures var u := UpdateData(EditDefaults(s));
      && u[0].1 == JsStr(s.nombre) && u[1].1 == JsStr(s.descripcionBreve) && u[2].1 == JsStr(s.descripcionLarga)
      && u[5].1 == JsStr(EstadoName(s.estado)) && u[6].1 == JsArray(s.tags)
  {
  }

  /** Saving an untouched form writes a missing web or email as `''` and leaves a missing or zero year out. */
  lemma UntouchedSaveDefaults(s: Startup)
    ensures var u := UpdateData(EditDefaults(s));
      && u[4].1 == (if s.anoFundacion.Some? && s.anoFundacion.value != 0 then JsNumber(s.anoFundacion.value) else JsUndefined)
      && u[8].1 == JsStr(if s.web.Some? then s.web.value else "")
      && (s.email.None? ==> u[9].1 == JsStr(""))
  {
    if s.anoFundacion.Some? && s.anoFundacion.value != 0 {
      assert (s.anoFundacion.value as real).Floor == s.anoFundacion.value;
    }
  }

  /** The keys the edit validation is meant to check: every field of the first four steps. */
  function EditedFields(): (r: seq<Field>)
    ensures SubmitterEmail !in r
    ensures forall f: Field :: f in r <==> f != SubmitterEmail
  {
    var r := StepFields(1) + StepFields(2) + StepFields(3) + StepFields(4);
    assert forall f: Field :: f != SubmitterEmail ==> f in r by {
      forall f: Field | f != SubmitterEmail ensures f in r {
        EachFieldInExactlyOneStep(f);
      }
    }
    r
  }

  /** The values the resolver sees: the typed fields, the tags the picker set, and the submitter email still at its default. */
  function SubmittedValues(typed: SubmissionForm, tags: seq<string>): SubmissionForm {
    typed.(tags := Defined(tags), submitterEmail := Defined(""))
  }

  /** As written: the resolver uses the full submission schema. */
  predicate AsWrittenValid(v: SubmissionForm, ctx: Context) {
    PassesFull(v, ctx)
  }

  /** As written, no submit reaches `onSubmit`, whatever the user types. */
  lemma AsWrittenNeverSubmits(typed: SubmissionForm, tags: seq<string>, ctx: Context)
    ensures !AsWrittenValid(SubmittedValues(typed, tags), ctx)
  {
    SubmitterEmailRequired(SubmittedValues(typed, tags), ctx);
  }

  /** As intended: every edited field is checked and the submitter email is not. */
  predicate EditValid(v: SubmissionForm, ctx: Context) {
    Issues(v, EditedFields(), ctx) == []
  }

  /** The intended check accepts exactly the values whose every field but the submitter email passes. */
  lemma EditValidIffFields(v: SubmissionForm, ctx: Context)
    ensures EditValid(v, ctx) <==> forall f: Field :: f != SubmitterEmail ==> FieldOk(v, f, ctx)
  {
    if !EditValid(v, ctx) {
      assert Issues(v, EditedFields(), ctx)[0] in Issues(v, EditedFields(), ctx);
    }
  }

  /** The intended check never looks at the submitter email. */
  lemma EditValidIgnoresSubmitter(v: SubmissionForm, ctx: Context, e: Nullable<string>)
    ensures EditValid(v, ctx) <==> EditValid(v.(submitterEmail := e), ctx)
  {
    var w := v.(submitterEmail := e);
    EditValidIffFields(v, ctx);
    EditValidIffFields(w, ctx);
    forall f: Field | f != SubmitterEmail ensures FieldOk(v, f, ctx) == FieldOk(w, f, ctx) {
      FieldOkIgnoresSubmitter(v, e, f, ctx);
    }
  }

  /** Every field but the submitter email is checked on its own value only. */
  lemma FieldOkIgnoresSubmitter(v: SubmissionForm, e: Nullable<string>, f: Field, ctx: Context)
    requires f != SubmitterEmail
    ensures FieldOk(v, f, ctx) == FieldOk(v.(submitterEmail := e), f, ctx)
  {
  }

  /** The intended check is the first four step schemas together, and the full schema is it plus the submitter rule. */
  lemma EditValidIffSteps(v: SubmissionForm, ctx: Context)
    ensures EditValid(v, ctx) <==>
      PassesStep(v, 1, ctx) && PassesStep(v, 2, ctx) && PassesStep(v, 3, ctx) && PassesStep(v, 4, ctx)
    ensures PassesFull(v, ctx) <==> EditValid(v, ctx) && PassesStep(v, 5, ctx)
  {
    var s1, s2, s3, s4 := StepFields(1), StepFields(2), StepFields(3), StepFields(4);
    IssuesAppend(v, s1 + s2 + s3, s4, ctx);
    IssuesAppend(v, s1 + s2, s3, ctx);
    IssuesAppend(v, s1, s2, ctx);
    FullIssuesAreStepIssues(v, ctx);
    var i1, i2, i3, i4, i5 := Issues(v, s1, ctx), Issues(v, s2, ctx), Issues(v, s3, ctx), Issues(v, s4, ctx),
      Issues(v, StepFields(5), ctx);
    assert Issues(v, EditedFields(), ctx) == i1 + i2 + i3 + i4;
    assert |i1 + i2 + i3 + i4| == |i1| + |i2| + |i3| + |i4|;
    assert |Issues(v, AllFields, ctx)| == |i1| + |i2| + |i3| + |i4| + |i5|;
  }

  /** An unselected tag's button is disabled once five tags are selected. */
  predicate TagButtonDisabled(selected: seq<string>, tag: string) {
    tag !in selected && |selected| >= TagSelection.MaxTags
  }

  /** Through the enabled buttons the cap never truncates: each click adds or removes exactly the tag, and five or fewer stay five or fewer. */
  lemma EnabledToggleIsExact(selected: seq<string>, tag: string)
    requires !TagButtonDisabled(selected, tag)
    ensures TagSelection.ToggleCapped(selected, tag) == TagSelection.Toggle(selected, tag)
    ensures |selected| <= TagSelection.MaxTags ==> |TagSelection.ToggleCapped(selected, tag)| <= TagSelection.MaxTags
  {
    if tag !in selected {
      TagSelection.ToggleCappedAdds(selected, tag);
    }
    TagSelection.ToggleCappedBound(selected, tag);
  }

  /** How the `PATCH` ended. */
  datatype UpdateOutcome =
    | Updated
    /** A failure status; `error` is the JSON `error` member, when present. */
    | Refused(error: Option<string>)
    /** The request or reading its answer threw; `message` is the error's message when it is an `Error`. */
    | Failed(message: Option<string>)

  /** The error banner an outcome leaves, if any. */
  function OutcomeError(o: UpdateOutcome): (r: Option<string>)
    ensures r.None? <==> o.Updated?
    ensures o.Refused? && (o.error.None? || o.error == Some("")) ==> r == Some("Error al actualizar la startup")
    ensures o.Refused? && o.error.Some? && o.error.value != "" ==> r == o.error
    ensures o.Failed? ==> r == Some(if o.message.Some? then o.message.value else "Error desconocido")
  {
    match o
    case Updated => None
    case Refused(e) => Some(if e.Some? && e.value != "" then e.value else "Error al actualizar la startup")
    case Failed(m) => Some(if m.Some? then m.value else "Error desconocido")
  }

  /** A `PATCH` sent, with the banners shown while it was in flight. */
  datatype PatchRequest = PatchRequest(url: string, body: seq<(string, Value)>, errorShown: Option<string>, successShown: bool)

  class EditFormState {
    const startupId: string
    const defaults: SubmissionForm
    var isSubmitting: bool
    var error: Option<string>
    var success: bool
    var selectedTags: seq<string>
    var formTags: seq<string>
    var requests: seq<PatchRequest>
    /** Page refreshes scheduled after a successful save. */
    var refreshes: nat

    constructor(s: Startup)
      ensures startupId == s.id && defaults == EditDefaults(s)
      ensures !isSubmitting && error.None? && !success
      ensures selectedTags == s.tags && formTags == s.tags && requests == [] && refreshes == 0
    {
      startupId := s.id;
      defaults := EditDefaults(s);
      isSubmitting := false;
      error := None;
      success := false;
      selectedTags := s.tags;
      formTags := s.tags;
      requests := [];
      refreshes := 0;
    }

    /**
     * The save button, `disabled={isSubmitting || !isDirty}`: enabled only when nothing is in
     * flight and the values the form holds differ from its defaults.
     */
    predicate SaveEnabled(typed: SubmissionForm)
      reads this
    {
      !isSubmitting && SubmittedValues(typed, formTags) != defaults
    }

    /** `toggleTag`: the capped toggle, copied into the form's value. */
    method ToggleTag(tag: string)
      modifies this
      ensures selectedTags == TagSelection.ToggleCapped(old(selectedTags), tag) && formTags == selectedTags
      ensures isSubmitting == old(isSubmitting) && error == old(error) && success == old(success)
      ensures requests == old(requests) && refreshes == old(refreshes)
    {
      selectedTags := TagSelection.ToggleCapped(selectedTags, tag);
      formTags := selectedTags;
    }

    /**
     * `onSubmit`, once the values passed the resolver: the banners are cleared, one `PATCH` of
     * `updateData` goes to `/api/startups/<id>`, and the outcome sets either the success banner
     * (and schedules a refresh) or the error banner.
     */
    method OnSubmit(v: SubmissionForm, outcome: UpdateOutcome)
      modifies this
      ensures requests == old(requests) + [PatchRequest("/api/startups/" + startupId, UpdateData(v), None, false)]
      ensures !isSubmitting && error == OutcomeError(outcome) && success == outcome.Updated?
      ensures refreshes == old(refreshes) + (if outcome.Updated? then 1 else 0)
      ensures selectedTags == old(selectedTags) && formTags == old(formTags)
    {
      isSubmitting := true;
      error := None;
      success := false;
      requests := requests + [PatchRequest("/api/startups/" + startupId, UpdateData(v), error, success)];
      error := OutcomeError(outcome);
      if outcome.Updated? {
        success := true;
        refreshes := refreshes + 1;
      }
      isSubmitting := false;
    }

    /**
     * `handleSubmit(onSubmit)` as written: the resolver is the full submission schema, which
     * the never-shown submitter email always fails, so a submit changes nothing at all.
     */
    method Submit(typed: SubmissionForm, ctx: Context, outcome: UpdateOutcome)
      modifies this
      ensures isSubmitting == old(isSubmitting) && error == old(error) && success == old(success)
      ensures requests == old(requests) && refreshes == old(refreshes)
      ensures selectedTags == old(selectedTags) && formTags == old(formTags)
    {
      var v := SubmittedValues(typed, formTags);
      AsWrittenNeverSubmits(typed, formTags, ctx);
      if AsWrittenValid(v, ctx) {
        // `onSubmit(v)` would run here; the resolver never lets it.
        assert false;
      }
    }

    /**
     * A click on the save button, `handleSubmit(onSubmit)`, with the evidently intended resolver
     * (steps one to four): a disabled button or values failing the resolver change nothing, the
     * others go through `onSubmit`.
     */
    method SubmitIntended(typed: SubmissionForm, ctx: Context, outcome: UpdateOutcome)
      modifies this
      ensures !old(SaveEnabled(typed)) || !EditValid(SubmittedValues(typed, old(formTags)), ctx) ==>
        isSubmitting == old(isSubmitting) && error == old(error) && success == old(success)
        && requests == old(requests) && refreshes == old(refreshes)
      ensures old(SaveEnabled(typed)) && EditValid(SubmittedValues(typed, old(formTags)), ctx) ==>
        && requests == old(requests) +
          [PatchRequest("/api/startups/" + startupId, UpdateData(SubmittedValues(typed, old(formTags))), None, false)]
        && !isSubmitting
        && error == OutcomeError(outcome)
        && success == outcome.Updated?
        && refreshes == old(refreshes) + (if outcome.Updated? then 1 else 0)
      ensures selectedTags == old(selectedTags) && formTags == old(formTags)
    {
      var v := SubmittedValues(typed, formTags);
      if !SaveEnabled(typed) || !EditValid(v, ctx) {
        return;
      }
      OnSubmit(v, outcome);
    }
  }
}
