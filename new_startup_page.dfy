/**
 * The admin page that adds a startup directly. Its form starts from a few defaults, keeps at
 * most five tags, and on a valid submit turns the validated values into a multipart body:
 * the two structured fields as JSON, the two files under their upload names, every other
 * present value as its string form, and finally the `admin_direct_add` flag. The body goes to
 * the admin create endpoint, whose reading of it is in the Intake module.
 *
 * `JSON.stringify` is a given function; the request's outcome is an input.
 */
module NewStartupPage {
  import opened Wrappers
  import opened JsText
  import opened Types
  import opened FormData
  import opened SubmissionSchema
  import TagSelection
  import Intake
  import opened JsValue

  /** The entry name a key is sent under: the two file keys are renamed when they hold a file. */
  function OutName(key: string, v: Value): (r: string)
    ensures r == key || r == "logo" || r == "pitch_deck"
  {
    if key == "logo_file" && v.JsFile? then "logo"
    else if key == "pitch_deck_file" && v.JsFile? then "pitch_deck"
    else key
  }

  /** The entry one key and value add to the body, if any. */
  function Encode(key: string, v: Value, stringify: Value -> string): (r: Option<(string, FormValue)>)
    ensures r.Some? ==> r.value.0 == OutName(key, v)
    ensures r.None? <==> key != "redes_sociales" && key != "tags" && (v.JsNull? || v.JsUndefined?)
  {
    if key == "redes_sociales" then Some((key, Text(stringify(v))))
    else if key == "tags" then Some((key, Text(stringify(v))))
    else if key == "logo_file" && v.JsFile? then Some(("logo", Upload(v.file)))
    else if key == "pitch_deck_file" && v.JsFile? then Some(("pitch_deck", Upload(v.file)))
    else if !v.JsNull? && !v.JsUndefined? then Some((key, Text(StringOf(v))))
    else None
  }

  /** The entries the `forEach` appends for `data`, in order. */
  function Serialized(data: seq<(string, Value)>, stringify: Value -> string): (r: Entries)
    ensures |r| <= |data|
  {
    if data == [] then []
    else
      var last := data[|data| - 1];
      var e := Encode(last.0, last.1, stringify);
      Serialized(data[..|data| - 1], stringify) + (if e.Some? then [e.value] else [])
  }

  /** The flag the page appends after the fields. */
  const DirectAddFlag: (string, FormValue) := ("admin_direct_add", Text("true"))

  /** The body `onSubmit` builds: every entry in order through the four branches, then the flag. */
  method SerializeForm(data: seq<(string, Value)>, stringify: Value -> string) returns (fd: Entries)
    ensures fd == Serialized(data, stringify) + [DirectAddFlag]
    ensures fd[|fd| - 1] == DirectAddFlag
  {
    fd := [];
    for i := 0 to |data|
      invariant fd == Serialized(data[..i], stringify)
    {
      var (key, value) := data[i];
      assert data[..i + 1][..i] == data[..i];
      if key == "redes_sociales" {
        fd := Append(fd, key, Text(stringify(value)));
      } else if key == "tags" {
        fd := Append(fd, key, Text(stringify(value)));
      } else if key == "logo_file" && value.JsFile? {
        fd := Append(fd, "logo", Upload(value.file));
      } else if key == "pitch_deck_file" && value.JsFile? {
        fd := Append(fd, "pitch_deck", Upload(value.file));
      } else if !value.JsNull? && !value.JsUndefined? {
        fd := Append(fd, key, Text(StringOf(value)));
      }
    }
    assert data[..|data|] == data;
    fd := Append(fd, DirectAddFlag.0, DirectAddFlag.1);
  }

  /** The body holds exactly the encodings of the entries that have one: null and undefined values are dropped. */
  lemma {:induction false} SerializedEntries(data: seq<(string, Value)>, stringify: Value -> string, e: (string, FormValue))
    ensures e in Serialized(data, stringify) <==>
      exists j :: 0 <= j < |data| && Encode(data[j].0, data[j].1, stringify) == Some(e)
  {
    if data != [] {
      var init := data[..|data| - 1];
      SerializedEntries(init, stringify, e);
      if e in Serialized(data, stringify) && e !in Serialized(init, stringify) {
        assert Encode(data[|data| - 1].0, data[|data| - 1].1, stringify) == Some(e);
      }
      forall j | 0 <= j < |init| ensures data[j] == init[j] { }
    }
  }

  /** No entry of the body has a name that no key of `data` is sent under. */
  lemma {:induction false} SerializedMissing(data: seq<(string, Value)>, stringify: Value -> string, name: string)
    requires forall j :: 0 <= j < |data| ==> OutName(data[j].0, data[j].1) != name
    ensures Get(Serialized(data, stringify), name).None?
  {
    if data != [] {
      var init := data[..|data| - 1];
      forall j | 0 <= j < |init| ensures OutName(init[j].0, init[j].1) != name { assert init[j] == data[j]; }
      SerializedMissing(init, stringify, name);
      var last := data[|data| - 1];
      var e := Encode(last.0, last.1, stringify);
      GetPrefix(Serialized(init, stringify), if e.Some? then [e.value] else [], name);
    }
  }

  /**
   * Reading a name back from the body: when entry `i` is encoded and no earlier key is sent
   * under the same name, `get` returns entry `i`'s value.
   */
  lemma {:induction false} SerializedLookup(data: seq<(string, Value)>, stringify: Value -> string, i: nat)
    requires i < |data| && Encode(data[i].0, data[i].1, stringify).Some?
    requires forall j :: 0 <= j < i ==> OutName(data[j].0, data[j].1) != OutName(data[i].0, data[i].1)
    ensures Get(Serialized(data, stringify), OutName(data[i].0, data[i].1)) ==
      Some(Encode(data[i].0, data[i].1, stringify).value.1)
  {
    var name := OutName(data[i].0, data[i].1);
    var init := data[..|data| - 1];
    var last := data[|data| - 1];
    var e := Encode(last.0, last.1, stringify);
    var tail := if e.Some? then [e.value] else [];
    if i == |data| - 1 {
      forall j | 0 <= j < |init| ensures OutName(init[j].0, init[j].1) != name { assert init[j] == data[j]; }
      SerializedMissing(init, stringify, name);
      GetPrefix(Serialized(init, stringify), tail, name);
    } else {
      assert init[i] == data[i];
      forall j | 0 <= j < i ensures OutName(init[j].0, init[j].1) != name { assert init[j] == data[j]; }
      SerializedLookup(init, stringify, i);
      GetPrefix(Serialized(init, stringify), tail, name);
    }
  }

  /** The flag reads back as `'true'` unless some key is itself sent as `admin_direct_add`. */
  lemma FlagReadsBack(data: seq<(string, Value)>, stringify: Value -> string)
    requires forall j :: 0 <= j < |data| ==> data[j].0 != DirectAddFlag.0
    ensures GetText(Serialized(data, stringify) + [DirectAddFlag], DirectAddFlag.0) == Some("true")
  {
    SerializedMissing(data, stringify, DirectAddFlag.0);
    GetPrefix(Serialized(data, stringify), [DirectAddFlag], DirectAddFlag.0);
  }

  /** The keys of the form object, in the order the schema declares them. */
  const FormKeys: seq<string> := [
    "nombre", "descripcion_breve", "descripcion_larga", "año_fundacion", "ubicacion", "tags",
    "num_empleados", "estado", "web", "email", "phone", "redes_sociales",
    "inversion_recibida", "logo_file", "pitch_deck_file", "submitter_email"]

  /** `Object.entries(data)` of the object the resolver hands to `onSubmit`. */
  function FormEntries(v: SubmissionForm): (r: seq<(string, Value)>)
    ensures |r| == |FormKeys| && forall k :: 0 <= k < |r| ==> r[k].0 == FormKeys[k]
  {
    [("nombre", TextValue(v.nombre)),
     ("descripcion_breve", TextValue(v.descripcionBreve)),
     ("descripcion_larga", TextValue(v.descripcionLarga)),
     ("año_fundacion", YearValue(v.anoFundacion)),
     ("ubicacion", TextValue(v.ubicacion)),
     ("tags", ArrayValue(v.tags)),
     ("num_empleados", TextValue(v.numEmpleados)),
     ("estado", TextValue(v.estado)),
     ("web", TextValue(v.web)),
     ("email", TextValue(v.email)),
     ("phone", TextValue(v.phone)),
     ("redes_sociales", LinksValue(v.redesSociales)),
     ("inversion_recibida", TextValue(v.inversionRecibida)),
     ("logo_file", FileValue(v.logoFile)),
     ("pitch_deck_file", FileValue(v.pitchDeckFile)),
     ("submitter_email", TextValue(v.submitterEmail))]
  }

  /** The body the page posts for validated values `v`. */
  function Body(v: SubmissionForm, stringify: Value -> string): Entries {
    Serialized(FormEntries(v), stringify) + [DirectAddFlag]
  }

  /** The form keys before the two file keys, none of which is renamed. */
  const PlainKeys: seq<string> := [
    "nombre", "descripcion_breve", "descripcion_larga", "año_fundacion", "ubicacion", "tags",
    "num_empleados", "estado", "web", "email", "phone", "redes_sociales", "inversion_recibida"]

  /**
   * Looking a name up in the body: entry `i`, when it is encoded and no earlier key has its
   * name, is what `get` returns.
   */
  lemma BodyLookup(v: SubmissionForm, stringify: Value -> string, i: nat)
    requires i <= |PlainKeys| && Encode(FormEntries(v)[i].0, FormEntries(v)[i].1, stringify).Some?
    requires OutName(FormEntries(v)[i].0, FormEntries(v)[i].1) !in PlainKeys[..i]
    ensures Get(Body(v, stringify), OutName(FormEntries(v)[i].0, FormEntries(v)[i].1)) ==
      Some(Encode(FormEntries(v)[i].0, FormEntries(v)[i].1, stringify).value.1)
  {
    var data := FormEntries(v);
    var name := OutName(data[i].0, data[i].1);
    assert FormKeys[..|PlainKeys|] == PlainKeys;
    assert "logo_file" !in PlainKeys && "pitch_deck_file" !in PlainKeys;
    forall j | 0 <= j < i ensures OutName(data[j].0, data[j].1) != name {
      assert data[j].0 == PlainKeys[j] && PlainKeys[j] in PlainKeys && PlainKeys[j] == PlainKeys[..i][j];
    }
    SerializedLookup(data, stringify, i);
    GetPrefix(Serialized(data, stringify), [DirectAddFlag], name);
  }

  /* What the create endpoint reads from this page's body. */

  /** The name arrives as typed. */
  lemma NameReachesCreateRoute(v: SubmissionForm, stringify: Value -> string)
    requires v.nombre.Defined?
    ensures GetText(Body(v, stringify), "nombre") == Some(v.nombre.value)
  {
    BodyLookup(v, stringify, 0);
  }

  /** The founding year arrives as the decimal text of the number the schema accepted and parses back to it. */
  lemma YearReachesCreateRoute(v: SubmissionForm, stringify: Value -> string)
    requires v.anoFundacion.Defined? && v.anoFundacion.value.Num?
    ensures Intake.YearField(GetText(Body(v, stringify), "año_fundacion")) == Some(v.anoFundacion.value.value.Floor)
  {
    var data := FormEntries(v);
    assert OutName(data[3].0, data[3].1) == "año_fundacion";
    assert PlainKeys[..3] == ["nombre", "descripcion_breve", "descripcion_larga"];
    var y := v.anoFundacion.value.value.Floor;
    assert data[3].1 == JsNumber(y);
    BodyLookup(v, stringify, 3);
    var text := GetText(Body(v, stringify), "año_fundacion");
    assert text == Some(IntToDecimal(y));
    assert Intake.YearField(text) == Some(y);
  }

  /** The tags arrive as their JSON text, whatever the form holds. */
  lemma TagsReachCreateRoute(v: SubmissionForm, stringify: Value -> string)
    ensures GetText(Body(v, stringify), "tags") == Some(stringify(FormEntries(v)[5].1))
  {
    var data := FormEntries(v);
    assert OutName(data[5].0, data[5].1) == "tags";
    BodyLookup(v, stringify, 5);
  }

  /** A chosen logo arrives as a file under the name `logo`. */
  lemma LogoReachesCreateRoute(v: SubmissionForm, stringify: Value -> string)
    requires v.logoFile.Defined?
    ensures GetFile(Body(v, stringify), "logo") == Some(v.logoFile.value)
  {
    var data := FormEntries(v);
    assert OutName(data[13].0, data[13].1) == "logo";
    BodyLookup(v, stringify, 13);
  }

  /** The direct-add flag always reads back as `'true'`. */
  lemma FlagReachesCreateRoute(v: SubmissionForm, stringify: Value -> string)
    ensures GetText(Body(v, stringify), "admin_direct_add") == Some("true")
  {
    FlagReadsBack(FormEntries(v), stringify);
  }

  /** The form's `defaultValues`. */
  function AdminDefaults(): (r: SubmissionForm)
    ensures r.estado == Defined("active") && r.tags == Defined([])
    ensures r.submitterEmail == Defined("admin@aragon-startups.com")
  {
    SubmissionForm(
      Undefined, Undefined, Undefined, Undefined, Undefined,
      Defined([]), Undefined, Defined("active"),
      Undefined, Undefined, Undefined,
      Defined(SocialLinks(Defined(""), Defined(""), Defined(""), Defined(""))),
      Undefined, Undefined, Undefined,
      Defined("admin@aragon-startups.com"))
  }

  /**
   * The defaults satisfy the state and social-link rules but not the name or tags rules: an
   * untouched form cannot be submitted.
   */
  lemma DefaultsNeedInput(ctx: Context)
    ensures FieldOk(AdminDefaults(), Estado, ctx) && FieldOk(AdminDefaults(), RedesSociales, ctx)
    ensures !FieldOk(AdminDefaults(), Tags, ctx) && !FieldOk(AdminDefaults(), Nombre, ctx)
    ensures !PassesFull(AdminDefaults(), ctx)
  {
    assert Tags in AllFields;
  }

  /** How the request ended. */
  datatype CreateOutcome =
    | Created
    /** The endpoint answered with a failure status; `message` is its JSON `message`, when present. */
    | Refused(message: Option<string>)
    /** The request, or reading its answer, threw; `message` is the error's message when it is an `Error`. */
    | Failed(message: Option<string>)

  const DefaultError := "Error al crear la startup"
  const ValidationAlert := "Por favor, revisa los campos del formulario. Hay errores de validación."
  const CreatedAlert := "¡Startup creada con éxito!"

  /** The alert a submit ends with. */
  function OutcomeAlert(o: CreateOutcome): (r: string)
    ensures o.Created? ==> r == CreatedAlert
    ensures o.Refused? && (o.message.None? || o.message == Some("")) ==> r == DefaultError
    ensures o.Refused? && o.message.Some? && o.message.value != "" ==> r == o.message.value
    ensures o.Failed? ==> r == if o.message.Some? then o.message.value else DefaultError
  {
    match o
    case Created => CreatedAlert
    case Refused(m) => if m.Some? && m.value != "" then m.value else DefaultError
    case Failed(m) => if m.Some? then m.value else DefaultError
  }

  class NewStartupForm {
    var isSubmitting: bool
    var selectedTags: seq<string>
    /** The form's own `tags` value, which `setValue` keeps equal to the selection. */
    var formTags: seq<string>
    /** The bodies posted to the create endpoint, oldest first. */
    var requests: seq<Entries>
    var alerts: seq<string>
    var navigations: seq<string>
    /** The `router.refresh()` calls made, each right after a navigation. */
    var refreshes: nat

    constructor()
      ensures !isSubmitting && selectedTags == [] && formTags == AdminDefaults().tags.value
      ensures requests == [] && alerts == [] && navigations == [] && refreshes == 0
    {
      isSubmitting := false;
      selectedTags := [];
      formTags := [];
      requests := [];
      alerts := [];
      navigations := [];
      refreshes := 0;
    }

    /** `toggleTag`: the capped toggle, copied into the form's value. */
    method ToggleTag(tag: string)
      modifies this
      ensures selectedTags == TagSelection.ToggleCapped(old(selectedTags), tag) && formTags == selectedTags
      ensures isSubmitting == old(isSubmitting) && requests == old(requests)
      ensures alerts == old(alerts) && navigations == old(navigations) && refreshes == old(refreshes)
    {
      selectedTags := TagSelection.ToggleCapped(selectedTags, tag);
      formTags := selectedTags;
    }

    /**
     * `handleSubmit(onSubmit, onError)` over the typed values `typed`, the tags coming from the
     * form's own value. Invalid values raise the validation alert and post nothing. Valid ones
     * post one body, alert the outcome, go to `/admin` and refresh only on success, and always
     * end with the page no longer submitting.
     */
    method Submit(typed: SubmissionForm, ctx: Context, stringify: Value -> string, outcome: CreateOutcome)
      modifies this
      ensures var v := typed.(tags := Defined(old(formTags)));
        if !PassesFull(v, ctx) then
          && requests == old(requests) && alerts == old(alerts) + [ValidationAlert]
          && navigations == old(navigations) && refreshes == old(refreshes)
        else
          && requests == old(requests) + [Body(v, stringify)]
          && alerts == old(alerts) + [OutcomeAlert(outcome)]
          && navigations == old(navigations) + (if outcome.Created? then ["/admin"] else [])
          && refreshes == old(refreshes) + (if outcome.Created? then 1 else 0)
      ensures !PassesFull(typed.(tags := Defined(old(formTags))), ctx) ==> isSubmitting == old(isSubmitting)
      ensures PassesFull(typed.(tags := Defined(old(formTags))), ctx) ==> !isSubmitting
      ensures selectedTags == old(selectedTags) && formTags == old(formTags)
    {
      var v := typed.(tags := Defined(formTags));
      if !PassesFull(v, ctx) {
        alerts := alerts + [ValidationAlert];
        return;
      }
      isSubmitting := true;
      var body := SerializeForm(FormEntries(v), stringify);
      requests := requests + [body];
      alerts := alerts + [OutcomeAlert(outcome)];
      if outcome.Created? {
        navigations := navigations + ["/admin"];
        refreshes := refreshes + 1;
      }
      isSubmitting := false;
    }
  }
}
