/**
 * The startup submission form schema: one validation rule per field, the five step schemas
 * that pick disjoint groups of fields, and the constant option lists shown by the form.
 * A form is a record of JavaScript values; a field the form never set is `Undefined`.
 */
module SubmissionSchema {
  import opened Wrappers
  import opened JsText
  import Types

  /**
   * The library's own string checks, `z.string().url()` and `z.string().email()`, are not
   * written out here; every rule that uses them takes them as given predicates.
   */
  datatype Validators = Validators(isUrl: string -> bool, isEmail: string -> bool)

  /** What the rules depend on besides the form: the library checks and the current calendar year. */
  datatype Context = Context(validators: Validators, currentYear: int)

  /** A JavaScript number as a number input yields it: a finite value or `NaN` (an empty input). */
  datatype JsNumber = Num(value: real) | NotANumber

  datatype SocialLinks = SocialLinks(
    linkedin: Nullable<string>,
    twitter: Nullable<string>,
    facebook: Nullable<string>,
    instagram: Nullable<string>)

  /** The values the form holds when it is validated. */
  datatype SubmissionForm = SubmissionForm(
    nombre: Nullable<string>,
    descripcionBreve: Nullable<string>,
    descripcionLarga: Nullable<string>,
    anoFundacion: Nullable<JsNumber>,
    ubicacion: Nullable<string>,
    tags: Nullable<seq<string>>,
    numEmpleados: Nullable<string>,
    estado: Nullable<string>,
    web: Nullable<string>,
    email: Nullable<string>,
    phone: Nullable<string>,
    redesSociales: Nullable<SocialLinks>,
    inversionRecibida: Nullable<string>,
    logoFile: Nullable<Types.FileRef>,
    pitchDeckFile: Nullable<Types.FileRef>,
    submitterEmail: Nullable<string>)

  /** The sixteen keys of the schema, in declaration order. */
  datatype Field =
    | Nombre | DescripcionBreve | DescripcionLarga
    | AnoFundacion | Ubicacion | Tags | NumEmpleados | Estado
    | Web | Email | Phone | RedesSociales
    | InversionRecibida | LogoFile | PitchDeckFile
    | SubmitterEmail

  const AllFields: seq<Field> := [
    Nombre, DescripcionBreve, DescripcionLarga,
    AnoFundacion, Ubicacion, Tags, NumEmpleados, Estado,
    Web, Email, Phone, RedesSociales,
    InversionRecibida, LogoFile, PitchDeckFile,
    SubmitterEmail]

  /** The keys each step schema picks, in the order the full schema declares them. */
  function StepFields(step: nat): seq<Field> {
    if step == 1 then [Nombre, DescripcionBreve, DescripcionLarga]
    else if step == 2 then [AnoFundacion, Ubicacion, Tags, NumEmpleados, Estado]
    else if step == 3 then [Web, Email, Phone, RedesSociales]
    else if step == 4 then [InversionRecibida, LogoFile, PitchDeckFile]
    else if step == 5 then [SubmitterEmail]
    else []
  }

  /** The sector chips the forms offer; the schema itself accepts any tag text. */
  const AvailableSectors: seq<string> := [
    "Agritech", "Biotech", "Cleantech", "E-commerce", "Edtech", "Fintech", "Foodtech",
    "Healthtech", "Legaltech", "Proptech", "SaaS", "Social Impact", "Tourism", "Other"]

  /** The only values the employee-count field accepts. */
  const EmployeeRanges: seq<string> := ["1-10", "11-50", "51-200", "201-500", "500+"]

  /** The operating states with their display labels. */
  const CompanyStates: seq<(string, string)> := [("active", "Activa"), ("acquired", "Adquirida"), ("closed", "Cerrada")]

  /** The values the `estado` enum accepts. */
  const EstadoValues: seq<string> := ["active", "acquired", "closed"]

  /** A required string whose length in UTF-16 code units lies in `lo..hi`. */
  predicate RequiredText(v: Nullable<string>, lo: nat, hi: nat) {
    v.Defined? && lo <= Utf16Length(v.value) <= hi
  }

  /** An integer year from 1900 up to the current year. */
  predicate YearOk(v: Nullable<JsNumber>, currentYear: int) {
    && v.Defined? && v.value.Num?
    && var y := v.value.value;
    && y.Floor as real == y
    && 1900 as real <= y <= currentYear as real
  }

  /** The `[\d\s-()]` class of the phone pattern: digits, white space, hyphen and parentheses. */
  predicate IsPhoneChar(c: char) {
    IsAsciiDigit(c) || IsJsWhitespace(c) || c == '-' || c == '(' || c == ')'
  }

  /** One or more characters of the phone class. */
  predicate PhoneBody(s: string) {
    |s| >= 1 && forall i :: 0 <= i < |s| ==> IsPhoneChar(s[i])
  }

  /** The pattern `^\+?[\d\s-()]+$`: an optional leading plus, then one or more phone characters. */
  predicate MatchesPhone(s: string) {
    PhoneBody(s) || (|s| >= 1 && s[0] == '+' && PhoneBody(s[1..]))
  }

  /**
   * An optional, nullable text refined by `!val || val === '' || check(val)`: a missing,
   * null or empty value passes, any other value must satisfy the check.
   */
  predicate OptionalChecked(v: Nullable<string>, check: string -> bool) {
    match v
    case Undefined => true
    case Null => true
    case Defined(s) => s == "" || check(s)
  }

  /** A social link is optional but not nullable: `null` fails the string type before the refinement runs. */
  predicate SocialLinkOk(v: Nullable<string>, isUrl: string -> bool) {
    match v
    case Undefined => true
    case Null => false
    case Defined(s) => s == "" || isUrl(s)
  }

  /** The social-links object is optional but not nullable; when present all four links are checked. */
  predicate SocialLinksOk(v: Nullable<SocialLinks>, isUrl: string -> bool) {
    match v
    case Undefined => true
    case Null => false
    case Defined(l) =>
      && SocialLinkOk(l.linkedin, isUrl) && SocialLinkOk(l.twitter, isUrl)
      && SocialLinkOk(l.facebook, isUrl) && SocialLinkOk(l.instagram, isUrl)
  }

  /** An optional, nullable value of the enum `options`. */
  predicate OptionalEnum(v: Nullable<string>, options: seq<string>) {
    match v
    case Undefined => true
    case Null => true
    case Defined(s) => s in options
  }

  /** Whether one field of the form satisfies its rule. */
  predicate FieldOk(v: SubmissionForm, f: Field, ctx: Context) {
    match f
    case Nombre => RequiredText(v.nombre, 2, 100)
    case DescripcionBreve => RequiredText(v.descripcionBreve, 20, 200)
    case DescripcionLarga => RequiredText(v.descripcionLarga, 100, 2000)
    case AnoFundacion => YearOk(v.anoFundacion, ctx.currentYear)
    case Ubicacion => RequiredText(v.ubicacion, 2, 100)
    case Tags => v.tags.Defined? && 1 <= |v.tags.value| <= 5
    case NumEmpleados => OptionalEnum(v.numEmpleados, EmployeeRanges)
    case Estado => v.estado.Defined? && v.estado.value in EstadoValues
    case Web => OptionalChecked(v.web, ctx.validators.isUrl)
    case Email => OptionalChecked(v.email, ctx.validators.isEmail)
    case Phone => OptionalChecked(v.phone, MatchesPhone)
    case RedesSociales => SocialLinksOk(v.redesSociales, ctx.validators.isUrl)
    // `.optional().nullable().or(z.literal(''))` over a string: every value the form can hold passes.
    case InversionRecibida => true
    // `z.any().optional()`.
    case LogoFile => true
    case PitchDeckFile => true
    case SubmitterEmail =>
      v.submitterEmail.Defined? && ctx.validators.isEmail(v.submitterEmail.value)
      && Utf16Length(v.submitterEmail.value) >= 1
  }

  /** The keys among `fields` that carry at least one validation issue, in order. */
  function Issues(v: SubmissionForm, fields: seq<Field>, ctx: Context): (r: seq<Field>)
    ensures forall f :: f in r <==> f in fields && !FieldOk(v, f, ctx)
    ensures |r| <= |fields|
  {
    if fields == [] then []
    else (if FieldOk(v, fields[0], ctx) then [] else [fields[0]]) + Issues(v, fields[1..], ctx)
  }

  /** `submissionFormSchema.safeParse(v).success`. */
  predicate PassesFull(v: SubmissionForm, ctx: Context) {
    Issues(v, AllFields, ctx) == []
  }

  /** `stepNSchema.safeParse(v).success` for `step` in 1..5. */
  predicate PassesStep(v: SubmissionForm, step: nat, ctx: Context) {
    Issues(v, StepFields(step), ctx) == []
  }

  lemma {:induction false} IssuesAppend(v: SubmissionForm, a: seq<Field>, b: seq<Field>, ctx: Context)
    ensures Issues(v, a + b, ctx) == Issues(v, a, ctx) + Issues(v, b, ctx)
  {
    if a == [] {
      assert a + b == b;
    } else {
      assert (a + b)[1..] == a[1..] + b;
      IssuesAppend(v, a[1..], b, ctx);
    }
  }

  /** The full schema lists its keys exactly as the five steps do, one step after another. */
  lemma StepsConcatenate()
    ensures AllFields == StepFields(1) + StepFields(2) + StepFields(3) + StepFields(4) + StepFields(5)
  {
  }

  /** Every key belongs to exactly one step schema, so the steps are disjoint and cover all sixteen. */
  lemma EachFieldInExactlyOneStep(f: Field)
    ensures f in AllFields
    ensures forall k :: 1 <= k <= 5 ==> (f in StepFields(k) <==> k == StepOf(f))
  {
    forall k | 1 <= k <= 5 && f in StepFields(k) ensures k == StepOf(f) {
      OnlyStepOf(f, k);
    }
  }

  /** A key listed in a step belongs to that step. */
  lemma OnlyStepOf(f: Field, k: nat)
    requires 1 <= k <= 5 && f in StepFields(k)
    ensures k == StepOf(f)
  {
    if k == 1 {
      assert f == Nombre || f == DescripcionBreve || f == DescripcionLarga;
    } else if k == 2 {
      assert f == AnoFundacion || f == Ubicacion || f == Tags || f == NumEmpleados || f == Estado;
    } else if k == 3 {
      assert f == Web || f == Email || f == Phone || f == RedesSociales;
    } else if k == 4 {
      assert f == InversionRecibida || f == LogoFile || f == PitchDeckFile;
    }
  }

  /** The step a key belongs to. */
  function StepOf(f: Field): (k: nat)
    ensures 1 <= k <= 5 && f in StepFields(k)
  {
    match f
    case Nombre | DescripcionBreve | DescripcionLarga => 1
    case AnoFundacion | Ubicacion | Tags | NumEmpleados | Estado => 2
    case Web | Email | Phone | RedesSociales => 3
    case InversionRecibida | LogoFile | PitchDeckFile => 4
    case SubmitterEmail => 5
  }

  /** The full schema reports exactly the issues of step 1, then step 2, and so on to step 5. */
  lemma FullIssuesAreStepIssues(v: SubmissionForm, ctx: Context)
    ensures Issues(v, AllFields, ctx) ==
      Issues(v, StepFields(1), ctx) + Issues(v, StepFields(2), ctx) + Issues(v, StepFields(3), ctx)
      + Issues(v, StepFields(4), ctx) + Issues(v, StepFields(5), ctx)
  {
    StepsConcatenate();
    var s1, s2, s3, s4, s5 := StepFields(1), StepFields(2), StepFields(3), StepFields(4), StepFields(5);
    IssuesAppend(v, s1 + s2 + s3 + s4, s5, ctx);
    IssuesAppend(v, s1 + s2 + s3, s4, ctx);
    IssuesAppend(v, s1 + s2, s3, ctx);
    IssuesAppend(v, s1, s2, ctx);
  }

  /** With no object-level refinement, a form passes the full schema iff it passes every step schema. */
  lemma FullIffEveryStep(v: SubmissionForm, ctx: Context)
    ensures PassesFull(v, ctx) <==> forall k :: 1 <= k <= 5 ==> PassesStep(v, k, ctx)
  {
    FullIssuesAreStepIssues(v, ctx);
    var i1, i2, i3 := Issues(v, StepFields(1), ctx), Issues(v, StepFields(2), ctx), Issues(v, StepFields(3), ctx);
    var i4, i5 := Issues(v, StepFields(4), ctx), Issues(v, StepFields(5), ctx);
    assert |i1 + i2 + i3 + i4 + i5| == |i1| + |i2| + |i3| + |i4| + |i5|;
    assert PassesStep(v, 1, ctx) == (i1 == []) && PassesStep(v, 2, ctx) == (i2 == []);
    assert PassesStep(v, 3, ctx) == (i3 == []) && PassesStep(v, 4, ctx) == (i4 == []);
    assert PassesStep(v, 5, ctx) == (i5 == []);
    if PassesFull(v, ctx) {
      forall k | 1 <= k <= 5 ensures PassesStep(v, k, ctx) {
        if k == 1 {} else if k == 2 {} else if k == 3 {} else if k == 4 {} else {}
      }
    }
  }

  /** Passing the full schema means every one of the sixteen field rules holds. */
  lemma FullIffEveryField(v: SubmissionForm, ctx: Context)
    ensures PassesFull(v, ctx) <==> forall f: Field :: FieldOk(v, f, ctx)
  {
    if PassesFull(v, ctx) {
      forall f: Field ensures FieldOk(v, f, ctx) {
        EachFieldInExactlyOneStep(f);
      }
    } else {
      assert Issues(v, AllFields, ctx)[0] in Issues(v, AllFields, ctx);
    }
  }

  /** The length bounds of the four free-text fields, in UTF-16 code units. */
  lemma TextBounds(v: SubmissionForm, ctx: Context)
    ensures FieldOk(v, Nombre, ctx) <==> v.nombre.Defined? && 2 <= Utf16Length(v.nombre.value) <= 100
    ensures FieldOk(v, DescripcionBreve, ctx) <==>
      v.descripcionBreve.Defined? && 20 <= Utf16Length(v.descripcionBreve.value) <= 200
    ensures FieldOk(v, DescripcionLarga, ctx) <==>
      v.descripcionLarga.Defined? && 100 <= Utf16Length(v.descripcionLarga.value) <= 2000
    ensures FieldOk(v, Ubicacion, ctx) <==> v.ubicacion.Defined? && 2 <= Utf16Length(v.ubicacion.value) <= 100
  {
  }

  /** For text without astral characters the length the schema measures is the character count. */
  lemma {:induction false} Utf16LengthOfBmpText(s: string)
    requires forall i :: 0 <= i < |s| ==> s[i] as int <= 0xFFFF
    ensures Utf16Length(s) == |s|
  {
    if s != [] {
      Utf16LengthOfBmpText(s[1..]);
    }
  }

  /** The founding year passes iff it is a whole number from 1900 to the current year inclusive. */
  lemma YearRule(v: SubmissionForm, ctx: Context)
    ensures FieldOk(v, AnoFundacion, ctx) <==>
      exists y: int :: v.anoFundacion == WholeNumber(y) && 1900 <= y <= ctx.currentYear
  {
    if FieldOk(v, AnoFundacion, ctx) {
      var y := v.anoFundacion.value.value.Floor;
      assert v.anoFundacion == WholeNumber(y);
    }
  }

  /** The form value holding the whole number `y`. */
  function WholeNumber(y: int): Nullable<JsNumber> {
    Defined(Num(y as real))
  }

  /** 1.5 and `NaN` are not years; 1900 is, and so is the current year. */
  lemma YearExamples(ctx: Context)
    requires ctx.currentYear >= 1900
    ensures !YearOk(Defined(Num(1900.5)), ctx.currentYear)
    ensures !YearOk(Defined(NotANumber), ctx.currentYear)
    ensures !YearOk(Defined(Num(1899.0)), ctx.currentYear)
    ensures YearOk(Defined(Num(1900.0)), ctx.currentYear)
    ensures YearOk(Defined(Num(ctx.currentYear as real)), ctx.currentYear)
    ensures !YearOk(Defined(Num((ctx.currentYear + 1) as real)), ctx.currentYear)
  {
    assert (1900.5).Floor == 1900;
  }

  /** Any one to five tags pass, sector names or not; none, or six, fail. */
  lemma TagsRule(v: SubmissionForm, ctx: Context)
    ensures v.tags == Defined(["Crypto"]) ==> FieldOk(v, Tags, ctx)
    ensures "Crypto" !in AvailableSectors
    ensures v.tags == Defined([]) ==> !FieldOk(v, Tags, ctx)
    ensures v.tags.Defined? && |v.tags.value| > 5 ==> !FieldOk(v, Tags, ctx)
  {
  }

  /** The employee count is absent, null, or one of the five ranges; an empty string is not accepted. */
  lemma EmployeesRule(v: SubmissionForm, ctx: Context)
    ensures FieldOk(v, NumEmpleados, ctx) <==>
      v.numEmpleados.Undefined? || v.numEmpleados.Null? || v.numEmpleados.value in EmployeeRanges
    ensures v.numEmpleados == Defined("") ==> !FieldOk(v, NumEmpleados, ctx)
  {
  }

  /** The operating state is exactly one of the three names of the record's `estado` enum. */
  lemma EstadoRule(v: SubmissionForm, ctx: Context)
    ensures FieldOk(v, Estado, ctx) <==> exists e: Types.Estado :: v.estado == Defined(Types.EstadoName(e))
    ensures forall k :: 0 <= k < |CompanyStates| ==> CompanyStates[k].0 == EstadoValues[k]
  {
    if FieldOk(v, Estado, ctx) {
      var s := v.estado.value;
      if s == "active" { assert s == Types.EstadoName(Types.Active); }
      else if s == "acquired" { assert s == Types.EstadoName(Types.Acquired); }
      else { assert s == Types.EstadoName(Types.Closed); }
    }
  }

  /** Web, email, phone and each social link pass whenever they are missing or empty, whatever the checks say. */
  lemma EmptyOptionalsPass(v: SubmissionForm, ctx: Context)
    ensures (v.web.Undefined? || v.web.Null? || v.web == Defined("")) ==> FieldOk(v, Web, ctx)
    ensures (v.email.Undefined? || v.email.Null? || v.email == Defined("")) ==> FieldOk(v, Email, ctx)
    ensures (v.phone.Undefined? || v.phone.Null? || v.phone == Defined("")) ==> FieldOk(v, Phone, ctx)
    ensures v.redesSociales == Defined(SocialLinks(Defined(""), Defined(""), Defined(""), Defined(""))) ==>
      FieldOk(v, RedesSociales, ctx)
    ensures v.redesSociales.Undefined? ==> FieldOk(v, RedesSociales, ctx)
  {
  }

  /** A non-empty optional value must satisfy its check; a null social link fails. */
  lemma NonEmptyOptionalsChecked(v: SubmissionForm, ctx: Context, s: string)
    requires s != ""
    ensures v.web == Defined(s) ==> (FieldOk(v, Web, ctx) <==> ctx.validators.isUrl(s))
    ensures v.email == Defined(s) ==> (FieldOk(v, Email, ctx) <==> ctx.validators.isEmail(s))
    ensures v.phone == Defined(s) ==> (FieldOk(v, Phone, ctx) <==> MatchesPhone(s))
    ensures v.redesSociales.Defined? && v.redesSociales.value.linkedin.Null? ==> !FieldOk(v, RedesSociales, ctx)
    ensures v.redesSociales.Null? ==> !FieldOk(v, RedesSociales, ctx)
  {
  }

  /** The submitter's address is required and must be a valid email; in particular `''` is rejected. */
  lemma SubmitterEmailRequired(v: SubmissionForm, ctx: Context)
    ensures FieldOk(v, SubmitterEmail, ctx) ==> v.submitterEmail.Defined? && v.submitterEmail.value != ""
    ensures v.submitterEmail == Defined("") ==> !FieldOk(v, SubmitterEmail, ctx)
    ensures v.submitterEmail.Defined? && v.submitterEmail.value != "" ==>
      (FieldOk(v, SubmitterEmail, ctx) <==> ctx.validators.isEmail(v.submitterEmail.value))
    ensures v.submitterEmail == Defined("") ==> !PassesFull(v, ctx)
  {
    if v.submitterEmail.Defined? && v.submitterEmail.value != "" {
      assert Utf16Length(v.submitterEmail.value) >= 1;
    }
    if v.submitterEmail == Defined("") {
      assert SubmitterEmail in Issues(v, AllFields, ctx);
    }
  }

  /** Typical phone numbers pass the pattern; a lone plus, an empty body, a letter or an inner plus do not. */
  lemma PhoneExamples()
    ensures MatchesPhone("+34 976 (12)-3")
    ensures MatchesPhone("976123456")
    ensures !MatchesPhone("+")
    ensures !MatchesPhone("")
    ensures !MatchesPhone("976x")
    ensures !MatchesPhone("34+976")
  {
    assert !IsPhoneChar('x') && "976x"[3] == 'x';
    assert "34+976"[2] == '+' && "34+976"[1..][1] == '+';
  }

  /** A leading plus is the only place a plus may appear. */
  lemma PhonePlusOnlyFirst(s: string, i: nat)
    requires MatchesPhone(s)
    requires 0 < i < |s|
    ensures s[i] != '+'
  {
    if !PhoneBody(s) {
      assert s[1..][i - 1] == s[i];
    }
  }
}
