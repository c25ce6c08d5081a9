/**
 * The two endpoints that create a startup from a multipart form: the public submission
 * intake, which stores a pending submission, and the admin direct create, which stores an
 * approved startup. Both read the same fields, compute the same slug, upload the optional
 * logo and pitch deck one after the other, and insert one row. The admin listing of
 * submissions, with its optional status filter, is here as well.
 *
 * The hosted storage and database are not modelled: each upload's and the insert's success,
 * the clock readings and the public-URL builder are inputs. `JSON.parse` is a given function
 * returning `None` where it throws; the parsed value type `J` is left abstract.
 */
module Intake {
  import opened Wrappers
  import opened JsText
  import opened Types
  import opened FormData
  import Slug

  /** An HTTP answer: a success status with its payload, or a failure status with its message. */
  datatype Reply<R> =
    | Success(status: nat, value: R)
    | Failure(status: nat, message: Option<string>)

  /** The message of an error the runtime raises (a `TypeError`, a `SyntaxError`), whose text the model does not fix. */
  const RuntimeMessage: Option<string> := None

  /** `value || null` on a text: a missing or empty text becomes `null`. */
  function OrNull(v: Option<string>): (r: Option<string>)
    ensures r.None? <==> v.None? || v == Some("")
    ensures r.Some? ==> r == v
  {
    if v.Some? && v.value != "" then v else None
  }

  /** `parseInt(formData.get(key) as string)`; `NaN` is sent to the database as `null`. */
  function YearField(v: Option<string>): (r: Option<int>)
    ensures forall y: int :: v == Some(IntToDecimal(y)) ==> r == Some(y)
  {
    forall y: int | v == Some(IntToDecimal(y)) ensures ParseInt(v.value) == IntValue(y) {
      ParseIntOfDecimal(y);
    }
    match ParseInt(if v.Some? then v.value else "null")
    case IntValue(n) => Some(n)
    case NaN => None
  }

  /** The fields both endpoints read from the form. */
  datatype IntakeFields<J> = IntakeFields(
    nombre: string,
    slug: string,
    descripcionBreve: Option<string>,
    descripcionLarga: Option<string>,
    anoFundacion: Option<int>,
    ubicacion: Option<string>,
    tags: J,
    numEmpleados: Option<string>,
    estado: Option<string>,
    web: Option<string>,
    email: Option<string>,
    phone: Option<string>,
    redesSociales: J,
    inversionRecibida: Option<string>)

  /**
   * Reading the form: `None` when the runtime throws, that is when `tags` or `redes_sociales`
   * is not valid JSON or when `nombre` is missing (lower-casing `null` fails).
   */
  function ReadFields<J>(fd: Entries, parseJson: string -> Option<J>): (r: Option<IntakeFields<J>>)
    ensures r.Some? <==>
      GetText(fd, "nombre").Some?
      && parseJson(if GetText(fd, "tags").Some? then GetText(fd, "tags").value else "null").Some?
      && parseJson(if OrNull(GetText(fd, "redes_sociales")).Some? then GetText(fd, "redes_sociales").value else "{}").Some?
    ensures r.Some? ==>
      && r.value.nombre == GetText(fd, "nombre").value
      && r.value.slug == Slug.Slugify(r.value.nombre)
      && r.value.descripcionBreve == GetText(fd, "descripcion_breve")
      && r.value.descripcionLarga == GetText(fd, "descripcion_larga")
      && r.value.ubicacion == GetText(fd, "ubicacion")
      && r.value.estado == GetText(fd, "estado")
      && r.value.numEmpleados == OrNull(GetText(fd, "num_empleados"))
      && r.value.web == OrNull(GetText(fd, "web"))
      && r.value.email == OrNull(GetText(fd, "email"))
      && r.value.phone == OrNull(GetText(fd, "phone"))
      && r.value.inversionRecibida == OrNull(GetText(fd, "inversion_recibida"))
      && r.value.anoFundacion == YearField(GetText(fd, "año_fundacion"))
  {
    var nombre := GetText(fd, "nombre");
    var tagsText := GetText(fd, "tags");
    var tags := parseJson(if tagsText.Some? then tagsText.value else "null");
    var redesText := OrNull(GetText(fd, "redes_sociales"));
    var redes := parseJson(if redesText.Some? then redesText.value else "{}");
    if nombre.None? || tags.None? || redes.None? then None
    else
      Some(IntakeFields(
        nombre.value,
        Slug.Slugify(nombre.value),
        GetText(fd, "descripcion_breve"),
        GetText(fd, "descripcion_larga"),
        YearField(GetText(fd, "año_fundacion")),
        GetText(fd, "ubicacion"),
        tags.value,
        OrNull(GetText(fd, "num_empleados")),
        GetText(fd, "estado"),
        OrNull(GetText(fd, "web")),
        OrNull(GetText(fd, "email")),
        OrNull(GetText(fd, "phone")),
        redes.value,
        OrNull(GetText(fd, "inversion_recibida"))))
  }

  /** What the hosted services answer during one request, and the clock readings taken. */
  datatype Services = Services(
    logoUploadOk: bool,
    pitchUploadOk: bool,
    insertOk: bool,
    logoNow: nat,
    pitchNow: nat,
    publicUrl: (string, string) -> string)

  /** One storage upload the handler starts: bucket, object path and content type. */
  datatype UploadRequest = UploadRequest(bucket: string, path: string, contentType: string)

  const LogoBucket := "startup-logos"
  const PitchBucket := "pitch-decks"

  /** `${prefix}${now}-${slug}.${ext}` with `ext` the file name's text after its last dot. */
  function LogoPath(prefix: string, now: nat, slug: string, fileName: string): string {
    prefix + NatToDecimal(now) + "-" + slug + "." + LastPiece(fileName, '.')
  }

  /** `${prefix}${now}-${slug}-pitch.pdf`. */
  function PitchPath(prefix: string, now: nat, slug: string): string {
    prefix + NatToDecimal(now) + "-" + slug + "-pitch.pdf"
  }

  /** The uploads a request starts: the logo if one was sent, then the deck if one was sent and the logo did not fail. */
  function PlannedUploads(prefix: string, fd: Entries, slug: string, env: Services): seq<UploadRequest> {
    var logo := GetFile(fd, "logo");
    var pitch := GetFile(fd, "pitch_deck");
    var first := if logo.Some? then [UploadRequest(LogoBucket, LogoPath(prefix, env.logoNow, slug, logo.value.name), logo.value.mimeType)] else [];
    var second := if pitch.Some? && (logo.None? || env.logoUploadOk) then [UploadRequest(PitchBucket, PitchPath(prefix, env.pitchNow, slug), pitch.value.mimeType)] else [];
    first + second
  }

  /** The stored URLs, or the message of the upload that failed first. */
  datatype Uploaded = Uploaded(logoUrl: Option<string>, pitchDeckUrl: Option<string>) | UploadFailed(message: string)

  function PlannedUrls(prefix: string, fd: Entries, slug: string, env: Services): Uploaded {
    var logo := GetFile(fd, "logo");
    var pitch := GetFile(fd, "pitch_deck");
    if logo.Some? && !env.logoUploadOk then UploadFailed("Error al subir el logo")
    else if pitch.Some? && !env.pitchUploadOk then UploadFailed("Error al subir el pitch deck")
    else Uploaded(
      if logo.Some? then Some(env.publicUrl(LogoBucket, LogoPath(prefix, env.logoNow, slug, logo.value.name))) else None,
      if pitch.Some? then Some(env.publicUrl(PitchBucket, PitchPath(prefix, env.pitchNow, slug))) else None)
  }

  /** The two uploads in sequence, each throwing on failure before anything after it runs. */
  method UploadFiles(prefix: string, fd: Entries, slug: string, env: Services) returns (result: Uploaded, uploads: seq<UploadRequest>)
    ensures result == PlannedUrls(prefix, fd, slug, env)
    ensures uploads == PlannedUploads(prefix, fd, slug, env)
  {
    var logoUrl: Option<string> := None;
    var pitchDeckUrl: Option<string> := None;
    uploads := [];
    var logoFile := GetFile(fd, "logo");
    var pitchDeckFile := GetFile(fd, "pitch_deck");
    if logoFile.Some? {
      var logoPath := LogoPath(prefix, env.logoNow, slug, logoFile.value.name);
      uploads := uploads + [UploadRequest(LogoBucket, logoPath, logoFile.value.mimeType)];
      if !env.logoUploadOk {
        return UploadFailed("Error al subir el logo"), uploads;
      }
      logoUrl := Some(env.publicUrl(LogoBucket, logoPath));
    }
    if pitchDeckFile.Some? {
      var pitchPath := PitchPath(prefix, env.pitchNow, slug);
      uploads := uploads + [UploadRequest(PitchBucket, pitchPath, pitchDeckFile.value.mimeType)];
      if !env.pitchUploadOk {
        return UploadFailed("Error al subir el pitch deck"), uploads;
      }
      pitchDeckUrl := Some(env.publicUrl(PitchBucket, pitchPath));
    }
    result := Uploaded(logoUrl, pitchDeckUrl);
  }

  /** What distinguishes the two kinds of row: a pending submission, or a startup an admin created. */
  datatype RowKind =
    | PendingSubmission(submitterEmail: Option<string>, status: SubmissionStatus)
    | DirectStartup(isApproved: bool, createdBy: string)

  /** The row sent to the database insert. */
  datatype IntakeRow<J> = IntakeRow(fields: IntakeFields<J>, logoUrl: Option<string>, pitchDeckUrl: Option<string>, kind: RowKind)

  /** `POST /api/submissions`: store a pending submission. */
  method SubmitStartup<J>(fd: Entries, parseJson: string -> Option<J>, env: Services)
    returns (reply: Reply<IntakeRow<J>>, uploads: seq<UploadRequest>)
    ensures ReadFields(fd, parseJson).None? ==> reply == Failure(500, RuntimeMessage) && uploads == []
    ensures ReadFields(fd, parseJson).Some? ==>
      var f := ReadFields(fd, parseJson).value;
      && uploads == PlannedUploads("submissions/", fd, f.slug, env)
      && match PlannedUrls("submissions/", fd, f.slug, env)
         case UploadFailed(m) => reply == Failure(500, Some(m))
         case Uploaded(logo, pitch) =>
           reply == if env.insertOk
             then Success(201, IntakeRow(f, logo, pitch, PendingSubmission(GetText(fd, "submitter_email"), Pending)))
             else Failure(500, Some("Error al guardar la solicitud"))
    ensures reply.Success? ==> reply.status == 201 && reply.value.kind.PendingSubmission? && reply.value.kind.status == Pending
    ensures reply.Success? ==> reply.value.fields.slug == Slug.Slugify(reply.value.fields.nombre) && Slug.IsSlug(reply.value.fields.slug)
    ensures reply.Failure? ==> reply.status == 500
  {
    var fields := ReadFields(fd, parseJson);
    if fields.None? {
      return Failure(500, RuntimeMessage), [];
    }
    var f := fields.value;
    Slug.SlugifyIsSlug(f.nombre);
    var urls;
    urls, uploads := UploadFiles("submissions/", fd, f.slug, env);
    if urls.UploadFailed? {
      return Failure(500, Some(urls.message)), uploads;
    }
    if !env.insertOk {
      return Failure(500, Some("Error al guardar la solicitud")), uploads;
    }
    var row := IntakeRow(f, urls.logoUrl, urls.pitchDeckUrl, PendingSubmission(GetText(fd, "submitter_email"), Pending));
    reply := Success(201, row);
  }

  /** `POST /api/admin/startups/create`: an admin stores an approved startup directly. */
  method CreateStartup<J>(user: Option<AuthUser>, fd: Entries, parseJson: string -> Option<J>, env: Services)
    returns (reply: Reply<IntakeRow<J>>, uploads: seq<UploadRequest>)
    ensures user.None? ==> reply == Failure(401, Some("No autorizado")) && uploads == []
    ensures user.Some? && user.value.metadata.role != Some("admin") ==> reply == Failure(403, Some("No autorizado")) && uploads == []
    ensures user.Some? && user.value.metadata.role == Some("admin") ==>
      if ReadFields(fd, parseJson).None? then reply == Failure(500, RuntimeMessage) && uploads == []
      else
        var f := ReadFields(fd, parseJson).value;
        && uploads == PlannedUploads("startups/", fd, f.slug, env)
        && match PlannedUrls("startups/", fd, f.slug, env)
           case UploadFailed(m) => reply == Failure(500, Some(m))
           case Uploaded(logo, pitch) =>
             reply == if env.insertOk
               then Success(201, IntakeRow(f, logo, pitch, DirectStartup(true, user.value.id)))
               else Failure(500, Some("Error al crear la startup"))
    ensures reply.Success? ==> user.Some? && reply.value.kind == DirectStartup(true, user.value.id)
    ensures reply.Success? ==> Slug.IsSlug(reply.value.fields.slug)
  {
    if user.None? {
      return Failure(401, Some("No autorizado")), [];
    }
    if user.value.metadata.role != Some("admin") {
      return Failure(403, Some("No autorizado")), [];
    }
    var fields := ReadFields(fd, parseJson);
    if fields.None? {
      return Failure(500, RuntimeMessage), [];
    }
    var f := fields.value;
    Slug.SlugifyIsSlug(f.nombre);
    var urls;
    urls, uploads := UploadFiles("startups/", fd, f.slug, env);
    if urls.UploadFailed? {
      return Failure(500, Some(urls.message)), uploads;
    }
    if !env.insertOk {
      return Failure(500, Some("Error al crear la startup")), uploads;
    }
    reply := Success(201, IntakeRow(f, urls.logoUrl, urls.pitchDeckUrl, DirectStartup(true, user.value.id)));
  }

  /** The stored path keeps the uploaded file's extension: reading the text after its last dot gives it back. */
  lemma LogoPathKeepsExtension(prefix: string, now: nat, slug: string, fileName: string)
    ensures LastPiece(LogoPath(prefix, now, slug, fileName), '.') == LastPiece(fileName, '.')
    ensures StartsWith(LogoPath(prefix, now, slug, fileName), prefix)
  {
    var ext := LastPiece(fileName, '.');
    var head := prefix + NatToDecimal(now) + "-" + slug;
    assert LogoPath(prefix, now, slug, fileName) == head + "." + ext;
    LastPieceAfterSeparator(head, ext, '.');
    assert (head + "." + ext)[..|prefix|] == prefix;
  }

  /** Both endpoints' pitch-deck paths sit under their prefix and end in `-pitch.pdf`. */
  lemma PitchPathShape(prefix: string, now: nat, slug: string)
    ensures StartsWith(PitchPath(prefix, now, slug), prefix)
    ensures var p := PitchPath(prefix, now, slug); |p| >= 10 && p[|p| - 10..] == "-pitch.pdf"
  {
    var p := PitchPath(prefix, now, slug);
    assert p[..|prefix|] == prefix;
    assert p == (prefix + NatToDecimal(now) + "-" + slug) + "-pitch.pdf";
  }

  /** A failed logo upload stops the request before the deck is uploaded or anything is inserted. */
  lemma LogoFailureStopsEarly(prefix: string, fd: Entries, slug: string, env: Services)
    requires GetFile(fd, "logo").Some? && !env.logoUploadOk
    ensures PlannedUrls(prefix, fd, slug, env) == UploadFailed("Error al subir el logo")
    ensures |PlannedUploads(prefix, fd, slug, env)| == 1
    ensures PlannedUploads(prefix, fd, slug, env)[0].bucket == LogoBucket
  {
  }

  /** The two endpoints read the form identically, so every slug property holds for both. */
  lemma RoutesShareSlug<J>(fd: Entries, parseJson: string -> Option<J>)
    requires ReadFields(fd, parseJson).Some?
    ensures Slug.IsSlug(ReadFields(fd, parseJson).value.slug)
    ensures Slug.Slugify(ReadFields(fd, parseJson).value.slug) == ReadFields(fd, parseJson).value.slug
  {
    var f := ReadFields(fd, parseJson).value;
    Slug.SlugifyIsSlug(f.nombre);
    Slug.SlugifyIdempotent(f.nombre);
  }

  /** A row read back from the `submissions` table. */
  datatype StoredSubmission = StoredSubmission(id: string, slug: string, status: SubmissionStatus, createdAt: Timestamp)

  /** Newest first, as the query's `created_at` descending order returns them. */
  predicate NewestFirst(rows: seq<StoredSubmission>) {
    forall i, j :: 0 <= i < j < |rows| ==> rows[i].createdAt.millis >= rows[j].createdAt.millis
  }

  /** `.eq('status', status)`: the rows whose status has the given name, in order. */
  function WithStatus(rows: seq<StoredSubmission>, status: string): (r: seq<StoredSubmission>)
    ensures forall x :: x in r <==> x in rows && StatusName(x.status) == status
    ensures |r| <= |rows|
    ensures NewestFirst(rows) ==> NewestFirst(r)
  {
    if rows == [] then []
    else
      var rest := WithStatus(rows[1..], status);
      assert NewestFirst(rows) ==> NewestFirst(rows[1..]) && forall x :: x in rest ==> rows[0].createdAt.millis >= x.createdAt.millis by {
        if NewestFirst(rows) {
          forall x | x in rest ensures rows[0].createdAt.millis >= x.createdAt.millis {
            var k :| 0 <= k < |rows[1..]| && rows[1..][k] == x;
            assert rows[k + 1] == x;
          }
        }
      }
      if StatusName(rows[0].status) == status then [rows[0]] + rest else rest
  }

  /**
   * `GET /api/submissions`: 401 without a user, 403 unless the stored role is exactly `admin`,
   * otherwise the fetched rows, narrowed to one status when a non-empty `status` is given.
   * `table` is the service's answer to the ordered query; `fetchOk` says whether it answered.
   */
  function ListSubmissions(user: Option<AuthUser>, status: Option<string>, table: seq<StoredSubmission>, fetchOk: bool)
    : (r: Reply<seq<StoredSubmission>>)
    ensures user.None? ==> r == Failure(401, Some("No autorizado"))
    ensures user.Some? && user.value.metadata.role != Some("admin") ==> r == Failure(403, Some("No autorizado"))
    ensures user.Some? && user.value.metadata.role == Some("admin") && !fetchOk ==>
      r == Failure(500, Some("Error al obtener las solicitudes"))
    ensures user.Some? && user.value.metadata.role == Some("admin") && fetchOk ==> r.Success?
    ensures r.Success? ==> r.status == 200 && fetchOk
    ensures r.Success? && (status.None? || status == Some("")) ==> r.value == table
    ensures r.Success? && status.Some? && status.value != "" ==>
      forall x :: x in r.value <==> x in table && StatusName(x.status) == status.value
    ensures r.Success? && NewestFirst(table) ==> NewestFirst(r.value)
  {
    if user.None? then Failure(401, Some("No autorizado"))
    else if user.value.metadata.role != Some("admin") then Failure(403, Some("No autorizado"))
    else if !fetchOk then Failure(500, Some("Error al obtener las solicitudes"))
    else if status.Some? && status.value != "" then Success(200, WithStatus(table, status.value))
    else Success(200, table)
  }
}
