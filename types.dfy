/**
 * The records the application reads from and writes to its hosted database and identity
 * provider: a published startup, a pending submission, a user and its metadata.
 * The optional columns are `Option`s. The required columns (`nombre`, `slug`, both
 * descriptions and `estado`, which the interface in `types/startup.ts` declares non-null)
 * are plain values, even where the code still guards them (`?.replace`, `|| ''`,
 * `|| 'active'`): for a present value those guards change nothing.
 */
module Types {
  import opened Wrappers

  /** `estado`: a startup's operating status. */
  datatype Estado = Active | Acquired | Closed

  function EstadoName(e: Estado): string {
    match e
    case Active => "active"
    case Acquired => "acquired"
    case Closed => "closed"
  }

  /** A submission's moderation status. */
  datatype SubmissionStatus = Pending | Approved | Rejected

  function StatusName(s: SubmissionStatus): string {
    match s
    case Pending => "pending"
    case Approved => "approved"
    case Rejected => "rejected"
  }

  /** The three roles a user's metadata is meant to hold. */
  datatype UserRole = Entrepreneur | Investor | Admin

  function RoleName(r: UserRole): string {
    match r
    case Entrepreneur => "entrepreneur"
    case Investor => "investor"
    case Admin => "admin"
  }

  /** A row of the `startups` table. A `null` tag array behaves exactly like `[]` everywhere it is read. */
  datatype Startup = Startup(
    id: string,
    nombre: string,
    slug: string,
    descripcionBreve: string,
    descripcionLarga: string,
    logoUrl: Option<string>,
    anoFundacion: Option<int>,
    estado: Estado,
    ubicacion: Option<string>,
    tags: seq<string>,
    numEmpleados: Option<string>,
    web: Option<string>,
    email: Option<string>,
    phone: Option<string>,
    redesSociales: map<string, string>,
    inversionRecibida: Option<string>,
    pitchDeckUrl: Option<string>,
    isApproved: bool,
    createdBy: Option<string>,
    createdAt: Timestamp,
    updatedAt: Timestamp)

  /**
   * A timestamp column: the text the service sends (rendered as is in the CSV export) and the
   * instant `new Date(text)` parses it to, in milliseconds since the epoch.
   */
  datatype Timestamp = Timestamp(text: string, millis: int)

  /** The identity provider's user metadata; `role` is free text there, whatever the form allowed. */
  datatype Metadata = Metadata(role: Option<string>, fullName: Option<string>, company: Option<string>)

  /** A user as the identity provider returns it. */
  datatype AuthUser = AuthUser(
    id: string,
    email: Option<string>,
    metadata: Metadata,
    createdAt: Timestamp,
    lastSignInAt: Option<string>,
    emailConfirmedAt: Option<string>)

  /** A file the browser hands over: its name, its MIME type as reported, and its size in bytes. */
  datatype FileRef = FileRef(name: string, mimeType: string, size: nat)

  /** A row of `startup_owners`: a user's claim to own a startup. */
  datatype OwnershipClaim = OwnershipClaim(id: string, userId: string, startupId: string, approved: bool, createdAt: Timestamp)
}
