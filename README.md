# Aragón startups directory: a verified model of its rules

Aragón startups is a directory of the region's startups. Founders submit their startup through a
five-step form. Administrators approve or reject the submissions, add startups directly, edit
users and export the directory as CSV. Visitors browse and filter the approved startups.
Investors also see contact details and pitch decks. Entrepreneurs can claim a listed startup as
their own. The application is a thin layer over a hosted database, file store and identity
service. Its logic sits in small rules spread over its handlers, helpers, components and maintenance
scripts, and this project models those rules in Dafny and proves what they promise.

The model has one module per source file, or per concern shared between files:

- `Types`, `Wrappers`, `JsText`, `JsValue`, `Sequences`: the records (startups, submissions,
  users and their metadata), `Option`, and the JavaScript built-ins the rules rely on: `trim`,
  `split`, `join`, `startsWith`, `toLowerCase`, `parseInt`, string length in UTF-16 units,
  and `String(…)` of form values.
- `SubmissionSchema`, `AuthSchema`, `UserEdit`: the form schemas as predicates, one per field
  and per step, with each field's outcome.
- `Slug`: the slug transform shared by the two create routes. `Intake`: the pending submission
  and the auto-approved startup each route builds, and the answers they give.
- `Listing`: the listing query as clauses over rows, the page range, the premium-field gate,
  the filter options and the pitch-deck gate.
- `CsvExport`: the CSV export, together with a strict reader of CSV files in the sense of
  RFC 4180, section 2, used to state what the export reads back as.
- `Roles`, `AdminGate`, `AdminStartups`, `AdminUsers`, `ClaimsAdmin`, `DashboardNav`: the role helpers,
  the admin pages' gate and statistics, the claims partition and the navigation filter.
- `NewStartupPage`, `EditForm`, `TagSelection`, `FileUpload`, `Filters`, `SubmissionActions`,
  `ClaimButton`: the client components. Where a component updates its state step by step, it is
  a class whose fields are that state and whose methods are its handlers.
- `AuthCallback`: the identity provider's callback redirect.
- `EnvFile`, `StoragePolicies`: the `.env.local` loader and the credential check shared by the
  scripts, and the storage-policy script's statement splitter and execution loop.

Everything the hosted services answer is an input: the signed-in user, query rows, upload and
insert outcomes, and each SQL call's outcome. The clock is an input too: the current year, the
first instant of the month, and the timestamp in export file names. zod's `url()` and
`email()` checks are parameters (`Validators`).

In a few places the code does less, or other, than its own comments, messages or neighbouring
code suggest; the model follows the code:

- The password rule's lookaheads use `.*`, which stops at a line terminator. So a lower-case
  letter, an upper-case letter and a digit must occur in the first line of the password, not
  anywhere in it (`AuthSchema`).
- Toggling tags in the admin's new-startup form keeps only the first five. A list that already
  holds more than five is cut to five, and only a list of exactly five is left unchanged
  (`TagSelection.ToggleCappedAdds`).
- Social links are optional but not nullable, so a `null` link fails the schema.
- In the `.env.local` loader, a key made only of white space is truthy and is stored under the
  empty name (`EnvFile.BlankKeyStoresUnderEmptyName`).
- The callback redirect uses `next ?? '/dashboard'`, so an empty `next` is kept as it is.
- The edit form's submit and the CSV export are modelled as written (`EditForm.EditFormState.Submit`,
  `CsvExport.ExportStartups`), with the corrected versions beside them (see "## Findings").

## Model

| member | source | states |
|---|---|---|
| SubmissionSchema.Issues | lib/validations/submission.ts:4-104 | a key is reported exactly when it is among the keys checked and its rule fails |
| SubmissionSchema.StepsConcatenate | lib/validations/submission.ts:109-138 | the five step schemas pick the full schema's keys in declaration order, one step after another |
| SubmissionSchema.EachFieldInExactlyOneStep | lib/validations/submission.ts:109-138 | every key belongs to exactly one of the five steps |
| SubmissionSchema.StepOf | lib/validations/submission.ts:109-138 | the step a key is picked by, between 1 and 5 |
| SubmissionSchema.FullIssuesAreStepIssues | lib/validations/submission.ts:4-104 | the full schema reports exactly the issues of step 1, then step 2, up to step 5 |
| SubmissionSchema.FullIffEveryStep | lib/validations/submission.ts:109-138 | a form passes the full schema if and only if it passes every step schema |
| SubmissionSchema.FullIffEveryField | lib/validations/submission.ts:4-104 | a form passes the full schema if and only if every one of the sixteen field rules holds |
| SubmissionSchema.TextBounds | lib/validations/submission.ts:6-16 | nombre is 2-100, descripcion_breve 20-200, descripcion_larga 100-2000 and ubicacion 2-100 UTF-16 code units long, and present |
| SubmissionSchema.Utf16LengthOfBmpText | lib/validations/submission.ts:6-16 | for text without astral characters the measured length is the character count |
| SubmissionSchema.YearRule | lib/validations/submission.ts:19-22 | the founding year passes if and only if it is a whole number from 1900 to the current year inclusive |
| SubmissionSchema.YearExamples | lib/validations/submission.ts:19-22 | 1900.5, NaN, 1899 and next year fail; 1900 and the current year pass |
| SubmissionSchema.TagsRule | lib/validations/submission.ts:28-30 | one tag that is not a listed sector passes; no tags or more than five fail |
| SubmissionSchema.EmployeesRule | lib/validations/submission.ts:32-34 | the employee count passes if and only if it is absent, null or one of the five ranges; the empty string fails |
| SubmissionSchema.EstadoRule | lib/validations/submission.ts:36 | the state passes if and only if it names one of the three record states, in the order of the display list |
| SubmissionSchema.EmptyOptionalsPass | lib/validations/submission.ts:39-88 | web, email, phone and the social links pass when absent, null or empty, whatever the library checks say |
| SubmissionSchema.NonEmptyOptionalsChecked | lib/validations/submission.ts:39-88 | a non-empty web, email or phone passes if and only if its check holds; a null social link or links object fails |
| SubmissionSchema.SubmitterEmailRequired | lib/validations/submission.ts:101-103 | the submitter's email must be present, non-empty and valid; the empty string fails the full schema |
| SubmissionSchema.PhoneExamples | lib/validations/submission.ts:59 | typical numbers match the phone pattern; a lone plus, the empty string, a letter and an inner plus do not |
| SubmissionSchema.PhonePlusOnlyFirst | lib/validations/submission.ts:59 | a matching number has a plus at most in its first position |
| AuthSchema.FirstLine | lib/validations/auth.ts:9 | the prefix before the first line terminator, with no terminator in it |
| AuthSchema.KeyIssues | lib/validations/auth.ts:3-20 | a key is reported exactly when it is among the keys checked and one of its checks fails |
| AuthSchema.SignUpRule | lib/validations/auth.ts:3-24 | sign-up passes if and only if every field check holds and the two passwords are equal |
| AuthSchema.SignUpMismatch | lib/validations/auth.ts:21-24 | different passwords never pass, and once the fields typed correctly the last issue is on confirmPassword |
| AuthSchema.SignUpNeverAdmin | lib/validations/auth.ts:14-16 | a form that passes sign-up never carries the admin role |
| AuthSchema.PasswordPatternSingleLine | lib/validations/auth.ts:9 | without a line break the pattern asks for a lower-case letter, a capital and a digit anywhere |
| AuthSchema.FirstLineOfBrokenText | lib/validations/auth.ts:9 | the first line of a text is what precedes its first terminator |
| AuthSchema.PasswordPatternStopsAtLineBreak | lib/validations/auth.ts:9 | the capital and digit after a line break are not seen, so the pattern fails on `abcdefgh` + line feed + `A1` |
| AuthSchema.PasswordPatternAccepts | lib/validations/auth.ts:9 | `Abcdefg1` passes the pattern |
| AuthSchema.BrokenLineNeedsCapital | lib/validations/auth.ts:9 | a text whose first line has no capital fails the pattern, whatever follows the line break |
| AuthSchema.SignInHasNoStrengthRule | lib/validations/auth.ts:26-29 | sign-in accepts any password of at least one code unit, including one sign-up refuses |
| AuthSchema.NewPasswordMatchesSignUp | lib/validations/auth.ts:35-47 | the new-password form passes if and only if the sign-up strength rule and the confirmation both hold |
| AuthSchema.ResetChecksSignInEmail | lib/validations/auth.ts:31-33 | the reset form passes whenever sign-in would, and with any non-empty password sign-in passes whenever the reset form does |
| Slug.StripMarks | app/api/submissions/route.ts:36 | no combining mark (U+0300-U+036F) is left |
| Slug.DropNonSlugChars | app/api/submissions/route.ts:37 | the result is a suffix of the input that starts with a letter or digit, or is empty |
| Slug.CollapseRuns | app/api/submissions/route.ts:37 | the result has only `[a-z0-9-]` and no double hyphen, is empty only for empty input, and starts with a hyphen exactly when the input starts outside `[a-z0-9]` |
| Slug.DropLeadingHyphens | app/api/submissions/route.ts:38 | the result is the input without its leading run of hyphens |
| Slug.DropTrailingHyphens | app/api/submissions/route.ts:38 | the result is the input without its trailing run of hyphens |
| Slug.SliceKeepsShape | app/api/submissions/route.ts:38 | a contiguous piece of a string in `[a-z0-9-]` with no `--` keeps both properties |
| Slug.SlugifyIsSlug | app/api/submissions/route.ts:33-38 | every slug has only `[a-z0-9-]`, no hyphen at either end and no `--` |
| Slug.CollapseRunsFixed | app/api/submissions/route.ts:37 | text already in `[a-z0-9-]` without `--` is left unchanged by the run replacement |
| Slug.FoldedFixed | app/api/submissions/route.ts:34-36 | lower-casing, decomposition and mark removal leave `[a-z0-9-]` text unchanged |
| Slug.NfdStripFixed | app/api/submissions/route.ts:35-36 | decomposing and stripping marks leaves `[a-z0-9-]` text unchanged |
| Slug.StripMarksAppend | app/api/submissions/route.ts:36 | mark removal distributes over concatenation |
| Slug.SlugIsFixedPoint | app/api/submissions/route.ts:33-38 | a well-formed slug is its own slug |
| Slug.SlugifyIdempotent | app/api/admin/startups/create/route.ts:46-51 | slugifying a slug gives it back |
| Slug.SlugCharsAppend | app/api/submissions/route.ts:37 | the letters and digits of a concatenation are those of each part, in order |
| Slug.DropNonSlugCharsKeeps | app/api/submissions/route.ts:37 | dropping a leading run outside `[a-z0-9]` loses no letter or digit |
| Slug.CollapseRunsKeeps | app/api/submissions/route.ts:37 | the run replacement keeps every letter and digit, in order, and adds none |
| Slug.HyphensHaveNoSlugChars | app/api/submissions/route.ts:38 | a run of hyphens holds no letter or digit |
| Slug.DropLeadingHyphensKeeps | app/api/submissions/route.ts:38 | removing the leading hyphens keeps every letter and digit |
| Slug.DropTrailingHyphensKeeps | app/api/submissions/route.ts:38 | removing the trailing hyphens keeps every letter and digit |
| Slug.TrimHyphensKeeps | app/api/submissions/route.ts:38 | trimming the edge hyphens keeps every letter and digit |
| Slug.SlugifyKeepsLettersAndDigits | app/api/submissions/route.ts:33-38 | the slug holds exactly the letters and digits of the folded name, in order |
| Slug.SlugifyEmptyIff | app/api/submissions/route.ts:33-38 | the slug is empty if and only if the folded name has no letter or digit |
| Slug.SlugEmptyIff | app/api/submissions/route.ts:37-38 | a well-formed slug is empty exactly when it has no letter or digit |
| Slug.FoldsAccentedCapital | app/api/submissions/route.ts:34-36 | `Ñ` is lower-cased, decomposed and its tilde stripped, leaving `n` |
| Slug.CollapseJoinsWords | app/api/submissions/route.ts:37 | a non-empty run outside `[a-z0-9]` between two words becomes exactly one hyphen |
| Intake.OrNull | app/api/submissions/route.ts:19-25 | a missing or empty text becomes null, any other text is kept |
| Intake.YearField | app/api/submissions/route.ts:16 | the decimal text of a year parses back to that year |
| Intake.ReadFields | app/api/submissions/route.ts:13-38 | the form reads without throwing if and only if nombre is present and both JSON fields parse; then every field is read as the handler reads it and the slug is the name's slug |
| Intake.UploadFiles | app/api/submissions/route.ts:43-88 | the uploads started and the URLs stored are those of the planned sequence: logo first, deck only if the logo did not fail |
| Intake.SubmitStartup | app/api/submissions/route.ts:4-142 | a form that cannot be read gives 500 with no upload; otherwise the planned uploads, then 201 with a pending row, or 500 with the first failure's message |
| Intake.CreateStartup | app/api/admin/startups/create/route.ts:4-152 | 401 without a user, 403 unless the stored role is `admin`, otherwise as the submission route but storing an approved row created by the admin |
| Intake.LogoPathKeepsExtension | app/api/submissions/route.ts:45-46 | the logo path starts with the prefix and its text after the last dot is the file name's |
| Intake.PitchPathShape | app/api/admin/startups/create/route.ts:82 | the deck path starts with the prefix and ends in `-pitch.pdf` |
| Intake.LogoFailureStopsEarly | app/api/submissions/route.ts:55-58 | a failed logo upload is the only upload and gives its message |
| Intake.RoutesShareSlug | app/api/admin/startups/create/route.ts:46-51 | the slug both routes store is well formed and its own slug |
| Intake.WithStatus | app/api/submissions/route.ts:169-171 | a row is kept exactly when its status has the given name, and newest-first order is kept |
| Intake.ListSubmissions | app/api/submissions/route.ts:145-187 | 401 without a user, 403 unless admin; for an admin, 500 with "Error al obtener las solicitudes" exactly when the query fails and 200 otherwise, with the rows, narrowed to a non-empty status, newest first kept |
| FormData.Get | app/api/submissions/route.ts:13-30 | null exactly when no entry has the name; otherwise the value of the first entry with that name |
| FormData.Append | app/admin/startups/new/page.tsx:72-90 | appending adds one entry at the end and keeps the others |
| FormData.GetAfterAppend | app/admin/startups/new/page.tsx:72-90 | appending never changes what get returns for a name already present, and defines an absent one |
| FormData.GetPrefix | app/admin/startups/new/page.tsx:72-90 | get on two joined entry lists looks in the first list before the second |
| Roles.GetUserRole | lib/auth/auth-helpers.ts:121-123 | the role is never empty: the stored role when it is a non-empty text, `entrepreneur` otherwise |
| Roles.MissingUserIsEntrepreneur | lib/auth/auth-helpers.ts:121-144 | no user, or no stored role, counts as an entrepreneur and as nothing else |
| Roles.RolePredicatesExclusive | lib/auth/auth-helpers.ts:128-144 | no two role predicates hold together, and one holds exactly when the role read is one of the three names |
| Roles.PredicateMatchesKnownRole | lib/auth/auth-helpers.ts:128-144 | each predicate holds exactly when the role read back is that role's name |
| Roles.KnownRoleOfName | types/user.ts:1 | reading a role's name gives the role back |
| Roles.SignUpMetadata | lib/auth/auth-helpers.ts:26-31 | the stored metadata holds the name, the role's name, and the company or null when it is missing or empty |
| Roles.SignUpRoleReadsBack | lib/auth/auth-helpers.ts:20-34 | a user created by sign-up reads back exactly the role chosen |
| NewStartupPage.OutName | app/admin/startups/new/page.tsx:80-83 | an entry is sent under its own key, or under `logo` or `pitch_deck` |
| NewStartupPage.Encode | app/admin/startups/new/page.tsx:75-86 | an entry is dropped exactly when it is neither the links nor the tags and its value is null or undefined; a kept entry is named as the renaming says |
| NewStartupPage.SerializeForm | app/admin/startups/new/page.tsx:72-90 | the body is the encoded entries in order, followed by the direct-add flag |
| NewStartupPage.SerializedEntries | app/admin/startups/new/page.tsx:75-87 | an entry is in the body exactly when some field encodes to it |
| NewStartupPage.SerializedMissing | app/admin/startups/new/page.tsx:75-87 | no name appears in the body that no field is sent under |
| NewStartupPage.SerializedLookup | app/admin/startups/new/page.tsx:75-87 | reading a field's name from the body gives that field's encoding when no earlier field uses the name |
| NewStartupPage.FlagReadsBack | app/admin/startups/new/page.tsx:90 | the flag reads back as `true` when no field is itself called `admin_direct_add` |
| NewStartupPage.FormEntries | app/admin/startups/new/page.tsx:75 | the form's entries are its keys in declaration order |
| NewStartupPage.BodyLookup | app/admin/startups/new/page.tsx:75-90 | a plain field is read back from the body as it was encoded |
| NewStartupPage.NameReachesCreateRoute | app/admin/startups/new/page.tsx:85 | the name reaches the create route as typed |
| NewStartupPage.YearReachesCreateRoute | app/admin/startups/new/page.tsx:85 | the founding year reaches the create route as decimal text that parses back to it |
| NewStartupPage.TagsReachCreateRoute | app/admin/startups/new/page.tsx:78-79 | the tags reach the create route as their JSON text |
| NewStartupPage.LogoReachesCreateRoute | app/admin/startups/new/page.tsx:80-81 | a chosen logo reaches the create route as a file named `logo` |
| NewStartupPage.FlagReachesCreateRoute | app/admin/startups/new/page.tsx:90 | the direct-add flag always reads back as `true` |
| NewStartupPage.AdminDefaults | app/admin/startups/new/page.tsx:36-46 | the defaults set the state to active, no tags, empty links and the admin address |
| NewStartupPage.DefaultsNeedInput | app/admin/startups/new/page.tsx:36-46 | the defaults satisfy the state and links rules but not the tags or name rules, so the untouched form does not pass |
| NewStartupPage.OutcomeAlert | app/admin/startups/new/page.tsx:101-115 | success alerts the created message; a refusal alerts its message or the default; a throw alerts the error's message or the default |
| NewStartupPage.NewStartupForm.ToggleTag | app/admin/startups/new/page.tsx:55-62 | the selection becomes the capped toggle and the form's tags follow it |
| NewStartupPage.NewStartupForm.Submit | app/admin/startups/new/page.tsx:64-119 | invalid values alert and post nothing; valid ones post one body, alert the outcome, go to `/admin` and refresh only on success, and end not submitting |
| Listing.PageRange | lib/api/startups.ts:61-62 | the requested range holds exactly `limit` positions |
| Listing.BuildQuery | lib/api/startups.ts:28-63 | the query starts with the approved filter and the newest-first order, ends with the page range, and a row passes its clauses exactly when it is approved and meets every filter that is set |
| Listing.BuiltQuery | lib/api/startups.ts:28-63 | the same facts for the filter clauses followed by any range |
| Listing.RowPassesAppend | lib/api/startups.ts:34-58 | chaining two clause lists combines their conditions with AND |
| Listing.RowPassesOne | lib/api/startups.ts:34-58 | a one-clause chain is that clause's condition |
| Listing.ClausesMatch | lib/api/startups.ts:31-58 | the filter clauses accept a row exactly when it is approved, the text query read as an ILIKE pattern (`%` and `*` any run, `_` any one character, `\` escaping) matches one of the three columns ignoring case, the location matches likewise, a tag is shared, the year is within the set inclusive bounds and the employee range is equal, each only when that filter is set |
| Listing.PlainNeedleIsSubstring | lib/api/startups.ts:37-41 | a query without `%`, `_`, `*` or `\` matches a column exactly when it occurs in it, ignoring case |
| Listing.AroundMeansContains | lib/api/startups.ts:37-41 | `%m%` for a plain `m` matches exactly the texts containing `m` |
| Listing.PlainThenPercent | lib/api/startups.ts:37-41 | `m%` for a plain `m` matches exactly the texts starting with `m` |
| Listing.UnderscoreMatchesAnyCharacter | lib/api/startups.ts:37 | the query `a_c` matches `abc`, which does not contain `a_c`: the filter is a pattern, not a substring search |
| Listing.Select | lib/api/startups.ts:65 | a row is selected exactly when it is in the table and passes every clause |
| Listing.Window | lib/api/startups.ts:63 | the window is the contiguous run of rows from `from`, and holds `to - from + 1` rows when they exist |
| Listing.GetApprovedStartups | lib/api/startups.ts:18-83 | on a thrown error the result is empty with count 0 and "Error al cargar startups: " and the message; on a service error it is empty with count 0 and the database error text; otherwise the count is the number of matching rows and the data is the requested page of them, each approved and matching |
| Listing.SelectSamePredicate | lib/api/startups.ts:28-58 | two clause lists that accept the same rows select the same rows |
| Listing.PagesTile | lib/api/startups.ts:60-63 | each page holds `limit` positions, the next page starts right after it, and page 1 onwards starts at a position of at least 0 |
| Listing.PageOfPosition | lib/api/startups.ts:60-63 | every position is on exactly one page |
| Listing.FeaturedStartups | lib/api/startups.ts:133-155 | a thrown error gives no rows and the fixed message, a service error no rows and that error; otherwise at most six rows, all approved, the first six of the approved rows in table order |
| Listing.HidePremium | lib/api/startups.ts:116-119 | email, phone and pitch-deck path are removed and every other field is unchanged |
| Listing.WithSlug | lib/api/startups.ts:102-106 | the selected rows are exactly the approved ones with that slug |
| Listing.GetStartupBySlug | lib/api/startups.ts:89-128 | an unexpected exception gives no record and the fixed `Error inesperado al cargar la startup`; otherwise, unless exactly one approved row has the slug the answer is the service error, and with one such row there is a record; premium fields are visible exactly to an investor by stored role; anyone else gets the record without the premium fields; an investor gets the row unchanged |
| Listing.NonInvestorSeesPublicCopy | lib/api/startups.ts:114-121 | a non-investor gets exactly the public copy of the single matching row |
| Listing.StrLessIrreflexive | lib/api/startups.ts:233 | no text sorts before itself |
| Listing.StrLessTransitive | lib/api/startups.ts:233 | the sort order is transitive |
| Listing.StrLessTotal | lib/api/startups.ts:233 | any two different texts are ordered one way or the other |
| Listing.StrLessAsymmetric | lib/api/startups.ts:233 | the sort order is asymmetric |
| Listing.Insert | lib/api/startups.ts:233 | inserting keeps the list strictly sorted and adds exactly the new text |
| Listing.SortedDistinct | lib/api/startups.ts:233-243 | the result is strictly increasing and holds exactly the texts of the input |
| Listing.StrictlySortedUnique | lib/api/startups.ts:233-243 | two strictly sorted lists with the same texts are equal, so the deduplicated sort has a single answer |
| Listing.Locations | lib/api/startups.ts:226-233 | a location is listed exactly when an approved startup records it |
| Listing.AllTags | lib/api/startups.ts:237-242 | a tag is listed exactly when an approved startup carries it |
| Listing.Years | lib/api/startups.ts:246-253 | a year is listed exactly when an approved startup was founded then |
| Listing.Min | lib/api/startups.ts:254 | the minimum is one of the years and no year is below it |
| Listing.Max | lib/api/startups.ts:255 | the maximum is one of the years and no year is above it |
| Listing.GetFilterOptions | lib/api/startups.ts:215-272 | each of the three queries may answer no data: no locations, no tags, or years bounded by the current year, still with no error; otherwise locations and tags are strictly sorted and hold exactly the approved rows' values, and min and max are the extreme years; min is at most max; a throw gives the fallback 2000 to the current year with its message |
| Listing.GetPitchDeckUrl | lib/api/startups.ts:277-314 | an unexpected exception gives no link and the fixed `Error al obtener el pitch deck`; otherwise a non-investor is refused before any lookup; a missing path reports that no pitch deck is available after one lookup; an investor with a stored path gets the signed link, or the signing error's message when signing fails, after two calls |
| CsvExport.Escape | app/api/admin/startups/export/route.ts:66 | doubling quotes never shortens a text and leaves a text without quotes unchanged |
| CsvExport.ParseQuotedEscaped | app/api/admin/startups/export/route.ts:66 | a text with its quotes doubled, closed by a quote, reads back as the text (RFC 4180, section 2, rule 7) |
| CsvExport.ParseBareSafe | app/api/admin/startups/export/route.ts:65-67 | a bare text with no comma, quote or line feed reads back as itself |
| CsvExport.ParseFieldCell | app/api/admin/startups/export/route.ts:64-85 | a good cell reads back as its text, whichever way it is written |
| CsvExport.ParseRecordCells | app/api/admin/startups/export/route.ts:86 | a line of good cells joined with commas reads back as the cells' texts |
| CsvExport.ParseFileRecords | app/api/admin/startups/export/route.ts:89 | lines of good cells joined with line feeds read back line by line |
| CsvExport.HeaderCells | app/api/admin/startups/export/route.ts:38-61 | the header line's cells carry exactly the column names |
| CsvExport.HeaderIsGood | app/api/admin/startups/export/route.ts:38-61 | there are twenty column names and each can stand bare |
| CsvExport.YearText | app/api/admin/startups/export/route.ts:71 | a year is written in decimal, and a missing or zero year as nothing |
| CsvExport.AsWrittenCells | app/api/admin/startups/export/route.ts:64-85 | a startup's line has twenty cells, the same count as the header |
| CsvExport.QuotedCells | app/api/admin/startups/export/route.ts:64-85 | the corrected line has twenty good cells carrying the same texts as the written one |
| CsvExport.CsvReadsBack | app/api/admin/startups/export/route.ts:61-89 | when every line is good, the file reads back as the header followed by one line of texts per startup |
| CsvExport.BuildCsv | app/api/admin/startups/export/route.ts:61-89 | the loop's result is the header line and one line per startup in order, joined with line feeds, and reads back when every line is good |
| CsvExport.AsWrittenReadsBack | app/api/admin/startups/export/route.ts:63-89 | the export as written reads back column for column whenever its cells are good |
| CsvExport.QuotedExportReadsBack | app/api/admin/startups/export/route.ts:63-89 | the corrected export always reads back as the header and every startup's twenty texts |
| CsvExport.SplitCellSameLine | app/api/admin/startups/export/route.ts:79-86 | the bare cell `a,b` and the two bare cells `a` and `b` render as the same line |
| CsvExport.BareCommaSplits | app/api/admin/startups/export/route.ts:65-85 | a bare cell `a,b` in an otherwise good line is read as the two fields `a` and `b` |
| CsvExport.InversionCommaShiftsColumns | app/api/admin/startups/export/route.ts:79 | an invested amount `a,b` makes the line read as twenty-one fields with every later column shifted |
| CsvExport.InversionExample | app/api/admin/startups/export/route.ts:79 | the amount `1,5M` makes the line read as twenty-one fields |
| CsvExport.StrayQuoteRejected | app/api/admin/startups/export/route.ts:74 | inside quotes, a lone quote followed by an ordinary character cannot be read |
| CsvExport.ParseRecordFailsAt | app/api/admin/startups/export/route.ts:86 | a line with an unreadable cell after good ones cannot be read |
| CsvExport.TagQuoteBreaksLine | app/api/admin/startups/export/route.ts:74 | a tag holding a quote followed by an ordinary character makes the line unreadable |
| CsvExport.ExportStartups | app/api/admin/startups/export/route.ts:4-105 | 500 `Error interno del servidor` on an unexpected exception; otherwise 401 on an auth error or no user and 403 for a non-admin, both before the fetch; 500 on a fetch error; otherwise a 200 CSV file named by the date whose body is the header and each startup's line as written, which reads back column for column when every cell is good |
| CsvExport.ExportWith | app/api/admin/startups/export/route.ts:4-105 | the route's answers for any way of writing a line: the same errors, including the catch's 500, and a file whose body is the header and those lines, which reads back when they are good |
| CsvExport.ExportStartupsQuoted | app/api/admin/startups/export/route.ts:4-105 | the corrected route: the same errors, and a file of every field quoted that always reads back as the header and every startup's twenty texts |
| EditForm.OrEmpty | components/startups/edit-form.tsx:54-56 | a present, non-empty text is kept and a missing one becomes `''` |
| EditForm.OrUndefined | components/startups/edit-form.tsx:53-63 | a missing or empty text is left out, anything else is kept |
| EditForm.LinkOf | components/startups/edit-form.tsx:57-62 | a stored link is kept and a missing one becomes `''` |
| EditForm.UpdateDataKeys | components/startups/edit-form.tsx:85-99 | the update holds exactly the thirteen editable keys, in order |
| EditForm.JsonMembers | components/startups/edit-form.tsx:106 | the serialized members are exactly those whose value is not `undefined` |
| EditForm.UpdateKeysExcludeOthers | components/startups/edit-form.tsx:84-99 | neither the submitter email nor a file is among the editable keys |
| EditForm.PatchBodyKeys | components/startups/edit-form.tsx:85-106 | the body names only editable keys, and a field is sent exactly when it has a value |
| EditForm.UntouchedSaveWritesBack | components/startups/edit-form.tsx:46-92 | saving the defaults writes the stored name, descriptions, state and tags back unchanged |
| EditForm.UntouchedSaveDefaults | components/startups/edit-form.tsx:50-97 | saving the defaults writes a missing web or email as `''` and leaves out a missing or zero year |
| EditForm.EditedFields | components/startups/edit-form.tsx:84 | the intended check covers every field except the submitter email |
| EditForm.AsWrittenNeverSubmits | components/startups/edit-form.tsx:44-64 | with the full schema and the submitter email seeded as `''`, no value the user types passes, so the save handler never runs |
| EditForm.EditValidIffFields | components/startups/edit-form.tsx:44 | the intended check passes exactly when every field but the submitter email passes |
| EditForm.EditValidIgnoresSubmitter | components/startups/edit-form.tsx:64 | the intended check does not depend on the submitter email |
| EditForm.EditValidIffSteps | components/startups/edit-form.tsx:44 | the intended check is the first four step schemas together, and the full schema is that plus step five |
| EditForm.EnabledToggleIsExact | components/startups/edit-form.tsx:69-76 | through an enabled button the capped toggle adds or removes exactly the tag, and at most five stay at most five |
| EditForm.OutcomeError | components/startups/edit-form.tsx:109-122 | no banner exactly on success; a refusal shows its message or the default, a throw its message or `Error desconocido` |
| EditForm.EditFormState.constructor | components/startups/edit-form.tsx:32-65 | the form starts from the stored startup's defaults and tags, with no banner and not submitting |
| EditForm.EditFormState.ToggleTag | components/startups/edit-form.tsx:69-76 | the selection becomes the capped toggle and the form's tags follow; nothing else changes |
| EditForm.EditFormState.Submit | components/startups/edit-form.tsx:44-129 | as written, the resolver is the full submission schema, which the never-shown submitter email fails, so a submit changes nothing |
| EditForm.EditFormState.OnSubmit | components/startups/edit-form.tsx:78-126 | both banners are cleared before one `PATCH` of the update to the startup's endpoint; the outcome sets the success or error banner, a refresh follows success, and submitting ends false |
| EditForm.EditFormState.SubmitIntended | components/startups/edit-form.tsx:78-432 | with the intended check: a save button disabled by `isSubmitting || !isDirty`, or values failing the check, change nothing, and the others go through the save handler |
| TagSelection.Without | app/admin/startups/new/page.tsx:56-57 | the tag is gone, every other tag is kept, and a list without the tag is unchanged |
| TagSelection.ToggleCappedRemoves | app/admin/startups/new/page.tsx:56-57 | toggling a selected tag removes every occurrence of it and keeps the others |
| TagSelection.ToggleCappedAdds | app/admin/startups/new/page.tsx:58 | an unselected tag is appended below five tags; at exactly five the list is unchanged; above five it is cut to its first five |
| TagSelection.ToggleCappedBound | app/admin/startups/new/page.tsx:55-58 | at most five tags stay at most five |
| TagSelection.ToggleCappedTwice | app/admin/startups/new/page.tsx:56-58 | toggling an absent tag twice on fewer than five restores the list |
| TagSelection.WithoutAppended | app/admin/startups/new/page.tsx:56-58 | removing a just-appended absent tag gives back the list |
| TagSelection.ToggleFlips | components/startups/filters.tsx:91-97 | the uncapped toggle flips the tag's presence, leaves every other tag as it was, and undoes itself on an absent tag |
| FileUpload.AcceptedTypes | components/submissions/file-upload.tsx:61 | one trimmed entry per comma-separated piece, none holding a comma |
| FileUpload.TrimKeeps | components/submissions/file-upload.tsx:61 | trimming adds no character |
| FileUpload.Extension | components/submissions/file-upload.tsx:62 | the extension always starts with a dot |
| FileUpload.ExtensionOfDottedName | components/submissions/file-upload.tsx:62 | the extension of `a.b` is `.` and `b` in lower case |
| FileUpload.ExtensionOfUndottedName | components/submissions/file-upload.tsx:62 | a name without a dot has `.` and the whole name in lower case as its extension |
| FileUpload.SizeLimitInclusive | components/submissions/file-upload.tsx:78 | a size equal to the limit is accepted and one byte more is not |
| FileUpload.ExtensionEntryIgnoresMime | components/submissions/file-upload.tsx:66-68 | an extension entry matches exactly on the extension, whatever the MIME type says |
| FileUpload.WildcardEntry | components/submissions/file-upload.tsx:69 | the `image/*` entry accepts exactly the `image/` types |
| FileUpload.EmptyEntryMatchesAll | components/submissions/file-upload.tsx:61-69 | an empty entry matches every file |
| FileUpload.FilePicker.constructor | components/submissions/file-upload.tsx:18-29 | the picker starts not dragging, with no preview, no calls and no alerts |
| FileUpload.FilePicker.HandleFile | components/submissions/file-upload.tsx:59-94 | a refused type alerts and stops; an oversized file alerts and stops; an accepted file is passed once to `onFileSelect`, after a preview read when it is an image and previews are on |
| FileUpload.FilePicker.PreviewLoaded | components/submissions/file-upload.tsx:87-89 | the read's data URL becomes the preview |
| FileUpload.FilePicker.HandleRemove | components/submissions/file-upload.tsx:96-98 | the preview is cleared and `onFileSelect` is called with null |
| FileUpload.FilePicker.DragOver | components/submissions/file-upload.tsx:32-35 | dragging starts; nothing else changes |
| FileUpload.FilePicker.DragLeave | components/submissions/file-upload.tsx:37-40 | dragging ends; nothing else changes |
| FileUpload.FilePicker.Drop | components/submissions/file-upload.tsx:42-50 | dragging ends; with no file nothing else changes; otherwise the first file gets exactly the alert, preview read and selection that handling it gives |
| FileUpload.FilePicker.FileInput | components/submissions/file-upload.tsx:52-57 | with no file nothing changes; otherwise the first file gets exactly the alert, preview read and selection that handling it gives |
| Filters.BadgeCountBounds | components/startups/filters.tsx:99-137 | the badge is at most four, ignores the search text, is positive only with an active filter and, without search text, exactly then; four means all four kinds are set |
| Filters.LookupAppend | components/startups/filters.tsx:64-71 | reading a name after adding a parameter gives the earlier value, else the new one |
| Filters.LookupConcat | components/startups/filters.tsx:64-71 | reading a name from two parameter lists gives the first list's value, else the second's |
| Filters.FilterParamsLookupName | components/startups/filters.tsx:63-71 | a name is read from the first of the six pieces that sets it |
| Filters.FilterParamsLookup | components/startups/filters.tsx:63-71 | each of the six names is present exactly when its value is non-empty and then holds it, the tags joined with commas |
| Filters.ConcatRegroup | components/startups/filters.tsx:63-71 | appending the six pieces one after another is their nested concatenation |
| Filters.InOrderPrepend | components/startups/filters.tsx:63-71 | a piece placed before later-ranked parameters keeps the order |
| Filters.FilterParamsOrder | components/startups/filters.tsx:63-99 | the parameters come in the order query, location, tags, yearFrom, yearTo, employees, and there are none exactly when no filter is active |
| Filters.FromSelect | components/startups/filters.tsx:164-273 | the sentinel entry and the empty value both mean no filter; any other value is kept |
| Filters.YearOptions | components/startups/filters.tsx:230-233 | there are max - min + 1 options, from max downwards |
| Filters.YearOptionsCover | components/startups/filters.tsx:230-233 | each year of the range appears, no other does, and the options strictly decrease |
| Filters.TagsParamRoundTrip | components/startups/filters.tsx:68 | tags without commas, joined with commas, split back into the same tags |
| Filters.YearText | components/startups/filters.tsx:49-50 | a given year becomes its decimal text, a missing one `''` |
| Filters.FilterPanel.constructor | components/startups/filters.tsx:46-51 | each value starts from the page's initial filter or empty, with no navigation |
| Filters.FilterPanel.ApplyFilters | components/startups/filters.tsx:63-76 | one navigation to the same path with exactly the parameters of the current values; the values do not change |
| Filters.FilterPanel.ClearFilters | components/startups/filters.tsx:78-89 | all six values emptied, so no filter is active and the badge is zero, and one navigation to the bare path |
| Filters.FilterPanel.ToggleTag | components/startups/filters.tsx:91-97 | only the tags change, by the uncapped toggle, and nothing navigates |
| Filters.FilterPanel.SetQuery | components/startups/filters.tsx:111 | only the search text changes |
| Filters.FilterPanel.SelectLocation | components/startups/filters.tsx:164-165 | only the location changes, `all` clearing it |
| Filters.FilterPanel.SelectYearFrom | components/startups/filters.tsx:221-222 | only the lower year changes, `any` clearing it |
| Filters.FilterPanel.SelectYearTo | components/startups/filters.tsx:246-247 | only the upper year changes, `any` clearing it |
| Filters.FilterPanel.SelectEmployees | components/startups/filters.tsx:272-273 | only the size changes, `any` clearing it |
| SubmissionActions.OrElse | components/admin/submission-actions.tsx:16-83 | a present, non-empty text is kept; otherwise the fallback |
| SubmissionActions.ApproveAlert | components/admin/submission-actions.tsx:34-57 | success, a slug conflict (409), another refusal and a throw each give their own alert, with the answer's error or the default |
| SubmissionActions.RejectAlert | components/admin/submission-actions.tsx:81-91 | success, a refusal and a throw each give their own alert, with the answer's message or the default |
| SubmissionActions.BlankIffTrimmedEmpty | components/admin/submission-actions.tsx:64 | the notes count as blank exactly when trimming them leaves nothing |
| SubmissionActions.BlankNotes | components/admin/submission-actions.tsx:64 | notes of spaces and line breaks are blank, and one visible character is not |
| SubmissionActions.ActionPanel.constructor | components/admin/submission-actions.tsx:16-17 | the notes start as the stored notes or `''`, not processing, with nothing sent and no refresh |
| SubmissionActions.ActionPanel.TypeNotes | components/admin/submission-actions.tsx:104-112 | the notes change only when the box is enabled: pending and not processing |
| SubmissionActions.ActionPanel.ClickApprove | components/admin/submission-actions.tsx:19-134 | nothing happens unless the buttons are shown and enabled and the admin confirms; then one approve request with the notes, the outcome's alert, the approved list and a refresh only on success, and processing ends |
| SubmissionActions.ActionPanel.ClickReject | components/admin/submission-actions.tsx:63-153 | blank notes only raise the reminder and send nothing; a declined confirmation does nothing; otherwise one reject request with the notes, the outcome's alert, the rejected list and a refresh only on success, and processing ends |
| ClaimButton.ViewFor | components/startups/claim-button.tsx:38-153 | nothing is rendered exactly for a viewer who is not an entrepreneur; an approved claim shows the owned badge, an unapproved one the pending badge, and only an entrepreneur with no claim gets the dialog |
| ClaimButton.ClaimError | components/startups/claim-button.tsx:81-90 | no message exactly on success; a refusal shows its error or the default; a throw its message or `Error desconocido` |
| ClaimButton.ClaimButtonState.constructor | components/startups/claim-button.tsx:33-35 | the dialog starts closed, idle, with no error |
| ClaimButton.ClaimButtonState.OpenDialog | components/startups/claim-button.tsx:97-103 | the dialog opens only when it is rendered |
| ClaimButton.ClaimButtonState.Cancel | components/startups/claim-button.tsx:137-143 | the dialog closes unless a request is in flight |
| ClaimButton.ClaimButtonState.HandleClaim | components/startups/claim-button.tsx:67-149 | only from the open, idle dialog: one POST to the startup's claim endpoint, success closes the dialog and refreshes, failure keeps it open with the message, and submitting ends off |
| UserEdit.UserEditIssues | components/admin/user-edit-modal.tsx:27-30 | the name is flagged exactly when shorter than two UTF-16 units, the role exactly when it is not one of the three |
| UserEdit.UserEditRule | components/admin/user-edit-modal.tsx:27-30 | the schema passes exactly for a name of two or more units and an entrepreneur, investor or admin role |
| UserEdit.AdminAllowedOnlyHere | components/admin/user-edit-modal.tsx:29 | this schema accepts the admin role, which sign-up does not offer |
| UserEdit.AstralNameIsLongEnough | components/admin/user-edit-modal.tsx:28 | one character outside the Basic Multilingual Plane already meets the two-character minimum, one ASCII letter does not |
| UserEdit.EditDefaults | components/admin/user-edit-modal.tsx:60-63 | the form starts from the user's name and stored role |
| UserEdit.PatchBody | components/admin/user-edit-modal.tsx:76 | the body has two members |
| UserEdit.PatchBodyFields | components/admin/user-edit-modal.tsx:76-118 | the body names only `full_name` and `role`, carries both values, and never the email |
| UserEdit.UserError | components/admin/user-edit-modal.tsx:79-86 | no message exactly on success; a refusal shows its error or the default; a throw its message or `Error desconocido` |
| UserEdit.UserEditModal.constructor | components/admin/user-edit-modal.tsx:49-64 | the dialog opens at the defaults, idle, with no error and the role lock holding |
| UserEdit.UserEditModal.TypeName | components/admin/user-edit-modal.tsx:123-127 | only the name changes |
| UserEdit.UserEditModal.SelectRole | components/admin/user-edit-modal.tsx:136-159 | the role changes unless the admin is editing their own account, and the lock keeps holding |
| UserEdit.UserEditModal.Submit | components/admin/user-edit-modal.tsx:66-169 | nothing while the button is disabled (submitting or unchanged) or the schema fails; otherwise one PATCH of the two fields to the user's endpoint, then `onSuccess` on success or the message on failure, and submitting ends |
| DashboardNav.NavItems | components/layout/dashboard-nav.tsx:29-55 | five declared links |
| DashboardNav.Visible | components/layout/dashboard-nav.tsx:77-78 | the filter keeps at most the declared links |
| DashboardNav.VisibleMembers | components/layout/dashboard-nav.tsx:77-78 | a link is shown exactly when it is declared and marked to show |
| DashboardNav.VisibleKeepsOrder | components/layout/dashboard-nav.tsx:77-78 | the shown links keep the declared order |
| DashboardNav.Hrefs | components/layout/dashboard-nav.tsx:84 | one address per link, in order |
| DashboardNav.VisibleOfFive | components/layout/dashboard-nav.tsx:29-78 | the filter of the five links is link by link |
| DashboardNav.NavForRole | components/layout/dashboard-nav.tsx:29-55 | overview and profile always; the startup link between them exactly for an entrepreneur owning an approved startup; the two admin links after them exactly for an admin |
| DashboardNav.MissingRoleIsEntrepreneur | components/layout/dashboard-nav.tsx:17-38 | a user with no stored role sees what an entrepreneur sees |
| DashboardNav.AtMostOneActive | components/layout/dashboard-nav.tsx:80 | on any path at most one shown link is highlighted |
| DashboardNav.RoleLabel | components/layout/dashboard-nav.tsx:71 | entrepreneur reads Emprendedor, investor Inversor, and anything else Admin |
| ClaimsAdmin.WithApproved | app/admin/claims/page.tsx:60-61 | the filter keeps at most the fetched claims |
| ClaimsAdmin.ErrorGivesNothing | app/admin/claims/page.tsx:55-61 | an error or no data gives two empty lists |
| ClaimsAdmin.WithApprovedMembers | app/admin/claims/page.tsx:60-61 | a claim is in a list exactly when it was fetched with that approval flag |
| ClaimsAdmin.PartitionIsExact | app/admin/claims/page.tsx:60-61 | the two lists together hold every fetched claim exactly as often as it was fetched, and their lengths add up to the total |
| ClaimsAdmin.WithApprovedKeepsOrder | app/admin/claims/page.tsx:60-61 | each list keeps the fetched order |
| ClaimsAdmin.FetchOrderTail | app/admin/claims/page.tsx:52-53 | the query's order holds on the tail and puts the head before each later claim |
| ClaimsAdmin.OrderedFetchSplits | app/admin/claims/page.tsx:52-61 | with the query's order, the fetched list is the pending list followed by the approved one, each newest first |
| ClaimsAdmin.ApprovedHeadSplits | app/admin/claims/page.tsx:52-61 | an approved claim first means no pending claim follows |
| ClaimsAdmin.PendingHeadSplits | app/admin/claims/page.tsx:52-61 | a pending claim first is the newest pending one |
| ClaimsAdmin.NewestFirstPrepend | app/admin/claims/page.tsx:53 | a claim at least as new as every other can head a newest-first list |
| ClaimsAdmin.ApproveAction | app/admin/claims/page.tsx:72-74 | approval uses POST at the claim's approve URL |
| ClaimsAdmin.RejectAction | app/admin/claims/page.tsx:86-88 | rejection uses DELETE at the same URL |
| ClaimsAdmin.ActionsShareEndpoint | app/admin/claims/page.tsx:72-86 | both actions address the same `…/approve` URL and differ only in the method; distinct claims get distinct URLs |
| ClaimsAdmin.FramedDistinct | app/admin/claims/page.tsx:72 | different ids between the same beginning and ending stay different |
| ClaimsAdmin.ActionError | app/admin/claims/page.tsx:76-92 | a failure, and only a failure, throws |
| AdminGate.AdminGateFor | app/admin/startups/page.tsx:19-26 | login exactly on an auth error or no user; admitted exactly when the stored role is `admin`, and then with that user; the dashboard otherwise |
| AdminGate.GateAgreesWithIsAdmin | app/admin/users/page.tsx:16-23 | the gate admits exactly the users the role helpers call admins, and sends a user with no stored role to the dashboard |
| AdminStartups.ApprovedCount | app/admin/startups/page.tsx:51 | the approved count is the number of positions holding an approved startup |
| AdminStartups.ActiveCount | app/admin/startups/page.tsx:53 | the active count is the number of positions holding an active startup |
| AdminStartups.CreatedSince | app/admin/startups/page.tsx:56-59 | this month's count is the number of positions holding a startup created at or after the first instant of the month |
| AdminStartups.FoundingYears | app/admin/startups/page.tsx:62-64 | one year for each startup whose founding year is set |
| AdminStartups.FoundingYearListed | app/admin/startups/page.tsx:62-64 | a year is listed exactly when some startup was founded in it |
| AdminStartups.FoundingYearsAppend | app/admin/startups/page.tsx:62-64 | the years keep the order of their rows |
| AdminStartups.FoundingYearsCount | app/admin/startups/page.tsx:62-64 | there are as many years as positions holding a startup with a founding year |
| Sequences.CountIsIndices | app/admin/startups/page.tsx:51-59 | the length of a filter is the number of positions whose element passes it |
| AdminStartups.RoundedMean | app/admin/startups/page.tsx:65-68 | the result is the nearest integer to the mean, halves rounded up |
| AdminStartups.GetStartupsData | app/admin/startups/page.tsx:10-80 | no user or an auth error goes to the login page, a non-admin to the dashboard; for an admin, a fetch error gives no startups and zero counts, and otherwise the rows (none when there is no data) with their statistics |
| AdminStartups.StatsCount | app/admin/startups/page.tsx:50-68 | the statistics count all rows, the approved ones, the others, the active ones and those created since the month began; the mean is that of the set years, or 0 with none |
| AdminStartups.StatsAddUp | app/admin/startups/page.tsx:50-59 | the total is the number of startups, approved plus pending is the total with pending between 0 and it, and active and this month's count do not exceed it |
| AdminStartups.PendingIsUnapproved | app/admin/startups/page.tsx:52 | total minus approved is exactly the number of startups not approved |
| AdminStartups.MulMonotone | app/admin/startups/page.tsx:67 | multiplying by a positive number keeps order |
| AdminStartups.FloorBetween | app/admin/startups/page.tsx:67 | a floor quotient inside a range scaled by the divisor lies in that range |
| AdminStartups.MeanWithinYears | app/admin/startups/page.tsx:62-68 | the mean year lies between the smallest and the largest founding year |
| AdminStartups.RoundedMeanBetween | app/admin/startups/page.tsx:67 | the rounded mean of values in a range stays in it |
| AdminStartups.SumBounds | app/admin/startups/page.tsx:67 | the sum of n values in a range lies between n times its ends |
| AdminStartups.StepBounds | app/admin/startups/page.tsx:67 | adding one more value in range keeps the sum's bounds |
| AdminStartups.ApprovalPercent | app/admin/startups/page.tsx:130 | 0 with no startups; otherwise the nearest integer to 100 · approved / total, halves rounded up |
| AdminStartups.PercentWithinBounds | app/admin/startups/page.tsx:130 | the share lies in 0..100, is 100 when all are approved and 0 when none are |
| AdminStartups.AvgDisplay | app/admin/startups/page.tsx:189 | a missing or zero mean shows `N/A`; any other mean shows in decimal |
| AdminStartups.ErrorShowsZeros | app/admin/startups/page.tsx:34-46 | on a fetch error every count is zero and the mean's card shows `N/A`, as with no years |
| AdminUsers.ToRow | app/admin/users/page.tsx:35-43 | id and creation time kept; email `''` when missing; name `Sin nombre` when missing or empty; the role as the role helper reads it, never empty; both timestamps kept |
| AdminUsers.ToRows | app/admin/users/page.tsx:35-43 | one row per user, in order |
| AdminUsers.SortNewestFirst | app/admin/users/page.tsx:46 | the array is sorted newest first and is a permutation of its old contents |
| AdminUsers.SwapStep | app/admin/users/page.tsx:46 | one step left keeps the insertion invariant |
| AdminUsers.StartSorted | app/admin/users/page.tsx:46 | a sorted prefix starts the insertion invariant |
| AdminUsers.SwapKeepsRows | app/admin/users/page.tsx:46 | swapping neighbours keeps the same rows |
| AdminUsers.StopSorted | app/admin/users/page.tsx:46 | when the row stops moving the longer prefix is sorted |
| AdminUsers.InsertNewest | app/admin/users/page.tsx:46 | inserting one row keeps the prefix sorted and the rows the same |
| AdminUsers.GetAllUsers | app/admin/users/page.tsx:6-49 | the gate's two redirects; an admin sees their own id, no users on a listing error, and otherwise the mapped users newest first, a permutation of the listed ones |
| AdminUsers.ConfirmedPercent | app/admin/users/page.tsx:118 | no users gives NaN, as `0 / 0` does; otherwise the nearest integer to 100 · confirmed / total, halves rounded up |
| AdminUsers.ConfirmedShareShown | app/admin/users/page.tsx:59-118 | for at most as many confirmed users as users (the page's counts, by RoleCountsBound), the share reads `NaN% del total` exactly when there are no users, and is otherwise 0 to 100, reaching 100 when every user has confirmed |
| AdminUsers.RoleCountsBound | app/admin/users/page.tsx:55-59 | entrepreneurs, investors and admins add up to at most the total, with equality when each role is one of the three; confirmed emails are at most the total |
| AdminUsers.StatsIgnoreOrder | app/admin/users/page.tsx:46-59 | the counts of the sorted list are those of the listed order |
| AdminUsers.MissingRolesCountAsEntrepreneurs | app/admin/users/page.tsx:39-56 | users with no stored role are all counted as entrepreneurs |
| AdminUsers.AllCounted | app/admin/users/page.tsx:56-59 | a count over a list whose every row qualifies is its length |
| AuthCallback.HandleCallback | app/auth/callback/route.ts:5-42 | at most one provider call, and exactly one redirect, to one of the four fixed pages or to the `next` parameter |
| AuthCallback.RecoveryComesFirst | app/auth/callback/route.ts:15-27 | a recovery token is verified first, even with a code present, and leads to the new-password page or the recovery error |
| AuthCallback.CodeLeadsToNext | app/auth/callback/route.ts:30-37 | otherwise an exchanged code leads to `next`, or to the dashboard when `next` is absent |
| AuthCallback.OtherwiseAuthError | app/auth/callback/route.ts:29-41 | every other case, a failed exchange or no code, ends on the auth error, with no call when there is no code |
| AuthCallback.UnmadeCallsDoNotMatter | app/auth/callback/route.ts:15-38 | the outcome of the call the route does not make has no effect |
| AuthCallback.ResetLinkWithCode | app/auth/callback/route.ts:15-41 | a reset link with a code still verifies the token, and a token of another type without a code ends on the auth error |
| EnvFile.ParseLine | scripts/check-db.ts:15-18 | a line yields an assignment only when it holds `=` |
| EnvFile.SplitCount | scripts/check-db.ts:15-16 | splitting at `=` gives more than one piece exactly when the line holds `=`, which is the `valueParts.length > 0` test |
| EnvFile.ParseLineAccepts | scripts/check-db.ts:15-16 | a line is used exactly when it holds `=` and does not start with it, so the key before it is not empty |
| EnvFile.ParseLineSplitsAtFirst | scripts/check-db.ts:15-18 | the key is the trimmed text before the first `=`, and the value is the trimmed rest, later `=` signs included |
| EnvFile.BlankKeyStoresUnderEmptyName | scripts/check-db.ts:16-18 | a key made only of white space passes the truthiness test and is stored under the empty name |
| EnvFile.Entries | scripts/check-db.ts:14 | every line of the file is parsed on its own, in order |
| EnvFile.StoreKeys | scripts/check-db.ts:18 | after storing, the variables are the old ones plus the keys assigned |
| EnvFile.LoadKeys | scripts/check-db.ts:12-21 | after loading a file, the variables are the old ones plus the keys its lines assign |
| EnvFile.StoreKeepsOthers | scripts/check-db.ts:18 | a variable that no entry assigns keeps its value |
| EnvFile.LoadKeepsOthers | scripts/check-db.ts:12-21 | a variable that no line of the file assigns keeps its value |
| EnvFile.LastEntryWins | scripts/check-db.ts:18 | an entry whose key no later entry assigns gives the variable's final value |
| EnvFile.EntriesOfParts | scripts/check-db.ts:14 | parsing a file is parsing its lines one at a time |
| EnvFile.LastAssignmentWins | scripts/test-policies.ts:14-20 | of several lines assigning one key, the last gives the value, overwriting anything set before |
| EnvFile.NoEntryChangesNothing | scripts/check-db.ts:16 | a skipped entry leaves the variables as they would be without it |
| EnvFile.IgnoredLineChangesNothing | scripts/check-db.ts:16 | a line without an assignment has no effect on the loaded variables |
| EnvFile.CheckCredentials | scripts/check-db.ts:23-31 | the script connects exactly when the URL and the key are both set and not empty, with those two values |
| EnvFile.ExitCode | scripts/check-db.ts:26-30 | the process exits, with code 1, exactly when a credential is missing |
| EnvFile.MissingReport | scripts/check-db.ts:27-29 | the error report is three lines: the headline and one status per variable |
| EnvFile.ReportNamesTheMissing | scripts/check-db.ts:26-29 | when the check fails, the report marks at least one of the two variables as missing |
| EnvFile.ProcessEnv.constructor | scripts/check-db.ts:11 | the process starts with its inherited environment |
| EnvFile.ProcessEnv.LoadEnvFile | scripts/check-db.ts:11-21 | a present file's lines, split at newlines, are stored in order into the environment; with no file the environment is unchanged |
| EnvFile.ProcessEnv.Check | scripts/test-policies.ts:23-29 | the check on the current environment connects exactly when both variables are set and not empty |
| EnvFile.FileSuppliesCredentials | scripts/check-db.ts:11-33 | a file assigning a non-empty URL and anon key makes the script connect with those values, whatever was set before |
| EnvFile.StoreSuppliesCredentials | scripts/check-db.ts:18-26 | storing a non-empty URL and key makes the check connect with exactly those |
| StoragePolicies.KeptChunks | scripts/apply-storage-policies.ts:30-31 | filtering never adds pieces |
| StoragePolicies.KeptChunksClean | scripts/apply-storage-policies.ts:30-31 | every kept piece is trimmed, not empty, free of `;` and does not start with `--` |
| StoragePolicies.StatementsAreClean | scripts/apply-storage-policies.ts:28-31 | every statement taken from the file is trimmed, not empty, free of `;` and not starting with `--` |
| StoragePolicies.SplitStatementsCons | scripts/apply-storage-policies.ts:28-31 | the text before the first `;` gives the first statement, when it is kept, followed by the statements of the rest |
| StoragePolicies.CommentSwallowsStatement | scripts/apply-storage-policies.ts:31 | a `--` comment line that starts a piece drops the whole statement after it up to the next `;` |
| StoragePolicies.KeptChunksOfClean | scripts/apply-storage-policies.ts:30-31 | pieces that are already clean all pass through unchanged |
| StoragePolicies.JoinedStatementsSplitBack | scripts/apply-storage-policies.ts:28-31 | clean statements joined with `;` split back into the same statements |
| StoragePolicies.Attempted | scripts/apply-storage-policies.ts:33-43 | no more statements are sent than there are |
| StoragePolicies.ExecuteStatements | scripts/apply-storage-policies.ts:33-43 | the loop sends the statements up to the first exception, logs a preview and an answer for each, and reports that exception |
| StoragePolicies.UnfoldAt | scripts/apply-storage-policies.ts:33-43 | one step of the loop: the statement is sent and logged, and the loop goes on unless the call threw |
| StoragePolicies.AttemptedInOrder | scripts/apply-storage-policies.ts:33-46 | statements are sent in order from the first: all of them when nothing throws, otherwise up to the call that threw the first exception |
| StoragePolicies.FirstThrowNone | scripts/apply-storage-policies.ts:36-46 | no exception ends the loop exactly when no call throws |
| StoragePolicies.LogPairs | scripts/apply-storage-policies.ts:34-42 | with no exception the log pairs each statement's preview with its answer, an error or a success |
| StoragePolicies.LogLength | scripts/apply-storage-policies.ts:34-42 | with no exception the loop logs two lines per statement |
| StoragePolicies.ApplyStoragePolicies | scripts/apply-storage-policies.ts:5-60 | missing credentials exit with 1 before anything is sent; a read error logs the failure and exits with 1; otherwise the statements are sent as the loop does, and the run exits with 0 and the success lines, or with 1 after the first exception |
| StoragePolicies.RefusalsDoNotStop | scripts/apply-storage-policies.ts:38-43 | a refusal in the answer does not stop the loop: every statement is sent and no exception is reported |
| JsText.TrimOfTrimmed | scripts/apply-storage-policies.ts:30 | trimming text with no white space at either end leaves it unchanged |
| JsText.TrimInside | scripts/check-db.ts:17-18 | trimming only removes characters |
| JsText.NatToDecimalValue | app/api/submissions/route.ts:16 | a natural number's decimal text is all digits and reads back as that number |
| JsText.ParseIntOfDecimal | app/api/submissions/route.ts:16 | `parseInt` of an integer's decimal text gives that integer back |
| JsText.ParseIntIgnoresTrailingText | app/api/submissions/route.ts:16 | `parseInt` of digits followed by other text equals `parseInt` of the digits alone, except that a lone `0` before `x` starts a hexadecimal number |
| JsText.ParseIntAfterSign | app/api/submissions/route.ts:16 | with no leading white space, a minus negates the magnitude of what follows it and unsigned text is read as it stands |
| JsText.MagnitudeOfDigits | app/api/submissions/route.ts:16 | decimal digits followed by a non-digit read as the digits' value, except a lone `0` before `x` |
| JsText.ParseIntSkipsSpaceAndSign | app/api/submissions/route.ts:16 | `parseInt` skips leading white space and reads a sign |
| JsText.ParseIntWithoutDigits | app/api/submissions/route.ts:16 | `parseInt` of an empty or non-numeric text is NaN |
| JsText.ParseIntHexPrefix | app/api/submissions/route.ts:16 | `parseInt` with no radix reads a `0x` prefix as hexadecimal |
| JsText.TrimStart | scripts/check-db.ts:17 | the result is a suffix of the text, everything dropped is white space and it does not start with white space |
| JsText.TrimEnd | scripts/check-db.ts:17 | the result is a prefix of the text, everything dropped is white space and it does not end with white space |
| JsText.Trim | scripts/check-db.ts:17 | the result is no longer than the text and has no white space at either end |
| JsText.TrimIsMiddle | scripts/check-db.ts:17 | the result is a contiguous piece of the text with only white space before and after it |
| JsText.TrimEmptyIff | scripts/check-db.ts:17 | trimming gives the empty text exactly when every character is white space |
| JsText.Split | scripts/check-db.ts:14-15 | splitting gives at least one piece, none holding the separator, and joining the pieces with it gives the text back |
| JsText.SplitJoin | scripts/apply-storage-policies.ts:28-29 | pieces free of the separator, joined with it, split back into the same pieces |
| JsText.LeadingDigits | app/api/submissions/route.ts:16 | `parseInt` reads the longest prefix of digits in the radix |

## Left out

- Hosted services: the database queries, storage uploads, signed URLs and identity calls are not modelled. Their answers are inputs to the operations that use them.
- The server handlers for submission approve and reject and for claim create, approve and delete are not part of this model. Only the requests their callers send are modelled, and no server state machine or uniqueness rule is assumed.
- `signIn`, `signOut`, `resetPassword`, `updatePassword` and `getCurrentUser` in `lib/auth/auth-helpers.ts` only forward to the identity service. Only the role helpers and the metadata `signUp` passes are modelled.
- Unicode: `toLowerCase` maps ASCII and a Latin-1 table, and `normalize('NFD')` decomposes a table of accented Latin-1 lower-case letters. Other characters pass unchanged.
- zod's `url()` and `email()` are parameters, not interpreted.
- Browser and process I/O (`console`, `alert`, `confirm`, router pushes, `router.refresh`, `process.exit`) are recorded as values the operations return (log lines, exit codes, navigation targets, request records), not performed.
- React plumbing: hooks, re-renders, `useTransition`, the debounce and `setTimeout(applyFilters, 0)` and their stale closures, and the dialog's close-on-escape are not modelled. Each handler is one atomic step.
- `formatFileSize` uses floating point (`Math.log`, `Math.pow` and a rounded binary quotient), so it is left out.
- AdminUsers.ConfirmedPercent: the same exact-rational rounding as `AdminStartups.RoundedMean` is used for the confirmed-email percentage; NaN with no users is its own value.
- Listing.ContainsIgnoringCase: the text query is spliced unescaped into the `or` filter (lib/api/startups.ts:37). A `,`, `(` or `)` in it changes the filter's structure: the service either reports a syntax error or reads extra conditions. That syntax is not modelled; the query is read as one ILIKE pattern against each column, wildcards included.
- Listing.ClausesMatch: for the same reason, a text query holding `,`, `(` or `)` is read as one pattern, not as the filters the service would parse from it.
- Listing.Select: selects by the modelled clauses, so it shares that limit on text queries holding `,`, `(` or `)`.
- Listing.GetApprovedStartups: a text query holding `,`, `(` or `)` is read as one pattern; the service's parse error or extra conditions are not modelled.
- Listing.StrLess: orders texts by Unicode scalar values. JavaScript's default `sort()` compares UTF-16 code units, and the two orders differ only between a character outside the basic plane and one at U+E000 or above.
- Intake.ReadFields: an entry of the wrong kind (a file under a text key, or a text under `logo` or `pitch_deck`) reads as missing. In the route the value is passed on as it is: a file under `tags` or `redes_sociales` makes `JSON.parse` throw (a 500), a file under `nombre` makes the slug's `toLowerCase` throw (a 500), and a text under `logo` is truthy and fails when uploaded.
- AdminStartups.RoundedMean: `Math.round` of a floating-point quotient is modelled as the exact rational rounded half up. Where the binary quotient falls just below a half, JavaScript rounds the other way (for 29 of 200 approved, 14.4999… gives 14 where the model gives 15).
- AdminStartups.ApprovalPercent: the same exact-rational rounding is used for the approval percentage.
- Dates are instants in milliseconds (`Timestamp.millis`). An unparseable date, whose `getTime()` is NaN, is not modelled.
- AdminUsers.SortNewestFirst: the insertion sort proves that the result is ordered newest first and is a permutation. It does not claim stability, which `Array.prototype.sort` provides.
- AuthCallback.HandleCallback: the redirect is the relative text passed to `new URL(…, origin)`. URL resolution, including an absolute `next` that leaves the origin, is not modelled.
- The statement preview in `StoragePolicies`: `substring(0, 60)` is taken over characters, not UTF-16 code units, so a preview differs only when the first sixty units hold a character outside the basic plane.
- The SQL file `supabase/storage-policies.sql` is not part of this model. Its text is an input.
- `getStartupStats` in `lib/api/startups.ts` is not modelled. Its results are not used by the rules above.
- Presentational pages and components, and the setup and migration scripts, have no logic of their own beyond display or I/O, so they are not modelled.
- Concurrency: races on slug or claim uniqueness belong to database constraints that are not part of this model.

## Findings

| source | as written | input that shows it | evidently intended | confidence | as-written member | corrected member |
|---|---|---|---|---|---|---|
| components/startups/edit-form.tsx:44-64 | the edit form validates with the full submission schema and seeds `submitter_email` with `''`; the field is never rendered, and the schema requires a valid email (lib/validations/submission.ts:101-103) | any edit of any startup: `submitter_email` stays `''`, the resolver fails and the save handler is never called | validate every field except the submitter email, the first four step schemas: the defaults mark the field `// Not needed for updates` (line 64) | not executed | EditForm.AsWrittenNeverSubmits | EditForm.EditValidIffSteps |
| app/api/admin/startups/export/route.ts:65-85 | only the name, the two descriptions and the location are quoted with their quotes doubled; every other field is written bare, and the tags are quoted without doubling their quotes (line 74) | an invested amount `1,5M` reads back as twenty-one fields; a tag `a"b` makes the line unreadable under RFC 4180, section 2 | quote every field and double its quotes, as lines 66-73 already do for the name, the descriptions and the location (RFC 4180, section 2, rules 5 to 7) | not executed | CsvExport.InversionExample | CsvExport.QuotedExportReadsBack |
