/**
 * The values a validated form object holds, as the browser code sees them, and their
 * `String(...)` forms.
 */
module JsValue {
  import opened Wrappers
  import opened JsText
  import opened Types
  import opened SubmissionSchema

  /** A value of the validated form object, as `Object.entries` yields it. */
  datatype Value =
    | JsUndefined
    | JsNull
    | JsStr(s: string)
    | JsNumber(n: int)
    | JsFile(file: FileRef)
    | JsArray(items: seq<string>)
    | JsObject(links: SocialLinks)

  /** `String(value)`. */
  function StringOf(v: Value): string {
    match v
    case JsUndefined => "undefined"
    case JsNull => "null"
    case JsStr(s) => s
    case JsNumber(n) => IntToDecimal(n)
    case JsFile(_) => "[object File]"
    case JsArray(items) => Join(items, ",")
    case JsObject(_) => "[object Object]"
  }

  /** A form value as the page holds it. */
  function TextValue(v: Nullable<string>): Value {
    match v
    case Undefined => JsUndefined
    case Null => JsNull
    case Defined(s) => JsStr(s)
  }

  function FileValue(v: Nullable<FileRef>): Value {
    match v
    case Undefined => JsUndefined
    case Null => JsNull
    case Defined(f) => JsFile(f)
  }

  /** A year as a number; `NaN`, which the schema never accepts, is treated as absent. */
  function YearValue(v: Nullable<JsNumber>): Value {
    match v
    case Undefined => JsUndefined
    case Null => JsNull
    case Defined(Num(y)) => JsNumber(y.Floor)
    case Defined(NotANumber) => JsUndefined
  }

  function ArrayValue(v: Nullable<seq<string>>): Value {
    match v
    case Undefined => JsUndefined
    case Null => JsNull
    case Defined(items) => JsArray(items)
  }

  function LinksValue(v: Nullable<SocialLinks>): Value {
    match v
    case Undefined => JsUndefined
    case Null => JsNull
    case Defined(l) => JsObject(l)
  }
}
