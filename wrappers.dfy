/** Stock optional-value datatypes shared by every module. */
module Wrappers {

  /** A value that may be missing (JavaScript `null` or `undefined` where the two behave alike). */
  datatype Option<T> = None | Some(value: T)

  /** A JavaScript value slot where `undefined` and `null` must be told apart (zod treats them differently). */
  datatype Nullable<T> = Undefined | Null | Defined(value: T)
}
