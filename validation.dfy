/**
 * The part of go-playground's `validator.Struct` that the product and slider
 * handlers rely on: per field, the first tag of its `validate:` list that
 * fails, and the text of the resulting `ValidationErrors` (one line per
 * failing field, in declaration order).
 */
module Validation {
  import opened Wrappers

  /** A `FieldError`: the namespace (`Struct.Field`), the field and the failed tag. */
  datatype FieldError = FieldError(structName: string, field: string, tag: string)

  /** `FieldError.Error()`. */
  function FieldErrorText(e: FieldError): string {
    "Key: '" + e.structName + "." + e.field + "' Error:Field validation for '" + e.field
      + "' failed on the '" + e.tag + "' tag"
  }

  /** `ValidationErrors.Error()`: the field errors, one per line. */
  function Message(errors: seq<FieldError>): (m: string)
    ensures errors != [] ==> m != ""
  {
    if errors == [] then ""
    else if |errors| == 1 then FieldErrorText(errors[0])
    else FieldErrorText(errors[0]) + "\n" + Message(errors[1..])
  }

  /**
   * A string field tagged `required,min=lo,max=hi` (with `required` only when
   * `required` is set): the first tag its value fails. Lengths count
   * characters, as the validator counts runes.
   */
  function StringTagFailure(s: string, required: bool, lo: nat, hi: nat): (t: Option<string>)
    ensures t == None <==> lo <= |s| <= hi && (required ==> s != "")
  {
    if required && s == "" then Some("required")
    else if |s| < lo then Some("min")
    else if |s| > hi then Some("max")
    else None
  }

  /** An integer field tagged `min=lo,max=hi`: the first tag its value fails. */
  function IntTagFailure(n: int, lo: int, hi: int): (t: Option<string>)
    ensures t == None <==> lo <= n <= hi
  {
    if n < lo then Some("min") else if n > hi then Some("max") else None
  }

  /** The error for one field, if it failed a tag. */
  function Check(structName: string, field: string, failure: Option<string>): seq<FieldError> {
    if failure.None? then [] else [FieldError(structName, field, failure.value)]
  }
}
