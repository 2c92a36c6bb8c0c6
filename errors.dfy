/** The errors the translation engine can report. */
module Errors {

  datatype Error =
    | NotPointer
    | NotStruct
    | NotSlice
      /** A cached lookup missed and no backend function was registered. */
    | NotRegistered(message: string)
    | EnumNotFound(name: string)
    | UnsupportedEnumValue(typeText: string)
      /** An error returned by a registered backend, translator or loader. */
    | External(message: string)

  /** The text of the error, as Go's Error() method would print it. */
  function Message(e: Error): string {
    match e
    case NotPointer => "dict-trans: value must be a pointer"
    case NotStruct => "dict-trans: value must be a struct"
    case NotSlice => "dict-trans: value must be a slice"
    case NotRegistered(m) => m
    case EnumNotFound(n) => "enum '" + n + "' not found"
    case UnsupportedEnumValue(t) => "unsupported enum value type: " + t
    case External(m) => m
  }
}
