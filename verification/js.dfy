/** The JavaScript values that request bodies and query strings can carry,
    as far as the validators look at them. */
module Js {

  /** A `Date` object: a valid instant (identified by its ISO string) or an
      invalid date (`getTime()` is NaN). */
  datatype Date = ValidDate(iso: string) | InvalidDate

  datatype Value =
    | Undefined
    | Null
    | Bool(b: bool)
    | Num(n: int)
    | Str(s: string)
    | DateValue(date: Date)
    | Object

  /** A plain object; a missing key reads as `undefined`. */
  type Object = map<string, Value>

  function Get(o: Object, key: string): Value
  {
    if key in o then o[key] else Undefined
  }

  predicate Truthy(v: Value)
  {
    match v
    case Undefined => false
    case Null => false
    case Bool(b) => b
    case Num(n) => n != 0
    case Str(s) => s != []
    case DateValue(_) => true
    case Object => true
  }

  /** The type name Zod reports in "Expected string, received ...". */
  function ParsedType(v: Value): string
  {
    match v
    case Undefined => "undefined"
    case Null => "null"
    case Bool(_) => "boolean"
    case Num(_) => "number"
    case Str(_) => "string"
    case DateValue(_) => "date"
    case Object => "object"
  }
}
