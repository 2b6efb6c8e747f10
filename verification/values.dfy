/** The dynamically typed values that the scraper's field mappings hold. */
module Values {

  /** A calendar date, as `datetime.date`; its fields are not interpreted. */
  datatype Date = Date(year: int, month: int, day: int)

  /** A Python value as found in a parsed field mapping. */
  datatype Value =
    | NoneV
    | BoolV(b: bool)
    | IntV(i: int)
    | FloatV(x: real)
    | StrV(s: string)
    | DateV(d: Date)
    | ListV(items: seq<Value>)
    | DictV(entries: map<string, Value>)

  /** A loosely typed record: a `dict` with string keys. */
  type Fields = map<string, Value>

  /** Python's `bool(v)`: None, False, zero and empty containers are false; a date is true. */
  predicate Truthy(v: Value) {
    match v
    case NoneV => false
    case BoolV(b) => b
    case IntV(i) => i != 0
    case FloatV(x) => x != 0.0
    case StrV(s) => |s| > 0
    case DateV(_) => true
    case ListV(items) => |items| > 0
    case DictV(entries) => |entries| > 0
  }

  /** Whether `v` can be a `dict` key: lists and dicts cannot. */
  predicate Hashable(v: Value) {
    !v.ListV? && !v.DictV?
  }

  /** `m.get(key, default)`. */
  function Get(m: Fields, key: string, default: Value): Value {
    if key in m then m[key] else default
  }
}
