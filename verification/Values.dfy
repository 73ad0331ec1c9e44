/** Options, results, decoded JSON values and the few standard-library conversions the
    repository applies to them. */
module Values {

  datatype Option<+T> = None | Some(value: T)

  datatype Result<+T, +E> = Ok(value: T) | Err(error: E)

  /** A decoded JSON value. Python's None is Null, and so is a missing key read with `get`.
      A float is kept as the text `str` gives it. */
  datatype Json =
    | Null
    | Bool(flag: bool)
    | Int(number: int)
    | Float(digits: string)
    | Str(text: string)
    | List(items: seq<Json>)
    | Obj(fields: map<string, Json>)

  /** `dict.get(key)`. */
  function Get(value: Json, key: string): Json
    requires value.Obj?
  {
    if key in value.fields then value.fields[key] else Null
  }

  /** Python truthiness. */
  predicate Truthy(value: Json) {
    match value
    case Null => false
    case Bool(flag) => flag
    case Int(number) => number != 0
    case Float(digits) => digits != "0.0" && digits != "-0.0"
    case Str(text) => text != ""
    case List(items) => items != []
    case Obj(fields) => |fields| != 0
  }

  /** A datetime with a UTC offset, or without one. */
  datatype Time = Aware(utc: int, offset: int) | Naive(local: int)

  /** The standard-library text conversions, as opaque functions: `int(text)`, `str(number)`,
      `datetime.fromisoformat` and `datetime.isoformat`. */
  datatype Library = Library(
    intOfText: string -> Option<int>,
    textOfInt: int -> string,
    timeOfText: string -> Option<Time>,
    textOfTime: Time -> string
  ) {
    /** `fromisoformat` reads back what `isoformat` wrote. */
    ghost predicate Lawful() {
      forall time :: timeOfText(textOfTime(time)) == Some(time)
    }
  }

  /** A value that may be text: None becomes Null. */
  function OfText(text: Option<string>): Json {
    match text
    case None => Null
    case Some(t) => Str(t)
  }

  function OfInt(number: Option<int>): Json {
    match number
    case None => Null
    case Some(n) => Int(n)
  }

  /** `first or second` on optional strings. */
  function OrText(first: Option<string>, second: Option<string>): Option<string> {
    if first.Some? && first.value != "" then first else second
  }
}
