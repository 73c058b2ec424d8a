/** The values a decoded JSON record can hold, with the Python operations the
    scraper applies to them: truthiness, `dict.get` with a default, and `str()`. */
module Values {
  import opened Text

  /** A JSON value as Python sees it after `resp.json()`. */
  datatype Value = Str(s: string) | Int(i: int) | Null | List(items: seq<Value>)

  /** A JSON object: field name to value; the empty map is also what a failed
      API fetch yields. */
  type ApiRecord = map<string, Value>

  /** Python truthiness: empty string, zero, None and the empty list are false. */
  predicate Truthy(v: Value) {
    match v
    case Str(s) => s != ""
    case Int(i) => i != 0
    case Null => false
    case List(xs) => xs != []
  }

  /** `m.get(key, default)`. */
  function Get(m: ApiRecord, key: string, default: Value): Value {
    if key in m then m[key] else default
  }

  /** `repr(v)`; strings are quoted but not escaped. */
  function PyRepr(v: Value): string
    decreases v, 0
  {
    match v
    case Str(s) => "'" + s + "'"
    case Int(i) => IntToString(i)
    case Null => "None"
    case List(xs) => "[" + Join(seq(|xs|, i requires 0 <= i < |xs| => PyRepr(xs[i])), ", ") + "]"
  }

  /** `str(v)`. */
  function PyStr(v: Value): string
    decreases v, 1
  {
    match v
    case Str(s) => s
    case Int(i) => IntToString(i)
    case Null => "None"
    case List(_) => PyRepr(v)
  }

  datatype Option<T> = None | Some(value: T)

  /** The exceptions a record can raise while it is being assembled. Neither is
      caught inside the batch loop, so either one ends the run. */
  datatype ScrapeError =
    | NotIterable   // `list(x)` on None or an integer (TypeError)
    | NotAString    // `parse_ext` on a value without `.split` (AttributeError)

  datatype Result<T> = Ok(value: T) | Err(error: ScrapeError) {
    predicate IsFailure() { Err? }
    function PropagateFailure<U>(): Result<U>
      requires Err?
    {
      Err(error)
    }
    function Extract(): T
      requires Ok?
    {
      value
    }
  }
}
