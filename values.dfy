/** Option and Result, and the dynamically typed values the bot keeps in its per-user
    FSM data dictionary and receives as JSON from the web service. */
module Values {

  datatype Option<+T> = None | Some(value: T) {
    predicate IsFailure() { None? }

    function PropagateFailure<U>(): Option<U>
      requires None?
    {
      None
    }

    function Extract(): T
      requires Some?
    {
      value
    }
  }

  datatype Result<+T, +E> = Ok(value: T) | Err(error: E)

  /** A Python value as far as the bot looks at it: JSON scalars and strings, and the
      {"latitude": .., "longitude": ..} dictionary stored under "location".
      `Null` is Python's None; coordinates are passed through as opaque numbers. */
  datatype Value =
    | Null
    | Bool(b: bool)
    | Int(i: int)
    | Num(r: real)
    | Str(s: string)
    | Location(latitude: real, longitude: real)

  /** Python truthiness (`if v:`). A location dictionary has two keys, so it is always true. */
  predicate Truthy(v: Value) {
    match v
    case Null => false
    case Bool(b) => b
    case Int(i) => i != 0
    case Num(r) => r != 0.0
    case Str(s) => s != ""
    case Location(_, _) => true
  }

  /** `d.get(k)`: the stored value, or None when the key is absent. */
  function Get(d: map<string, Value>, k: string): Value {
    if k in d then d[k] else Null
  }

  /** A value that is either a string or None, as `message.text` is. */
  function TextValue(t: Option<string>): Value {
    match t
    case Some(s) => Str(s)
    case None => Null
  }
}
