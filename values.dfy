/** The Python values that flow between the tokenizer, the row dictionary and
    the field converters, and the three ways a conversion can end. */
module Values {

  datatype Option<+T> = None | Some(value: T)

  /** A `datetime.date`: proleptic Gregorian year, month and day. */
  datatype Date = Date(year: int, month: int, day: int)

  /** The Python objects a row dictionary can hold: raw cells are strings,
      surplus cells a list of strings, the fill value for missing columns
      any of these, and converted values integers, dates or `None`. */
  datatype PyValue =
    | PyNone
    | PyStr(s: string)
    | PyInt(i: int)
    | PyDate(date: Date)
    | PyList(items: seq<string>)

  /** Python truthiness, `bool(v)`, of the values above. */
  predicate Truthy(v: PyValue)
  {
    match v
    case PyNone => false
    case PyStr(s) => s != ""
    case PyInt(i) => i != 0
    case PyDate(_) => true
    case PyList(items) => items != []
  }

  /** How a conversion ends: with a value, by raising `ValidationError`
      with a message, or by an uncaught `TypeError` (`Crash`). */
  datatype Outcome<+T> = Ok(value: T) | Invalid(message: string) | Crash
}
