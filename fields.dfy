/** The field conversion rules: `Field.to_python`, which checks null and the
    regular expression and returns the value unchanged, and the two typed
    fields built on it, `IntegerField` and `DateField`. */
module Fields {
  import opened Values
  import opened Ints
  import opened Regex
  import opened Dates

  /** Which `to_python` a field runs, and for a `DateField` its formats. */
  datatype Kind = Plain | Integer | DateKind(formats: seq<DateFormat>)

  /** A field as its constructor stores it: the kind, `regex` and `null`. */
  datatype Field = Field(kind: Kind, regex: Option<Pattern>, nullable: bool)

  const NullMessage: string := "Field may not be null"
  const IntMessage: string := "must be an int"
  const DateMessage: string := "invalid date format"
  const DefaultDateFormats: seq<DateFormat> := [ShortYear, LongYear]

  function MismatchMessage(regexText: string): string
  {
    "doesn't match \"" + regexText + "\""
  }

  /** `DateField(date_formats, regex=..., null=...)`: an empty list of
      formats stands for the defaults. */
  function NewDateField(formats: seq<DateFormat>, regex: Option<Pattern>, nullable: bool): (f: Field)
    ensures f.kind.DateKind? && f.kind.formats != []
    ensures formats != [] ==> f.kind.formats == formats
    ensures formats == [] ==> f.kind.formats == [ShortYear, LongYear]
    ensures f.regex == regex && f.nullable == nullable
  {
    Field(DateKind(if formats == [] then DefaultDateFormats else formats), regex, nullable)
  }

  /** `if self.regex`: a pattern is checked only when it is set and its text is non-empty. */
  predicate RegexApplies(f: Field)
  {
    f.regex.Some? && f.regex.value.text != ""
  }

  /** `Field.to_python`. `re.match` on anything but a string raises `TypeError`. */
  function BaseToPython(f: Field, v: PyValue): Outcome<PyValue>
  {
    if !f.nullable && !Truthy(v) then Invalid(NullMessage)
    else if RegexApplies(f) then
      if !v.PyStr? then Crash
      else if Matches(f.regex.value, v.s) then Ok(v)
      else Invalid(MismatchMessage(f.regex.value.text))
    else Ok(v)
  }

  /** What `int(v)` does: a value, `ValueError` or `TypeError`. */
  datatype IntCall = IntValue(n: int) | IntValueError | IntTypeError

  function PyIntCall(v: PyValue): IntCall
  {
    match v
    case PyInt(n) => IntValue(n)
    case PyStr(s) => (match ParseInt(s) case Some(n) => IntValue(n) case None => IntValueError)
    case _ => IntTypeError
  }

  /** `IntegerField.to_python`: the base checks, then `int()`; a `ValueError`
      on a falsy value falls through to `None`. */
  function IntegerToPython(f: Field, v: PyValue): Outcome<PyValue>
  {
    match BaseToPython(f, v)
    case Invalid(m) => Invalid(m)
    case Crash => Crash
    case Ok(w) =>
      match PyIntCall(w)
      case IntValue(n) => Ok(PyInt(n))
      case IntValueError => if Truthy(w) then Invalid(IntMessage) else Ok(PyNone)
      case IntTypeError => Crash
  }

  /** The loop of `DateField.to_python`: the result of the first format that
      parses `v`; strptime on a non-string raises `TypeError`, which the loop
      catches like `ValueError`. */
  function FirstParse(v: PyValue, formats: seq<DateFormat>): Option<Date>
  {
    if formats == [] then None
    else if v.PyStr? && Strptime(v.s, formats[0]).Some? then Strptime(v.s, formats[0])
    else FirstParse(v, formats[1..])
  }

  /** The loop finds a date exactly when some format reads the value, and
      then it is the date of the first format that does. */
  lemma {:induction false} FirstParseSpec(v: PyValue, formats: seq<DateFormat>)
    ensures FirstParse(v, formats).Some? <==>
      v.PyStr? && exists i | 0 <= i < |formats| :: Strptime(v.s, formats[i]).Some?
    ensures FirstParse(v, formats).Some? ==> exists i | 0 <= i < |formats| ::
      Strptime(v.s, formats[i]) == FirstParse(v, formats) && forall j | 0 <= j < i :: Strptime(v.s, formats[j]).None?
  {
    if formats != [] && !(v.PyStr? && Strptime(v.s, formats[0]).Some?) {
      var rest := formats[1..];
      FirstParseSpec(v, rest);
      assert forall i | 1 <= i < |formats| :: formats[i] == rest[i - 1];
      if FirstParse(v, rest).Some? {
        var i :| 0 <= i < |rest| &&
          Strptime(v.s, rest[i]) == FirstParse(v, rest) && forall j | 0 <= j < i :: Strptime(v.s, rest[j]).None?;
        assert formats[i + 1] == rest[i];
      }
    }
  }

  /** `DateField.to_python`: the base checks, the first successful format,
      and for a value no format reads, an error only when the value is truthy. */
  function DateToPython(f: Field, formats: seq<DateFormat>, v: PyValue): Outcome<PyValue>
  {
    match BaseToPython(f, v)
    case Invalid(m) => Invalid(m)
    case Crash => Crash
    case Ok(w) =>
      match FirstParse(w, formats)
      case Some(d) => Ok(PyDate(d))
      case None => if Truthy(w) then Invalid(DateMessage) else Ok(PyNone)
  }

  /** `field.to_python(v)` for a field of any kind. */
  function ToPython(f: Field, v: PyValue): Outcome<PyValue>
  {
    match f.kind
    case Plain => BaseToPython(f, v)
    case Integer => IntegerToPython(f, v)
    case DateKind(formats) => DateToPython(f, formats, v)
  }

  // ---- Field.to_python ----

  /** The base checks: a falsy value on a non-null field fails with the null
      message before the pattern is looked at; a value that passes comes back
      unchanged; a string that the pattern does not match at its start fails
      with a message naming the pattern's text. */
  lemma BaseToPythonSpec(f: Field, v: PyValue)
    ensures BaseToPython(f, v).Ok? ==> BaseToPython(f, v).value == v
    ensures BaseToPython(f, v) == Invalid(NullMessage) <==> !f.nullable && !Truthy(v)
    ensures BaseToPython(f, v).Ok? <==>
      (f.nullable || Truthy(v)) && (RegexApplies(f) ==> v.PyStr? && Matches(f.regex.value, v.s))
    ensures BaseToPython(f, v).Invalid? && BaseToPython(f, v).message != NullMessage <==>
      (f.nullable || Truthy(v)) && RegexApplies(f) && v.PyStr? && !Matches(f.regex.value, v.s)
    ensures BaseToPython(f, v).Invalid? && BaseToPython(f, v).message != NullMessage ==>
      BaseToPython(f, v).message == MismatchMessage(f.regex.value.text)
    ensures BaseToPython(f, v).Crash? <==> (f.nullable || Truthy(v)) && RegexApplies(f) && !v.PyStr?
  {
    if RegexApplies(f) {
      var m := MismatchMessage(f.regex.value.text);
      assert m[0] != NullMessage[0];
    }
  }

  /** An end-anchored pattern rejects a value with text after the digits,
      and accepts the digits alone. */
  lemma EndAnchoredField()
    ensures BaseToPython(Field(Plain, Some(DigitsToEnd), true), PyStr("12a")) ==
      Invalid(MismatchMessage("^[0-9]+$"))
    ensures BaseToPython(Field(Plain, Some(DigitsToEnd), true), PyStr("12")) == Ok(PyStr("12"))
  {
    EndAnchorExample();
  }

  // ---- IntegerField.to_python ----

  /** A decimal string converts to its value: `int(str(n)) == n`. */
  lemma IntegerReadsDecimal(f: Field, n: int)
    requires BaseToPython(f, PyStr(Decimal(n))).Ok?
    ensures IntegerToPython(f, PyStr(Decimal(n))) == Ok(PyInt(n))
  {
    DecimalRoundTrip(n);
    BaseToPythonSpec(f, PyStr(Decimal(n)));
  }

  /** The outcomes of `IntegerField.to_python` on a string: base-check
      errors pass through; otherwise a decimal string gives its integer, the
      empty string gives `None`, and any other string fails. */
  lemma IntegerOnString(f: Field, s: string)
    ensures BaseToPython(f, PyStr(s)).Invalid? ==> IntegerToPython(f, PyStr(s)) == BaseToPython(f, PyStr(s))
    ensures BaseToPython(f, PyStr(s)).Ok? && IsDecimal(s) ==> IntegerToPython(f, PyStr(s)) == Ok(PyInt(ParseInt(s).value))
    ensures BaseToPython(f, PyStr(s)).Ok? && s == "" ==> IntegerToPython(f, PyStr(s)) == Ok(PyNone)
    ensures BaseToPython(f, PyStr(s)).Ok? && s != "" && !IsDecimal(s) ==> IntegerToPython(f, PyStr(s)) == Invalid(IntMessage)
    ensures !IntegerToPython(f, PyStr(s)).Crash?
  {
    BaseToPythonSpec(f, PyStr(s));
  }

  /** `int(None)` raises `TypeError`, which `IntegerField` does not catch:
      a nullable integer field without a pattern crashes on `None`. */
  lemma IntegerOnNoneCrashes(f: Field)
    requires f.kind == Integer && f.nullable && !RegexApplies(f)
    ensures ToPython(f, PyNone) == Crash
  {
  }

  // ---- DateField.to_python ----

  /** `DateField.to_python` gives a date exactly when the base checks pass
      and some format reads the value, and then it is the first format's
      date; it gives `None` for a falsy value that passes the base checks;
      it fails with the date message for a truthy value no format reads. */
  lemma DateOutcomes(f: Field, formats: seq<DateFormat>, v: PyValue, d: Date)
    ensures DateToPython(f, formats, v) == Ok(PyDate(d)) <==>
      BaseToPython(f, v) == Ok(v) && FirstParse(v, formats) == Some(d)
    ensures BaseToPython(f, v).Ok? && !Truthy(v) ==> DateToPython(f, formats, v) == Ok(PyNone)
    ensures BaseToPython(f, v).Ok? && Truthy(v) && FirstParse(v, formats).None? ==>
      DateToPython(f, formats, v) == Invalid(DateMessage)
    ensures !BaseToPython(f, v).Ok? ==> DateToPython(f, formats, v) == BaseToPython(f, v)
  {
    BaseToPythonSpec(f, v);
    FirstParseSpec(v, formats);
    if !Truthy(v) && v.PyStr? {
      assert v.s == "";
      assert FirstParse(v, formats).None? by {
        forall i | 0 <= i < |formats| ensures Strptime("", formats[i]).None? {
          assert Candidates(Month, "", 0) == [];
        }
      }
    }
  }

  /** With the default formats a four-digit year is read by the second format. */
  lemma DefaultFormatsReadLongYears(f: Field, d: Date)
    requires f.kind == DateKind(DefaultDateFormats) && ValidDate(d)
    requires BaseToPython(f, PyStr(Render(d, LongYear))).Ok?
    ensures ToPython(f, PyStr(Render(d, LongYear))) == Ok(PyDate(d))
  {
    var s := Render(d, LongYear);
    ShortYearRejectsLongYear(d);
    LongYearRoundTrip(d);
    BaseToPythonSpec(f, PyStr(s));
    assert FirstParse(PyStr(s), DefaultDateFormats[1..]) == Some(d);
  }

  /** With the default formats a two-digit year is read by the first format. */
  lemma DefaultFormatsReadShortYears(f: Field, d: Date)
    requires f.kind == DateKind(DefaultDateFormats) && ValidDate(d) && 1969 <= d.year <= 2068
    requires BaseToPython(f, PyStr(Render(d, ShortYear))).Ok?
    ensures ToPython(f, PyStr(Render(d, ShortYear))) == Ok(PyDate(d))
  {
    ShortYearRoundTrip(d);
    BaseToPythonSpec(f, PyStr(Render(d, ShortYear)));
  }
}
