# csv-validator in Dafny

This project models the core of the `csv_validator` package and proves
properties of that model. The package provides a reader class and typed
fields:

- `ValidatedDictReader` is a `csv.DictReader` whose schema is made of
  `Field` objects declared as class attributes.
- `OrderedMetaclass` collects those fields, in declaration order, into
  `_fieldnames` and `_fields`.
- Each call of `__next__` pulls a row from the tokenizer. It skips a header
  row on physical line 1 and any blank rows. It then binds the cells to the
  field names by position, keeps surplus cells under `restkey`, and fills
  missing columns with `restval`. Finally it runs every field's `to_python`.
- `Field.to_python` checks null and a regular expression. `IntegerField`
  and `DateField` then convert with `int()` and `strptime`.

Modules:

- `Values`: the Python values involved (`None`, `str`, `int`, `date`, a
  list of strings) with their truthiness. It also defines `Outcome`, the
  three ways a conversion ends: a value, `ValidationError(message)`, or an
  uncaught `TypeError` (`Crash`).
- `Ints`: `int()` on strings, restricted to an optional sign plus ASCII
  digits, and `str()` on integers.
- `Regex`: `re.match` over a pattern that carries its text and what it
  matches. A pattern that looks at nothing past the text it consumes carries
  its language, and `re.match` succeeds when some prefix of the string is in
  it. A pattern with end anchors, word boundaries or look-ahead carries the
  outcome of `re.match` on each string directly.
- `Dates`: `strptime` for the two default formats `%m/%d/%y` and `%m/%d/%Y`.
  It models the pattern match where the first alternative wins, the
  "unconverted data remains" check, and the validity check of
  `datetime.date`.
- `Fields`: `Field`, `IntegerField` and `DateField` (`fields.py`).
- `CsvValidator`: the metaclass as the method `CollectSchema`, and the
  reader as the class `ValidatedDictReader`. The class holds the
  tokenizer's rows, a cursor that plays the tokenizer's `line_num`, and the
  reader's own `line_num`. Its methods `PullRow` and `Next` follow
  `__next__` statement by statement. What a call returns is also stated as
  the functions `Step` and `RowResult`, which the lemmas are about.
  - `RowResult` takes each field's `to_python` as a parameter (`Converter`),
    because `__next__` calls it through the field object. The reader passes
    `Fields.ToPython`.
  - `Step` and `ReadAll` (iterating until the reader stops or raises) take
    the per-row result as a parameter. The pulling logic is then proved
    once, for every schema and every `to_python`.
- `Scenarios`: the `SampleReader` of `csv_validator/tests/test_base.py`
  over the five test files, read to the end with the package's own fields.

Python raises `StopIteration` when the tokenizer runs out; this is the
`Stop` result. A `ValidationError` is `Rejected(message)`, and a `TypeError`
is `Crashed`.

The tests under `tests/` target another version of the package. That
version has a capture mode (`iter_lines(skip_errors=True)`), an `errors` list
of per-field message dictionaries, and `ValidationError`s that hold a
dictionary (tests/test_validation.py:81-120). The code of `csv_validator/`
has none of these, and the model follows that code:

- `__next__` converts the fields in `_fields` order;
- the first exception raised by a `to_python` ends the call with that single
  error (csv_validator/__init__.py:62-64);
- there are no index-keyed fields (tests/test_base.py:55-56 and 124-126)
  and no `required=` option (tests/test_validation.py:12-14).

## Model

| member | source | states |
|---|---|---|
| Ints.ParseInt | csv_validator/fields.py:46-47 | `int(s)` gives a value exactly when `s` is an optional sign followed by one or more digits |
| Ints.DecimalRoundTrip | csv_validator/fields.py:46-47 | `int(str(n)) == n` for every integer |
| Ints.LeadingZero | csv_validator/fields.py:46-47 | a leading zero does not change the value `int()` reads |
| Ints.NatDigitsValue | csv_validator/fields.py:46-47 | the decimal rendering of a natural number is a non-empty digit string whose value is that number |
| Regex.FullMatchMatches | csv_validator/fields.py:17 | a string that a prefix pattern matches completely passes `re.match` |
| Regex.MatchesExtended | csv_validator/fields.py:17 | `re.match` anchors at the start only: for a pattern that looks at nothing past what it consumes, appending text never undoes a match |
| Regex.AnchoringExample | csv_validator/fields.py:17 | a pattern for "AB" matches "ABC" but not "xAB" |
| Regex.EndAnchorExample | csv_validator/fields.py:17 | `^[0-9]+$` matches "12" and "12\n" but not "12a": for an end-anchored pattern, appended text can undo a match |
| Dates.Strptime | csv_validator/fields.py:35 | every date strptime returns is a valid `datetime.date` (month 1-12, day within the month, leap years, year 1-9999) |
| Dates.Candidates | csv_validator/fields.py:35 | every way a directive can match consumes at least one character and stays within the string |
| Dates.Match | csv_validator/fields.py:35 | a match reads one value per item and ends within the string |
| Dates.RenderMatches | csv_validator/fields.py:35 | the zero-padded rendering of a valid date is matched along exactly the month/day/year path, to its end |
| Dates.LongYearRoundTrip | csv_validator/fields.py:35 | `%m/%d/%Y` reads back the rendering of every valid date as that date |
| Dates.ShortYearRoundTrip | csv_validator/fields.py:35 | `%m/%d/%y` reads back the two-digit rendering as the date for every year 1969-2068 |
| Dates.ShortYearRejectsLongYear | csv_validator/fields.py:28-35 | `%m/%d/%y` fails on a four-digit year (unconverted data), so trying it first is harmless |
| Fields.NewDateField | csv_validator/fields.py:27-29 | an empty format list becomes `['%m/%d/%y', '%m/%d/%Y']`, and any other list is kept as given |
| Fields.BaseToPythonSpec | csv_validator/fields.py:13-22 | a falsy value on a non-null field fails with the null message, before the pattern is looked at; a value that passes comes back unchanged; a string not matched at its start fails with a message holding the pattern text; a non-string under a pattern is a `TypeError` |
| Fields.EndAnchoredField | csv_validator/fields.py:13-22 | a field with pattern `^[0-9]+$` fails "12a" with the message `doesn't match "^[0-9]+$"` and returns "12" unchanged |
| Fields.IntegerReadsDecimal | csv_validator/fields.py:44-50 | a decimal string that passes the base checks converts to its integer |
| Fields.IntegerOnString | csv_validator/fields.py:44-50 | on a string, base-check errors pass through; otherwise a decimal gives its integer, "" gives `None`, any other string fails with 'must be an int'; never a crash |
| Fields.IntegerOnNoneCrashes | csv_validator/fields.py:44-48 | `int(None)`'s `TypeError` is not caught: a nullable integer field without a pattern crashes on `None` |
| Fields.FirstParseSpec | csv_validator/fields.py:33-37 | the format loop finds a date exactly when some format reads the value, and then it is the date of the first format that does |
| Fields.DateOutcomes | csv_validator/fields.py:31-39 | a date exactly when the base checks pass and a format reads the value; `None` for a falsy value that passes the base checks; 'invalid date format' for a truthy value no format reads; base-check errors pass through |
| Fields.DefaultFormatsReadLongYears | csv_validator/fields.py:28-37 | with the default formats a `mm/dd/yyyy` string is read as its date |
| Fields.DefaultFormatsReadShortYears | csv_validator/fields.py:28-37 | with the default formats a `mm/dd/yy` string is read as its date (years 1969-2068) |
| CsvValidator.CollectSchema | csv_validator/__init__.py:13-22 | `_fieldnames` is the names of the `Field` attributes in declaration order, with no repeats; `_fields` holds exactly those names, each mapped to its own field |
| CsvValidator.FieldNamesMembership | csv_validator/__init__.py:18-21 | a name is collected exactly when the class body binds it to a `Field` |
| CsvValidator.FieldNamesConcat | csv_validator/__init__.py:18-21 | collection keeps declaration order: the fields of two stretches of a class body are those of the first followed by those of the second |
| CsvValidator.FieldNamesDistinct | csv_validator/__init__.py:13-22 | the collected names are distinct |
| CsvValidator.SkipBlanks | csv_validator/__init__.py:42-43 | the row found is the first non-blank one: every row skipped is blank |
| CsvValidator.Reconcile | csv_validator/__init__.py:44-52 | the raw dictionary's keys are the field names, plus the rest key exactly when the row is longer than the schema |
| CsvValidator.ReconcileValues | csv_validator/__init__.py:44-52 | cell `i` lies under field name `i`; every name past the end of the row holds `restval`; the surplus cells lie under the rest key, verbatim and in order |
| CsvValidator.ReconcileAt | csv_validator/__init__.py:44-52 | the same for a single field name |
| CsvValidator.Step | csv_validator/__init__.py:31-43 | a call never moves the tokenizer back or past the end, and a call that returns a record consumes at least one row |
| CsvValidator.ReadAll | csv_validator/__init__.py:31-69 | iteration ends with no record left pending and yields at most one record per row |
| CsvValidator.ValidatedDictReader.constructor | csv_validator/__init__.py:25-29 | the reader starts at the first row with the given schema, rest key and fill value |
| CsvValidator.ValidatedDictReader.PullRow | csv_validator/__init__.py:31-43 | the row pulled is the first non-blank row after a line-1 header, or none when the tokenizer runs out; `line_num` is that of the first row pulled |
| CsvValidator.ValidatedDictReader.Next | csv_validator/__init__.py:31-69 | the result of `__next__`, the rows consumed and `line_num` are those of `Step` |
| CsvValidator.BuildRow | csv_validator/__init__.py:44-52 | the dictionary built is the raw dictionary `Reconcile` |
| CsvValidator.FillMissing | csv_validator/__init__.py:51-52 | the loop adds every given name bound to the fill value and leaves other keys alone |
| CsvValidator.ConvertRow | csv_validator/__init__.py:62-64 | the conversion loop's outcome is `ConvertAll` of the raw dictionary |
| CsvValidator.StepStops | csv_validator/__init__.py:31-43 | iteration stops exactly when the tokenizer runs out at the first pull, at the pull after a skipped header, or while skipping blanks; it has then consumed every row; `line_num` is set by the first pull only |
| CsvValidator.HeaderOnlyOnFirstLine | csv_validator/__init__.py:33-37 | the first row is dropped only on physical line 1 and only when it equals the field names; a row equal to the field names on any later line is data |
| CsvValidator.NoRecordFromBlankRow | csv_validator/__init__.py:42-43 | a result always comes from a non-blank row, and every row skipped after the header check is blank |
| CsvValidator.ConvertAllOk | csv_validator/__init__.py:62-64 | the loop succeeds exactly when every field converts; each name then holds its field's `to_python` of its raw value, and other keys are unchanged |
| CsvValidator.ConvertAllFailure | csv_validator/__init__.py:62-64 | otherwise the outcome is the error of the first field, in declaration order, that does not convert |
| CsvValidator.RawSuccess | csv_validator/__init__.py:44-64 | the conversion loop on the raw dictionary, in terms of the row's cells and the fill value |
| CsvValidator.RawFailure | csv_validator/__init__.py:44-64 | the first failing field of that loop, in terms of the row's cells and the fill value |
| CsvValidator.RowRecord | csv_validator/__init__.py:44-69 | a row becomes a record exactly when every field converts its cell (or the fill value); the record holds each converted value under its field name, the surplus cells under the rest key, and no other key |
| CsvValidator.RowRejected | csv_validator/__init__.py:62-69 | a row that does not become a record raises the error of the first field, in declaration order, that does not convert |
| CsvValidator.ReadAllRecords | csv_validator/__init__.py:31-69 | when every row after a line-1 header is non-blank and converts, iterating yields exactly their records, in order, and then stops |
| CsvValidator.ReadAllFront | csv_validator/__init__.py:31-69 | a call that returns a record puts it in front of what the following calls yield |
| CsvValidator.ReadAllEnds | csv_validator/__init__.py:31-43 | when the tokenizer runs out during a call, iteration yields nothing more |
| Scenarios.SampleSchema | csv_validator/tests/test_base.py:41-44 | `SampleReader`'s class body gives the schema `foo`, `bar`, and the attributes Python adds to it are not fields |
| Scenarios.FooBarConvert | csv_validator/tests/test_base.py:53-57 | `IntegerField()` reads "k" as k and "" as `None`; `DateField()` reads "02/kk/2016" as 2016-02-kk and `None` as `None` |
| Scenarios.FieldsConvertSample | csv_validator/tests/test_base.py:41-44 | the package's `to_python` converts every cell of the test files as the tests expect |
| Scenarios.FullLine | csv_validator/tests/test_base.py:49-57 | a line `k,02/kk/2016` becomes `{foo: k, bar: 2016-02-kk}` |
| Scenarios.ExtraLine | csv_validator/tests/test_base.py:69-78 | a third cell lands, as a one-element list, under the rest key `None` |
| Scenarios.ShortLine | csv_validator/tests/test_base.py:80-88 | a line without `bar` gets `bar: None` |
| Scenarios.NoFooLine | csv_validator/tests/test_base.py:90-98 | an empty `foo` cell becomes `None` |
| Scenarios.SampleRowResults | csv_validator/tests/test_base.py:41-98 | the rows of the test files become the records the tests expect, for any `to_python` that converts the cells as the package's does |
| Scenarios.ReadsHeaders | csv_validator/tests/test_base.py:49-57 | the header line is skipped and the four data lines give their records, in order |
| Scenarios.ReadsNoHeaders | csv_validator/tests/test_base.py:59-67 | without a header, every line gives its record |
| Scenarios.ReadsExtraColumns | csv_validator/tests/test_base.py:69-78 | each extra cell is kept under `None` as `[str(k + 5)]` |
| Scenarios.ReadsMissingColumns | csv_validator/tests/test_base.py:80-88 | `bar` is `None` on every line |
| Scenarios.ReadsMissingData | csv_validator/tests/test_base.py:90-98 | `foo` is `None` on every line |
| Scenarios.TestBase | csv_validator/tests/test_base.py:47-98 | the five tests, read to the end with the package's own fields, yield exactly the records they expect |

## Left out

- `FloatField` (csv_validator/fields.py:53-61) is not modelled, because it depends on floating-point parsing.
- The regular-expression engine is not modelled. A pattern is its text plus either its language or the outcome of `re.match` on each string. Which of the two a pattern text calls for, and the link between the text and that language or outcome, are not modelled.
- `Regex.MatchesExtended` and `Regex.FullMatchMatches`: they are stated only for `Prefix` patterns, those that look at nothing past the text they consume. For a pattern with `$`, `\Z`, `\b`, `\B` or look-ahead, appended text can undo a match; `Regex.EndAnchorExample` shows one.
- `Dates.Strptime`: reads ASCII digits only. The `%d`, `%y` and `%Y` directives are compiled with `\d`, which on `str` also matches other Unicode decimal digits, so Python reads "02/01/２０１６" as 2016-02-01 where the model finds no date.
- `Dates.Candidates`: offers only the ASCII-digit alternatives of `%d`, `%y` and `%Y`, for the same reason.
- Only the two default `strptime` formats are modelled. Other directives, other literal text in formats, and strptime's leniencies (whitespace, case) are not. `Fields.Kind` therefore only holds lists of those two formats.
- `Ints.ParseInt`: does not model `int()`'s leniencies (surrounding whitespace, underscores, non-ASCII digits). It accepts only an optional sign followed by ASCII digits.
- `Ints.ParseInt`: has no limit on the number of digits. This is `int()` before Python 3.11. Since 3.11 (and its security backports), `int()` raises `ValueError` on a string of more than 4300 digits (the default of `sys.set_int_max_str_digits`), and the model still returns the value.
- `Fields.IntegerReadsDecimal`: for the same reason, it converts a decimal cell of more than 4300 digits. Since Python 3.11, `IntegerField` fails such a cell with 'must be an int'.
- `Fields.IntegerOnString`: for the same reason, it gives the integer for a decimal cell of more than 4300 digits, where Python 3.11 and later fail it with 'must be an int'.
- The `csv` tokenizer is not modelled (quoting, dialects, encoding, file I/O). The input is a given sequence of rows, one physical line each, so the tokenizer's `line_num` equals the number of rows consumed. Multi-line quoted cells are not modelled.
- `restkey` and `restval` come from `csv.DictReader.__init__`, which is not part of this model. They are constructor parameters; the tests use the defaults (`None`, `None`).
- Dictionaries are maps, so the key order of a yielded record is not modelled. The order in which `__next__` converts fields (that of `_fields`, the declaration order) is modelled.
- The metaclass machinery (`__prepare__`, `type.__new__`, inheritance) is not modelled. A class body is an explicit ordered list of (name, attribute) pairs with distinct names. Fields inherited from a base class are not collected, as in the code.
- The `except KeyError` branch (csv_validator/__init__.py:65-67) is not modelled; it cannot be reached, because every field name is a key of the raw dictionary. The commented-out code (lines 54-61 and 71-81) is not modelled either.
- The `exceptions` module is not part of this model. `ValidationError` is an outcome carrying its message.
- `CsvValidator.RowRecord`, `CsvValidator.RowRejected`, `CsvValidator.RawSuccess` and `CsvValidator.RawFailure`: these state a record's contents only for a rest key that is not a field name. `CsvValidator.Reconcile`, `CsvValidator.ReconcileValues` and the reader itself do model a rest key equal to a field name, where Python's `d[restkey] = row[lf:]` overwrites that field's cell before conversion.
- `Scenarios.TestBase`: the tests only compare each yielded row; the lemma also proves that nothing else is yielded and that iteration then stops.
