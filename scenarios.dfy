/** The reader class of the repository's own tests, `SampleReader`, with an
    `IntegerField` named `foo` followed by a `DateField` named `bar`, and the
    five files those tests read. */
module Scenarios {
  import opened Values
  import opened Ints
  import opened Dates
  import opened Fields
  import opened CsvValidator

  /** `IntegerField()` and `DateField()`: no pattern, null allowed. */
  const FooField: Field := Field(Integer, None, true)
  const BarField: Field := NewDateField([], None, true)

  /** The class body of `SampleReader` as the metaclass receives it. */
  const SampleNamespace: Namespace :=
    [("__module__", OtherAttr), ("__qualname__", OtherAttr), ("foo", FieldAttr(FooField)), ("bar", FieldAttr(BarField))]

  const SampleNames: seq<string> := ["foo", "bar"]
  const SampleFields: map<string, Field> := map["foo" := FooField, "bar" := BarField]

  lemma SampleSchema()
    ensures FieldNames(SampleNamespace) == SampleNames
    ensures SchemaOk(SampleNames, SampleFields)
  {
    var ns := SampleNamespace;
    assert ns[..3] == [ns[0], ns[1], ns[2]];
    assert ns[..3][..2] == [ns[0], ns[1]];
    assert ns[..3][..2][..1] == [ns[0]];
    assert ns[..3][..2][..1][..0] == [];
    assert FieldNames(ns[..3][..2][..1]) == [];
    assert FieldNames(ns[..3][..2]) == [];
    assert FieldNames(ns[..3]) == ["foo"];
  }

  function SampleRecord(foo: PyValue, bar: PyValue): map<Key, PyValue>
  {
    map[Some("foo") := foo, Some("bar") := bar]
  }

  /** foo and bar of line `k` of the test files. */
  function Foo(k: int): string { Decimal(k) }
  function Bar(k: int): string requires 1 <= k <= 28 { Render(Date(2016, 2, k), LongYear) }

  lemma FooBarConvert(k: int)
    requires 1 <= k <= 28
    ensures ToPython(FooField, PyStr(Foo(k))) == Ok(PyInt(k))
    ensures ToPython(BarField, PyStr(Bar(k))) == Ok(PyDate(Date(2016, 2, k)))
    ensures ToPython(FooField, PyStr("")) == Ok(PyNone)
    ensures ToPython(BarField, PyNone) == Ok(PyNone)
  {
    IntegerReadsDecimal(FooField, k);
    DefaultFormatsReadLongYears(BarField, Date(2016, 2, k));
    IntegerOnString(FooField, "");
    DateOutcomes(BarField, DefaultDateFormats, PyNone, Date(2016, 2, k));
  }

  /** What a record with the two fields holds, for any `to_python` under
      which they convert. */
  lemma TwoFieldValues(fields: map<string, Field>, conv: Converter, row: Row, foo: PyValue, bar: PyValue)
    requires SchemaOk(SampleNames, fields)
    requires conv(fields["foo"], RawCell(row, PyNone, 0)) == Ok(foo)
    requires conv(fields["bar"], RawCell(row, PyNone, 1)) == Ok(bar)
    requires |row| <= 2
    ensures var r := RowResult(SampleNames, fields, conv, None, PyNone, row);
      r.Record? && r.values.Keys == {Some("foo"), Some("bar")} &&
      r.values[Some("foo")] == foo && r.values[Some("bar")] == bar
  {
    assert SampleNames[0] == "foo" && SampleNames[1] == "bar";
    assert NameKeys(SampleNames) == {Some("foo"), Some("bar")};
    assert None !in NameKeys(SampleNames);
    RowRecord(SampleNames, fields, conv, None, PyNone, row);
    var r := RowResult(SampleNames, fields, conv, None, PyNone, row);
    assert r.Record?;
    assert Ok(r.values[Some(SampleNames[0])]) == conv(fields[SampleNames[0]], RawCell(row, PyNone, 0));
    assert Ok(r.values[Some(SampleNames[1])]) == conv(fields[SampleNames[1]], RawCell(row, PyNone, 1));
  }

  lemma TwoFields(fields: map<string, Field>, conv: Converter, row: Row, foo: PyValue, bar: PyValue)
    requires SchemaOk(SampleNames, fields)
    requires conv(fields["foo"], RawCell(row, PyNone, 0)) == Ok(foo)
    requires conv(fields["bar"], RawCell(row, PyNone, 1)) == Ok(bar)
    requires |row| <= 2
    ensures RowResult(SampleNames, fields, conv, None, PyNone, row) == Record(SampleRecord(foo, bar))
  {
    TwoFieldValues(fields, conv, row, foo, bar);
    var r := RowResult(SampleNames, fields, conv, None, PyNone, row);
    SampleRecordExt(r.values, foo, bar, None);
  }

  /** The same with a third cell, which lands under the rest key `None`. */
  lemma ThreeCellValues(fields: map<string, Field>, conv: Converter, row: Row, foo: PyValue, bar: PyValue)
    requires SchemaOk(SampleNames, fields)
    requires conv(fields["foo"], RawCell(row, PyNone, 0)) == Ok(foo)
    requires conv(fields["bar"], RawCell(row, PyNone, 1)) == Ok(bar)
    requires |row| == 3
    ensures var r := RowResult(SampleNames, fields, conv, None, PyNone, row);
      r.Record? && r.values.Keys == {Some("foo"), Some("bar"), None} &&
      r.values[Some("foo")] == foo && r.values[Some("bar")] == bar && r.values[None] == PyList([row[2]])
  {
    assert SampleNames[0] == "foo" && SampleNames[1] == "bar";
    assert NameKeys(SampleNames) == {Some("foo"), Some("bar")};
    assert None !in NameKeys(SampleNames);
    RowRecord(SampleNames, fields, conv, None, PyNone, row);
    var r := RowResult(SampleNames, fields, conv, None, PyNone, row);
    assert r.Record?;
    assert Ok(r.values[Some(SampleNames[0])]) == conv(fields[SampleNames[0]], RawCell(row, PyNone, 0));
    assert Ok(r.values[Some(SampleNames[1])]) == conv(fields[SampleNames[1]], RawCell(row, PyNone, 1));
    assert row[|SampleNames|..] == [row[2]];
  }

  lemma ThreeCells(fields: map<string, Field>, conv: Converter, row: Row, foo: PyValue, bar: PyValue)
    requires SchemaOk(SampleNames, fields)
    requires conv(fields["foo"], RawCell(row, PyNone, 0)) == Ok(foo)
    requires conv(fields["bar"], RawCell(row, PyNone, 1)) == Ok(bar)
    requires |row| == 3
    ensures RowResult(SampleNames, fields, conv, None, PyNone, row) == Record(SampleRecord(foo, bar)[None := PyList([row[2]])])
  {
    ThreeCellValues(fields, conv, row, foo, bar);
    var r := RowResult(SampleNames, fields, conv, None, PyNone, row);
    SampleRecordExt(r.values, foo, bar, Some(PyList([row[2]])));
  }

  /** A map with the keys and values of a sample record, with or without a
      value under `None`, is that record. */
  lemma SampleRecordExt(m: map<Key, PyValue>, foo: PyValue, bar: PyValue, rest: Option<PyValue>)
    requires m.Keys == {Some("foo"), Some("bar")} + (if rest.Some? then {None} else {})
    requires m[Some("foo")] == foo && m[Some("bar")] == bar
    requires rest.Some? ==> m[None] == rest.value
    ensures rest.None? ==> m == SampleRecord(foo, bar)
    ensures rest.Some? ==> m == SampleRecord(foo, bar)[None := rest.value]
  {
  }

  /** A `to_python` that converts the cells of the test files as the
      package's `IntegerField()` and `DateField()` do. */
  predicate SampleConversions(conv: Converter)
  {
    (forall k | 1 <= k <= 28 :: conv(FooField, PyStr(Foo(k))) == Ok(PyInt(k))) &&
    (forall k | 1 <= k <= 28 :: conv(BarField, PyStr(Bar(k))) == Ok(PyDate(Date(2016, 2, k)))) &&
    conv(FooField, PyStr("")) == Ok(PyNone) && conv(BarField, PyNone) == Ok(PyNone)
  }

  lemma FieldsConvertSample()
    ensures SampleConversions(ToPython)
  {
    forall k | 1 <= k <= 28
      ensures ToPython(FooField, PyStr(Foo(k))) == Ok(PyInt(k))
      ensures ToPython(BarField, PyStr(Bar(k))) == Ok(PyDate(Date(2016, 2, k)))
    {
      FooBarConvert(k);
    }
    FooBarConvert(1);
  }

  /** A line with both columns reads as the integer and the date. */
  lemma FullLine(conv: Converter, k: int)
    requires SampleConversions(conv) && 1 <= k <= 28
    ensures RowResult(SampleNames, SampleFields, conv, None, PyNone, FullRow(k)) == Record(Rec(k))
  {
    SampleSchema();
    TwoFields(SampleFields, conv, [Foo(k), Bar(k)], PyInt(k), PyDate(Date(2016, 2, k)));
  }

  /** A line with only the first column: `bar` gets the fill value `None`,
      which a `DateField` passes through. */
  lemma ShortLine(conv: Converter, k: int)
    requires SampleConversions(conv) && 1 <= k <= 28
    ensures RowResult(SampleNames, SampleFields, conv, None, PyNone, ShortRow(k))
      == Record(SampleRecord(PyInt(k), PyNone))
  {
    SampleSchema();
    TwoFields(SampleFields, conv, [Foo(k)], PyInt(k), PyNone);
  }

  /** A line whose first cell is empty: an `IntegerField` reads "" as `None`. */
  lemma NoFooLine(conv: Converter, k: int)
    requires SampleConversions(conv) && 1 <= k <= 28
    ensures RowResult(SampleNames, SampleFields, conv, None, PyNone, NoFooRow(k))
      == Record(SampleRecord(PyNone, PyDate(Date(2016, 2, k))))
  {
    SampleSchema();
    TwoFields(SampleFields, conv, ["", Bar(k)], PyNone, PyDate(Date(2016, 2, k)));
  }

  /** A line with a third column: its cell goes, as a one-element list,
      under the default rest key `None`. */
  lemma ExtraLine(conv: Converter, k: int, x: string)
    requires SampleConversions(conv) && 1 <= k <= 28
    ensures RowResult(SampleNames, SampleFields, conv, None, PyNone, ExtraRow(k, x))
      == Record(Rec(k)[None := PyList([x])])
  {
    SampleSchema();
    ThreeCells(SampleFields, conv, [Foo(k), Bar(k), x], PyInt(k), PyDate(Date(2016, 2, k)));
  }

  /** The row shapes of the test files: both columns, only the first, an
      empty first cell, and a third column. */
  function FullRow(k: int): Row requires 1 <= k <= 28 { [Foo(k), Bar(k)] }
  function ShortRow(k: int): Row { [Foo(k)] }
  function NoFooRow(k: int): Row requires 1 <= k <= 28 { ["", Bar(k)] }
  function ExtraRow(k: int, x: string): Row requires 1 <= k <= 28 { [Foo(k), Bar(k), x] }

  function Rec(k: int): map<Key, PyValue>
  {
    SampleRecord(PyInt(k), PyDate(Date(2016, 2, k)))
  }

  /** What `SampleReader.__next__` returns for each row shape. */
  ghost predicate SampleRows(rowResult: Row -> NextResult)
  {
    (forall k | 1 <= k <= 28 :: rowResult(FullRow(k)) == Record(Rec(k))) &&
    (forall k | 1 <= k <= 28 :: rowResult(ShortRow(k)) == Record(SampleRecord(PyInt(k), PyNone))) &&
    (forall k | 1 <= k <= 28 :: rowResult(NoFooRow(k)) == Record(SampleRecord(PyNone, PyDate(Date(2016, 2, k))))) &&
    (forall k, x | 1 <= k <= 28 :: rowResult(ExtraRow(k, x)) == Record(Rec(k)[None := PyList([x])]))
  }

  /** The reader's row results, for any `to_python` that converts the
      cells as the package's fields do. */
  lemma SampleRowResults(conv: Converter)
    requires SampleConversions(conv)
    ensures SchemaOk(SampleNames, SampleFields)
    ensures SampleRows(RowResults(SampleNames, SampleFields, conv, None, PyNone))
  {
    SampleSchema();
    var f := RowResults(SampleNames, SampleFields, conv, None, PyNone);
    forall k | 1 <= k <= 28
      ensures f(FullRow(k)) == Record(Rec(k))
      ensures f(ShortRow(k)) == Record(SampleRecord(PyInt(k), PyNone))
      ensures f(NoFooRow(k)) == Record(SampleRecord(PyNone, PyDate(Date(2016, 2, k))))
    {
      FullLine(conv, k);
      ShortLine(conv, k);
      NoFooLine(conv, k);
    }
    forall k, x | 1 <= k <= 28
      ensures f(ExtraRow(k, x)) == Record(Rec(k)[None := PyList([x])])
    {
      ExtraLine(conv, k, x);
    }
  }

  /** The cells of the test files. */
  lemma Cells()
    ensures Foo(1) == "1" && Foo(2) == "2" && Foo(3) == "3" && Foo(4) == "4"
    ensures Foo(6) == "6" && Foo(7) == "7" && Foo(8) == "8" && Foo(9) == "9"
    ensures Bar(1) == "02/01/2016" && Bar(2) == "02/02/2016" && Bar(3) == "02/03/2016" && Bar(4) == "02/04/2016"
  {
    FooCells();
    BarCell(1);
    BarCell(2);
    BarCell(3);
    BarCell(4);
  }

  lemma FooCells()
    ensures Foo(1) == "1" && Foo(2) == "2" && Foo(3) == "3" && Foo(4) == "4"
    ensures Foo(6) == "6" && Foo(7) == "7" && Foo(8) == "8" && Foo(9) == "9"
  {
  }

  lemma BarCell(k: int)
    requires 1 <= k <= 9
    ensures Bar(k) == "02/0" + [DigitChar(k)] + "/2016"
  {
  }

  const HeadersFile: seq<Row> :=
    [["foo", "bar"], ["1", "02/01/2016"], ["2", "02/02/2016"], ["3", "02/03/2016"], ["4", "02/04/2016"]]

  /** The records `test_with_headers` and `test_without_headers` expect. */
  const FullRecords: seq<map<Key, PyValue>> :=
    [Rec(1), Rec(2), Rec(3), Rec(4)]

  /** Each data line of the file becomes its record. */
  lemma HeadersLines(rowResult: Row -> NextResult)
    requires SampleRows(rowResult)
    ensures forall i | 1 <= i < |HeadersFile| :: HeadersFile[i] != [] && rowResult(HeadersFile[i]) == Record(FullRecords[i - 1])
  {
    Cells();
    assert HeadersFile[1] == FullRow(1);
    assert HeadersFile[2] == FullRow(2);
    assert HeadersFile[3] == FullRow(3);
    assert HeadersFile[4] == FullRow(4);
  }

  /** `test_with_headers`: the header line is skipped and line `k + 1` reads as
      `{foo: k, bar: 2016-02-k}`. */
  lemma ReadsHeaders(rowResult: Row -> NextResult)
    requires SampleRows(rowResult)
    ensures ReadAll(SampleNames, rowResult, HeadersFile, 0, 0) == (FullRecords, Stop)
  {
    HeadersLines(rowResult);
    assert FirstData(SampleNames, HeadersFile, 0) == 1;
    YieldsFromEach(SampleNames, rowResult, HeadersFile, 1, FullRecords);
    ReadAllRecords(SampleNames, rowResult, HeadersFile, 0, 0, FullRecords);
  }

  const NoHeadersFile: seq<Row> :=
    [["1", "02/01/2016"], ["2", "02/02/2016"], ["3", "02/03/2016"], ["4", "02/04/2016"]]

  /** Each data line of the file becomes its record. */
  lemma NoHeadersLines(rowResult: Row -> NextResult)
    requires SampleRows(rowResult)
    ensures forall i | 0 <= i < |NoHeadersFile| :: NoHeadersFile[i] != [] && rowResult(NoHeadersFile[i]) == Record(FullRecords[i])
  {
    Cells();
    assert NoHeadersFile[0] == FullRow(1);
    assert NoHeadersFile[1] == FullRow(2);
    assert NoHeadersFile[2] == FullRow(3);
    assert NoHeadersFile[3] == FullRow(4);
  }

  /** `test_without_headers`: every line is data and line `k` reads as
      `{foo: k, bar: 2016-02-k}`. */
  lemma ReadsNoHeaders(rowResult: Row -> NextResult)
    requires SampleRows(rowResult)
    ensures ReadAll(SampleNames, rowResult, NoHeadersFile, 0, 0) == (FullRecords, Stop)
  {
    NoHeadersLines(rowResult);
    assert FirstData(SampleNames, NoHeadersFile, 0) == 0;
    YieldsFromEach(SampleNames, rowResult, NoHeadersFile, 0, FullRecords);
    ReadAllRecords(SampleNames, rowResult, NoHeadersFile, 0, 0, FullRecords);
  }

  const ExtraColumnsFile: seq<Row> :=
    [["1", "02/01/2016", "6"], ["2", "02/02/2016", "7"], ["3", "02/03/2016", "8"], ["4", "02/04/2016", "9"]]

  /** The records `test_extra_columns` expects. */
  const ExtraColumnsRecords: seq<map<Key, PyValue>> :=
    [Rec(1)[None := PyList([Foo(6)])], Rec(2)[None := PyList([Foo(7)])], Rec(3)[None := PyList([Foo(8)])], Rec(4)[None := PyList([Foo(9)])]]

  /** Each data line of the file becomes its record. */
  lemma ExtraColumnsLines(rowResult: Row -> NextResult)
    requires SampleRows(rowResult)
    ensures forall i | 0 <= i < |ExtraColumnsFile| :: ExtraColumnsFile[i] != [] && rowResult(ExtraColumnsFile[i]) == Record(ExtraColumnsRecords[i])
  {
    Cells();
    assert ExtraColumnsFile[0] == ExtraRow(1, Foo(6));
    assert ExtraColumnsFile[1] == ExtraRow(2, Foo(7));
    assert ExtraColumnsFile[2] == ExtraRow(3, Foo(8));
    assert ExtraColumnsFile[3] == ExtraRow(4, Foo(9));
  }

  /** `test_extra_columns`: the third cell of line `k` is kept under `None` as the
      list `[str(k + 5)]`. */
  lemma ReadsExtraColumns(rowResult: Row -> NextResult)
    requires SampleRows(rowResult)
    ensures ReadAll(SampleNames, rowResult, ExtraColumnsFile, 0, 0) == (ExtraColumnsRecords, Stop)
  {
    ExtraColumnsLines(rowResult);
    assert FirstData(SampleNames, ExtraColumnsFile, 0) == 0;
    YieldsFromEach(SampleNames, rowResult, ExtraColumnsFile, 0, ExtraColumnsRecords);
    ReadAllRecords(SampleNames, rowResult, ExtraColumnsFile, 0, 0, ExtraColumnsRecords);
  }

  const MissingColumnsFile: seq<Row> :=
    [["1"], ["2"], ["3"], ["4"]]

  /** The records `test_missing_columns` expects. */
  const MissingColumnsRecords: seq<map<Key, PyValue>> :=
    [SampleRecord(PyInt(1), PyNone), SampleRecord(PyInt(2), PyNone), SampleRecord(PyInt(3), PyNone), SampleRecord(PyInt(4), PyNone)]

  /** Each data line of the file becomes its record. */
  lemma MissingColumnsLines(rowResult: Row -> NextResult)
    requires SampleRows(rowResult)
    ensures forall i | 0 <= i < |MissingColumnsFile| :: MissingColumnsFile[i] != [] && rowResult(MissingColumnsFile[i]) == Record(MissingColumnsRecords[i])
  {
    Cells();
    assert MissingColumnsFile[0] == ShortRow(1);
    assert MissingColumnsFile[1] == ShortRow(2);
    assert MissingColumnsFile[2] == ShortRow(3);
    assert MissingColumnsFile[3] == ShortRow(4);
  }

  /** `test_missing_columns`: `bar` is `None` on every line. */
  lemma ReadsMissingColumns(rowResult: Row -> NextResult)
    requires SampleRows(rowResult)
    ensures ReadAll(SampleNames, rowResult, MissingColumnsFile, 0, 0) == (MissingColumnsRecords, Stop)
  {
    MissingColumnsLines(rowResult);
    assert FirstData(SampleNames, MissingColumnsFile, 0) == 0;
    YieldsFromEach(SampleNames, rowResult, MissingColumnsFile, 0, MissingColumnsRecords);
    ReadAllRecords(SampleNames, rowResult, MissingColumnsFile, 0, 0, MissingColumnsRecords);
  }

  const MissingDataFile: seq<Row> :=
    [["", "02/01/2016"], ["", "02/02/2016"], ["", "02/03/2016"], ["", "02/04/2016"]]

  /** The records `test_missing_data` expects. */
  const MissingDataRecords: seq<map<Key, PyValue>> :=
    [SampleRecord(PyNone, PyDate(Date(2016, 2, 1))), SampleRecord(PyNone, PyDate(Date(2016, 2, 2))), SampleRecord(PyNone, PyDate(Date(2016, 2, 3))), SampleRecord(PyNone, PyDate(Date(2016, 2, 4)))]

  /** Each data line of the file becomes its record. */
  lemma MissingDataLines(rowResult: Row -> NextResult)
    requires SampleRows(rowResult)
    ensures forall i | 0 <= i < |MissingDataFile| :: MissingDataFile[i] != [] && rowResult(MissingDataFile[i]) == Record(MissingDataRecords[i])
  {
    Cells();
    assert MissingDataFile[0] == NoFooRow(1);
    assert MissingDataFile[1] == NoFooRow(2);
    assert MissingDataFile[2] == NoFooRow(3);
    assert MissingDataFile[3] == NoFooRow(4);
  }

  /** `test_missing_data`: `foo` is `None` on every line. */
  lemma ReadsMissingData(rowResult: Row -> NextResult)
    requires SampleRows(rowResult)
    ensures ReadAll(SampleNames, rowResult, MissingDataFile, 0, 0) == (MissingDataRecords, Stop)
  {
    MissingDataLines(rowResult);
    assert FirstData(SampleNames, MissingDataFile, 0) == 0;
    YieldsFromEach(SampleNames, rowResult, MissingDataFile, 0, MissingDataRecords);
    ReadAllRecords(SampleNames, rowResult, MissingDataFile, 0, 0, MissingDataRecords);
  }

  /** The five tests, with the package's own `to_python`. */
  lemma TestBase()
    ensures SchemaOk(SampleNames, SampleFields)
    ensures ReadAll(SampleNames, RowResults(SampleNames, SampleFields, ToPython, None, PyNone), HeadersFile, 0, 0) == (FullRecords, Stop)
    ensures ReadAll(SampleNames, RowResults(SampleNames, SampleFields, ToPython, None, PyNone), NoHeadersFile, 0, 0) == (FullRecords, Stop)
    ensures ReadAll(SampleNames, RowResults(SampleNames, SampleFields, ToPython, None, PyNone), ExtraColumnsFile, 0, 0) == (ExtraColumnsRecords, Stop)
    ensures ReadAll(SampleNames, RowResults(SampleNames, SampleFields, ToPython, None, PyNone), MissingColumnsFile, 0, 0) == (MissingColumnsRecords, Stop)
    ensures ReadAll(SampleNames, RowResults(SampleNames, SampleFields, ToPython, None, PyNone), MissingDataFile, 0, 0) == (MissingDataRecords, Stop)
  {
    FieldsConvertSample();
    SampleRowResults(ToPython);
    ReadsHeaders(RowResults(SampleNames, SampleFields, ToPython, None, PyNone));
    ReadsNoHeaders(RowResults(SampleNames, SampleFields, ToPython, None, PyNone));
    ReadsExtraColumns(RowResults(SampleNames, SampleFields, ToPython, None, PyNone));
    ReadsMissingColumns(RowResults(SampleNames, SampleFields, ToPython, None, PyNone));
    ReadsMissingData(RowResults(SampleNames, SampleFields, ToPython, None, PyNone));
  }
}
