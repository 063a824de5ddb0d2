/** The reader: `OrderedMetaclass`, which collects a reader class's `Field`
    attributes into its schema, and `ValidatedDictReader`, whose `__next__`
    turns the tokenizer's next row into a dictionary of converted values. */
module CsvValidator {
  import opened Values
  import opened Fields

  // ---- OrderedMetaclass: the schema of a reader class ----

  /** A class attribute as the metaclass sees it: a `Field`, or anything else. */
  datatype Attr = FieldAttr(field: Field) | OtherAttr

  /** A class body's namespace in declaration order; it is a dictionary, so
      its names are distinct. */
  type Namespace = seq<(string, Attr)>

  predicate DistinctKeys(ns: Namespace)
  {
    forall i, j | 0 <= i < j < |ns| :: ns[i].0 != ns[j].0
  }

  predicate Distinct(names: seq<string>)
  {
    forall i, j | 0 <= i < j < |names| :: names[i] != names[j]
  }

  /** The names of the `Field`-valued attributes, in declaration order. */
  function FieldNames(ns: Namespace): seq<string>
  {
    if ns == [] then []
    else FieldNames(ns[..|ns| - 1]) + (if ns[|ns| - 1].1.FieldAttr? then [ns[|ns| - 1].0] else [])
  }

  lemma {:induction false} FieldNamesMembership(ns: Namespace, n: string)
    ensures n in FieldNames(ns) <==> exists i | 0 <= i < |ns| :: ns[i].0 == n && ns[i].1.FieldAttr?
  {
    if ns != [] {
      var init := ns[..|ns| - 1];
      FieldNamesMembership(init, n);
      assert forall i | 0 <= i < |init| :: init[i] == ns[i];
    }
  }

  /** Declaration order is kept: the fields of two consecutive stretches of
      a class body are those of the first followed by those of the second. */
  lemma {:induction false} FieldNamesConcat(a: Namespace, b: Namespace)
    ensures FieldNames(a + b) == FieldNames(a) + FieldNames(b)
    decreases |b|
  {
    if b == [] {
      assert a + b == a;
    } else {
      var b' := b[..|b| - 1];
      FieldNamesConcat(a, b');
      assert (a + b)[..|a + b| - 1] == a + b';
    }
  }

  lemma {:induction false} FieldNamesDistinct(ns: Namespace)
    requires DistinctKeys(ns)
    ensures Distinct(FieldNames(ns))
  {
    if ns != [] {
      var init := ns[..|ns| - 1];
      FieldNamesDistinct(init);
      var last := ns[|ns| - 1];
      if last.1.FieldAttr? {
        FieldNamesMembership(init, last.0);
      }
    }
  }

  /** `OrderedMetaclass.__new__`: walk the class body in order and record each
      `Field` attribute in `_fieldnames` and `_fields`. */
  method CollectSchema(ns: Namespace) returns (fieldnames: seq<string>, fields: map<string, Field>)
    requires DistinctKeys(ns)
    ensures fieldnames == FieldNames(ns) && Distinct(fieldnames)
    ensures forall n :: n in fields <==> n in fieldnames
    ensures forall i | 0 <= i < |ns| && ns[i].1.FieldAttr? :: ns[i].0 in fields && fields[ns[i].0] == ns[i].1.field
  {
    fieldnames := [];
    fields := map[];
    var i := 0;
    while i < |ns|
      invariant 0 <= i <= |ns|
      invariant fieldnames == FieldNames(ns[..i])
      invariant forall n :: n in fields <==> n in fieldnames
      invariant forall j | 0 <= j < i && ns[j].1.FieldAttr? :: ns[j].0 in fields && fields[ns[j].0] == ns[j].1.field
    {
      var (key, value) := ns[i];
      assert ns[..i + 1][..i] == ns[..i];
      if value.FieldAttr? {
        fields := fields[key := value.field];
        fieldnames := fieldnames + [key];
      }
      i := i + 1;
    }
    assert ns[..i] == ns;
    FieldNamesDistinct(ns);
  }

  // ---- ValidatedDictReader.__next__, as functions of the input ----

  /** One row from the tokenizer: its cells. */
  type Row = seq<string>

  /** A dictionary key: a field name, or the rest key (`None` or a string). */
  type Key = Option<string>

  /** A field's `to_python`. The reader calls it through the field object,
      whatever the field's class; `Fields.ToPython` is the one of the field
      classes of this package. */
  type Converter = (Field, PyValue) -> Outcome<PyValue>

  /** A reader's schema as the metaclass leaves it: distinct names in
      `fieldnames`, and `fields` holding exactly those names. */
  predicate SchemaOk(names: seq<string>, fields: map<string, Field>)
  {
    Distinct(names) && (forall n | n in names :: n in fields) && (forall n | n in fields :: n in names)
  }

  /** The first non-blank row at or after `k`, or `|rows|` when there is none. */
  function SkipBlanks(rows: seq<Row>, k: nat): (j: nat)
    requires k <= |rows|
    ensures k <= j <= |rows|
    ensures forall i | k <= i < j :: rows[i] == []
    ensures j < |rows| ==> rows[j] != []
    decreases |rows| - k
  {
    if k == |rows| || rows[k] != [] then k else SkipBlanks(rows, k + 1)
  }

  /** Where blank-skipping starts once row `cursor` has been pulled (as
      physical line `cursor + 1`): one row further when that row is on line 1
      and equals the field names. */
  function AfterHeader(names: seq<string>, rows: seq<Row>, cursor: nat): nat
    requires cursor < |rows|
  {
    if cursor + 1 == 1 && rows[cursor] == names then cursor + 1 else cursor
  }

  /** The row `__next__` turns into its result when row `cursor` is pulled first. */
  function SourceRow(names: seq<string>, rows: seq<Row>, cursor: nat): nat
    requires cursor < |rows|
  {
    SkipBlanks(rows, AfterHeader(names, rows, cursor))
  }

  function NameKeys(names: seq<string>): set<Key>
  {
    set n | n in names :: Some(n)
  }

  /** `dict(zip(names, row))`. */
  function Zip(names: seq<string>, row: Row): map<Key, PyValue>
    requires Distinct(names)
  {
    map i | 0 <= i < |names| && i < |row| :: Some(names[i]) := PyStr(row[i])
  }

  /** Every name in `keys` bound to `v`. */
  function Fill(keys: seq<string>, v: PyValue): map<Key, PyValue>
  {
    map k | k in NameKeys(keys) :: v
  }

  /** The raw dictionary `__next__` builds from a row before conversion. */
  function Reconcile(names: seq<string>, row: Row, restkey: Key, restval: PyValue): (d: map<Key, PyValue>)
    requires Distinct(names)
    ensures d.Keys == NameKeys(names) + (if |names| < |row| then {restkey} else {})
  {
    var z := Zip(names, row);
    ZipKeys(names, row);
    if |names| < |row| then z[restkey := PyList(row[|names|..])]
    else if |names| > |row| then
      assert forall n :: n in names <==> n in names[..|row|] || n in names[|row|..] by {
        assert names == names[..|row|] + names[|row|..];
      }
      z + Fill(names[|row|..], restval)
    else
      assert names[..|row|] == names;
      z
  }

  lemma ZipKeys(names: seq<string>, row: Row)
    requires Distinct(names)
    ensures Zip(names, row).Keys == NameKeys(names[..if |row| < |names| then |row| else |names|])
  {
    var m := if |row| < |names| then |row| else |names|;
    forall k | k in NameKeys(names[..m]) ensures k in Zip(names, row) {
      var n := k.value;
      var i :| 0 <= i < m && names[..m][i] == n;
      assert Zip(names, row)[Some(names[i])] == PyStr(row[i]);
    }
  }

  /** Each field's `to_python` in declaration order, storing each result
      under its name; the first error ends the loop. */
  function ConvertAll(names: seq<string>, fields: map<string, Field>, conv: Converter, d: map<Key, PyValue>): Outcome<map<Key, PyValue>>
    requires forall n | n in names :: n in fields && Some(n) in d
    decreases |names|
  {
    if names == [] then Ok(d)
    else
      match conv(fields[names[0]], d[Some(names[0])])
      case Ok(v) => ConvertAll(names[1..], fields, conv, d[Some(names[0]) := v])
      case Invalid(m) => Invalid(m)
      case Crash => Crash
  }

  /** What one call of `__next__` returns: end of iteration, a record, a
      raised `ValidationError`, or an uncaught `TypeError`. */
  datatype NextResult = Stop | Record(values: map<Key, PyValue>) | Rejected(message: string) | Crashed

  /** The result of one call, with the tokenizer's position (the number of
      rows, hence physical lines, it has consumed) and `line_num` afterwards. */
  datatype StepState = StepState(result: NextResult, cursor: nat, lineNum: nat)

  /** What `__next__` returns for the row it has pulled. */
  function RowResult(names: seq<string>, fields: map<string, Field>, conv: Converter, restkey: Key, restval: PyValue,
                     row: Row): NextResult
    requires SchemaOk(names, fields)
  {
    match ConvertAll(names, fields, conv, Reconcile(names, row, restkey, restval))
    case Ok(out) => Record(out)
    case Invalid(m) => Rejected(m)
    case Crash => Crashed
  }

  /** The row results of a reader: `RowResult` for its schema, field
      conversion, rest key and fill value. */
  function RowResults(names: seq<string>, fields: map<string, Field>, conv: Converter, restkey: Key, restval: PyValue): (f: Row -> NextResult)
    requires SchemaOk(names, fields)
    ensures forall row :: f(row) == RowResult(names, fields, conv, restkey, restval, row)
    ensures forall row :: !f(row).Stop?
  {
    row => RowResult(names, fields, conv, restkey, restval, row)
  }

  /** One call of `__next__` on rows `rows` with `cursor` rows already
      consumed; `rowResult` is what the call returns for the row it pulls
      (`RowResults` of the reader), so that the pulling logic is stated once
      for every schema and every `to_python`. */
  function Step(names: seq<string>, rowResult: Row -> NextResult, rows: seq<Row>, cursor: nat, lineNum: nat): (st: StepState)
    requires cursor <= |rows|
    ensures cursor <= st.cursor <= |rows|
    ensures st.result.Record? ==> cursor < st.cursor
  {
    if cursor == |rows| then StepState(Stop, cursor, lineNum)
    else
      var k := SourceRow(names, rows, cursor);
      if k == |rows| then StepState(Stop, k, cursor + 1)
      else
        StepState(rowResult(rows[k]), k + 1, cursor + 1)
  }

  /** `for row in reader`: the records of successive calls, until iteration
      stops or a call raises; the second component says which. */
  function ReadAll(names: seq<string>, rowResult: Row -> NextResult, rows: seq<Row>, cursor: nat, lineNum: nat): (r: (seq<map<Key, PyValue>>, NextResult))
    requires cursor <= |rows|
    ensures !r.1.Record?
    ensures |r.0| <= |rows| - cursor
    decreases |rows| - cursor
  {
    var st := Step(names, rowResult, rows, cursor, lineNum);
    if st.result.Record? then
      var rest := ReadAll(names, rowResult, rows, st.cursor, st.lineNum);
      ([st.result.values] + rest.0, rest.1)
    else ([], st.result)
  }

  // ---- ValidatedDictReader ----

  /** A reader over a given sequence of rows. The schema is that of the
      reader class (`fieldnames` and `_fields`); `restkey` and `restval` are
      the constructor's arguments; `cursor` is the tokenizer's position. */
  class ValidatedDictReader {
    const fieldnames: seq<string>
    const fields: map<string, Field>
    const restkey: Key
    const restval: PyValue
    const rows: seq<Row>
    var cursor: nat
    var lineNum: nat

    ghost predicate Valid()
      reads this
    {
      SchemaOk(fieldnames, fields) && cursor <= |rows|
    }

    constructor (fieldnames: seq<string>, fields: map<string, Field>, rows: seq<Row>, restkey: Key, restval: PyValue)
      requires SchemaOk(fieldnames, fields)
      ensures Valid()
      ensures this.fieldnames == fieldnames && this.fields == fields && this.rows == rows
      ensures this.restkey == restkey && this.restval == restval
      ensures cursor == 0 && lineNum == 0
    {
      this.fieldnames := fieldnames;
      this.fields := fields;
      this.rows := rows;
      this.restkey := restkey;
      this.restval := restval;
      cursor := 0;
      lineNum := 0;
    }

    /** The pulls of `__next__`: the next row, skipping the header on
        line 1 and any blank rows; `None` when the tokenizer runs out at
        any of these pulls. `line_num` is recorded after the first pull. */
    method PullRow() returns (row: Option<Row>)
      requires Valid()
      modifies this
      ensures Valid()
      ensures old(cursor) == |rows| ==> row.None? && cursor == old(cursor) && lineNum == old(lineNum)
      ensures old(cursor) < |rows| ==>
        var k := SourceRow(fieldnames, rows, old(cursor));
        lineNum == old(cursor) + 1 &&
        (k == |rows| ==> row.None? && cursor == |rows|) &&
        (k < |rows| ==> row == Some(rows[k]) && cursor == k + 1)
    {
      if cursor == |rows| {
        return None;
      }
      ghost var start := AfterHeader(fieldnames, rows, cursor);
      var r := rows[cursor];
      cursor := cursor + 1;
      lineNum := cursor;

      // Skip the first row if it is the header line.
      if lineNum == 1 && r == fieldnames {
        if cursor == |rows| {
          return None;
        }
        r := rows[cursor];
        cursor := cursor + 1;
      }

      // Blank rows are not returned.
      while r == []
        invariant start < cursor <= |rows| && r == rows[cursor - 1]
        invariant SkipBlanks(rows, start) == SkipBlanks(rows, cursor - 1)
        invariant lineNum == old(cursor) + 1
        decreases |rows| - cursor
      {
        if cursor == |rows| {
          return None;
        }
        r := rows[cursor];
        cursor := cursor + 1;
      }
      row := Some(r);
    }

    /** `__next__`. */
    method Next() returns (r: NextResult)
      requires Valid()
      modifies this
      ensures Valid()
      ensures StepState(r, cursor, lineNum) == Step(fieldnames, RowResults(fieldnames, fields, ToPython, restkey, restval), rows, old(cursor), old(lineNum))
    {
      var row := PullRow();
      if row.None? {
        return Stop;
      }
      var d := BuildRow(fieldnames, row.value, restkey, restval);
      var out := ConvertRow(fieldnames, fields, ToPython, d);
      match out {
        case Ok(values) => r := Record(values);
        case Invalid(m) => r := Rejected(m);
        case Crash => r := Crashed;
      }
    }
  }

  /** The dictionary of lines 44-52 of `__next__`: cells bound to field names
      by position, surplus cells under the rest key, missing fields filled. */
  method BuildRow(names: seq<string>, row: Row, restkey: Key, restval: PyValue) returns (d: map<Key, PyValue>)
    requires Distinct(names)
    ensures d == Reconcile(names, row, restkey, restval)
  {
    d := Zip(names, row);
    var lf, lr := |names|, |row|;
    if lf < lr {
      d := d[restkey := PyList(row[lf..])];
    } else if lf > lr {
      d := FillMissing(d, names[lr..], restval);
    }
  }

  /** `for key in keys: d[key] = v`. */
  method FillMissing(d: map<Key, PyValue>, keys: seq<string>, v: PyValue) returns (e: map<Key, PyValue>)
    ensures e == d + Fill(keys, v)
  {
    e := d;
    var j := 0;
    while j < |keys|
      invariant 0 <= j <= |keys|
      invariant e == d + Fill(keys[..j], v)
    {
      FillExtend(keys[..j], keys[j], v);
      assert keys[..j + 1] == keys[..j] + [keys[j]];
      UpdateUnion(d, Fill(keys[..j], v), Some(keys[j]), v);
      e := e[Some(keys[j]) := v];
      j := j + 1;
    }
    assert keys[..j] == keys;
  }

  /** The conversion loop of `__next__`: each field's `to_python` applied to
      its raw value in declaration order, the first error propagating. */
  method ConvertRow(names: seq<string>, fields: map<string, Field>, conv: Converter, d: map<Key, PyValue>)
    returns (out: Outcome<map<Key, PyValue>>)
    requires forall n | n in names :: n in fields && Some(n) in d
    ensures out == ConvertAll(names, fields, conv, d)
  {
    var e := d;
    var i := 0;
    while i < |names|
      invariant 0 <= i <= |names|
      invariant e.Keys == d.Keys
      invariant ConvertAll(names[i..], fields, conv, e) == ConvertAll(names, fields, conv, d)
    {
      var name := names[i];
      assert names[i..][1..] == names[i + 1..];
      match conv(fields[name], e[Some(name)]) {
        case Ok(v) =>
          e := e[Some(name) := v];
        case Invalid(m) =>
          return Invalid(m);
        case Crash =>
          return Crash;
      }
      i := i + 1;
    }
    out := Ok(e);
  }

  lemma UpdateUnion(a: map<Key, PyValue>, b: map<Key, PyValue>, k: Key, v: PyValue)
    ensures (a + b)[k := v] == a + b[k := v]
  {
  }

  lemma FillExtend(keys: seq<string>, n: string, v: PyValue)
    ensures Fill(keys + [n], v) == Fill(keys, v)[Some(n) := v]
  {
    assert NameKeys(keys + [n]) == NameKeys(keys) + {Some(n)};
  }

  // ---- What __next__ promises ----

  /** Iteration ends exactly when the tokenizer runs out at one of the pulls:
      the first, the one after a skipped header, or one while skipping blank
      rows; it then has consumed every row. `line_num` is the physical line
      of the first row pulled, whatever was skipped after it. */
  lemma StepStops(names: seq<string>, rowResult: Row -> NextResult, rows: seq<Row>, cursor: nat, lineNum: nat)
    requires cursor <= |rows| && forall row :: !rowResult(row).Stop?
    ensures var st := Step(names, rowResult, rows, cursor, lineNum);
      (st.result.Stop? <==> cursor == |rows| || SourceRow(names, rows, cursor) == |rows|) &&
      (st.result.Stop? ==> st.cursor == |rows|) &&
      (cursor < |rows| ==> st.lineNum == cursor + 1) &&
      (cursor == |rows| ==> st.lineNum == lineNum)
  {
  }

  /** The header is skipped only on physical line 1: there the pulled row is
      dropped when it equals the field names; any other first row, and a row
      equal to the field names on any later line, is the one used. */
  lemma HeaderOnlyOnFirstLine(names: seq<string>, rows: seq<Row>, cursor: nat)
    requires cursor < |rows|
    ensures cursor == 0 && rows[0] == names ==> SourceRow(names, rows, cursor) == SkipBlanks(rows, 1)
    ensures cursor > 0 || rows[cursor] != names ==> SourceRow(names, rows, cursor) == SkipBlanks(rows, cursor)
    ensures cursor > 0 && rows[cursor] != [] ==> SourceRow(names, rows, cursor) == cursor
  {
  }

  /** A blank row never produces a result: the row used is non-blank and
      every row skipped after the header check is blank. */
  lemma NoRecordFromBlankRow(names: seq<string>, rowResult: Row -> NextResult, rows: seq<Row>, cursor: nat, lineNum: nat)
    requires cursor <= |rows|
    ensures var st := Step(names, rowResult, rows, cursor, lineNum);
      !st.result.Stop? ==>
        cursor < st.cursor <= |rows| && rows[st.cursor - 1] != [] &&
        st.result == rowResult(rows[st.cursor - 1]) &&
        forall i | AfterHeader(names, rows, cursor) <= i < st.cursor - 1 :: rows[i] == []
  {
  }

  /** The raw dictionary at field name `i`: its cell when the row has one
      (unless the rest key is that name and the row is long), otherwise the
      fill value. */
  lemma ReconcileAt(names: seq<string>, row: Row, restkey: Key, restval: PyValue, i: nat)
    requires Distinct(names) && i < |names|
    ensures i < |row| && (|row| <= |names| || restkey != Some(names[i])) ==>
      Reconcile(names, row, restkey, restval)[Some(names[i])] == PyStr(row[i])
    ensures |row| <= i ==> Reconcile(names, row, restkey, restval)[Some(names[i])] == restval
  {
    if i < |row| {
      ZipAt(names, row, i);
      if |names| > |row| {
        FillMisses(names, |row|, restval, i);
      }
    } else {
      FillHits(names, |row|, restval, i);
    }
  }

  lemma ZipAt(names: seq<string>, row: Row, i: nat)
    requires Distinct(names) && i < |names| && i < |row|
    ensures Some(names[i]) in Zip(names, row) && Zip(names, row)[Some(names[i])] == PyStr(row[i])
  {
  }

  /** A name before position `m` is not among the names filled from `m` on. */
  lemma FillMisses(names: seq<string>, m: nat, v: PyValue, i: nat)
    requires Distinct(names) && i < m <= |names|
    ensures Some(names[i]) !in Fill(names[m..], v)
  {
    forall j | 0 <= j < |names| - m ensures names[m..][j] != names[i] {
      assert names[m..][j] == names[m + j];
    }
  }

  /** A name from position `m` on is filled. */
  lemma FillHits(names: seq<string>, m: nat, v: PyValue, i: nat)
    requires m <= i < |names|
    ensures Some(names[i]) in Fill(names[m..], v) && Fill(names[m..], v)[Some(names[i])] == v
  {
    assert names[m..][i - m] == names[i];
  }

  /** The raw dictionary: cell `i` under field name `i` for every position
      both have (unless the rest key is that name and the row is long), the
      fill value under every name past the end of the row, and the surplus
      cells verbatim and in order under the rest key. */
  lemma ReconcileValues(names: seq<string>, row: Row, restkey: Key, restval: PyValue)
    requires Distinct(names)
    ensures forall i | 0 <= i < |names| && i < |row| && (|row| <= |names| || restkey != Some(names[i])) ::
      Reconcile(names, row, restkey, restval)[Some(names[i])] == PyStr(row[i])
    ensures forall i | |row| <= i < |names| :: Reconcile(names, row, restkey, restval)[Some(names[i])] == restval
    ensures |names| < |row| ==> Reconcile(names, row, restkey, restval)[restkey] == PyList(row[|names|..])
  {
    forall i | 0 <= i < |names|
      ensures i < |row| && (|row| <= |names| || restkey != Some(names[i])) ==>
        Reconcile(names, row, restkey, restval)[Some(names[i])] == PyStr(row[i])
      ensures |row| <= i ==> Reconcile(names, row, restkey, restval)[Some(names[i])] == restval
    {
      ReconcileAt(names, row, restkey, restval, i);
    }
  }

  /** The raw value field `i` converts: its cell, or the fill value. */
  function RawCell(row: Row, restval: PyValue, i: nat): PyValue
  {
    if i < |row| then PyStr(row[i]) else restval
  }

  /** A field's failed conversion and the row's failure it causes. */
  predicate SameFailure(o: Outcome<PyValue>, c: Outcome<map<Key, PyValue>>)
  {
    (o.Invalid? && c.Invalid? && o.message == c.message) || (o.Crash? && c.Crash?)
  }

  /** Whether field `n` converts its raw value in `d`. */
  predicate Converts(fields: map<string, Field>, d: map<Key, PyValue>, conv: Converter, n: string)
    requires n in fields && Some(n) in d
  {
    conv(fields[n], d[Some(n)]).Ok?
  }

  /** The conversion loop succeeds exactly when every field converts, and
      then stores each field's converted raw value under its name and leaves
      every other key alone. */
  lemma {:induction false} ConvertAllOk(names: seq<string>, fields: map<string, Field>, conv: Converter, d: map<Key, PyValue>)
    requires Distinct(names) && forall n | n in names :: n in fields && Some(n) in d
    ensures ConvertAll(names, fields, conv, d).Ok? <==> forall i | 0 <= i < |names| :: Converts(fields, d, conv, names[i])
    ensures ConvertAll(names, fields, conv, d).Ok? ==>
      ConvertAll(names, fields, conv, d).value.Keys == d.Keys &&
      (forall i | 0 <= i < |names| ::
        Ok(ConvertAll(names, fields, conv, d).value[Some(names[i])]) == conv(fields[names[i]], d[Some(names[i])])) &&
      (forall k | k in d && k !in NameKeys(names) :: ConvertAll(names, fields, conv, d).value[k] == d[k])
    decreases |names|
  {
    if names != [] {
      var n := names[0];
      var rest := names[1..];
      assert forall i | 0 <= i < |rest| :: rest[i] == names[i + 1];
      assert Distinct(rest);
      assert n !in rest;
      var o := conv(fields[n], d[Some(n)]);
      if o.Ok? {
        var d' := d[Some(n) := o.value];
        ConvertAllOk(rest, fields, conv, d');
        assert ConvertAll(names, fields, conv, d) == ConvertAll(rest, fields, conv, d');
        assert forall i | 0 <= i < |rest| :: d'[Some(rest[i])] == d[Some(rest[i])];
        assert Some(n) !in NameKeys(rest);
      }
    }
  }

  /** Otherwise the loop's outcome is that of the first field, in
      declaration order, that does not convert. */
  lemma {:induction false} ConvertAllFailure(names: seq<string>, fields: map<string, Field>, conv: Converter, d: map<Key, PyValue>)
    requires Distinct(names) && forall n | n in names :: n in fields && Some(n) in d
    ensures !ConvertAll(names, fields, conv, d).Ok? ==>
      exists i | 0 <= i < |names| ::
        (forall j | 0 <= j < i :: Converts(fields, d, conv, names[j])) &&
        SameFailure(conv(fields[names[i]], d[Some(names[i])]), ConvertAll(names, fields, conv, d))
    decreases |names|
  {
    if names != [] {
      var n := names[0];
      var rest := names[1..];
      var o := conv(fields[n], d[Some(n)]);
      if o.Ok? {
        assert forall i | 0 <= i < |rest| :: rest[i] == names[i + 1];
        assert Distinct(rest);
        assert n !in rest;
        var d' := d[Some(n) := o.value];
        ConvertAllFailure(rest, fields, conv, d');
        assert ConvertAll(names, fields, conv, d) == ConvertAll(rest, fields, conv, d');
        if !ConvertAll(names, fields, conv, d).Ok? {
          var i :| 0 <= i < |rest| &&
            (forall j | 0 <= j < i :: Converts(fields, d', conv, rest[j])) &&
            SameFailure(conv(fields[rest[i]], d'[Some(rest[i])]), ConvertAll(rest, fields, conv, d'));
          assert d'[Some(rest[i])] == d[Some(names[i + 1])];
          forall j | 0 <= j < i + 1 ensures Converts(fields, d, conv, names[j]) {
            if j > 0 {
              assert names[j] == rest[j - 1];
            }
          }
        }
      } else {
        assert SameFailure(o, ConvertAll(names, fields, conv, d));
      }
    }
  }

  /** With the rest key not a field name, field `i` reads its raw value. */
  lemma ReconcileRaw(names: seq<string>, row: Row, restkey: Key, restval: PyValue)
    requires Distinct(names) && restkey !in NameKeys(names)
    ensures forall i | 0 <= i < |names| ::
      Reconcile(names, row, restkey, restval)[Some(names[i])] == RawCell(row, restval, i)
  {
    forall i | 0 <= i < |names|
      ensures Reconcile(names, row, restkey, restval)[Some(names[i])] == RawCell(row, restval, i)
    {
      ReconcileAt(names, row, restkey, restval, i);
      assert restkey != Some(names[i]);
    }
  }

  /** The row's result is the conversion loop's outcome on the raw dictionary. */
  lemma RowResultCases(names: seq<string>, fields: map<string, Field>, conv: Converter, restkey: Key, restval: PyValue, row: Row)
    requires SchemaOk(names, fields)
    ensures var r := RowResult(names, fields, conv, restkey, restval, row);
      var c := ConvertAll(names, fields, conv, Reconcile(names, row, restkey, restval));
      (r.Record? <==> c.Ok?) && (r.Record? ==> r.values == c.value) &&
      (r.Rejected? <==> c.Invalid?) && (r.Rejected? ==> r.message == c.message) &&
      (r.Crashed? <==> c.Crash?)
  {
  }

  /** The conversion loop on the raw dictionary, in terms of the raw values. */
  lemma {:induction false} RawSuccess(names: seq<string>, fields: map<string, Field>, conv: Converter, restkey: Key, restval: PyValue, row: Row)
    requires SchemaOk(names, fields) && restkey !in NameKeys(names)
    ensures var c := ConvertAll(names, fields, conv, Reconcile(names, row, restkey, restval));
      (c.Ok? <==> forall i | 0 <= i < |names| :: conv(fields[names[i]], RawCell(row, restval, i)).Ok?) &&
      (c.Ok? ==>
        c.value.Keys == NameKeys(names) + (if |names| < |row| then {restkey} else {}) &&
        (forall i | 0 <= i < |names| ::
          Ok(c.value[Some(names[i])]) == conv(fields[names[i]], RawCell(row, restval, i))) &&
        (|names| < |row| ==> c.value[restkey] == PyList(row[|names|..])))
  {
    var d := Reconcile(names, row, restkey, restval);
    ReconcileRaw(names, row, restkey, restval);
    ConvertAllOk(names, fields, conv, d);
    if ConvertAll(names, fields, conv, d).Ok? && |names| < |row| {
      ReconcileValues(names, row, restkey, restval);
      assert restkey in d;
    }
  }

  lemma {:induction false} RawFailure(names: seq<string>, fields: map<string, Field>, conv: Converter, restkey: Key, restval: PyValue, row: Row)
    requires SchemaOk(names, fields) && restkey !in NameKeys(names)
    ensures var c := ConvertAll(names, fields, conv, Reconcile(names, row, restkey, restval));
      !c.Ok? ==>
        exists i | 0 <= i < |names| ::
          (forall j | 0 <= j < i :: conv(fields[names[j]], RawCell(row, restval, j)).Ok?) &&
          SameFailure(conv(fields[names[i]], RawCell(row, restval, i)), c)
  {
    ReconcileRaw(names, row, restkey, restval);
    FailureOnRaw(names, fields, conv, Reconcile(names, row, restkey, restval), row, restval);
  }

  /** `RawFailure` for any dictionary holding the raw values under the field names. */
  lemma FailureOnRaw(names: seq<string>, fields: map<string, Field>, conv: Converter, d: map<Key, PyValue>,
                     row: Row, restval: PyValue)
    requires Distinct(names) && forall n | n in names :: n in fields && Some(n) in d
    requires forall i | 0 <= i < |names| :: d[Some(names[i])] == RawCell(row, restval, i)
    ensures var c := ConvertAll(names, fields, conv, d);
      !c.Ok? ==>
        exists i | 0 <= i < |names| ::
          (forall j | 0 <= j < i :: conv(fields[names[j]], RawCell(row, restval, j)).Ok?) &&
          SameFailure(conv(fields[names[i]], RawCell(row, restval, i)), c)
  {
    ConvertAllFailure(names, fields, conv, d);
    if !ConvertAll(names, fields, conv, d).Ok? {
      var i :| 0 <= i < |names| &&
        (forall j | 0 <= j < i :: Converts(fields, d, conv, names[j])) &&
        SameFailure(conv(fields[names[i]], d[Some(names[i])]), ConvertAll(names, fields, conv, d));
      assert forall j | 0 <= j < i :: conv(fields[names[j]], RawCell(row, restval, j)).Ok? by {
        forall j | 0 <= j < i ensures conv(fields[names[j]], RawCell(row, restval, j)).Ok? {
          assert Converts(fields, d, conv, names[j]);
        }
      }
    }
  }

  /** A row becomes a record exactly when every field converts its raw
      value. The record then holds (with the rest key not a field name) each
      field's `to_python` of its cell or of the fill value under its name,
      and exactly the surplus cells under the rest key. */
  lemma {:induction false} RowRecord(names: seq<string>, fields: map<string, Field>, conv: Converter, restkey: Key, restval: PyValue, row: Row)
    requires SchemaOk(names, fields) && restkey !in NameKeys(names)
    ensures var r := RowResult(names, fields, conv, restkey, restval, row);
      (r.Record? <==> forall i | 0 <= i < |names| :: conv(fields[names[i]], RawCell(row, restval, i)).Ok?) &&
      (r.Record? ==>
        r.values.Keys == NameKeys(names) + (if |names| < |row| then {restkey} else {}) &&
        (forall i | 0 <= i < |names| ::
          Ok(r.values[Some(names[i])]) == conv(fields[names[i]], RawCell(row, restval, i))) &&
        (|names| < |row| ==> r.values[restkey] == PyList(row[|names|..])))
  {
    RowResultCases(names, fields, conv, restkey, restval, row);
    RawSuccess(names, fields, conv, restkey, restval, row);
  }

  /** A row that does not become a record raises the error of the first
      field, in declaration order, that does not convert its raw value. */
  lemma {:induction false} RowRejected(names: seq<string>, fields: map<string, Field>, conv: Converter, restkey: Key, restval: PyValue, row: Row)
    requires SchemaOk(names, fields) && restkey !in NameKeys(names)
    ensures var r := RowResult(names, fields, conv, restkey, restval, row);
      !r.Record? ==>
        exists i | 0 <= i < |names| ::
          (forall j | 0 <= j < i :: conv(fields[names[j]], RawCell(row, restval, j)).Ok?) &&
          ((r.Rejected? && conv(fields[names[i]], RawCell(row, restval, i)) == Invalid(r.message)) ||
           (r.Crashed? && conv(fields[names[i]], RawCell(row, restval, i)).Crash?))
  {
    RowResultCases(names, fields, conv, restkey, restval, row);
    RawFailure(names, fields, conv, restkey, restval, row);
  }

  /** Where the records of an iteration from `cursor` come from: the rows
      after a skipped header line, or all of them. */
  function FirstData(names: seq<string>, rows: seq<Row>, cursor: nat): nat
    requires cursor <= |rows|
  {
    if cursor < |rows| then AfterHeader(names, rows, cursor) else cursor
  }

  /** From row `from` on, every row is non-blank and becomes the matching
      record of `out`. */
  predicate YieldsFrom(names: seq<string>, rowResult: Row -> NextResult, rows: seq<Row>, from: nat, out: seq<map<Key, PyValue>>)
    requires from <= |rows|
    decreases |rows| - from
  {
    if from == |rows| then out == []
    else
      out != [] && rows[from] != [] && rowResult(rows[from]) == Record(out[0]) &&
      YieldsFrom(names, rowResult, rows, from + 1, out[1..])
  }

  /** `YieldsFrom` row by row. */
  lemma {:induction false} YieldsFromEach(names: seq<string>, rowResult: Row -> NextResult, rows: seq<Row>, from: nat, out: seq<map<Key, PyValue>>)
    requires from <= |rows| && |out| == |rows| - from
    requires forall i | from <= i < |rows| ::
      rows[i] != [] && rowResult(rows[i]) == Record(out[i - from])
    ensures YieldsFrom(names, rowResult, rows, from, out)
    decreases |rows| - from
  {
    if from < |rows| {
      assert forall j | 0 <= j < |out| - 1 :: out[1..][j] == out[j + 1];
      YieldsFromEach(names, rowResult, rows, from + 1, out[1..]);
    }
  }

  /** Iterating over rows that, after the header line if the first one is
      it, are all non-blank and all become records, yields those records in
      order and then stops. */
  lemma {:induction false} ReadAllRecords(names: seq<string>, rowResult: Row -> NextResult, rows: seq<Row>, cursor: nat, lineNum: nat, out: seq<map<Key, PyValue>>)
    requires cursor <= |rows|
    requires YieldsFrom(names, rowResult, rows, FirstData(names, rows, cursor), out)
    ensures ReadAll(names, rowResult, rows, cursor, lineNum) == (out, Stop)
    decreases |rows| - cursor
  {
    if cursor < |rows| {
      var k := FirstData(names, rows, cursor);
      if k < |rows| {
        StepFromFirstData(names, rowResult, rows, cursor, lineNum);
        ReadAllRecords(names, rowResult, rows, k + 1, cursor + 1, out[1..]);
        ReadAllFront(names, rowResult, rows, cursor, lineNum, out[0], k + 1, cursor + 1, out[1..]);
        HeadTail(out);
      } else {
        assert SourceRow(names, rows, cursor) == |rows|;
        ReadAllEnds(names, rowResult, rows, cursor, lineNum);
      }
    } else {
      ReadAllEnds(names, rowResult, rows, cursor, lineNum);
    }
  }

  /** A step that returns a record puts it in front of the records of the
      iteration that continues after it. */
  lemma ReadAllFront(names: seq<string>, rowResult: Row -> NextResult, rows: seq<Row>, cursor: nat, lineNum: nat,
                     v: map<Key, PyValue>, next: nat, nextLine: nat, tail: seq<map<Key, PyValue>>)
    requires cursor <= |rows| && next <= |rows|
    requires Step(names, rowResult, rows, cursor, lineNum) == StepState(Record(v), next, nextLine)
    requires ReadAll(names, rowResult, rows, next, nextLine) == (tail, Stop)
    ensures ReadAll(names, rowResult, rows, cursor, lineNum) == ([v] + tail, Stop)
  {
  }

  lemma HeadTail<T>(s: seq<T>)
    requires s != []
    ensures [s[0]] + s[1..] == s
  {
  }

  /** Iteration ends at a step that returns no record. */
  lemma ReadAllEnds(names: seq<string>, rowResult: Row -> NextResult, rows: seq<Row>, cursor: nat, lineNum: nat)
    requires cursor <= |rows|
    requires cursor == |rows| || SourceRow(names, rows, cursor) == |rows|
    ensures ReadAll(names, rowResult, rows, cursor, lineNum) == ([], Stop)
  {
  }

  /** A step that starts where the data starts and finds a non-blank row there. */
  lemma StepFromFirstData(names: seq<string>, rowResult: Row -> NextResult, rows: seq<Row>, cursor: nat, lineNum: nat)
    requires cursor < |rows|
    requires FirstData(names, rows, cursor) < |rows| && rows[FirstData(names, rows, cursor)] != []
    ensures var k := FirstData(names, rows, cursor);
      Step(names, rowResult, rows, cursor, lineNum)
        == StepState(rowResult(rows[k]), k + 1, cursor + 1) &&
      FirstData(names, rows, k + 1) == k + 1
  {
    assert SourceRow(names, rows, cursor) == FirstData(names, rows, cursor);
  }
}
