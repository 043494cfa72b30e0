/** `flatten_events` and `validate_flat_columns`: the event logs' nested
    `event_data` record is unnested into top-level columns and the table is
    projected onto the expected flat columns; the flat check then compares
    the column set with that list. */
module Flatten {
  import opened Wrappers
  import opened Text
  import opened Values
  import opened Rows
  import R = Registry

  /** One row of a dataframe, by column name. */
  type Row = map<string, Value>

  /** A dataframe: its schema in column order and its rows. */
  datatype Table = Table(schema: seq<R.Field>, rows: seq<Row>)

  function Columns(t: Table): seq<string> {
    R.FieldNames(t.schema)
  }

  /** A cell; a key the row lacks reads as null. */
  function Cell(r: Row, c: string): Value {
    if c in r then r[c] else Null
  }

  predicate Distinct(s: seq<string>) {
    forall i, j :: 0 <= i < j < |s| ==> s[i] != s[j]
  }

  function IndexOf(s: seq<string>, c: string): (i: nat)
    requires c in s
    ensures i < |s| && s[i] == c
  {
    if s[0] == c then 0 else 1 + IndexOf(s[1..], c)
  }

  /** The field of a struct cell; a null struct gives null fields. */
  function FieldOf(v: Value, f: string): Value {
    if v.Dict? && f in v.entries then v.entries[f] else Null
  }

  function UnnestRow(r: Row, col: string, names: seq<string>): Row {
    (r - {col}) + map f | f in names :: FieldOf(Cell(r, col), f)
  }

  /** `DataFrame.unnest(col)`: the struct column is replaced, at its place,
      by one column per field. An absent column, a column that is not a
      struct, or a field name that clashes with another column raises. */
  function Unnest(t: Table, col: string): (r: Result<Table>)
    ensures r.Ok? ==> |r.value.rows| == |t.rows| && Distinct(Columns(r.value))
    ensures col !in Columns(t) ==> r.Err?
  {
    if col !in Columns(t) then Err("ColumnNotFoundError: " + col)
    else
      var i := IndexOf(Columns(t), col);
      var dt := t.schema[i].dtype;
      if !dt.Struct? then Err("SchemaError: " + col + " is not a struct")
      else
        var schema := t.schema[..i] + dt.fields + t.schema[i + 1..];
        if !Distinct(R.FieldNames(schema)) then Err("DuplicateError: unnesting " + col)
        else
          Ok(Table(schema, seq(|t.rows|, k requires 0 <= k < |t.rows| =>
                                  UnnestRow(t.rows[k], col, R.FieldNames(dt.fields)))))
  }

  /** Unnesting succeeds exactly on a struct column whose fields clash with
      no other column, and the fields then take the column's place. */
  lemma UnnestColumns(t: Table, col: string)
    ensures Unnest(t, col).Ok? <==>
      col in Columns(t) && t.schema[IndexOf(Columns(t), col)].dtype.Struct?
      && Distinct(Columns(t)[..IndexOf(Columns(t), col)]
                  + R.FieldNames(t.schema[IndexOf(Columns(t), col)].dtype.fields)
                  + Columns(t)[IndexOf(Columns(t), col) + 1..])
    ensures Unnest(t, col).Ok? ==>
      var i := IndexOf(Columns(t), col);
      Columns(Unnest(t, col).value)
        == Columns(t)[..i] + R.FieldNames(t.schema[i].dtype.fields) + Columns(t)[i + 1..]
  {
    if col in Columns(t) {
      var i := IndexOf(Columns(t), col);
      var dt := t.schema[i].dtype;
      if dt.Struct? {
        SplicedNames(t.schema, i, dt.fields);
      }
    }
  }

  /** The names of a schema with its `i`-th field replaced by `fields`. */
  lemma SplicedNames(schema: seq<R.Field>, i: nat, fields: seq<R.Field>)
    requires i < |schema|
    ensures R.FieldNames(schema[..i] + fields + schema[i + 1..])
            == R.FieldNames(schema)[..i] + R.FieldNames(fields) + R.FieldNames(schema)[i + 1..]
  {
    FieldNamesAppend(schema[..i], fields, schema[i + 1..]);
    FieldNamesSlice(schema, 0, i);
    FieldNamesSlice(schema, i + 1, |schema|);
    assert schema[0..i] == schema[..i];
  }

  lemma FieldNamesSlice(s: seq<R.Field>, i: nat, j: nat)
    requires i <= j <= |s|
    ensures R.FieldNames(s[i..j]) == R.FieldNames(s)[i..j]
  {
    var l := R.FieldNames(s[i..j]);
    var r := R.FieldNames(s)[i..j];
    assert |l| == |r|;
    forall k | 0 <= k < |l| ensures l[k] == r[k] {
      assert s[i..j][k] == s[i + k];
    }
  }

  /** After unnesting, each row's field cells are read from its struct cell
      (null fields for a null struct) and every other cell is unchanged. */
  lemma UnnestCells(t: Table, col: string)
    requires Unnest(t, col).Ok?
    ensures col in Columns(t) && t.schema[IndexOf(Columns(t), col)].dtype.Struct?
    ensures var names := R.FieldNames(t.schema[IndexOf(Columns(t), col)].dtype.fields);
      var u := Unnest(t, col).value;
      && (forall k, f :: 0 <= k < |t.rows| && f in names ==>
            Cell(u.rows[k], f) == FieldOf(Cell(t.rows[k], col), f))
      && (forall k, c :: 0 <= k < |t.rows| && c != col && c !in names ==>
            Cell(u.rows[k], c) == Cell(t.rows[k], c))
  {
    var i := IndexOf(Columns(t), col);
    var names := R.FieldNames(t.schema[i].dtype.fields);
    var u := Unnest(t, col).value;
    forall k | 0 <= k < |t.rows| ensures u.rows[k] == UnnestRow(t.rows[k], col, names) {
    }
  }

  lemma FieldNamesAppend(a: seq<R.Field>, b: seq<R.Field>, c: seq<R.Field>)
    ensures R.FieldNames(a + b + c) == R.FieldNames(a) + R.FieldNames(b) + R.FieldNames(c)
  {
    var l := R.FieldNames(a + b + c);
    var r := R.FieldNames(a) + R.FieldNames(b) + R.FieldNames(c);
    assert |l| == |r|;
    forall k | 0 <= k < |l| ensures l[k] == r[k] {
      if k < |a| {
      } else if k < |a| + |b| {
        assert (a + b + c)[k] == b[k - |a|];
      } else {
        assert (a + b + c)[k] == c[k - |a| - |b|];
      }
    }
  }

  /** The field named `c`. */
  function Lookup(schema: seq<R.Field>, c: string): (f: R.Field)
    requires c in R.FieldNames(schema)
    ensures f.name == c
  {
    var i := IndexOf(R.FieldNames(schema), c);
    schema[i]
  }

  function SelectSchema(schema: seq<R.Field>, keep: seq<string>): (s: seq<R.Field>)
    requires forall c :: c in keep ==> c in R.FieldNames(schema)
    ensures R.FieldNames(s) == keep
  {
    if keep == [] then []
    else
      var s := [Lookup(schema, keep[0])] + SelectSchema(schema, keep[1..]);
      assert R.FieldNames(s) == [keep[0]] + R.FieldNames(SelectSchema(schema, keep[1..]));
      s
  }

  function SelectRow(r: Row, keep: seq<string>): Row {
    map c | c in keep :: Cell(r, c)
  }

  /** `DataFrame.select(keep)` on column names that exist: the columns in
      the order given, every row kept. Naming a column twice raises. */
  function Select(t: Table, keep: seq<string>): (r: Result<Table>)
    requires forall c :: c in keep ==> c in Columns(t)
    ensures r.Ok? <==> Distinct(keep)
    ensures r.Ok? ==> Columns(r.value) == keep && |r.value.rows| == |t.rows|
    ensures r.Ok? ==> forall k, c :: 0 <= k < |t.rows| && c in keep ==>
                        Cell(r.value.rows[k], c) == Cell(t.rows[k], c)
  {
    if !Distinct(keep) then Err("DuplicateError: column selected twice")
    else
      assert Columns(t) == R.FieldNames(t.schema);
      Ok(Table(SelectSchema(t.schema, keep),
                  seq(|t.rows|, k requires 0 <= k < |t.rows| => SelectRow(t.rows[k], keep))))
  }

  /** The expected flat columns that the unnested table has, in the order
      of the expected list. */
  function KeepPresent(expected: seq<string>, present: seq<string>): (keep: seq<string>)
    ensures forall c :: c in keep <==> c in expected && c in present
  {
    Filter(expected, c => c in present)
  }

  /** `flatten_events`: tables of non-event datasets pass through; an event
      log is unnested and projected onto the expected flat columns it has,
      or returned whole when it has none of them. */
  function FlattenEvents(spec: R.DatasetSpec, t: Table): Result<Table> {
    if spec.kind != R.EventsKind then Ok(t)
    else
      match Unnest(t, R.EventData)
      case Err(e) => Err(e)
      case Ok(df) =>
        var keep := KeepPresent(spec.flatExpectedCols, Columns(df));
        if keep == [] then Ok(df) else Select(df, keep)
  }

  // ---------------------------------------------------------------------
  // Properties of the flattener

  /** A table of a non-event dataset is returned unchanged. */
  lemma FlattenNonEventIdentity(spec: R.DatasetSpec, t: Table)
    requires spec.kind != R.EventsKind
    ensures FlattenEvents(spec, t) == Ok(t)
  {
  }

  /** For an event log whose nested record unnests, the output has the
      expected columns that are present after unnesting, in the expected
      order, or every unnested column when none is; it keeps the rows in
      order with their cells. */
  lemma FlattenEventColumns(spec: R.DatasetSpec, t: Table)
    requires spec.kind == R.EventsKind
    requires Distinct(spec.flatExpectedCols)
    requires Unnest(t, R.EventData).Ok?
    ensures var df := Unnest(t, R.EventData).value;
      var keep := KeepPresent(spec.flatExpectedCols, Columns(df));
      && FlattenEvents(spec, t).Ok?
      && Subsequence(keep, spec.flatExpectedCols)
      && Columns(FlattenEvents(spec, t).value) == (if keep == [] then Columns(df) else keep)
      && |FlattenEvents(spec, t).value.rows| == |t.rows|
      && forall k, c :: 0 <= k < |t.rows| && c in Columns(FlattenEvents(spec, t).value) ==>
           Cell(FlattenEvents(spec, t).value.rows[k], c) == Cell(df.rows[k], c)
  {
    var df := Unnest(t, R.EventData).value;
    var p := c => c in Columns(df);
    FilterIsSubsequence(spec.flatExpectedCols, p);
    var keep := KeepPresent(spec.flatExpectedCols, Columns(df));
    if keep != [] {
      SubsequenceDistinct(keep, spec.flatExpectedCols);
    }
  }

  /** A subsequence of a list without repeats has no repeats. */
  lemma {:induction false} SubsequenceDistinct(r: seq<string>, s: seq<string>)
    requires Distinct(s)
    requires Subsequence(r, s)
    ensures Distinct(r)
    decreases |s|
  {
    if r != [] && s != [] {
      var s' := s[..|s| - 1];
      if r[|r| - 1] == s[|s| - 1] {
        var r' := r[..|r| - 1];
        SubsequenceDistinct(r', s');
        SubsequenceElements(r', s');
        forall i | 0 <= i < |r'| ensures r'[i] != r[|r| - 1] {
          assert r'[i] in s';
        }
      } else {
        SubsequenceDistinct(r, s');
      }
    }
  }

  lemma {:induction false} SubsequenceElements(r: seq<string>, s: seq<string>)
    requires Subsequence(r, s)
    ensures forall x :: x in r ==> x in s
    decreases |s|
  {
    if r != [] && s != [] {
      var s' := s[..|s| - 1];
      if r[|r| - 1] == s[|s| - 1] {
        SubsequenceElements(r[..|r| - 1], s');
        assert r == r[..|r| - 1] + [r[|r| - 1]];
      } else {
        SubsequenceElements(r, s');
      }
    }
  }

  /** An event log fails to flatten only when its nested record does not
      unnest: an absent `event_data`, one that is not a struct, or a field
      name clash. */
  lemma FlattenFailsOnlyOnUnnest(spec: R.DatasetSpec, t: Table)
    requires spec.kind == R.EventsKind
    requires Distinct(spec.flatExpectedCols)
    ensures FlattenEvents(spec, t).Err? <==> Unnest(t, R.EventData).Err?
  {
    if Unnest(t, R.EventData).Ok? {
      FlattenEventColumns(spec, t);
    }
  }

  // ---------------------------------------------------------------------
  // The flat check

  /** The flat report written to disk as JSON. */
  datatype FlatReport = FlatReport(
    dataset: string,
    stage: string,
    rows: nat,
    missingColumns: seq<string>,
    ok: bool)

  /** The returned flag and report path, and the report written, if any. */
  datatype FlatOutcome = FlatOutcome(passed: bool, reportPath: string, report: Option<FlatReport>)

  /** `expectations/reports/{name}/schema_flat_{ds}.json`, relative to the
      working directory. */
  function FlatReportPath(name: string, ds: string): string {
    "expectations/reports/" + name + "/schema_flat_" + ds + ".json"
  }

  /** `validate_flat_columns`. */
  function ValidateFlatColumns(spec: R.DatasetSpec, ds: string, t: Table, strict: bool): FlatOutcome {
    if spec.kind != R.EventsKind then FlatOutcome(true, "", None)
    else
      var expected := set c | c in spec.flatExpectedCols;
      var present := set c | c in Columns(t);
      var missing := SortedStrings(expected - present);
      var report := FlatReport(spec.name, "flat", |t.rows|, missing, missing == []);
      var path := FlatReportPath(spec.name, ds);
      if missing != [] && strict then FlatOutcome(false, path, Some(report))
      else FlatOutcome(true, path, Some(report))
  }

  /** A non-event dataset passes with an empty path and no report. */
  lemma FlatCheckSkipsNonEvents(spec: R.DatasetSpec, ds: string, t: Table, strict: bool)
    requires spec.kind != R.EventsKind
    ensures ValidateFlatColumns(spec, ds, t, strict) == FlatOutcome(true, "", None)
  {
  }

  /** The missing columns are the expected ones the table lacks, in
      ascending order; the report passes exactly when none is missing, so
      extra columns never matter. */
  lemma FlatMissingColumns(spec: R.DatasetSpec, ds: string, t: Table, strict: bool)
    requires spec.kind == R.EventsKind
    ensures var rep := ValidateFlatColumns(spec, ds, t, strict).report;
      && rep.Some?
      && (forall c :: c in rep.value.missingColumns <==> c in spec.flatExpectedCols && c !in Columns(t))
      && StrictlySortedStrings(rep.value.missingColumns)
      && (rep.value.ok <==> forall c :: c in spec.flatExpectedCols ==> c in Columns(t))
  {
    var expected := set c | c in spec.flatExpectedCols;
    var present := set c | c in Columns(t);
    SortedStringsSorted(expected - present);
    var missing := SortedStrings(expected - present);
    if !(forall c :: c in spec.flatExpectedCols ==> c in Columns(t)) {
      var c :| c in spec.flatExpectedCols && c !in Columns(t);
      assert c in missing;
    }
  }

  /** With `strict` the flag is the report's `ok`; without it the check
      always passes. The report names the dataset and stage and counts the
      rows. */
  lemma FlatFlagAndReport(spec: R.DatasetSpec, ds: string, t: Table, strict: bool)
    requires spec.kind == R.EventsKind
    ensures var out := ValidateFlatColumns(spec, ds, t, strict);
      && out.report.Some?
      && out.passed == (!strict || out.report.value.ok)
      && out.reportPath == FlatReportPath(spec.name, ds)
      && out.report.value.dataset == spec.name
      && out.report.value.stage == "flat"
      && out.report.value.rows == |t.rows|
  {
  }

  /** A raw event log with the registered columns flattens to exactly the
      registered flat columns, keeping every row. */
  lemma EventLogFlattensToFlatColumns(spec: R.DatasetSpec, rows: seq<Row>)
    requires spec.kind == R.EventsKind && spec.flatExpectedCols == R.EventsFlatCols
    ensures var t := Table([R.Field("day", R.Date), R.Field(R.EventData, R.EventStruct),
                            R.Field("user_id", R.Int)], rows);
      FlattenEvents(spec, t).Ok?
      && Columns(FlattenEvents(spec, t).value) == R.EventsFlatCols
      && |FlattenEvents(spec, t).value.rows| == |rows|
  {
    var t := Table([R.Field("day", R.Date), R.Field(R.EventData, R.EventStruct),
                    R.Field("user_id", R.Int)], rows);
    assert Columns(t) == ["day", R.EventData, "user_id"];
    assert IndexOf(Columns(t), R.EventData) == 1;
    assert R.FieldNames(R.EventStruct.fields) == ["position", "value_prop"];
    UnnestColumns(t, R.EventData);
    assert Columns(t)[..1] + ["position", "value_prop"] + Columns(t)[2..] == R.EventsFlatCols;
    assert Distinct(R.EventsFlatCols);
    var df := Unnest(t, R.EventData).value;
    FilterAll(R.EventsFlatCols, c => c in Columns(df));
    FlattenEventColumns(spec, t);
  }
}
