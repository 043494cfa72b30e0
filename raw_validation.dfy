/** `validate_raw_schema`: the contract check of one dataset's raw file
    before it is parsed into typed columns. The present columns, the row
    count and the per-column invalid-token counts come from the CSV table
    (the `pays` kind) or from the event log (every other kind); the verdict
    compares them with the expected raw schema. The report that the source
    writes as JSON is returned as a record together with its path. */
module RawValidation {
  import opened Wrappers
  import opened Text
  import opened Values
  import opened Scan
  import R = Registry

  /** The raw file of a dataset, seen through the two readers the check may
      use on it: as a CSV table with every column as text, and as a list of
      text lines. Either read can fail (a missing file, say). */
  datatype RawFile = RawFile(asCsv: Result<CsvFile>, asLines: Result<seq<string>>)

  /** One entry of `wrong_types`: a column and its declared type. */
  datatype WrongType = WrongType(column: string, expected: R.DType)

  /** The raw report. `wrongTypes` is empty where the source omits the key
      and `readError` is `None` where the source has no such key. */
  datatype RawReport = RawReport(
    dataset: string,
    stage: string,
    rows: nat,
    missingColumns: seq<string>,
    newColumns: seq<string>,
    wrongTypes: seq<WrongType>,
    expectedSchema: map<string, R.DType>,
    sourceColumns: seq<string>,
    readError: Option<string>,
    ok: bool)

  /** The returned flag, the report path and the report written there. */
  datatype RawOutcome = RawOutcome(passed: bool, reportPath: string, report: RawReport)

  /** What the read phase gathers: present columns, row count and invalid
      token counts by column. */
  datatype Observed = Observed(present: set<string>, rows: nat, invalid: map<string, nat>)

  /** `REPORT_BASE / spec.name / f"schema_raw_{ds}.json"`; `reportBase` is
      the `expectations/reports` directory of the repository. */
  function RawReportPath(reportBase: string, name: string, ds: string): string {
    reportBase + "/" + name + "/schema_raw_" + ds + ".json"
  }

  /** The read phase as a specification. For the CSV table a row count
      passed in by the caller replaces the counted one. */
  function Observe(spec: R.DatasetSpec, file: RawFile, decode: string -> Option<Value>,
                   preloadedRows: Option<nat>): (r: Result<Observed>)
    ensures r.Ok? ==> r.value.invalid.Keys <= spec.rawSchema.Keys
  {
    if spec.kind == R.PaysKind then
      match file.asCsv
      case Err(e) => Err(e)
      case Ok(csv) =>
        Ok(Observed(HeaderColumns(csv),
                    if preloadedRows.Some? then preloadedRows.value else |csv.records|,
                    InvalidTokenCountsCsv(csv, spec.rawSchema)))
    else
      match file.asLines
      case Err(e) => Err(e)
      case Ok(lines) =>
        Ok(Observed(SampleKeys(lines, decode, DefaultKeyLimit),
                    NonBlankCount(lines),
                    InvalidTokensNdjson(lines, decode, spec.rawSchema)))
  }

  /** The columns with a positive count, in the order given, with their
      declared types. */
  function WrongTypesOf(cols: seq<string>, invalid: map<string, nat>, schema: map<string, R.DType>): (w: seq<WrongType>)
    requires invalid.Keys <= schema.Keys
    ensures |w| <= |cols|
    ensures forall x :: x in w <==>
              (x.column in cols && x.column in invalid && invalid[x.column] > 0 && x.expected == schema[x.column])
  {
    if cols == [] then []
    else
      var rest := WrongTypesOf(cols[1..], invalid, schema);
      var c := cols[0];
      assert forall s :: s in cols <==> s == c || s in cols[1..];
      if c in invalid && invalid[c] > 0 then [WrongType(c, schema[c])] + rest else rest
  }

  /** The verdict on what was read: sorted missing and new columns, the
      wrong-type list sorted by column, and the report `ok` flag. */
  function Verdict(spec: R.DatasetSpec, obs: Observed): (rep: RawReport)
    requires obs.invalid.Keys <= spec.rawSchema.Keys
  {
    var expected := spec.rawSchema.Keys;
    var missing := SortedStrings(expected - obs.present);
    var newCols := SortedStrings(obs.present - expected);
    var wrong := WrongTypesOf(SortedStrings(obs.invalid.Keys), obs.invalid, spec.rawSchema);
    var ok := missing == [] && wrong == [] && (spec.allowNewColumns || newCols == []);
    RawReport(spec.name, "raw", obs.rows, missing, newCols, wrong, spec.rawSchema,
              SortedStrings(obs.present), None, ok)
  }

  /** The report written when the read phase raised. */
  function ReadErrorReport(spec: R.DatasetSpec, e: string): RawReport {
    RawReport(spec.name, "raw", 0, [], [], [], spec.rawSchema, [], Some(e), false)
  }

  /** `validate_raw_schema`: a failed read gives `False` and a read-error
      report; otherwise, with `strict`, missing columns or wrong types, and
      then disallowed new columns, give `False`; everything else `True`. */
  function ValidateRawSchema(spec: R.DatasetSpec, ds: string, reportBase: string, file: RawFile,
                             decode: string -> Option<Value>, preloadedRows: Option<nat>,
                             strict: bool): RawOutcome
  {
    var path := RawReportPath(reportBase, spec.name, ds);
    match Observe(spec, file, decode, preloadedRows)
    case Err(e) => RawOutcome(false, path, ReadErrorReport(spec, e))
    case Ok(obs) =>
      var rep := Verdict(spec, obs);
      if (rep.missingColumns != [] || rep.wrongTypes != []) && strict then RawOutcome(false, path, rep)
      else if rep.newColumns != [] && !spec.allowNewColumns && strict then RawOutcome(false, path, rep)
      else RawOutcome(true, path, rep)
  }

  /** The same check with the two event-log passes run as the loops the
      source runs. */
  method ValidateRawSchemaRun(spec: R.DatasetSpec, ds: string, reportBase: string, file: RawFile,
                              decode: string -> Option<Value>, preloadedRows: Option<nat>,
                              strict: bool)
    returns (out: RawOutcome)
    ensures out == ValidateRawSchema(spec, ds, reportBase, file, decode, preloadedRows, strict)
  {
    var path := RawReportPath(reportBase, spec.name, ds);
    var obs: Observed;
    if spec.kind == R.PaysKind {
      if file.asCsv.Err? {
        return RawOutcome(false, path, ReadErrorReport(spec, file.asCsv.error));
      }
      var csv := file.asCsv.value;
      var rows := if preloadedRows.Some? then preloadedRows.value else |csv.records|;
      obs := Observed(HeaderColumns(csv), rows, InvalidTokenCountsCsv(csv, spec.rawSchema));
    } else {
      if file.asLines.Err? {
        return RawOutcome(false, path, ReadErrorReport(spec, file.asLines.error));
      }
      var lines := file.asLines.value;
      var keys, n := NdjsonKeysAndRowcount(lines, decode, DefaultKeyLimit);
      var invalid := InvalidTokenCountsNdjson(lines, decode, spec.rawSchema);
      obs := Observed(keys, n, invalid);
    }
    assert Observe(spec, file, decode, preloadedRows) == Ok(obs);
    var rep := Verdict(spec, obs);
    if (rep.missingColumns != [] || rep.wrongTypes != []) && strict {
      return RawOutcome(false, path, rep);
    }
    if rep.newColumns != [] && !spec.allowNewColumns && strict {
      return RawOutcome(false, path, rep);
    }
    return RawOutcome(true, path, rep);
  }

  // ---------------------------------------------------------------------
  // Properties of the verdict

  /** Missing columns are exactly the expected ones not present, new columns
      exactly the present ones not expected, both in ascending order. */
  lemma VerdictColumns(spec: R.DatasetSpec, obs: Observed)
    requires obs.invalid.Keys <= spec.rawSchema.Keys
    ensures forall c :: c in Verdict(spec, obs).missingColumns <==> c in spec.rawSchema && c !in obs.present
    ensures forall c :: c in Verdict(spec, obs).newColumns <==> c in obs.present && c !in spec.rawSchema
    ensures StrictlySortedStrings(Verdict(spec, obs).missingColumns)
    ensures StrictlySortedStrings(Verdict(spec, obs).newColumns)
  {
    SortedStringsSorted(spec.rawSchema.Keys - obs.present);
    SortedStringsSorted(obs.present - spec.rawSchema.Keys);
  }

  /** The wrong-type list names exactly the columns with a positive count,
      each with its declared type. */
  lemma VerdictWrongTypes(spec: R.DatasetSpec, obs: Observed)
    requires obs.invalid.Keys <= spec.rawSchema.Keys
    ensures forall w :: w in Verdict(spec, obs).wrongTypes <==>
              w.column in obs.invalid && obs.invalid[w.column] > 0 && w.expected == spec.rawSchema[w.column]
  {
  }

  /** The report passes exactly when every expected column is present, no
      column has a bad token, and new columns are allowed or absent. */
  lemma VerdictOkIff(spec: R.DatasetSpec, obs: Observed)
    requires obs.invalid.Keys <= spec.rawSchema.Keys
    ensures Verdict(spec, obs).ok <==>
      spec.rawSchema.Keys <= obs.present
      && (forall c :: c in obs.invalid ==> obs.invalid[c] == 0)
      && (spec.allowNewColumns || obs.present <= spec.rawSchema.Keys)
  {
    var rep := Verdict(spec, obs);
    VerdictColumns(spec, obs);
    VerdictWrongTypes(spec, obs);
    if rep.wrongTypes != [] {
      assert rep.wrongTypes[0] in rep.wrongTypes;
    }
    if c :| c in obs.invalid && obs.invalid[c] != 0 {
      assert WrongType(c, spec.rawSchema[c]) in rep.wrongTypes;
    }
    if !(spec.rawSchema.Keys <= obs.present) {
      var c :| c in spec.rawSchema.Keys && c !in obs.present;
      assert c in rep.missingColumns;
    }
    if !(obs.present <= spec.rawSchema.Keys) {
      var c :| c in obs.present && c !in spec.rawSchema.Keys;
      assert c in rep.newColumns;
    }
  }

  /** With `strict`, the returned flag is the report's `ok`. */
  lemma StrictFlagIsOk(spec: R.DatasetSpec, ds: string, reportBase: string, file: RawFile,
                       decode: string -> Option<Value>, preloadedRows: Option<nat>)
    ensures ValidateRawSchema(spec, ds, reportBase, file, decode, preloadedRows, true).passed
            == ValidateRawSchema(spec, ds, reportBase, file, decode, preloadedRows, true).report.ok
  {
  }

  /** Without `strict`, a successful read always passes, whatever the
      report says. */
  lemma NonStrictPassesAfterRead(spec: R.DatasetSpec, ds: string, reportBase: string, file: RawFile,
                                 decode: string -> Option<Value>, preloadedRows: Option<nat>)
    requires Observe(spec, file, decode, preloadedRows).Ok?
    ensures ValidateRawSchema(spec, ds, reportBase, file, decode, preloadedRows, false).passed
    ensures ValidateRawSchema(spec, ds, reportBase, file, decode, preloadedRows, false).report.readError.None?
  {
  }

  /** A read error fails in both modes, with zero rows and empty lists. */
  lemma ReadErrorFails(spec: R.DatasetSpec, ds: string, reportBase: string, file: RawFile,
                       decode: string -> Option<Value>, preloadedRows: Option<nat>, strict: bool)
    requires Observe(spec, file, decode, preloadedRows).Err?
    ensures var out := ValidateRawSchema(spec, ds, reportBase, file, decode, preloadedRows, strict);
      !out.passed && !out.report.ok && out.report.rows == 0
      && out.report.missingColumns == [] && out.report.newColumns == [] && out.report.wrongTypes == []
      && out.report.sourceColumns == [] && out.report.readError == Some(Observe(spec, file, decode, preloadedRows).error)
  {
  }

  /** The report path and the report's identity do not depend on the file. */
  lemma ReportIdentity(spec: R.DatasetSpec, ds: string, reportBase: string, file: RawFile,
                       decode: string -> Option<Value>, preloadedRows: Option<nat>, strict: bool)
    ensures var out := ValidateRawSchema(spec, ds, reportBase, file, decode, preloadedRows, strict);
      out.reportPath == RawReportPath(reportBase, spec.name, ds)
      && out.report.dataset == spec.name && out.report.stage == "raw"
      && out.report.expectedSchema == spec.rawSchema
  {
  }

  /** The row count of an event log counts every non-blank line, whether
      or not it decodes. */
  lemma EventRowsAreNonBlankLines(spec: R.DatasetSpec, lines: seq<string>, csv: Result<CsvFile>,
                                  decode: string -> Option<Value>, preloadedRows: Option<nat>)
    requires spec.kind != R.PaysKind
    ensures Observe(spec, RawFile(csv, Ok(lines)), decode, preloadedRows)
            == Ok(Observed(SampleKeys(lines, decode, DefaultKeyLimit), NonBlankCount(lines),
                           InvalidTokensNdjson(lines, decode, spec.rawSchema)))
  {
  }
}
