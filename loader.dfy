/** `load_and_prepare_all`: for each registered dataset in turn, the raw
    contract check, the read, the flattening and the flat column check,
    all in strict mode; the first failure raises and nothing is returned,
    otherwise every dataset's flattened table is returned by name. */
module Loader {
  import opened Wrappers
  import opened Values
  import RV = RawValidation
  import F = Flatten
  import R = Registry

  /** The four steps of a dataset's turn, as the loop calls them: the raw
      check (with no preloaded table) and the flat check take the strict
      flag and return the pass flag and the report path; the reader may
      raise, and so may the flattener. */
  datatype Env = Env(
    validateRaw: (R.DatasetSpec, string, bool) -> (bool, string),
    readRaw: R.DatasetSpec -> Result<F.Table>,
    flatten: (R.DatasetSpec, F.Table) -> Result<F.Table>,
    validateFlat: (R.DatasetSpec, string, F.Table, bool) -> (bool, string))

  /** The steps are the modelled functions: the raw check on each dataset's
      raw file in the reports directory `reportBase`, the flattener and the
      flat check. */
  ghost predicate Modelled(env: Env, reportBase: string, rawFile: R.DatasetSpec -> RV.RawFile,
                     decode: string -> Option<Value>)
  {
    && (forall spec, ds, strict :: env.validateRaw(spec, ds, strict)
          == (RV.ValidateRawSchema(spec, ds, reportBase, rawFile(spec), decode, None, strict).passed,
              RV.ValidateRawSchema(spec, ds, reportBase, rawFile(spec), decode, None, strict).reportPath))
    && (forall spec, t :: env.flatten(spec, t) == F.FlattenEvents(spec, t))
    && (forall spec, ds, t, strict :: env.validateFlat(spec, ds, t, strict)
          == (F.ValidateFlatColumns(spec, ds, t, strict).passed, F.ValidateFlatColumns(spec, ds, t, strict).reportPath))
  }

  function RawFailure(name: string, report: string): string {
    "RAW schema failed for " + name + ". See report: " + report
  }

  function FlatFailure(name: string, report: string): string {
    "FLAT schema failed for " + name + ". See report: " + report
  }

  /** One dataset's turn of the loop body. */
  function Prepare(env: Env, ds: string, name: string, spec: R.DatasetSpec): Result<F.Table> {
    var raw := env.validateRaw(spec, ds, true);
    if !raw.0 then Err(RawFailure(name, raw.1))
    else
      match env.readRaw(spec)
      case Err(e) => Err(e)
      case Ok(t) =>
        match env.flatten(spec, t)
        case Err(e) => Err(e)
        case Ok(flat) =>
          var check := env.validateFlat(spec, ds, flat, true);
          if !check.0 then Err(FlatFailure(name, check.1)) else Ok(flat)
  }

  /** The loop over the first `n` datasets: the first failure is the
      result; otherwise the tables so far, by name. */
  function LoadPrefix(env: Env, ds: string, datasets: seq<(string, R.DatasetSpec)>, n: nat): Result<map<string, F.Table>>
    requires n <= |datasets|
  {
    if n == 0 then Ok(map[])
    else
      match LoadPrefix(env, ds, datasets, n - 1)
      case Err(e) => Err(e)
      case Ok(ready) =>
        match Prepare(env, ds, datasets[n - 1].0, datasets[n - 1].1)
        case Err(e) => Err(e)
        case Ok(t) => Ok(ready[datasets[n - 1].0 := t])
  }

  function LoadAll(env: Env, ds: string, datasets: seq<(string, R.DatasetSpec)>): Result<map<string, F.Table>> {
    LoadPrefix(env, ds, datasets, |datasets|)
  }

  /** Once a dataset has failed, later datasets are never reached. */
  lemma {:induction false} FailureIsFinal(env: Env, ds: string, datasets: seq<(string, R.DatasetSpec)>, i: nat, n: nat)
    requires i <= n <= |datasets|
    requires LoadPrefix(env, ds, datasets, i).Err?
    ensures LoadPrefix(env, ds, datasets, n) == LoadPrefix(env, ds, datasets, i)
    decreases n
  {
    if n > i {
      FailureIsFinal(env, ds, datasets, i, n - 1);
    }
  }

  /** `load_and_prepare_all(ds)` over `datasets`, in order. */
  method LoadAndPrepareAll(env: Env, ds: string, datasets: seq<(string, R.DatasetSpec)>)
    returns (result: Result<map<string, F.Table>>)
    ensures result == LoadAll(env, ds, datasets)
  {
    var ready: map<string, F.Table> := map[];
    var i := 0;
    while i < |datasets|
      invariant 0 <= i <= |datasets|
      invariant LoadPrefix(env, ds, datasets, i) == Ok(ready)
    {
      var name := datasets[i].0;
      var spec := datasets[i].1;
      var raw := env.validateRaw(spec, ds, true);
      if !raw.0 {
        result := Err(RawFailure(name, raw.1));
        FailureIsFinal(env, ds, datasets, i + 1, |datasets|);
        return;
      }
      var table := env.readRaw(spec);
      if table.Err? {
        result := Err(table.error);
        FailureIsFinal(env, ds, datasets, i + 1, |datasets|);
        return;
      }
      var flat := env.flatten(spec, table.value);
      if flat.Err? {
        result := Err(flat.error);
        FailureIsFinal(env, ds, datasets, i + 1, |datasets|);
        return;
      }
      var check := env.validateFlat(spec, ds, flat.value, true);
      if !check.0 {
        result := Err(FlatFailure(name, check.1));
        FailureIsFinal(env, ds, datasets, i + 1, |datasets|);
        return;
      }
      ready := ready[name := flat.value];
      i := i + 1;
    }
    result := Ok(ready);
  }

  // ---------------------------------------------------------------------
  // Properties of the loader

  /** A run that returns has one entry per dataset name and nothing else,
      each holding that dataset's flattened table. */
  lemma {:induction false} LoadedEveryDataset(env: Env, ds: string, datasets: seq<(string, R.DatasetSpec)>, n: nat)
    requires n <= |datasets|
    requires R.DistinctNames(datasets)
    requires LoadPrefix(env, ds, datasets, n).Ok?
    ensures LoadPrefix(env, ds, datasets, n).value.Keys == set i | 0 <= i < n :: datasets[i].0
    ensures forall i :: 0 <= i < n ==>
              Prepare(env, ds, datasets[i].0, datasets[i].1).Ok?
              && LoadPrefix(env, ds, datasets, n).value[datasets[i].0]
                 == Prepare(env, ds, datasets[i].0, datasets[i].1).value
  {
    if n > 0 {
      LoadedEveryDataset(env, ds, datasets, n - 1);
      var m := LoadPrefix(env, ds, datasets, n).value;
      assert (set i | 0 <= i < n :: datasets[i].0) == (set i | 0 <= i < n - 1 :: datasets[i].0) + {datasets[n - 1].0};
      forall i | 0 <= i < n - 1 ensures datasets[i].0 != datasets[n - 1].0 {
      }
    }
  }

  /** With the modelled checks, a dataset whose turn succeeded passed its
      raw check and, because both checks run strictly, its raw report and
      (for an event log) its flat report say `ok`. */
  lemma LoadedMeansReportsOk(env: Env, reportBase: string, rawFile: R.DatasetSpec -> RV.RawFile,
                             decode: string -> Option<Value>, ds: string, name: string, spec: R.DatasetSpec)
    requires Modelled(env, reportBase, rawFile, decode)
    requires Prepare(env, ds, name, spec).Ok?
    ensures RV.ValidateRawSchema(spec, ds, reportBase, rawFile(spec), decode, None, true).report.ok
    ensures spec.kind == R.EventsKind ==>
              F.ValidateFlatColumns(spec, ds, Prepare(env, ds, name, spec).value, true).report.value.ok
  {
    RV.StrictFlagIsOk(spec, ds, reportBase, rawFile(spec), decode, None);
    assert env.validateRaw(spec, ds, true).0;
    if spec.kind == R.EventsKind {
      var flat := Prepare(env, ds, name, spec).value;
      F.FlatFlagAndReport(spec, ds, flat, true);
      assert env.validateFlat(spec, ds, flat, true).0;
    }
  }

  /** A run that returns passed every dataset's turn. */
  lemma {:induction false} LoadedMeansEveryTurnPassed(env: Env, ds: string, datasets: seq<(string, R.DatasetSpec)>, n: nat)
    requires n <= |datasets|
    requires LoadPrefix(env, ds, datasets, n).Ok?
    ensures forall i :: 0 <= i < n ==> Prepare(env, ds, datasets[i].0, datasets[i].1).Ok?
  {
    if n > 0 {
      LoadedMeansEveryTurnPassed(env, ds, datasets, n - 1);
    }
  }

  /** When the datasets before the `i`-th pass and its raw check fails, the
      run raises with the message naming it and the report path. */
  lemma RawFailureRaises(env: Env, ds: string, datasets: seq<(string, R.DatasetSpec)>, i: nat)
    requires i < |datasets|
    requires LoadPrefix(env, ds, datasets, i).Ok?
    requires !env.validateRaw(datasets[i].1, ds, true).0
    ensures LoadAll(env, ds, datasets)
            == Err(RawFailure(datasets[i].0, env.validateRaw(datasets[i].1, ds, true).1))
  {
    FailureIsFinal(env, ds, datasets, i + 1, |datasets|);
  }

  /** With the modelled raw check the path in that message is the raw
      report of the dataset for `ds`. */
  lemma RawFailurePath(env: Env, reportBase: string, rawFile: R.DatasetSpec -> RV.RawFile,
                       decode: string -> Option<Value>, ds: string, spec: R.DatasetSpec)
    requires Modelled(env, reportBase, rawFile, decode)
    ensures env.validateRaw(spec, ds, true).1 == RV.RawReportPath(reportBase, spec.name, ds)
  {
    RV.ReportIdentity(spec, ds, reportBase, rawFile(spec), decode, None, true);
  }

  /** When the datasets before the `i`-th pass and its flat check fails,
      the run raises with the message naming it and the report path. */
  lemma FlatFailureRaises(env: Env, ds: string, datasets: seq<(string, R.DatasetSpec)>, i: nat, flat: F.Table)
    requires i < |datasets|
    requires LoadPrefix(env, ds, datasets, i).Ok?
    requires env.validateRaw(datasets[i].1, ds, true).0
    requires env.readRaw(datasets[i].1).Ok?
    requires env.flatten(datasets[i].1, env.readRaw(datasets[i].1).value) == Ok(flat)
    requires !env.validateFlat(datasets[i].1, ds, flat, true).0
    ensures LoadAll(env, ds, datasets)
            == Err(FlatFailure(datasets[i].0, env.validateFlat(datasets[i].1, ds, flat, true).1))
  {
    FailureIsFinal(env, ds, datasets, i + 1, |datasets|);
  }

  /** The table reader is consulted only after a raw check passes: two
      runs whose readers agree on those datasets give the same result. */
  lemma {:induction false} ReadOnlyAfterRawPass(env: Env, read2: R.DatasetSpec -> Result<F.Table>, ds: string,
                                                datasets: seq<(string, R.DatasetSpec)>, n: nat)
    requires n <= |datasets|
    requires forall i :: 0 <= i < n && env.validateRaw(datasets[i].1, ds, true).0 ==>
               env.readRaw(datasets[i].1) == read2(datasets[i].1)
    ensures LoadPrefix(env, ds, datasets, n) == LoadPrefix(env.(readRaw := read2), ds, datasets, n)
  {
    if n > 0 {
      ReadOnlyAfterRawPass(env, read2, ds, datasets, n - 1);
    }
  }

  /** Over the registered datasets, a run that returns holds exactly the
      pays, taps and prints tables. */
  lemma RegisteredRunKeys(env: Env, ds: string, rawDataDir: string)
    requires LoadAll(env, ds, R.Datasets(rawDataDir)).Ok?
    ensures LoadAll(env, ds, R.Datasets(rawDataDir)).value.Keys == {"pays", "taps", "prints"}
  {
    var datasets := R.Datasets(rawDataDir);
    R.RegistryKeysAreNames(rawDataDir);
    LoadedEveryDataset(env, ds, datasets, |datasets|);
    assert (set i | 0 <= i < |datasets| :: datasets[i].0) == {"pays", "taps", "prints"} by {
      assert datasets[0].0 == "pays" && datasets[1].0 == "taps" && datasets[2].0 == "prints";
    }
  }
}
