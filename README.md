# Raw-to-flat ETL core of the value-proposition pipeline

This project models the core of a small batch ETL pipeline. The pipeline reads three
raw datasets:

- `pays`, a CSV of payments;
- `taps` and `prints`, newline-delimited JSON event logs with a nested
  `event_data` struct.

The model covers these steps:

- the raw data contract check, which writes a raw report;
- the flattening of the event logs;
- the flat column check, which writes a flat report;
- the loader, which runs the checks over every registered dataset and stops at the first failure;
- the weekly aggregation behind the final table. For each print of the last week it
  counts the user's prints, taps and payments for that value proposition over the
  three weeks before, and sums the payment totals.

Modules, one per part of the source:

| module | models |
|---|---|
| `Registry` (registry.dfy) | the dataset registry: column types, raw schemas, flat columns, the three registered datasets |
| `Values` (values.dfy) | the Python values a decoded JSON line can hold |
| `Text` (text.dfy) | `str.strip`, ASCII lower-casing, and `sorted` on sets of strings and integers |
| `Tokens` (tokens.dfy) | the token classifiers `_is_int_like`, `_is_float_like`, `_is_bool_like`, `_is_date_like`, and the two regular expressions |
| `Scan` (scan.dfy) | the line scans over an NDJSON file (keys and row count, invalid-token counts) and the CSV invalid-token count |
| `RawValidation` (raw_validation.dfy) | `validate_raw_schema` and its report |
| `Rows` (rows.dfy) | row filters: what a dataframe `filter` keeps, in order, and how many rows |
| `Flatten` (flatten.dfy) | `unnest`, `select`, `flatten_events`, `validate_flat_columns` |
| `Transform` (transform.dfy) | `get_last_week`, `get_last_weeks`, and the group-by / left-join aggregation |
| `Loader` (loader.dfy) | `load_and_prepare_all` |

How the model represents the source:

- **Files.** Each file is given as a value. An NDJSON file is its sequence of lines. A CSV
  file is its header plus a sequence of records (column to cell text, with a missing
  cell meaning null). A read that raises is an `Err`.
- **JSON.** Decoding a line is a function parameter `decode` that returns a `Value`, or
  `None` where `json.loads` raises.
- **Dates.** A date is a day number, where day 0 is 1970-01-01, a Thursday. The polars
  `dt.truncate("1w")` is the Monday on or before that day.
- **Loader steps.** The loader's four steps are function fields of `Loader.Env`: the raw
  check, the reader, the flattener and the flat check. These are the same four
  functions the source's loader tests replace. `Loader.Modelled` ties three of them to
  `RawValidation.ValidateRawSchema`, `Flatten.FlattenEvents` and
  `Flatten.ValidateFlatColumns`.
- **Imperative code.** The scans and the loader are loops in the source, so they are
  `method`s with loop invariants. Each method is proved equal to a specification
  function, and the properties are lemmas about that function.

The model follows the code on these points:

- the flat check fails only on *missing* columns, not on extra ones;
- `unnest` of an absent `event_data` column raises (an `Err`) rather than passing the
  table through;
- a non-strict raw check returns `True` even when new columns are not allowed;
- the final table has one row per last-week print row, not one per distinct
  (user, value proposition) pair.

## Model

| member | source | states |
|---|---|---|
| Registry.FieldNames | src/domain/schema_registry.py:22-24 | the names of a struct's fields, one per field, in order |
| Registry.DefaultAllowsNewColumns | src/domain/schema_registry.py:19 | a dataset spec allows new columns unless told otherwise |
| Registry.RegistryKeysAreNames | src/domain/schema_registry.py:41-66 | the registry's names are distinct and each entry's key is its spec's name |
| Registry.PaysIsTheOnlyTable | src/domain/schema_registry.py:41-66 | `pays` is the only dataset that is not an event log, and it has no flat columns |
| Registry.EventDatasetsShareContract | src/domain/schema_registry.py:50-65 | taps and prints share the events raw schema and the four flat columns |
| Registry.EveryDatasetAllowsNewColumns | src/domain/schema_registry.py:41-66 | every registered dataset allows new raw columns |
| Registry.EventsFlatColsAreUnnestedRawCols | src/domain/schema_registry.py:22-39 | the flat columns are the raw event columns with `event_data` replaced by its struct fields |
| Text.TrimLeft | src/application/validation.py:23 | leading whitespace is removed: the result is no longer, has no leading space, and the part of the input before it is all space |
| Text.TrimLeftSuffix | src/application/validation.py:23 | the left-trimmed text is a suffix of the input |
| Text.TrimRight | src/application/validation.py:23 | trailing whitespace is removed: the result is no longer, has no trailing space, and the part of the input after it is all space |
| Text.TrimRightPrefix | src/application/validation.py:23 | the right-trimmed text is a prefix of the input |
| Text.StripPadded | src/application/validation.py:23 | stripping ignores whitespace padding on either side |
| Text.Lower | src/application/validation.py:43 | lower-casing keeps the length and maps each character |
| Text.LowerIdempotent | src/application/validation.py:43 | lower-casing twice is lower-casing once |
| Text.StripLower | src/application/validation.py:43 | strip and lower-case commute |
| Text.SortedStrings | src/application/validation.py:189-190 | `sorted(list(s))` has exactly the elements of the set, each once |
| Text.SortedStringsSorted | src/application/validation.py:189-190 | `sorted(list(s))` is strictly increasing in code-point order |
| Text.LexTotal | src/application/validation.py:189 | string order is total on distinct strings |
| Text.LexTransitive | src/application/validation.py:189 | string order is transitive |
| Text.SortedInts | src/application/transform_service.py:27 | `unique().sort()` of week starts has exactly the set's elements |
| Text.SortedIntsSorted | src/application/transform_service.py:27 | `unique().sort()` is strictly increasing |
| Tokens.IntTokenIff | src/application/validation.py:13 | `^[+-]?\d+$` matches exactly an optional sign followed by one or more digits |
| Tokens.FloatTokenIff | src/application/validation.py:14 | the float pattern matches exactly sign, mantissa (`d`, `d.`, `d.d`, `.d`) and optional exponent |
| Tokens.IntTokenIsFloatToken | src/application/validation.py:13-14 | every integer token is a float token |
| Tokens.DaysInMonth | src/application/validation.py:58-60 | a month has 28 to 31 days, and February has 29 exactly in leap years |
| Tokens.NullConforms | src/application/validation.py:17-19 | None is int-, float-, bool- and date-like |
| Tokens.IntLikeString | src/application/validation.py:17-24 | a string is int-like iff its stripped text is sign plus digits |
| Tokens.IntLikeIsFloatLike | src/application/validation.py:17-34 | every int-like value is float-like |
| Tokens.BoolLikeNumbers | src/application/validation.py:44-45 | a number is bool-like iff it is 0 or 1 |
| Tokens.IntLikeIgnoresPadding | src/application/validation.py:23 | padding a string with whitespace does not change int-likeness |
| Tokens.FloatLikeIgnoresPadding | src/application/validation.py:33 | padding does not change float-likeness |
| Tokens.BoolLikeIgnoresPadding | src/application/validation.py:43 | padding does not change bool-likeness |
| Tokens.DateLikeIgnoresPadding | src/application/validation.py:55 | padding does not change date-likeness |
| Tokens.BoolLikeIgnoresCase | src/application/validation.py:43 | bool-likeness of a string depends only on its lower-cased text |
| Tokens.ReplaceZ | src/application/validation.py:58 | every `Z` becomes `+00:00`: no `Z` is left, text without `Z` is unchanged, and `Z` alone gives `+00:00` |
| Tokens.ReplaceZAppend | src/application/validation.py:58 | the replacement works one character at a time: it distributes over concatenation |
| Tokens.DateLikeStartsWithDate | src/application/validation.py:49-64 | a date-like string starts, after stripping, with a valid `YYYY-MM-DD` date |
| Scan.LineObject | src/application/validation.py:105-113 | only a non-blank line can yield a JSON object |
| Scan.NonBlankCount | src/application/validation.py:105-108 | the row count never exceeds the number of lines |
| Scan.NdjsonKeysAndRowcount | src/application/validation.py:100-116 | the loop returns the sampled keys and the number of non-blank lines |
| Scan.SampleKeysSubset | src/application/validation.py:109-113 | the sampled keys are keys of objects in the file |
| Scan.SampleKeysComplete | src/application/validation.py:109-113 | while fewer keys than the limit exist, every key is collected |
| Scan.SampleKeysSaturate | src/application/validation.py:109 | once the limit is reached, later lines add no keys |
| Scan.BlankLineIgnored | src/application/validation.py:105-107 | a blank line changes neither the row count nor the keys |
| Scan.NonBlankCountAppend | src/application/validation.py:104-108 | the row count of two files joined is the sum of their counts |
| Scan.Checks | src/application/validation.py:120 | the checked columns are exactly the non-struct expected columns, with their types |
| Scan.CountLine | src/application/validation.py:126-149 | one line adds its hit, 0 or 1, to each checked column's count |
| Scan.InvalidTokenCountsNdjson | src/application/validation.py:119-150 | the loop returns the positive per-column counts of lines whose value fails its classifier |
| Scan.InvalidCountBound | src/application/validation.py:124-149 | a column's count is at most the number of non-blank lines |
| Scan.InvalidCountAppend | src/application/validation.py:124-149 | counts over two files joined add up |
| Scan.InvalidTokensNdjsonShape | src/application/validation.py:119-150 | every reported column is expected, not a struct, and has a count between 1 and the row count |
| Scan.UncheckedLinesNeverCount | src/application/validation.py:129-137 | a line that is not an object, or lacks the column, or holds null in it, adds nothing |
| Scan.InvalidCountCountsHit | src/application/validation.py:148-149 | every failing line is counted |
| Scan.InvalidCountWitness | src/application/validation.py:148-149 | a positive count has a failing line behind it |
| Scan.StructColumnsNeverReported | src/application/validation.py:120 | a struct column is never reported as holding invalid tokens |
| Scan.InvalidTokenCountsCsv | src/application/validation.py:75-97 | one entry per expected column present in the header (none when no such column), each at most the number of records |
| Scan.InvalidTokenCountsCsvMeaning | src/application/validation.py:85-97 | a column's count is positive iff some record has a non-null cell of the wrong form, and 0 for a type the check does not classify |
| Scan.CsvCountWitness | src/application/validation.py:86-95 | a CSV column count is positive iff some record holds a non-null ill-formed cell |
| Scan.CsvUncheckedTypeCountsZero | src/application/validation.py:93-94 | a column of a type other than integer, float, boolean, date or date-time counts 0 |
| Scan.CsvNullCellsNeverCount | src/application/validation.py:86-92 | a null CSV cell adds nothing |
| Scan.PaddedIntDivergence | src/application/validation.py:86 | every integer token with a leading space passes the NDJSON integer check but fails the CSV one |
| RawValidation.Observe | src/application/validation.py:160-168 | the invalid-token counts only name columns of the raw schema |
| RawValidation.WrongTypesOf | src/application/validation.py:192 | a wrong-type entry is listed iff its column has a positive count, with the declared type |
| RawValidation.ValidateRawSchemaRun | src/application/validation.py:159-230 | running the two scans and the verdict gives the modelled outcome |
| RawValidation.VerdictColumns | src/application/validation.py:188-190 | missing = expected minus present and new = present minus expected, both sorted without repeats |
| RawValidation.VerdictWrongTypes | src/application/validation.py:192 | the wrong types are exactly the columns with a positive count |
| RawValidation.VerdictOkIff | src/application/validation.py:196 | ok iff no column is missing, no token is invalid, and new columns are allowed or absent |
| RawValidation.StrictFlagIsOk | src/application/validation.py:213-230 | in strict mode the returned flag is the report's `ok` |
| RawValidation.NonStrictPassesAfterRead | src/application/validation.py:213-230 | in non-strict mode a successful read always returns `True` |
| RawValidation.ReadErrorFails | src/application/validation.py:169-186 | a read that raises gives `False` and a report with 0 rows, empty lists and the error |
| RawValidation.ReportIdentity | src/application/validation.py:170-204 | the report path is `<base>/<name>/schema_raw_<ds>.json`; the report names the dataset, stage `raw` and the schema |
| RawValidation.EventRowsAreNonBlankLines | src/application/validation.py:165-168 | for an event log the rows are the non-blank lines and the columns are the sampled keys |
| Rows.Filter | src/application/transform_service.py:15-29 | a filter keeps exactly the rows that satisfy the predicate |
| Rows.FilterIsSubsequence | src/application/transform_service.py:15-29 | a filter keeps the surviving rows in their original order |
| Rows.FilterCount | src/application/transform_service.py:40 | the height of a filter is the number of rows that satisfy the predicate |
| Rows.FilterAll | src/application/transform_service.py:25-29 | a filter whose predicate always holds keeps every row |
| Flatten.IndexOf | src/application/flatten.py:13 | the position found holds the column |
| Flatten.Unnest | src/application/flatten.py:13 | unnest keeps the row count and gives distinct columns; an absent column raises |
| Flatten.UnnestColumns | src/application/flatten.py:13 | unnest succeeds iff the column is a struct and the spliced names are distinct; the struct's fields take its place |
| Flatten.UnnestCells | src/application/flatten.py:13 | each new column holds the struct's field (null for a null struct); other columns are unchanged |
| Flatten.SelectSchema | src/application/flatten.py:15 | the selected schema has exactly the requested names |
| Flatten.Select | src/application/flatten.py:15 | select succeeds iff the names are distinct; columns are the names, rows and cells are kept |
| Flatten.KeepPresent | src/application/flatten.py:14 | keep holds exactly the expected columns present after unnest |
| Flatten.FlattenNonEventIdentity | src/application/flatten.py:11-12 | a non-event dataset is returned unchanged |
| Flatten.FlattenEventColumns | src/application/flatten.py:13-15 | the columns are the present expected ones in expected order, or the whole unnested table when none is present; rows and cells preserved |
| Flatten.FlattenFailsOnlyOnUnnest | src/application/flatten.py:13-15 | with distinct expected columns, flattening fails iff unnest fails |
| Flatten.EventLogFlattensToFlatColumns | src/application/flatten.py:10-15 | a raw event log flattens to exactly day, position, value_prop, user_id, keeping every row |
| Flatten.FlatCheckSkipsNonEvents | src/application/flatten.py:19-20 | a non-event dataset passes with an empty path and no report |
| Flatten.FlatMissingColumns | src/application/flatten.py:21-30 | missing = sorted(expected minus present); ok iff nothing is missing; extra columns never matter |
| Flatten.FlatFlagAndReport | src/application/flatten.py:25-41 | the flag is `ok` when strict and `True` otherwise; the report names the dataset, stage `flat`, the height and the path |
| Transform.WeekStart | src/application/transform_service.py:13 | the week start is the Monday on or before the day |
| Transform.WeekStartUnique | src/application/transform_service.py:13 | that Monday is the only Monday within the six days before |
| Transform.MaxOf | src/application/transform_service.py:15 | the maximum is in the set and bounds it |
| Transform.LastWeekKeepsLatest | src/application/transform_service.py:10-17 | get_last_week keeps, in order, exactly the rows whose week is the latest |
| Transform.LastWeeksIsFilter | src/application/transform_service.py:20-31 | get_last_weeks keeps a subsequence of the rows |
| Transform.LastWeeksFewWeeks | src/application/transform_service.py:27 | with at most three weeks present every row is kept |
| Transform.LastWeeksManyWeeks | src/application/transform_service.py:27 | with four or more weeks, exactly the rows of the three weeks before the newest are kept |
| Transform.LaterCount | src/application/transform_service.py:27 | in a strictly increasing list, the number of later values is the distance from the end |
| Transform.AddTo | src/application/transform_service.py:39-40 | adding to a group map adds the key and increases only that key's total |
| Transform.Group | src/application/transform_service.py:37-67 | group_by gives one entry per key that occurs, holding the sum over that key's rows |
| Transform.RowKeysOccur | src/application/transform_service.py:39 | a key is grouped iff some row has it |
| Transform.UniqueMatch | src/application/transform_service.py:42-43 | a unique-keyed right side matches a key once, or not at all |
| Transform.JoinRowUnique | src/application/transform_service.py:42-44 | joining one row adds the matched total, 0 when unmatched |
| Transform.LeftJoinUnique | src/application/transform_service.py:42-44 | a left join against unique keys keeps row count and order and fills 0 |
| Transform.LookupAbsent | src/application/transform_service.py:44 | an absent key reads as 0 (fill_null(0)) |
| Transform.Aggregates | src/application/transform_service.py:37-67 | the four aggregates each have unique keys |
| Transform.SumOneIsCount | src/application/transform_service.py:40 | summing 1 per row is `len()` |
| Transform.JoinAllRows | src/application/transform_service.py:42-70 | the chain of left joins keeps each row and appends each aggregate's value for its key |
| Transform.BuildOutputRows | src/application/transform_service.py:35-70 | one output row per last-week print: its fields, vistas/taps/pagos as counts over the trailing weeks, click iff taps > 0, total as the sum |
| Transform.OutRowAt | src/application/transform_service.py:35-70 | each output row is the row specification applied to its print |
| Transform.CountZeroIffAbsent | src/application/transform_service.py:42-62 | a count is 0 iff no trailing row has the key |
| Transform.SumWhereAbsent | src/application/transform_service.py:70 | the total is 0 when no trailing payment has the key |
| Loader.FailureIsFinal | src/application/dq_and_load.py:14-22 | after the first failure later datasets are never reached and the result stays that failure |
| Loader.LoadAndPrepareAll | src/application/dq_and_load.py:12-25 | the loop returns the modelled result: the first failure, or every dataset's table by name |
| Loader.LoadedEveryDataset | src/application/dq_and_load.py:14-25 | on success there is one entry per dataset name, holding that dataset's flattened table |
| Loader.LoadedMeansEveryTurnPassed | src/application/dq_and_load.py:14-23 | on success every dataset passed both checks |
| Loader.LoadedMeansReportsOk | src/application/dq_and_load.py:15-22 | both checks run strictly, so on success the raw report and the flat report say ok |
| Loader.RawFailureRaises | src/application/dq_and_load.py:15-17 | a failed raw check raises `RAW schema failed for <name>. See report: <path>` |
| Loader.RawFailurePath | src/application/dq_and_load.py:15-17 | the path in that message is the dataset's raw report for the run date |
| Loader.FlatFailureRaises | src/application/dq_and_load.py:20-22 | a failed flat check raises `FLAT schema failed for <name>. See report: <path>` |
| Loader.ReadOnlyAfterRawPass | src/application/dq_and_load.py:15-18 | the reader is consulted only after the raw check passes |
| Loader.RegisteredRunKeys | src/application/dq_and_load.py:14-25 | a run over the registry returns exactly the pays, taps and prints tables |

## Examples

These lemmas fix concrete inputs, mirroring the cases of the unit tests; they are
regression examples rather than properties over all inputs.

| member | source | states |
|---|---|---|
| Tokens.PaddedIntExamples | src/application/validation.py:23 | `" 1"` is int-like although the bare pattern rejects it |
| Tokens.FloatTokenRejects | src/application/validation.py:14 | `xx` and `1.2.3` are not float tokens |
| Tokens.BoolLikeExample | src/application/validation.py:43 | `YES` is bool-like |
| Tokens.DateLikeExample | src/application/validation.py:49-64 | `2020-01-01` is date-like |
| Transform.JoinDuplicatesOnRepeatedKeys | src/application/transform_service.py:42-43 | a right side with a repeated key would duplicate left rows |

## Left out

- File I/O is not modelled: opening files, `read_csv`, `scan_csv`, writing the JSON reports and the output CSV/parquet. A file is a value, and a read that raises is an `Err`.
- `_csv_rowcount` is not modelled separately: the CSV row count is the number of records of the file value.
- Logging is not modelled: it has no effect on results.
- The reader (`src/adapters/reader.py`) is a parameter of the loader. Its polars decoding is not part of this model.
- `json.loads` is a parameter. NaN and infinities are not modelled, and `Float` holds a finite real.
- Unicode case mapping is not modelled: lower-casing is ASCII only. `Text.IsSpace` is CPython's full whitespace set, so stripping is unaffected, and the accepted boolean words are ASCII, so the bool check is unaffected.
- `Tokens.IsDateLike` follows a simplified `datetime.fromisoformat` grammar: `YYYY-MM-DD`, optionally followed by a separator, hours, minutes, seconds, a fraction of 3 or 6 digits and a `±HH:MM` offset.
- The CSV date check `str.strptime(..., strict=False)` is approximated by the same ISO date and date-time grammar. With no format given, polars infers one from the column's first non-null value and raises when it cannot, which would send `validate_raw_schema` down its read-error path; the model does not cover that raise and counts such cells as invalid instead.
- Regex matching is modelled as ASCII-digit grammars. Python's `\d` also accepts other Unicode digits.
- Dictionary iteration order is not modelled. Reports list columns in sorted order, as the source does.
- Transform.Pay: `total` is an integer. The source sums floats and casts the sum to Int64, truncating it; float rounding is not modelled.
- Transform.Key: keys are never null. Polars never matches null join keys, and this case is not modelled.
- Transform.Event: `day` and `position` are non-null integers. Null days pass the raw check (null conforms to every type) and the flat check, so they can reach the transform, where the model does not follow them: `get_last_week` drops rows whose week start is null, and in `get_last_weeks` a null week start is one more distinct value that `sort()` places first, taking one of the `tail(4)` slots. With weeks W1 < W2 < W3 plus a null, the window is [null, W1, W2] and the newest week W3 is dropped, unlike `Transform.LastWeeksFewWeeks`.
- Transform.Pay: `pay_date` is a non-null day number and `total` a non-null number; the null `pay_date` case of `get_last_weeks` described for events applies to payments in the same way, and a null total (which `sum` skips) is not modelled.
- Transform.LastWeeksFewWeeks: stated for non-null dates only; with a null date among three weeks the source drops the newest week (see Transform.Event).
- Transform.BuildOutput: the export to CSV and parquet is not modelled. The result is the aggregated table.
- Transform.BuildOutputRows: the output rows follow the order of the last-week prints. Polars left joins keep left order, which the model assumes.
- Loader.LoadAndPrepareAll: the four steps are abstract functions; `Loader.Modelled` connects them to the modelled checks.
- Several unit tests do not match the current signatures, and the model follows the code: tests/unit/test_validation.py, tests/unit/test_validation_complex.py and tests/unit/test_validation_logic.py call `validate_raw_schema` without the run-date argument `ds` (tests/unit/test_raw_schema.py passes it); tests/unit/test_loader.py calls `load_and_prepare_all` without `ds`; tests/unit/test_flatten.py, tests/unit/test_flatten_logic.py and tests/unit/test_validation_logic.py call `validate_flat_columns(spec, df, strict=...)`, which puts the frame where `ds` goes; and tests/unit/test_flatten.py expects `new_columns` in flat reports, which the code no longer writes.
