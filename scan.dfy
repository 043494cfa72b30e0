/** The two passes `validate_raw_schema` makes over a raw event log (one
    JSON document per line) and the column-wise token check over a raw CSV
    table. JSON decoding is a parameter: `decode(s)` is `Some(v)` when
    `json.loads(s)` returns `v` and `None` when it raises. */
module Scan {
  import opened Wrappers
  import opened Text
  import opened Values
  import opened Tokens
  import R = Registry

  /** The default cap on the number of sampled keys. */
  const DefaultKeyLimit: nat := 20000

  /** A line that holds nothing but whitespace is skipped by both passes. */
  predicate Blank(line: string) {
    Strip(line) == []
  }

  /** The decoded object of a non-blank line, when it is a JSON object. */
  function LineObject(line: string, decode: string -> Option<Value>): (o: Option<map<string, Value>>)
    ensures o.Some? ==> !Blank(line)
  {
    var s := Strip(line);
    if s == [] then None
    else
      var obj := decode(s);
      if obj.Some? && obj.value.Dict? then Some(obj.value.entries) else None
  }

  /** The keys of a line's object; no keys for any other line. */
  function LineKeys(line: string, decode: string -> Option<Value>): set<string> {
    match LineObject(line, decode)
    case Some(m) => m.Keys
    case None => {}
  }

  // ---------------------------------------------------------------------
  // Keys and row count

  /** The number of non-blank lines: the row count of an event log. */
  function NonBlankCount(lines: seq<string>): (n: nat)
    ensures n <= |lines|
  {
    if lines == [] then 0
    else NonBlankCount(lines[..|lines| - 1]) + (if Blank(lines[|lines| - 1]) then 0 else 1)
  }

  /** Every key of every object in the file. */
  function AllKeys(lines: seq<string>, decode: string -> Option<Value>): set<string> {
    if lines == [] then {}
    else AllKeys(lines[..|lines| - 1], decode) + LineKeys(lines[|lines| - 1], decode)
  }

  /** The keys sampled from the file: a line's keys are added only while
      fewer than `cap` keys have been seen, so the sample may end above
      the cap by the keys of the last line read. */
  function SampleKeys(lines: seq<string>, decode: string -> Option<Value>, cap: nat): set<string> {
    if lines == [] then {}
    else
      var before := SampleKeys(lines[..|lines| - 1], decode, cap);
      if |before| < cap then before + LineKeys(lines[|lines| - 1], decode) else before
  }

  lemma ScanStep(lines: seq<string>, i: nat, decode: string -> Option<Value>, cap: nat)
    requires i < |lines|
    ensures NonBlankCount(lines[..i + 1]) == NonBlankCount(lines[..i]) + (if Blank(lines[i]) then 0 else 1)
    ensures SampleKeys(lines[..i + 1], decode, cap) ==
      (if |SampleKeys(lines[..i], decode, cap)| < cap
       then SampleKeys(lines[..i], decode, cap) + LineKeys(lines[i], decode)
       else SampleKeys(lines[..i], decode, cap))
    ensures AllKeys(lines[..i + 1], decode) == AllKeys(lines[..i], decode) + LineKeys(lines[i], decode)
  {
    assert lines[..i + 1][..i] == lines[..i];
  }

  /** `_ndjson_keys_and_rowcount`: one pass over the lines, counting the
      non-blank ones and sampling the keys of the objects. */
  method NdjsonKeysAndRowcount(lines: seq<string>, decode: string -> Option<Value>, limitKeys: nat)
    returns (keys: set<string>, n: nat)
    ensures keys == SampleKeys(lines, decode, limitKeys)
    ensures n == NonBlankCount(lines)
  {
    keys := {};
    n := 0;
    var i := 0;
    while i < |lines|
      invariant 0 <= i <= |lines|
      invariant keys == SampleKeys(lines[..i], decode, limitKeys)
      invariant n == NonBlankCount(lines[..i])
    {
      ScanStep(lines, i, decode, limitKeys);
      var s := Strip(lines[i]);
      if s != [] {
        n := n + 1;
        if |keys| < limitKeys {
          var obj := decode(s);
          if obj.Some? && obj.value.Dict? {
            keys := keys + obj.value.entries.Keys;
          }
        }
      }
      i := i + 1;
    }
    assert lines[..|lines|] == lines;
  }

  lemma {:induction false} SampleKeysSubset(lines: seq<string>, decode: string -> Option<Value>, cap: nat)
    ensures SampleKeys(lines, decode, cap) <= AllKeys(lines, decode)
    decreases |lines|
  {
    if lines != [] {
      SampleKeysSubset(lines[..|lines| - 1], decode, cap);
    }
  }

  lemma SubsetCard<T>(a: set<T>, b: set<T>)
    requires a <= b
    ensures |a| <= |b|
  {
    assert b == a + (b - a);
  }

  lemma {:induction false} AllKeysGrow(lines: seq<string>, decode: string -> Option<Value>, k: nat)
    requires k <= |lines|
    ensures AllKeys(lines[..k], decode) <= AllKeys(lines, decode)
    decreases |lines|
  {
    if k < |lines| {
      var init := lines[..|lines| - 1];
      assert init[..k] == lines[..k];
      AllKeysGrow(init, decode, k);
    } else {
      assert lines[..k] == lines;
    }
  }

  /** When the file has fewer distinct keys than the cap, the sample is
      every key of the file. */
  lemma {:induction false} SampleKeysComplete(lines: seq<string>, decode: string -> Option<Value>, cap: nat)
    requires |AllKeys(lines, decode)| < cap
    ensures SampleKeys(lines, decode, cap) == AllKeys(lines, decode)
    decreases |lines|
  {
    if lines != [] {
      var init := lines[..|lines| - 1];
      AllKeysGrow(lines, decode, |lines| - 1);
      SubsetCard(AllKeys(init, decode), AllKeys(lines, decode));
      SampleKeysComplete(init, decode, cap);
    }
  }

  /** Once the sample has reached the cap, further lines never change it. */
  lemma {:induction false} SampleKeysSaturate(lines: seq<string>, more: seq<string>, decode: string -> Option<Value>, cap: nat)
    requires |SampleKeys(lines, decode, cap)| >= cap
    ensures SampleKeys(lines + more, decode, cap) == SampleKeys(lines, decode, cap)
    decreases |more|
  {
    if more == [] {
      assert lines + more == lines;
    } else {
      var init := more[..|more| - 1];
      assert (lines + more)[..|lines + more| - 1] == lines + init;
      SampleKeysSaturate(lines, init, decode, cap);
    }
  }

  /** Blank lines count for nothing and add no keys. */
  lemma BlankLineIgnored(lines: seq<string>, line: string, decode: string -> Option<Value>, cap: nat)
    requires Blank(line)
    ensures NonBlankCount(lines + [line]) == NonBlankCount(lines)
    ensures SampleKeys(lines + [line], decode, cap) == SampleKeys(lines, decode, cap)
    ensures AllKeys(lines + [line], decode) == AllKeys(lines, decode)
  {
    assert (lines + [line])[..|lines|] == lines;
  }

  lemma {:induction false} NonBlankCountAppend(a: seq<string>, b: seq<string>)
    ensures NonBlankCount(a + b) == NonBlankCount(a) + NonBlankCount(b)
    decreases |b|
  {
    if b == [] {
      assert a + b == a;
    } else {
      assert (a + b)[..|a + b| - 1] == a + b[..|b| - 1];
      NonBlankCountAppend(a, b[..|b| - 1]);
    }
  }

  // ---------------------------------------------------------------------
  // Invalid tokens in an event log

  /** The columns whose tokens are checked: every expected column except
      nested records. */
  function Checks(expected: map<string, R.DType>): (checks: map<string, R.DType>)
    ensures checks.Keys <= expected.Keys
    ensures forall c :: c in checks <==> c in expected && !expected[c].Struct?
    ensures forall c :: c in checks ==> checks[c] == expected[c]
  {
    map c | c in expected && !expected[c].Struct? :: expected[c]
  }

  /** The classifier the scan applies to a column of declared type `t`.
      The counting below is stated for any classifier `ok`. */
  function Classifier(t: R.DType): Value -> bool {
    v => Conforms(t, v)
  }

  /** 1 when the object's value under `col` is present, not null and
      rejected by `ok`; 0 otherwise. */
  function TokenHit(m: map<string, Value>, col: string, ok: Value -> bool): (h: nat)
    ensures h <= 1
  {
    if col in m && m[col] != Null && !ok(m[col]) then 1 else 0
  }

  /** 1 when the line is an object with a bad token under `col`. */
  function Hit(line: string, decode: string -> Option<Value>, col: string, ok: Value -> bool): (h: nat)
    ensures h <= 1
  {
    match LineObject(line, decode)
    case Some(m) => TokenHit(m, col, ok)
    case None => 0
  }

  /** The number of lines whose token under `col` is rejected by `ok`. */
  function InvalidCount(lines: seq<string>, decode: string -> Option<Value>, col: string, ok: Value -> bool): nat {
    if lines == [] then 0
    else InvalidCount(lines[..|lines| - 1], decode, col, ok) + Hit(lines[|lines| - 1], decode, col, ok)
  }

  /** What `_invalid_token_counts_ndjson` returns: for each checked column
      with at least one bad token, how many lines hold one. */
  function InvalidTokensNdjson(lines: seq<string>, decode: string -> Option<Value>,
                               expected: map<string, R.DType>): map<string, nat>
  {
    var checks := Checks(expected);
    map c | c in checks && InvalidCount(lines, decode, c, Classifier(checks[c])) > 0 :: InvalidCount(lines, decode, c, Classifier(checks[c]))
  }

  lemma InvalidStep(lines: seq<string>, i: nat, decode: string -> Option<Value>, col: string, ok: Value -> bool)
    requires i < |lines|
    ensures InvalidCount(lines[..i + 1], decode, col, ok)
            == InvalidCount(lines[..i], decode, col, ok) + Hit(lines[i], decode, col, ok)
  {
    assert lines[..i + 1][..i] == lines[..i];
  }

  /** How the scan decides that a line holds an object. */
  lemma LineObjectCases(line: string, decode: string -> Option<Value>)
    ensures Strip(line) == [] ==> LineObject(line, decode).None?
    ensures Strip(line) != [] && !(decode(Strip(line)).Some? && decode(Strip(line)).value.Dict?) ==>
              LineObject(line, decode).None?
    ensures Strip(line) != [] && decode(Strip(line)).Some? && decode(Strip(line)).value.Dict? ==>
              LineObject(line, decode) == Some(decode(Strip(line)).value.entries)
  {
  }

  lemma NoObjectNoHit(line: string, decode: string -> Option<Value>, col: string, ok: Value -> bool)
    requires LineObject(line, decode).None?
    ensures Hit(line, decode, col, ok) == 0
  {
  }

  lemma HitOfObject(line: string, decode: string -> Option<Value>, m: map<string, Value>, col: string, ok: Value -> bool)
    requires LineObject(line, decode) == Some(m)
    ensures Hit(line, decode, col, ok) == TokenHit(m, col, ok)
  {
  }

  /** Dropping the zero counts from per-column counts of the whole file
      gives the report. */
  lemma PositiveCounts(counts: map<string, nat>, lines: seq<string>, decode: string -> Option<Value>,
                       expected: map<string, R.DType>)
    requires counts.Keys == Checks(expected).Keys
    requires forall c :: c in counts ==> counts[c] == InvalidCount(lines, decode, c, Classifier(Checks(expected)[c]))
    ensures (map c | c in counts && counts[c] > 0 :: counts[c]) == InvalidTokensNdjson(lines, decode, expected)
  {
  }

  /** The inner loop of `_invalid_token_counts_ndjson`: every checked
      column of one object whose value is present, not null and badly
      formed has its count incremented. */
  method CountObjectTokens(counts: map<string, nat>, checks: map<string, R.DType>, m: map<string, Value>)
    returns (out: map<string, nat>)
    requires counts.Keys == checks.Keys
    ensures out.Keys == counts.Keys
    ensures forall c :: c in out ==> out[c] == counts[c] + TokenHit(m, c, Classifier(checks[c]))
  {
    out := counts;
    var todo := checks.Keys;
    while todo != {}
      invariant todo <= checks.Keys
      invariant out.Keys == counts.Keys
      invariant forall c :: c in out ==>
        out[c] == counts[c] + (if c in todo then 0 else TokenHit(m, c, Classifier(checks[c])))
      decreases |todo|
    {
      var col :| col in todo;
      var t := checks[col];
      if col in m && m[col] != Null {
        var v := m[col];
        var ok := Conforms(t, v);
        assert ok == Classifier(t)(v);
        if !ok {
          out := out[col := out[col] + 1];
        }
      }
      todo := todo - {col};
    }
  }

  /** One iteration of the outer loop of `_invalid_token_counts_ndjson`:
      a blank line, a line that does not decode and a line that is not an
      object are skipped; an object has its tokens counted. */
  method CountLine(counts: map<string, nat>, checks: map<string, R.DType>,
                   line: string, decode: string -> Option<Value>)
    returns (out: map<string, nat>)
    requires counts.Keys == checks.Keys
    ensures out.Keys == counts.Keys
    ensures forall c :: c in out ==> out[c] == counts[c] + Hit(line, decode, c, Classifier(checks[c]))
  {
    LineObjectCases(line, decode);
    out := counts;
    var s := Strip(line);
    if s == [] {
      forall c | c in out ensures out[c] == counts[c] + Hit(line, decode, c, Classifier(checks[c])) {
        NoObjectNoHit(line, decode, c, Classifier(checks[c]));
      }
      return;
    }
    var obj := decode(s);
    if obj.None? || !obj.value.Dict? {
      forall c | c in out ensures out[c] == counts[c] + Hit(line, decode, c, Classifier(checks[c])) {
        NoObjectNoHit(line, decode, c, Classifier(checks[c]));
      }
      return;
    }
    var m := obj.value.entries;
    out := CountObjectTokens(counts, checks, m);
    forall c | c in out ensures out[c] == counts[c] + Hit(line, decode, c, Classifier(checks[c])) {
      HitOfObject(line, decode, m, c, Classifier(checks[c]));
    }
  }

  /** `_invalid_token_counts_ndjson`: one pass over the lines, counting for
      each checked column the objects whose value under it is present, not
      null and badly formed, then keeping the positive counts. */
  method InvalidTokenCountsNdjson(lines: seq<string>, decode: string -> Option<Value>,
                                  expected: map<string, R.DType>)
    returns (result: map<string, nat>)
    ensures result == InvalidTokensNdjson(lines, decode, expected)
  {
    var checks := Checks(expected);
    if checks == map[] {
      return map[];
    }
    var counts: map<string, nat> := map c | c in checks :: 0;
    var i := 0;
    while i < |lines|
      invariant 0 <= i <= |lines|
      invariant counts.Keys == checks.Keys
      invariant forall c :: c in counts ==> counts[c] == InvalidCount(lines[..i], decode, c, Classifier(checks[c]))
    {
      counts := CountLine(counts, checks, lines[i], decode);
      forall c | c in counts ensures counts[c] == InvalidCount(lines[..i + 1], decode, c, Classifier(checks[c])) {
        InvalidStep(lines, i, decode, c, Classifier(checks[c]));
      }
      i := i + 1;
    }
    assert lines[..|lines|] == lines;
    PositiveCounts(counts, lines, decode, expected);
    result := map c | c in counts && counts[c] > 0 :: counts[c];
  }

  /** No column is counted on more lines than the file has rows. */
  lemma {:induction false} InvalidCountBound(lines: seq<string>, decode: string -> Option<Value>, col: string, ok: Value -> bool)
    ensures InvalidCount(lines, decode, col, ok) <= NonBlankCount(lines)
    decreases |lines|
  {
    if lines != [] {
      InvalidCountBound(lines[..|lines| - 1], decode, col, ok);
    }
  }

  lemma {:induction false} InvalidCountAppend(a: seq<string>, b: seq<string>, decode: string -> Option<Value>,
                                              col: string, ok: Value -> bool)
    ensures InvalidCount(a + b, decode, col, ok) == InvalidCount(a, decode, col, ok) + InvalidCount(b, decode, col, ok)
    decreases |b|
  {
    if b == [] {
      assert a + b == a;
    } else {
      assert (a + b)[..|a + b| - 1] == a + b[..|b| - 1];
      InvalidCountAppend(a, b[..|b| - 1], decode, col, ok);
    }
  }

  /** The report lists only checked columns, each with a positive count
      no larger than the row count. */
  lemma InvalidTokensNdjsonShape(lines: seq<string>, decode: string -> Option<Value>, expected: map<string, R.DType>)
    ensures forall c :: c in InvalidTokensNdjson(lines, decode, expected) ==>
              c in expected && !expected[c].Struct?
              && 0 < InvalidTokensNdjson(lines, decode, expected)[c] <= NonBlankCount(lines)
  {
    forall c | c in InvalidTokensNdjson(lines, decode, expected)
      ensures InvalidTokensNdjson(lines, decode, expected)[c] <= NonBlankCount(lines)
    {
      InvalidCountBound(lines, decode, c, Classifier(expected[c]));
    }
  }

  /** A line that is blank, does not decode, is not an object, or holds
      null under the column never counts against it. */
  lemma UncheckedLinesNeverCount(lines: seq<string>, line: string, decode: string -> Option<Value>,
                                 col: string, ok: Value -> bool)
    requires LineObject(line, decode).None?
          || col !in LineObject(line, decode).value
          || LineObject(line, decode).value[col] == Null
    ensures InvalidCount(lines + [line], decode, col, ok) == InvalidCount(lines, decode, col, ok)
  {
    assert (lines + [line])[..|lines|] == lines;
  }

  /** A line with a bad token under a column always counts against it. */
  lemma {:induction false} InvalidCountCountsHit(lines: seq<string>, k: nat, decode: string -> Option<Value>,
                                                col: string, ok: Value -> bool)
    requires k < |lines|
    ensures InvalidCount(lines, decode, col, ok) >= Hit(lines[k], decode, col, ok)
    decreases |lines|
  {
    var n := |lines| - 1;
    InvalidStep(lines, n, decode, col, ok);
    assert lines[..n + 1] == lines;
    if k < n {
      assert lines[..n][k] == lines[k];
      InvalidCountCountsHit(lines[..n], k, decode, col, ok);
    }
  }

  /** A positive count is witnessed by some line with a bad token. */
  lemma {:induction false} InvalidCountWitness(lines: seq<string>, decode: string -> Option<Value>,
                                              col: string, ok: Value -> bool)
    requires InvalidCount(lines, decode, col, ok) > 0
    ensures exists k :: 0 <= k < |lines| && Hit(lines[k], decode, col, ok) == 1
    decreases |lines|
  {
    var n := |lines| - 1;
    var init := lines[..n];
    InvalidStep(lines, n, decode, col, ok);
    assert lines[..n + 1] == lines;
    if Hit(lines[n], decode, col, ok) != 1 {
      InvalidCountWitness(init, decode, col, ok);
      var k :| 0 <= k < |init| && Hit(init[k], decode, col, ok) == 1;
      assert lines[k] == init[k];
    }
  }

  /** Nested-record columns are never token-checked. */
  lemma StructColumnsNeverReported(lines: seq<string>, decode: string -> Option<Value>,
                                   expected: map<string, R.DType>, c: string)
    requires c in expected && expected[c].Struct?
    ensures c !in InvalidTokensNdjson(lines, decode, expected)
  {
  }

  // ---------------------------------------------------------------------
  // Invalid tokens in a CSV table

  /** A CSV table as read with every column as text: the header, and one
      map per record from column name to cell text. An empty or absent
      cell is null. */
  datatype CsvFile = CsvFile(header: seq<string>, records: seq<map<string, string>>)

  /** The header's column names as a set. */
  function HeaderColumns(csv: CsvFile): set<string> {
    set c | c in csv.header
  }

  function Cell(rec: map<string, string>, col: string): Option<string> {
    if col in rec && rec[col] != "" then Some(rec[col]) else None
  }

  /** The column-wise check of the CSV path. Unlike the event-log check it
      does not strip the text; booleans are only lower-cased; dates and
      date-times are parsed with the extended ISO forms. */
  predicate CsvTokenValid(t: R.DType, s: string) {
    match t
    case Int => IntToken(s)
    case Float => FloatToken(s)
    case Boolean => Lower(s) in BoolWords
    case Date => IsoDate(s)
    case Datetime => IsoDateTime(s)
    case _ => true
  }

  function CsvHit(rec: map<string, string>, col: string, t: R.DType): (h: nat)
    ensures h <= 1
    ensures h == 1 ==> Cell(rec, col).Some?
  {
    match Cell(rec, col)
    case Some(s) => if CsvTokenValid(t, s) then 0 else 1
    case None => 0
  }

  function CsvInvalidCount(records: seq<map<string, string>>, col: string, t: R.DType): (n: nat)
    ensures n <= |records|
  {
    if records == [] then 0
    else CsvInvalidCount(records[..|records| - 1], col, t) + CsvHit(records[|records| - 1], col, t)
  }

  /** `_invalid_token_counts_csv`: for every expected column the header
      holds, the number of non-null cells of the wrong form, zero counts
      included. */
  function InvalidTokenCountsCsv(csv: CsvFile, expected: map<string, R.DType>): (r: map<string, nat>)
    ensures r.Keys == expected.Keys * HeaderColumns(csv)
    ensures forall c :: c in r ==> r[c] <= |csv.records|
  {
    var cols := expected.Keys * HeaderColumns(csv);
    if cols == {} then map[]
    else map c | c in cols :: CsvInvalidCount(csv.records, c, expected[c])
  }

  /** Null cells are never counted. */
  lemma CsvNullCellsNeverCount(records: seq<map<string, string>>, rec: map<string, string>, col: string, t: R.DType)
    requires Cell(rec, col).None?
    ensures CsvInvalidCount(records + [rec], col, t) == CsvInvalidCount(records, col, t)
  {
    assert (records + [rec])[..|records|] == records;
  }

  /** The declared types whose CSV cells are checked. */
  predicate CheckedType(t: R.DType) {
    t.Int? || t.Float? || t.Boolean? || t.Date? || t.Datetime?
  }

  /** A record whose cell under `col` is present and of the wrong form. */
  predicate BadCell(rec: map<string, string>, col: string, t: R.DType) {
    Cell(rec, col).Some? && !CsvTokenValid(t, Cell(rec, col).value)
  }

  /** A CSV column's count is positive exactly when some record holds a
      non-null cell of the wrong form under it. */
  lemma {:induction false} CsvCountWitness(records: seq<map<string, string>>, col: string, t: R.DType)
    ensures CsvInvalidCount(records, col, t) > 0 <==> exists k :: 0 <= k < |records| && BadCell(records[k], col, t)
  {
    if records != [] {
      var init := records[..|records| - 1];
      CsvCountWitness(init, col, t);
      if exists k :: 0 <= k < |init| && BadCell(init[k], col, t) {
        var k :| 0 <= k < |init| && BadCell(init[k], col, t);
        assert records[k] == init[k];
      }
      if exists k :: 0 <= k < |records| && BadCell(records[k], col, t) {
        var k :| 0 <= k < |records| && BadCell(records[k], col, t);
        if k < |init| {
          assert init[k] == records[k];
        }
      }
    }
  }

  /** A column whose declared type is neither integer, float, boolean,
      date nor date-time is never counted. */
  lemma {:induction false} CsvUncheckedTypeCountsZero(records: seq<map<string, string>>, col: string, t: R.DType)
    requires !CheckedType(t)
    ensures CsvInvalidCount(records, col, t) == 0
  {
    if records != [] {
      CsvUncheckedTypeCountsZero(records[..|records| - 1], col, t);
    }
  }

  /** For every expected column in the header, the reported count is
      positive exactly when some record holds a non-null cell of the wrong
      form, and zero for a type the check does not classify. */
  lemma InvalidTokenCountsCsvMeaning(csv: CsvFile, expected: map<string, R.DType>, c: string)
    requires c in expected && c in csv.header
    ensures c in InvalidTokenCountsCsv(csv, expected)
    ensures InvalidTokenCountsCsv(csv, expected)[c] > 0 <==>
              exists k :: 0 <= k < |csv.records| && BadCell(csv.records[k], c, expected[c])
    ensures !CheckedType(expected[c]) ==> InvalidTokenCountsCsv(csv, expected)[c] == 0
  {
    assert c in expected.Keys * HeaderColumns(csv);
    CsvCountWitness(csv.records, c, expected[c]);
    if !CheckedType(expected[c]) {
      CsvUncheckedTypeCountsZero(csv.records, c, expected[c]);
    }
  }

  /** The two paths disagree on padded tokens: any integer token with a
      leading space passes the event-log check but fails the CSV check. */
  lemma PaddedIntDivergence(t: string)
    requires IntToken(t)
    ensures IsIntLike(Str(" " + t))
    ensures !CsvTokenValid(R.Int, " " + t)
  {
    var d := DropSign(t);
    assert d[|d| - 1] == t[|t| - 1];
    assert !IsSpace(t[0]) && !IsSpace(t[|t| - 1]);
    StripUnpadded(t);
    assert " " + t + "" == " " + t;
    StripPadded(" ", t, "");
    assert DropSign(" " + t) == " " + t;
    assert !IsDigit((" " + t)[0]);
  }
}
