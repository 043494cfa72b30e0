/** The dataset contract registry: each dataset's name, storage kind, raw
    location, expected raw schema, expected flat columns and new-column
    policy, and the three datasets of the pipeline. */
module Registry {

  /** The semantic type of a column. `Int` stands for the whole polars
      integer family Int8 .. UInt64, `Float` for Float32 and Float64;
      `Other` is any type the validators do not check (a List, say). */
  datatype DType =
    | Int
    | Float
    | Boolean
    | Date
    | Datetime
    | Utf8
    | Struct(fields: seq<Field>)
    | Other(name: string)

  datatype Field = Field(name: string, dtype: DType)

  /** A dataset contract. Datatype values are immutable, like the frozen
      dataclass they model; the new-column policy defaults to allowing. */
  datatype DatasetSpec = DatasetSpec(
    name: string,
    kind: string,
    rawPath: string,
    rawSchema: map<string, DType>,
    flatExpectedCols: seq<string>,
    allowNewColumns: bool := true)

  /** The kind whose raw file is a CSV table. */
  const PaysKind: string := "pays"
  /** The kind whose raw file is newline-delimited JSON with a nested record. */
  const EventsKind: string := "events"
  /** The nested-record column of an event log. */
  const EventData: string := "event_data"

  const EventStruct: DType := Struct([Field("position", Int), Field("value_prop", Utf8)])

  const PaysRawSchema: map<string, DType> :=
    map["pay_date" := Date, "total" := Float, "user_id" := Int, "value_prop" := Utf8]

  const EventsRawSchema: map<string, DType> :=
    map["day" := Date, EventData := EventStruct, "user_id" := Int]

  const EventsFlatCols: seq<string> := ["day", "position", "value_prop", "user_id"]

  function FieldNames(fields: seq<Field>): (names: seq<string>)
    ensures |names| == |fields|
    ensures forall i :: 0 <= i < |fields| ==> names[i] == fields[i].name
  {
    if fields == [] then [] else [fields[0].name] + FieldNames(fields[1..])
  }

  /** The registered datasets, in the order a run processes them; the raw
      files live under `rawDataDir`, which the environment configures. */
  function Datasets(rawDataDir: string): seq<(string, DatasetSpec)>
  {
    [ ("pays", DatasetSpec("pays", PaysKind, rawDataDir + "/pays.csv",
                           PaysRawSchema, [], true)),
      ("taps", DatasetSpec("taps", EventsKind, rawDataDir + "/taps.json",
                           EventsRawSchema, EventsFlatCols, true)),
      ("prints", DatasetSpec("prints", EventsKind, rawDataDir + "/prints.json",
                             EventsRawSchema, EventsFlatCols, true)) ]
  }

  /** The registry is a dictionary: no name is registered twice. */
  predicate DistinctNames(ds: seq<(string, DatasetSpec)>) {
    forall i, j :: 0 <= i < j < |ds| ==> ds[i].0 != ds[j].0
  }

  lemma DefaultAllowsNewColumns(name: string, kind: string, path: string,
                                schema: map<string, DType>, flat: seq<string>)
    ensures DatasetSpec(name, kind, path, schema, flat).allowNewColumns
  {
  }

  lemma RegistryKeysAreNames(rawDataDir: string)
    ensures DistinctNames(Datasets(rawDataDir))
    ensures forall i :: 0 <= i < |Datasets(rawDataDir)| ==>
              Datasets(rawDataDir)[i].0 == Datasets(rawDataDir)[i].1.name
  {
  }

  lemma PaysIsTheOnlyTable(rawDataDir: string)
    ensures forall i :: 0 <= i < |Datasets(rawDataDir)| ==>
              (Datasets(rawDataDir)[i].1.kind != EventsKind <==> Datasets(rawDataDir)[i].0 == "pays")
    ensures Datasets(rawDataDir)[0].1.flatExpectedCols == []
  {
  }

  lemma EventDatasetsShareContract(rawDataDir: string)
    ensures forall i :: 0 <= i < |Datasets(rawDataDir)| && Datasets(rawDataDir)[i].1.kind == EventsKind ==>
              Datasets(rawDataDir)[i].1.rawSchema == EventsRawSchema
              && Datasets(rawDataDir)[i].1.flatExpectedCols == EventsFlatCols
  {
  }

  lemma EveryDatasetAllowsNewColumns(rawDataDir: string)
    ensures forall i :: 0 <= i < |Datasets(rawDataDir)| ==> Datasets(rawDataDir)[i].1.allowNewColumns
  {
  }

  /** The flat event columns are the raw event columns with the nested
      record replaced by its fields. */
  lemma EventsFlatColsAreUnnestedRawCols()
    ensures EventStruct.Struct?
    ensures (set c | c in EventsFlatCols) ==
            (EventsRawSchema.Keys - {EventData}) + (set f | f in FieldNames(EventStruct.fields))
  {
    var names := FieldNames(EventStruct.fields);
    assert names == ["position", "value_prop"];
    assert EventsRawSchema.Keys == {"day", EventData, "user_id"};
  }
}
