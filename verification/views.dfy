/**
 * The dataset view set: the upload handler (`create`), which summarises the
 * parsed rows, stores the dataset and prunes the table to the latest five as
 * intended (the store call as written fails; see README), and the listing
 * query (`get_queryset`).
 */
module Views {
  import opened Wrappers
  import opened Rows
  import opened Stats
  import opened Tally
  import opened Models

  /** How many datasets the upload handler and the listing keep. */
  const KeepLatest: nat := 5

  /**
   * The summary computed at upload time: the row count, per parameter the
   * average, minimum and maximum of the non-blank values (all 0 when there is
   * none), and the per-type counts with "Unknown" for rows without a Type.
   */
  datatype UploadSummary = UploadSummary(
    totalEquipment: nat,
    flowrate: ParamStats,
    pressure: ParamStats,
    temperature: ParamStats,
    equipmentTypes: map<string, nat>)
  {
    function Statistics(p: Param): ParamStats {
      match p
      case Flowrate => flowrate
      case Pressure => pressure
      case Temperature => temperature
    }
  }

  /** `sum(xs) / len(xs) if xs else 0`, `min(xs) if xs else 0`, `max(xs) if xs else 0`. */
  function StatsOrZero(xs: seq<real>): ParamStats {
    if xs == [] then ParamStats(0.0, 0.0, 0.0) else StatsOf(xs)
  }

  function UploadSummaryOf(rows: seq<Row>): UploadSummary {
    UploadSummary(
      |rows|,
      StatsOrZero(Values(rows, Flowrate)),
      StatsOrZero(Values(rows, Pressure)),
      StatsOrZero(Values(rows, Temperature)),
      Histogram(TypeKeys(rows)))
  }

  /**
   * The upload summary counts every row, blank cells included; a parameter
   * that no row has gets 0 for average, minimum and maximum, and otherwise
   * its statistics describe its column.
   */
  lemma UploadStatistics(rows: seq<Row>, p: Param)
    ensures UploadSummaryOf(rows).totalEquipment == |rows|
    ensures (forall i :: 0 <= i < |rows| ==> Field(rows[i], p).None?) ==> UploadSummaryOf(rows).Statistics(p) == ParamStats(0.0, 0.0, 0.0)
    ensures (exists i :: 0 <= i < |rows| && Field(rows[i], p).Some?) ==> DescribesColumn(rows, p, UploadSummaryOf(rows).Statistics(p))
  {
    NoValues(rows, p);
    assert UploadSummaryOf(rows).Statistics(p) == StatsOrZero(Values(rows, p)) by {
      match p
      case Flowrate =>
      case Pressure =>
      case Temperature =>
    }
    if Values(rows, p) != [] {
      StatsDescribeColumn(rows, p);
    }
  }

  /**
   * The upload type counts have a key exactly for each row's Type ("Unknown"
   * when it has none), each count is the number of rows with that key, and
   * the counts add up to the number of rows.
   */
  lemma UploadTypeCounts(rows: seq<Row>)
    ensures var h := UploadSummaryOf(rows).equipmentTypes;
      && (forall t :: t in h <==> exists i :: 0 <= i < |rows| && TypeKey(rows[i]) == t)
      && (forall t :: t in h ==> h[t] == multiset(TypeKeys(rows))[t] >= 1)
      && MapSum(h) == |rows|
  {
    var keys := TypeKeys(rows);
    assert UploadSummaryOf(rows).equipmentTypes == Histogram(keys);
    HistogramTotal(keys);
    HistogramCounts(keys);
    TypeKeysOccur(rows);
  }

  /** A string is an upload key exactly when it is the key of some row. */
  lemma TypeKeysOccur(rows: seq<Row>)
    ensures forall t :: t in TypeKeys(rows) <==> exists i :: 0 <= i < |rows| && TypeKey(rows[i]) == t
  {
    var keys := TypeKeys(rows);
    forall t ensures t in keys <==> exists i :: 0 <= i < |rows| && TypeKey(rows[i]) == t {
      if t in keys {
        var i :| 0 <= i < |keys| && keys[i] == t;
      }
    }
  }

  /** The `type_counts` loop: one increment per row, keyed by its Type or "Unknown". */
  method CountTypes(rows: seq<Row>) returns (typeCounts: map<string, nat>)
    ensures typeCounts == Histogram(TypeKeys(rows))
    ensures MapSum(typeCounts) == |rows|
  {
    typeCounts := map[];
    ghost var keys := TypeKeys(rows);
    for i := 0 to |rows|
      invariant typeCounts == Histogram(keys[..i])
    {
      var eqType := TypeKey(rows[i]);
      typeCounts := typeCounts[eqType := (if eqType in typeCounts then typeCounts[eqType] else 0) + 1];
      HistogramStep(keys, i);
    }
    assert keys[..|rows|] == keys;
    HistogramTotal(keys);
  }

  /**
   * Where the two summaries of the same non-empty rows meet: the same count;
   * per parameter with values, the same statistics; per parameter without,
   * zeros at upload and NaN on demand; and, when every row has a Type, the
   * same type counts.
   */
  lemma UploadAgreesWithSummary(rows: seq<Row>)
    requires rows != []
    ensures GetSummary(Some(rows)).Summary?
    ensures UploadSummaryOf(rows).totalEquipment == GetSummary(Some(rows)).totalCount
    ensures forall p: Param :: GetSummary(Some(rows)).Statistics(p) ==
                               (if Values(rows, p) == [] then None else Some(UploadSummaryOf(rows).Statistics(p)))
    ensures (forall i :: 0 <= i < |rows| ==> rows[i].kind.Some?) ==>
      UploadSummaryOf(rows).equipmentTypes == GetSummary(Some(rows)).equipmentTypes
  {
    forall p: Param ensures GetSummary(Some(rows)).Statistics(p) ==
      if Values(rows, p) == [] then None else Some(UploadSummaryOf(rows).Statistics(p))
    {
      SummaryColumn(rows, p);
      assert UploadSummaryOf(rows).Statistics(p) == StatsOrZero(Values(rows, p)) by {
        match p
        case Flowrate =>
        case Pressure =>
        case Temperature =>
      }
    }
    if forall i :: 0 <= i < |rows| ==> rows[i].kind.Some? {
      TypeKeysWhenTyped(rows);
    }
  }

  /** The upload summary does not depend on the order of the rows. */
  lemma UploadSummaryOrderIndependent(a: seq<Row>, b: seq<Row>)
    requires multiset(a) == multiset(b)
    ensures UploadSummaryOf(a) == UploadSummaryOf(b)
  {
    assert |a| == |multiset(a)| == |multiset(b)| == |b|;
    TypeKeysPermutation(a, b);
    HistogramPermutation(TypeKeys(a), TypeKeys(b));
    forall p: Param ensures StatsOrZero(Values(a, p)) == StatsOrZero(Values(b, p)) {
      var xa, xb := Values(a, p), Values(b, p);
      FilterMapPermutation(a, b, (r: Row) => Field(r, p));
      assert |xa| == |multiset(xa)| == |multiset(xb)| == |xb|;
      if xa != [] {
        StatsPermutation(xa, xb);
      }
    }
  }

  // ---------------------------------------------------------------------------
  // The upload handler

  /** An uploaded file: its name and the outcome of decoding and parsing it into rows. */
  datatype Upload = Upload(name: string, parsed: Result<seq<Row>, string>)

  /** The upload handler's errors, each answered with status 400. */
  datatype CreateError = NoFileProvided | EmptyCsvFile | ProcessingError(message: string)

  function ErrorMessage(e: CreateError): string {
    match e
    case NoFileProvided => "No file provided"
    case EmptyCsvFile => "Empty CSV file"
    case ProcessingError(m) => m
  }

  /** A successful upload: the stored dataset and its upload summary (answered with status 201). */
  datatype Created = Created(dataset: Entry, summary: UploadSummary)

  /**
   * `DatasetViewSet.create`. Without a file, with a file that fails to parse,
   * or with no data rows, it answers an error and stores nothing. Otherwise, as
   * intended (the store call as written fails; see README), it stores the rows
   * as the newest dataset and deletes every dataset beyond the latest five,
   * whoever owns them.
   */
  method Create(store: DatasetStore, owner: Option<UserId>, upload: Option<Upload>)
    returns (r: Result<Created, CreateError>)
    requires store.Valid()
    modifies store
    ensures store.Valid()
    ensures upload.None? ==> r == Failure(NoFileProvided) && unchanged(store)
    ensures upload.Some? && upload.value.parsed.Failure? ==>
      r == Failure(ProcessingError(upload.value.parsed.error)) && unchanged(store)
    ensures upload.Some? && upload.value.parsed == Success([]) ==> r == Failure(EmptyCsvFile) && unchanged(store)
    ensures r.Success? <==> upload.Some? && upload.value.parsed.Success? && upload.value.parsed.value != []
    ensures upload.None? ==> ErrorMessage(r.error) == "No file provided"
    ensures upload.Some? && upload.value.parsed == Success([]) ==> ErrorMessage(r.error) == "Empty CSV file"
    ensures r.Success? ==>
      var rows := upload.value.parsed.value;
      && r.value.summary == UploadSummaryOf(rows)
      && r.value.dataset == Entry(old(store.nextId), owner, upload.value.name, old(store.clock), Some(rows))
      && store.entries == Take([r.value.dataset] + old(store.entries), KeepLatest)
      && store.nextId == old(store.nextId) + 1 && store.clock == old(store.clock) + 1
  {
    if upload.None? {
      return Failure(NoFileProvided);
    }
    var file := upload.value;
    if file.parsed.Failure? {
      return Failure(ProcessingError(file.parsed.error));
    }
    var data := file.parsed.value;
    if data == [] {
      return Failure(EmptyCsvFile);
    }

    var typeCounts := CountTypes(data);
    var summary := UploadSummary(
      |data|,
      StatsOrZero(Values(data, Flowrate)),
      StatsOrZero(Values(data, Pressure)),
      StatsOrZero(Values(data, Temperature)),
      typeCounts);

    var dataset := store.Insert(owner, file.name, Some(data));

    ghost var start := store.entries;
    var oldDatasets := Drop(store.entries, KeepLatest);
    WithoutNoIds(start);
    assert IdsOf(oldDatasets[..0]) == {};
    var i := 0;
    while i < |oldDatasets|
      invariant 0 <= i <= |oldDatasets|
      invariant store.Valid()
      invariant store.entries == WithoutIds(start, IdsOf(oldDatasets[..i]))
      invariant store.nextId == old(store.nextId) + 1 && store.clock == old(store.clock) + 1
    {
      store.Delete(oldDatasets[i].id);
      DatasetStore.IdsOfExtend(oldDatasets, i);
      WithoutIdsTwice(start, IdsOf(oldDatasets[..i]), {oldDatasets[i].id});
      i := i + 1;
    }
    assert oldDatasets[..i] == oldDatasets;
    PruneIsTake(start, KeepLatest);

    r := Success(Created(dataset, summary));
  }

  // ---------------------------------------------------------------------------
  // Listing

  /**
   * `get_queryset`: the latest five datasets of the whole table, newest
   * first; every dataset left out is older than every one listed.
   */
  function Queryset(store: DatasetStore): (r: seq<Entry>)
    reads store
    requires store.Valid()
    ensures |r| == if |store.entries| < KeepLatest then |store.entries| else KeepLatest
    ensures forall i :: 0 <= i < |r| ==> r[i] == store.entries[i]
    ensures forall i, j :: 0 <= i < j < |r| ==> r[j].uploadedAt < r[i].uploadedAt
    ensures forall i, j :: 0 <= i < |r| <= j < |store.entries| ==> store.entries[j].uploadedAt < r[i].uploadedAt
  {
    Take(store.entries, KeepLatest)
  }
}
