/**
 * The CSV import adapter: a base adapter that also remembers the file's
 * first rows and the mapping chosen, and whose `commit!` publishes a
 * payload holding the state reached and the pending txns, then clears them.
 */
module CsvAdapters {
  import opened Wrappers
  import opened Values
  import opened TxnModel
  import opened BaseAdapters

  /** The terminal states a CSV import is committed with. */
  const PROCESSING_FAILED := "processing_failed"
  const FAILED := "failed"
  const ENTER_MAPPING_ID := "enter_mapping_id"
  const ENTER_REQUIRED_OPTIONS := "enter_required_options"
  const UNKNOWN_CSV := "unknown_csv"
  const COMPLETED := "completed"

  const STATES: seq<string> := [PROCESSING_FAILED, FAILED, ENTER_MAPPING_ID, ENTER_REQUIRED_OPTIONS, UNKNOWN_CSV, COMPLETED]

  /** `STATES` lists six states, no two alike. */
  lemma StatesDistinct()
    ensures |STATES| == 6
    ensures forall i, j :: 0 <= i < j < |STATES| ==> STATES[i] != STATES[j]
  {
  }

  /** What `commit!` publishes; `txns` stands for the serialised pending txns, in order. */
  datatype CsvPayload = CsvPayload(
    id: Value,
    csvImportId: Value,
    startedAt: int,
    finishedAt: int,
    initialRows: Value,
    state: string,
    txns: seq<Txn>,
    error: Value,
    requiredOptions: Option<seq<string>>,
    potentialMappers: Option<seq<string>>,
    mappingId: Value,
    results: Value,
    exception: Value)

  /** The optional keyword arguments of `commit!`; each defaults to nil. */
  datatype CommitOptions = CommitOptions(
    error: Value,
    requiredOptions: Option<seq<string>>,
    mappers: Option<seq<string>>,
    results: Value,
    exception: Value)

  const NO_OPTIONS := CommitOptions(Nil, None, None, Nil, Nil)

  class CsvAdapter {
    /** The base adapter this one extends; it never marks txns synced. */
    const base: BaseAdapter
    const csvImportId: Value
    /** `@initial_rows`, nil until set. */
    var initialRows: Value
    /** `@mapping_id`, nil until set. */
    var mappingId: Value

    predicate Valid()
      reads this, base
    {
      base.Valid() && !base.marksSynced
    }

    /** `initialize(options)`: the base adapter's settings plus `csv_import_id`. */
    constructor (options: map<string, Value>, now: int, testEnv: bool, env: TxnEnv, toDateTime: Value -> Option<int>)
      ensures Valid() && fresh(base)
      ensures base.pendingTxns == [] && base.uniqHashes == map[]
      ensures base.requestId == Get(options, "request_id") && base.initializedAt == now
      ensures csvImportId == Get(options, "csv_import_id")
      ensures initialRows == Nil && mappingId == Nil
    {
      base := new BaseAdapter(options, now, testEnv, false, env, toDateTime);
      csvImportId := Get(options, "csv_import_id");
      initialRows := Nil;
      mappingId := Nil;
    }

    method SetInitialRows(rows: Value)
      modifies this
      ensures initialRows == rows && mappingId == old(mappingId)
    {
      initialRows := rows;
    }

    method SetMappingId(id: Value)
      modifies this
      ensures mappingId == id && initialRows == old(initialRows)
    {
      mappingId := id;
    }

    /**
     * `commit!(state, ...)`: publishes the payload (the state as given, the
     * pending txns in order, the last rows and mapping set, the options as
     * passed) and returns it; the pending list is then empty while the
     * recorded hashes stay, so a later sync of the same txn is still dropped.
     */
    method Commit(state: string, opts: CommitOptions, now: int) returns (payload: CsvPayload)
      requires Valid()
      modifies base
      ensures Valid()
      ensures payload == CsvPayload(base.requestId, csvImportId, base.initializedAt, now, initialRows, state,
                                    old(base.pendingTxns), opts.error, opts.requiredOptions, opts.mappers,
                                    mappingId, opts.results, opts.exception)
      ensures base.pendingTxns == [] && base.uniqHashes == old(base.uniqHashes)
      ensures base.hardStartDate == old(base.hardStartDate) && base.softStartDate == old(base.softStartDate)
    {
      var txns := base.ClearPending();
      payload := CsvPayload(base.requestId, csvImportId, base.initializedAt, now, initialRows, state,
                            txns, opts.error, opts.requiredOptions, opts.mappers,
                            mappingId, opts.results, opts.exception);
    }
  }
}
