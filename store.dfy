/** The vault's database (src/db/metrics.ts, sleep.ts, workouts.ts,
    importLog.ts): three upsert tables with their UNIQUE keys, the append-only
    sync log and the import ledger keyed by file hash. */
module Store {
  import opened Wrappers
  import opened Tables
  import opened MetricParse
  import opened SleepParse
  import opened WorkoutParse

  /** UNIQUE(ts, metric, source, target) of `metrics`. */
  datatype MetricKey = MetricKey(ts: string, metric: string, source: string, target: string)
  /** UNIQUE(date, source, target) of `sleep`. */
  datatype SleepKey = SleepKey(date: string, source: string, target: string)
  /** UNIQUE(ts, name, target) of `workouts`. */
  datatype WorkoutKey = WorkoutKey(ts: string, name: string, target: string)

  /** A metric row's key; a NULL source leaves it without one. */
  function MetricKeyOf(row: NormalizedMetric): (k: Option<MetricKey>)
    ensures k.Some? <==> row.source.Some?
    ensures k.Some? ==> k.value.ts == row.ts && k.value.metric == row.metric
                        && k.value.source == row.source.value && k.value.target == row.target
  {
    if row.source.Some? then Some(MetricKey(row.ts, row.metric, row.source.value, row.target)) else None
  }

  /** A sleep row's key; a NULL source leaves it without one. */
  function SleepKeyOf(row: NormalizedSleep): (k: Option<SleepKey>)
    ensures k.Some? <==> row.source.Some?
    ensures k.Some? ==> k.value.date == row.date && k.value.source == row.source.value
                        && k.value.target == row.target
  {
    if row.source.Some? then Some(SleepKey(row.date, row.source.value, row.target)) else None
  }

  /** A workout row's key: its columns are never NULL. */
  function WorkoutKeyOf(row: NormalizedWorkout): (k: Option<WorkoutKey>)
    ensures k == Some(WorkoutKey(row.ts, row.name, row.target))
  {
    Some(WorkoutKey(row.ts, row.name, row.target))
  }

  /** A row of `sync_log`. */
  datatype SyncEntry = SyncEntry(
    receivedAt: string, target: string, sessionId: Option<string>,
    metricsCount: nat, workoutsCount: nat,
    automationName: Option<string>, automationPeriod: Option<string>)

  /** The counts `ingest` returns. */
  datatype IngestResult = IngestResult(metricsAdded: nat, sleepAdded: nat, workoutsAdded: nat)

  /** A row of `import_log`. */
  datatype ImportEntry = ImportEntry(
    filename: string, importedAt: string,
    metricsAdded: nat, sleepAdded: nat, workoutsAdded: nat)

  /** `import_log`, by file hash. */
  type Ledger = map<string, ImportEntry>

  /** INSERT OR IGNORE into the ledger: the first entry for a hash stays. */
  function LogImportEntry(ledger: Ledger, filename: string, hash: string, result: IngestResult, importedAt: string)
    : (l: Ledger)
    ensures hash in l
    ensures hash in ledger ==> l == ledger
    ensures hash !in ledger ==>
      && l[hash] == ImportEntry(filename, importedAt, result.metricsAdded, result.sleepAdded, result.workoutsAdded)
      && |l| == |ledger| + 1
    ensures forall h :: h != hash ==> (h in l <==> h in ledger)
    ensures forall h :: h in ledger ==> h in l && l[h] == ledger[h]
  {
    if hash in ledger then ledger
    else ledger[hash := ImportEntry(filename, importedAt, result.metricsAdded, result.sleepAdded, result.workoutsAdded)]
  }

  /** Logging the same hash again, whatever the filename and counts, leaves
      the first entry. */
  lemma LogImportTwice(ledger: Ledger, f1: string, f2: string, hash: string,
                       r1: IngestResult, r2: IngestResult, t1: string, t2: string)
    ensures var once := LogImportEntry(ledger, f1, hash, r1, t1);
      LogImportEntry(once, f2, hash, r2, t2) == once
  {
  }

  /** The whole database as a value. */
  datatype StoreState = StoreState(
    metrics: Table<MetricKey, NormalizedMetric>,
    sleep: Table<SleepKey, NormalizedSleep>,
    workouts: Table<WorkoutKey, NormalizedWorkout>,
    syncLog: seq<SyncEntry>,
    importLog: Ledger)

  function EmptyStore(): StoreState {
    StoreState(EmptyTable(), EmptyTable(), EmptyTable(), [], map[])
  }

  class Vault {
    var metrics: Table<MetricKey, NormalizedMetric>
    var sleep: Table<SleepKey, NormalizedSleep>
    var workouts: Table<WorkoutKey, NormalizedWorkout>
    var syncLog: seq<SyncEntry>
    var importLog: Ledger

    function State(): StoreState
      reads this
    {
      StoreState(metrics, sleep, workouts, syncLog, importLog)
    }

    /** A freshly created database. */
    constructor()
      ensures State() == EmptyStore()
    {
      metrics := EmptyTable();
      sleep := EmptyTable();
      workouts := EmptyTable();
      syncLog := [];
      importLog := map[];
    }

    /** `upsertMetrics`: the rows in order inside one transaction. A statement
        that fails (`failAt`, the index of the failing row, stands for a
        storage error) rolls the whole batch back. */
    method UpsertMetrics(rows: seq<NormalizedMetric>, failAt: Option<nat>) returns (committed: bool)
      modifies this
      ensures committed <==> failAt.None? || failAt.value >= |rows|
      ensures committed ==> metrics == ReplaceAll(old(metrics), rows, MetricKeyOf)
      ensures !committed ==> metrics == old(metrics)
      ensures sleep == old(sleep) && workouts == old(workouts)
      ensures syncLog == old(syncLog) && importLog == old(importLog)
    {
      var saved := metrics;
      var i := 0;
      while i < |rows|
        invariant 0 <= i <= |rows|
        invariant failAt.Some? ==> i <= failAt.value
        invariant metrics == ReplaceAll(saved, rows[..i], MetricKeyOf)
        invariant sleep == old(sleep) && workouts == old(workouts)
        invariant syncLog == old(syncLog) && importLog == old(importLog)
      {
        if failAt == Some(i) {
          metrics := saved;
          return false;
        }
        assert rows[..i + 1][..i] == rows[..i];
        metrics := Replace(metrics, MetricKeyOf(rows[i]), rows[i]);
        i := i + 1;
      }
      assert rows[..i] == rows;
      return true;
    }

    /** `upsertSleep`. */
    method UpsertSleep(row: NormalizedSleep)
      modifies this
      ensures sleep == Replace(old(sleep), SleepKeyOf(row), row)
      ensures metrics == old(metrics) && workouts == old(workouts)
      ensures syncLog == old(syncLog) && importLog == old(importLog)
    {
      sleep := Replace(sleep, SleepKeyOf(row), row);
    }

    /** `upsertWorkout`. */
    method UpsertWorkout(row: NormalizedWorkout)
      modifies this
      ensures workouts == Replace(old(workouts), WorkoutKeyOf(row), row)
      ensures metrics == old(metrics) && sleep == old(sleep)
      ensures syncLog == old(syncLog) && importLog == old(importLog)
    {
      workouts := Replace(workouts, WorkoutKeyOf(row), row);
    }

    /** The INSERT into `sync_log`. */
    method AppendSync(entry: SyncEntry)
      modifies this
      ensures syncLog == old(syncLog) + [entry]
      ensures metrics == old(metrics) && sleep == old(sleep) && workouts == old(workouts)
      ensures importLog == old(importLog)
    {
      syncLog := syncLog + [entry];
    }

    /** `hasBeenImported`: a read-only lookup by hash. */
    predicate HasBeenImported(hash: string)
      reads this
    {
      hash in importLog
    }

    /** `logImport`. */
    method LogImport(filename: string, hash: string, result: IngestResult, importedAt: string)
      modifies this
      ensures importLog == LogImportEntry(old(importLog), filename, hash, result, importedAt)
      ensures HasBeenImported(hash)
      ensures metrics == old(metrics) && sleep == old(sleep) && workouts == old(workouts)
      ensures syncLog == old(syncLog)
    {
      importLog := LogImportEntry(importLog, filename, hash, result, importedAt);
    }
  }

  /** A newer-aggregate sleep row always has a source, so delivering it again
      replaces it instead of adding a row. */
  lemma V2SleepRowsAreKeyed(dp: HaeTypes.RawRecord, target: string, sessionId: Option<string>)
    requires NormalizeSleep(dp, target, sessionId).Ok?
    requires DetectSleepVariant(dp) == AggregatedV2
    ensures SleepKeyOf(NormalizeSleep(dp, target, sessionId).value).Some?
  {
    assert NormalizeSleep(dp, target, sessionId) == AggregatedV2Row(dp, target, sessionId);
  }

  /** An older-aggregate record without `sleepSource` gives a row with no key,
      so every delivery of it adds a row. */
  lemma V1SleepWithoutSourceAlwaysAdds(dp: HaeTypes.RawRecord, target: string, sessionId: Option<string>,
                                        t: Table<SleepKey, NormalizedSleep>)
    requires NormalizeSleep(dp, target, sessionId).Ok?
    requires DetectSleepVariant(dp) == AggregatedV1 && dp.sleepSource.None?
    ensures var row := NormalizeSleep(dp, target, sessionId).value;
      Size(Replace(t, SleepKeyOf(row), row)) == Size(t) + 1
  {
    assert NormalizeSleep(dp, target, sessionId) == AggregatedV1Row(dp, target, sessionId);
  }
}
