/** `ingest` (src/server/ingest.ts): route every metric entry to the sleep or
    the metric normaliser, every workout to the workout normaliser, upsert as
    it goes, count, and append one sync-log row at the end. Nothing wraps the
    call in a transaction, so a normaliser error leaves the upserts made
    before it in place and appends no sync-log row. */
module Ingest {
  import opened Wrappers
  import opened HaeTypes
  import opened HaeTime
  import opened Tables
  import opened MetricParse
  import opened SleepParse
  import opened WorkoutParse
  import opened Store

  datatype IngestOptions = IngestOptions(
    target: string, sessionId: Option<string>,
    automationName: Option<string>, automationPeriod: Option<string>)

  /** The three normalisers `ingest` calls. The run is defined for any such
      triple, so that its proofs do not depend on how rows are built;
      `Standard` is the triple of this model. */
  datatype Normalizers = Normalizers(
    metric: (MetricEntry, string, Option<string>) -> Result<seq<NormalizedMetric>, TimestampError>,
    sleep: (RawRecord, string, Option<string>) -> Result<NormalizedSleep, TimestampError>,
    workout: (Workout, string, Option<string>) -> Result<NormalizedWorkout, TimestampError>)

  function Standard(): Normalizers {
    Normalizers(ParseMetric, NormalizeSleep, ParseWorkout)
  }

  /** How far a run has got: the store, the three counters, and the error
      that stopped it, if any. */
  datatype Progress = Progress(store: StoreState, counts: IngestResult, failure: Option<TimestampError>)

  // ---- the run, one record at a time ----

  function SleepStep(n: Normalizers, p: Progress, dp: RawRecord, opts: IngestOptions): Progress {
    if p.failure.Some? then p
    else
      match n.sleep(dp, opts.target, opts.sessionId)
      case Err(e) => p.(failure := Some(e))
      case Ok(row) =>
        p.(store := p.store.(sleep := Replace(p.store.sleep, SleepKeyOf(row), row)),
           counts := p.counts.(sleepAdded := p.counts.sleepAdded + 1))
  }

  function SleepRun(n: Normalizers, p: Progress, dps: seq<RawRecord>, opts: IngestOptions): Progress {
    if |dps| == 0 then p
    else SleepStep(n, SleepRun(n, p, dps[..|dps| - 1], opts), dps[|dps| - 1], opts)
  }

  function MetricStep(n: Normalizers, p: Progress, m: MetricEntry, opts: IngestOptions): Progress {
    if p.failure.Some? then p
    else if m.name == SleepMetricName then SleepRun(n, p, m.data, opts)
    else
      match n.metric(m, opts.target, opts.sessionId)
      case Err(e) => p.(failure := Some(e))
      case Ok(rows) =>
        p.(store := p.store.(metrics := ReplaceAll(p.store.metrics, rows, MetricKeyOf)),
           counts := p.counts.(metricsAdded := p.counts.metricsAdded + |rows|))
  }

  function MetricRun(n: Normalizers, p: Progress, ms: seq<MetricEntry>, opts: IngestOptions): Progress {
    if |ms| == 0 then p
    else MetricStep(n, MetricRun(n, p, ms[..|ms| - 1], opts), ms[|ms| - 1], opts)
  }

  function WorkoutStep(n: Normalizers, p: Progress, w: Workout, opts: IngestOptions): Progress {
    if p.failure.Some? then p
    else
      match n.workout(w, opts.target, opts.sessionId)
      case Err(e) => p.(failure := Some(e))
      case Ok(row) =>
        p.(store := p.store.(workouts := Replace(p.store.workouts, WorkoutKeyOf(row), row)),
           counts := p.counts.(workoutsAdded := p.counts.workoutsAdded + 1))
  }

  function WorkoutRun(n: Normalizers, p: Progress, ws: seq<Workout>, opts: IngestOptions): Progress {
    if |ws| == 0 then p
    else WorkoutStep(n, WorkoutRun(n, p, ws[..|ws| - 1], opts), ws[|ws| - 1], opts)
  }

  function NoCounts(): IngestResult {
    IngestResult(0, 0, 0)
  }

  /** The run over a whole payload, before the sync-log row. */
  function Run(n: Normalizers, s: StoreState, payload: HaePayload, opts: IngestOptions): Progress {
    var afterMetrics := MetricRun(n, Progress(s, NoCounts(), None), payload.data.metrics.GetOr([]), opts);
    WorkoutRun(n, afterMetrics, payload.data.workouts.GetOr([]), opts)
  }

  function SyncEntryFor(counts: IngestResult, opts: IngestOptions, receivedAt: string): SyncEntry {
    SyncEntry(receivedAt, opts.target, opts.sessionId, counts.metricsAdded, counts.workoutsAdded,
              opts.automationName, opts.automationPeriod)
  }

  /** The store after `ingest`, and what it returns or throws. */
  function IngestWith(n: Normalizers, s: StoreState, payload: HaePayload, opts: IngestOptions, receivedAt: string)
    : (StoreState, Result<IngestResult, TimestampError>)
  {
    var p := Run(n, s, payload, opts);
    if p.failure.Some? then (p.store, Err(p.failure.value))
    else (p.store.(syncLog := p.store.syncLog + [SyncEntryFor(p.counts, opts, receivedAt)]), Ok(p.counts))
  }

  /** `ingest` with this model's normalisers. */
  function IngestSpec(s: StoreState, payload: HaePayload, opts: IngestOptions, receivedAt: string)
    : (StoreState, Result<IngestResult, TimestampError>)
  {
    IngestWith(Standard(), s, payload, opts, receivedAt)
  }

  // ---- a stopped run stays stopped ----

  lemma {:induction false} SleepRunStopped(n: Normalizers, p: Progress, dps: seq<RawRecord>, opts: IngestOptions)
    requires p.failure.Some?
    ensures SleepRun(n, p, dps, opts) == p
  {
    if |dps| > 0 {
      SleepRunStopped(n, p, dps[..|dps| - 1], opts);
    }
  }

  lemma {:induction false} MetricRunStopped(n: Normalizers, p: Progress, ms: seq<MetricEntry>, opts: IngestOptions)
    requires p.failure.Some?
    ensures MetricRun(n, p, ms, opts) == p
  {
    if |ms| > 0 {
      MetricRunStopped(n, p, ms[..|ms| - 1], opts);
    }
  }

  lemma {:induction false} WorkoutRunStopped(n: Normalizers, p: Progress, ws: seq<Workout>, opts: IngestOptions)
    requires p.failure.Some?
    ensures WorkoutRun(n, p, ws, opts) == p
  {
    if |ws| > 0 {
      WorkoutRunStopped(n, p, ws[..|ws| - 1], opts);
    }
  }

  /** A run that stops on element `k` of a list ends where it stopped. */
  lemma {:induction false} SleepRunStopsAt(n: Normalizers, p: Progress, dps: seq<RawRecord>, k: int, opts: IngestOptions)
    requires 0 <= k < |dps| && SleepRun(n, p, dps[..k + 1], opts).failure.Some?
    ensures SleepRun(n, p, dps, opts) == SleepRun(n, p, dps[..k + 1], opts)
    decreases |dps|
  {
    if |dps| > k + 1 {
      var front := dps[..|dps| - 1];
      assert front[..k + 1] == dps[..k + 1];
      SleepRunStopsAt(n, p, front, k, opts);
    } else {
      assert dps[..k + 1] == dps;
    }
  }

  lemma {:induction false} MetricRunStopsAt(n: Normalizers, p: Progress, ms: seq<MetricEntry>, k: int, opts: IngestOptions)
    requires 0 <= k < |ms| && MetricRun(n, p, ms[..k + 1], opts).failure.Some?
    ensures MetricRun(n, p, ms, opts) == MetricRun(n, p, ms[..k + 1], opts)
    decreases |ms|
  {
    if |ms| > k + 1 {
      var front := ms[..|ms| - 1];
      assert front[..k + 1] == ms[..k + 1];
      MetricRunStopsAt(n, p, front, k, opts);
    } else {
      assert ms[..k + 1] == ms;
    }
  }

  lemma {:induction false} WorkoutRunStopsAt(n: Normalizers, p: Progress, ws: seq<Workout>, k: int, opts: IngestOptions)
    requires 0 <= k < |ws| && WorkoutRun(n, p, ws[..k + 1], opts).failure.Some?
    ensures WorkoutRun(n, p, ws, opts) == WorkoutRun(n, p, ws[..k + 1], opts)
    decreases |ws|
  {
    if |ws| > k + 1 {
      var front := ws[..|ws| - 1];
      assert front[..k + 1] == ws[..k + 1];
      WorkoutRunStopsAt(n, p, front, k, opts);
    } else {
      assert ws[..k + 1] == ws;
    }
  }

  // ---- what a run does ----

  /** The rows a list of sleep records produces, in order. */
  function SleepRowsOf(n: Normalizers, dps: seq<RawRecord>, opts: IngestOptions): seq<NormalizedSleep> {
    if |dps| == 0 then []
    else
      SleepRowsOf(n, dps[..|dps| - 1], opts)
      + match n.sleep(dps[|dps| - 1], opts.target, opts.sessionId) case Ok(row) => [row] case Err(_) => []
  }

  /** The sleep rows of all `sleep_analysis` entries, in order. */
  function SleepRowsOfEntries(n: Normalizers, ms: seq<MetricEntry>, opts: IngestOptions): seq<NormalizedSleep> {
    if |ms| == 0 then []
    else
      SleepRowsOfEntries(n, ms[..|ms| - 1], opts)
      + if ms[|ms| - 1].name == SleepMetricName then SleepRowsOf(n, ms[|ms| - 1].data, opts) else []
  }

  /** The metric rows of all other entries, in order. */
  function MetricRowsOf(n: Normalizers, ms: seq<MetricEntry>, opts: IngestOptions): seq<NormalizedMetric> {
    if |ms| == 0 then []
    else
      MetricRowsOf(n, ms[..|ms| - 1], opts)
      + if ms[|ms| - 1].name == SleepMetricName then []
        else match n.metric(ms[|ms| - 1], opts.target, opts.sessionId) case Ok(rows) => rows case Err(_) => []
  }

  /** The workout rows, in order. */
  function WorkoutRowsOf(n: Normalizers, ws: seq<Workout>, opts: IngestOptions): seq<NormalizedWorkout> {
    if |ws| == 0 then []
    else
      WorkoutRowsOf(n, ws[..|ws| - 1], opts)
      + match n.workout(ws[|ws| - 1], opts.target, opts.sessionId) case Ok(row) => [row] case Err(_) => []
  }

  predicate SleepAccepted(n: Normalizers, dps: seq<RawRecord>, opts: IngestOptions) {
    forall i :: 0 <= i < |dps| ==> n.sleep(dps[i], opts.target, opts.sessionId).Ok?
  }

  predicate EntryAccepted(n: Normalizers, m: MetricEntry, opts: IngestOptions) {
    if m.name == SleepMetricName then SleepAccepted(n, m.data, opts)
    else n.metric(m, opts.target, opts.sessionId).Ok?
  }

  predicate EntriesAccepted(n: Normalizers, ms: seq<MetricEntry>, opts: IngestOptions) {
    forall i :: 0 <= i < |ms| ==> EntryAccepted(n, ms[i], opts)
  }

  predicate WorkoutsAccepted(n: Normalizers, ws: seq<Workout>, opts: IngestOptions) {
    forall k :: 0 <= k < |ws| ==> n.workout(ws[k], opts.target, opts.sessionId).Ok?
  }

  /** Every normaliser call of the payload succeeds. */
  predicate Accepted(n: Normalizers, payload: HaePayload, opts: IngestOptions) {
    && EntriesAccepted(n, payload.data.metrics.GetOr([]), opts)
    && WorkoutsAccepted(n, payload.data.workouts.GetOr([]), opts)
  }

  /** The sleep loop succeeds exactly when every record normalises. */
  lemma {:induction false} SleepRunAccepts(n: Normalizers, p: Progress, dps: seq<RawRecord>, opts: IngestOptions)
    requires p.failure.None?
    ensures SleepRun(n, p, dps, opts).failure.None? <==> SleepAccepted(n, dps, opts)
  {
    if |dps| > 0 {
      var front := dps[..|dps| - 1];
      SleepRunAccepts(n, p, front, opts);
      assert forall i :: 0 <= i < |front| ==> front[i] == dps[i];
      if SleepRun(n, p, front, opts).failure.Some? {
        SleepRunStopped(n, SleepRun(n, p, front, opts), [dps[|dps| - 1]], opts);
      }
    }
  }

  /** When it succeeds it has upserted every row, in order, and counted
      every record. */
  lemma {:induction false} SleepRunRows(n: Normalizers, p: Progress, dps: seq<RawRecord>, opts: IngestOptions)
    requires p.failure.None? && SleepAccepted(n, dps, opts)
    ensures var q := SleepRun(n, p, dps, opts);
      && |SleepRowsOf(n, dps, opts)| == |dps|
      && q == Progress(p.store.(sleep := ReplaceAll(p.store.sleep, SleepRowsOf(n, dps, opts), SleepKeyOf)),
                       p.counts.(sleepAdded := p.counts.sleepAdded + |dps|), None)
  {
    if |dps| > 0 {
      var front := dps[..|dps| - 1];
      assert forall i :: 0 <= i < |front| ==> front[i] == dps[i];
      SleepRunRows(n, p, front, opts);
    }
  }

  /** The sleep loop touches only the sleep table. */
  lemma {:induction false} SleepRunTouchesSleepOnly(n: Normalizers, p: Progress, dps: seq<RawRecord>, opts: IngestOptions)
    ensures var q := SleepRun(n, p, dps, opts);
      && q.store.metrics == p.store.metrics && q.store.workouts == p.store.workouts
      && q.store.syncLog == p.store.syncLog && q.store.importLog == p.store.importLog
  {
    if |dps| > 0 {
      SleepRunTouchesSleepOnly(n, p, dps[..|dps| - 1], opts);
    }
  }

  /** The metric loop succeeds exactly when every entry is accepted. */
  lemma {:induction false} MetricRunAccepts(n: Normalizers, p: Progress, ms: seq<MetricEntry>, opts: IngestOptions)
    requires p.failure.None?
    ensures MetricRun(n, p, ms, opts).failure.None? <==> EntriesAccepted(n, ms, opts)
  {
    if |ms| > 0 {
      var front := ms[..|ms| - 1];
      var m := ms[|ms| - 1];
      MetricRunAccepts(n, p, front, opts);
      assert forall i :: 0 <= i < |front| ==> front[i] == ms[i];
      var mid := MetricRun(n, p, front, opts);
      if mid.failure.None? && m.name == SleepMetricName {
        SleepRunAccepts(n, mid, m.data, opts);
      }
    }
  }

  /** The tables and counters a successful metric loop ends with. */
  function MetricRunResult(n: Normalizers, p: Progress, ms: seq<MetricEntry>, opts: IngestOptions): Progress {
    Progress(p.store.(metrics := ReplaceAll(p.store.metrics, MetricRowsOf(n, ms, opts), MetricKeyOf),
                      sleep := ReplaceAll(p.store.sleep, SleepRowsOfEntries(n, ms, opts), SleepKeyOf)),
             p.counts.(metricsAdded := p.counts.metricsAdded + |MetricRowsOf(n, ms, opts)|,
                       sleepAdded := p.counts.sleepAdded + |SleepRowsOfEntries(n, ms, opts)|),
             None)
  }

  /** A sleep entry appended to the list extends the sleep rows only. */
  lemma MetricRunRowsSleepEntry(n: Normalizers, p: Progress, ms: seq<MetricEntry>, opts: IngestOptions)
    requires |ms| > 0 && ms[|ms| - 1].name == SleepMetricName && p.failure.None?
    requires SleepAccepted(n, ms[|ms| - 1].data, opts)
    ensures var front := ms[..|ms| - 1];
      SleepRun(n, MetricRunResult(n, p, front, opts), ms[|ms| - 1].data, opts) == MetricRunResult(n, p, ms, opts)
  {
    var front, m := ms[..|ms| - 1], ms[|ms| - 1];
    var mid := MetricRunResult(n, p, front, opts);
    SleepRunRows(n, mid, m.data, opts);
    ReplaceAllConcat(p.store.sleep, SleepRowsOfEntries(n, front, opts), SleepRowsOf(n, m.data, opts), SleepKeyOf);
    assert MetricRowsOf(n, ms, opts) == MetricRowsOf(n, front, opts) + [] == MetricRowsOf(n, front, opts);
    assert SleepRowsOfEntries(n, ms, opts) == SleepRowsOfEntries(n, front, opts) + SleepRowsOf(n, m.data, opts);
  }

  /** Another entry appended to the list extends the metric rows only. */
  lemma MetricRunRowsBatchEntry(n: Normalizers, p: Progress, ms: seq<MetricEntry>, opts: IngestOptions)
    requires |ms| > 0 && ms[|ms| - 1].name != SleepMetricName && p.failure.None?
    requires n.metric(ms[|ms| - 1], opts.target, opts.sessionId).Ok?
    ensures var front := ms[..|ms| - 1];
      MetricStep(n, MetricRunResult(n, p, front, opts), ms[|ms| - 1], opts) == MetricRunResult(n, p, ms, opts)
  {
    var front, m := ms[..|ms| - 1], ms[|ms| - 1];
    var rows := n.metric(m, opts.target, opts.sessionId).value;
    assert MetricRowsOf(n, ms, opts) == MetricRowsOf(n, front, opts) + rows;
    ReplaceAllConcat(p.store.metrics, MetricRowsOf(n, front, opts), rows, MetricKeyOf);
    assert SleepRowsOfEntries(n, ms, opts) == SleepRowsOfEntries(n, front, opts) + [] == SleepRowsOfEntries(n, front, opts);
  }

  /** When it succeeds the metric and sleep tables have taken all rows, in
      order, and the counters have grown by the numbers of rows. */
  lemma {:induction false} MetricRunRows(n: Normalizers, p: Progress, ms: seq<MetricEntry>, opts: IngestOptions)
    requires p.failure.None? && EntriesAccepted(n, ms, opts)
    ensures MetricRun(n, p, ms, opts) == MetricRunResult(n, p, ms, opts)
  {
    if |ms| > 0 {
      var front := ms[..|ms| - 1];
      var m := ms[|ms| - 1];
      assert forall i :: 0 <= i < |front| ==> front[i] == ms[i];
      MetricRunRows(n, p, front, opts);
      assert EntryAccepted(n, m, opts);
      if m.name == SleepMetricName {
        MetricRunRowsSleepEntry(n, p, ms, opts);
      } else {
        MetricRunRowsBatchEntry(n, p, ms, opts);
      }
    }
  }

  /** The metric loop never touches workouts or the two logs. */
  lemma {:induction false} MetricRunKeepsRest(n: Normalizers, p: Progress, ms: seq<MetricEntry>, opts: IngestOptions)
    ensures var q := MetricRun(n, p, ms, opts);
      && q.store.workouts == p.store.workouts
      && q.store.syncLog == p.store.syncLog && q.store.importLog == p.store.importLog
  {
    if |ms| > 0 {
      var front := ms[..|ms| - 1];
      MetricRunKeepsRest(n, p, front, opts);
      if ms[|ms| - 1].name == SleepMetricName {
        SleepRunTouchesSleepOnly(n, MetricRun(n, p, front, opts), ms[|ms| - 1].data, opts);
      }
    }
  }

  /** The workout loop succeeds exactly when every workout normalises. */
  lemma {:induction false} WorkoutRunAccepts(n: Normalizers, p: Progress, ws: seq<Workout>, opts: IngestOptions)
    requires p.failure.None?
    ensures WorkoutRun(n, p, ws, opts).failure.None? <==> WorkoutsAccepted(n, ws, opts)
  {
    if |ws| > 0 {
      var front := ws[..|ws| - 1];
      WorkoutRunAccepts(n, p, front, opts);
      assert forall k :: 0 <= k < |front| ==> front[k] == ws[k];
    }
  }

  /** When it succeeds every workout row is upserted in order and counted. */
  lemma {:induction false} WorkoutRunRows(n: Normalizers, p: Progress, ws: seq<Workout>, opts: IngestOptions)
    requires p.failure.None? && WorkoutsAccepted(n, ws, opts)
    ensures var q := WorkoutRun(n, p, ws, opts);
      && |WorkoutRowsOf(n, ws, opts)| == |ws|
      && q == Progress(p.store.(workouts := ReplaceAll(p.store.workouts, WorkoutRowsOf(n, ws, opts), WorkoutKeyOf)),
                       p.counts.(workoutsAdded := p.counts.workoutsAdded + |ws|), None)
  {
    if |ws| > 0 {
      var front := ws[..|ws| - 1];
      assert WorkoutsAccepted(n, front, opts) by {
        assert forall k :: 0 <= k < |front| ==> front[k] == ws[k];
      }
      WorkoutRunRows(n, p, front, opts);
      WorkoutRowsSnoc(n, p.store.workouts, ws, opts);
    }
  }

  /** One more accepted workout adds its row at the end of the batch. */
  lemma WorkoutRowsSnoc(n: Normalizers, t: Table<WorkoutKey, NormalizedWorkout>, ws: seq<Workout>, opts: IngestOptions)
    requires |ws| > 0 && n.workout(ws[|ws| - 1], opts.target, opts.sessionId).Ok?
    ensures var row := n.workout(ws[|ws| - 1], opts.target, opts.sessionId).value;
      && WorkoutRowsOf(n, ws, opts) == WorkoutRowsOf(n, ws[..|ws| - 1], opts) + [row]
      && ReplaceAll(t, WorkoutRowsOf(n, ws, opts), WorkoutKeyOf)
         == Replace(ReplaceAll(t, WorkoutRowsOf(n, ws[..|ws| - 1], opts), WorkoutKeyOf), WorkoutKeyOf(row), row)
  {
    var row := n.workout(ws[|ws| - 1], opts.target, opts.sessionId).value;
    var rows := WorkoutRowsOf(n, ws, opts);
    assert rows[..|rows| - 1] == WorkoutRowsOf(n, ws[..|ws| - 1], opts);
  }

  /** The workout loop never touches the metric and sleep tables or the logs. */
  lemma {:induction false} WorkoutRunKeepsRest(n: Normalizers, p: Progress, ws: seq<Workout>, opts: IngestOptions)
    ensures var q := WorkoutRun(n, p, ws, opts);
      && q.store.metrics == p.store.metrics && q.store.sleep == p.store.sleep
      && q.store.syncLog == p.store.syncLog && q.store.importLog == p.store.importLog
  {
    if |ws| > 0 {
      WorkoutRunKeepsRest(n, p, ws[..|ws| - 1], opts);
    }
  }

  /** A whole run: it succeeds exactly when the payload is accepted, and then
      each table has taken its rows in order, the counts are the numbers of
      rows, and neither log has been touched. */
  lemma RunShape(n: Normalizers, s: StoreState, payload: HaePayload, opts: IngestOptions)
    ensures var q := Run(n, s, payload, opts);
      var ms, ws := payload.data.metrics.GetOr([]), payload.data.workouts.GetOr([]);
      && (q.failure.None? <==> Accepted(n, payload, opts))
      && (q.failure.None? ==>
            && q.store == s.(metrics := ReplaceAll(s.metrics, MetricRowsOf(n, ms, opts), MetricKeyOf),
                             sleep := ReplaceAll(s.sleep, SleepRowsOfEntries(n, ms, opts), SleepKeyOf),
                             workouts := ReplaceAll(s.workouts, WorkoutRowsOf(n, ws, opts), WorkoutKeyOf))
            && q.counts == IngestResult(|MetricRowsOf(n, ms, opts)|, |SleepRowsOfEntries(n, ms, opts)|, |ws|))
      && q.store.syncLog == s.syncLog && q.store.importLog == s.importLog
  {
    var ms, ws := payload.data.metrics.GetOr([]), payload.data.workouts.GetOr([]);
    var start := Progress(s, NoCounts(), None);
    MetricRunAccepts(n, start, ms, opts);
    MetricRunKeepsRest(n, start, ms, opts);
    var mid := MetricRun(n, start, ms, opts);
    WorkoutRunKeepsRest(n, mid, ws, opts);
    if mid.failure.None? {
      WorkoutRunAccepts(n, mid, ws, opts);
      if Accepted(n, payload, opts) {
        MetricRunRows(n, start, ms, opts);
        WorkoutRunRows(n, mid, ws, opts);
      }
    } else {
      WorkoutRunStopped(n, mid, ws, opts);
    }
  }

  /** `ingest` succeeds exactly when every normaliser call succeeds. On
      success it appends exactly one sync-log row, holding the metric and
      workout counts (sleep is not logged); on failure it appends none.
      The import ledger is never touched. */
  lemma SyncLogOnce(n: Normalizers, s: StoreState, payload: HaePayload, opts: IngestOptions, receivedAt: string)
    ensures var (s', r) := IngestWith(n, s, payload, opts, receivedAt);
      && (r.Ok? <==> Accepted(n, payload, opts))
      && (r.Ok? ==> s'.syncLog == s.syncLog + [SyncEntry(receivedAt, opts.target, opts.sessionId,
                                                          r.value.metricsAdded, r.value.workoutsAdded,
                                                          opts.automationName, opts.automationPeriod)])
      && (r.Err? ==> s'.syncLog == s.syncLog)
      && s'.importLog == s.importLog
  {
    RunShape(n, s, payload, opts);
  }

  /** Two stores that differ give runs with the same counts and the same
      error: what a run counts never depends on what is stored. */
  lemma {:induction false} SleepRunCountsIgnoreStore(n: Normalizers, p1: Progress, p2: Progress, dps: seq<RawRecord>, opts: IngestOptions)
    requires p1.counts == p2.counts && p1.failure == p2.failure
    ensures SleepRun(n, p1, dps, opts).counts == SleepRun(n, p2, dps, opts).counts
    ensures SleepRun(n, p1, dps, opts).failure == SleepRun(n, p2, dps, opts).failure
  {
    if |dps| > 0 {
      SleepRunCountsIgnoreStore(n, p1, p2, dps[..|dps| - 1], opts);
    }
  }

  lemma {:induction false} MetricRunCountsIgnoreStore(n: Normalizers, p1: Progress, p2: Progress, ms: seq<MetricEntry>, opts: IngestOptions)
    requires p1.counts == p2.counts && p1.failure == p2.failure
    ensures MetricRun(n, p1, ms, opts).counts == MetricRun(n, p2, ms, opts).counts
    ensures MetricRun(n, p1, ms, opts).failure == MetricRun(n, p2, ms, opts).failure
  {
    if |ms| > 0 {
      var front := ms[..|ms| - 1];
      MetricRunCountsIgnoreStore(n, p1, p2, front, opts);
      var q1, q2 := MetricRun(n, p1, front, opts), MetricRun(n, p2, front, opts);
      if q1.failure.None? && ms[|ms| - 1].name == SleepMetricName {
        SleepRunCountsIgnoreStore(n, q1, q2, ms[|ms| - 1].data, opts);
      }
    }
  }

  lemma {:induction false} WorkoutRunCountsIgnoreStore(n: Normalizers, p1: Progress, p2: Progress, ws: seq<Workout>, opts: IngestOptions)
    requires p1.counts == p2.counts && p1.failure == p2.failure
    ensures WorkoutRun(n, p1, ws, opts).counts == WorkoutRun(n, p2, ws, opts).counts
    ensures WorkoutRun(n, p1, ws, opts).failure == WorkoutRun(n, p2, ws, opts).failure
  {
    if |ws| > 0 {
      WorkoutRunCountsIgnoreStore(n, p1, p2, ws[..|ws| - 1], opts);
    }
  }

  /** What `ingest` returns (the counts, or the error) depends only on the
      payload and the options: delivering a payload again returns the same. */
  lemma ResultIgnoresStore(n: Normalizers, s1: StoreState, s2: StoreState, payload: HaePayload,
                           opts: IngestOptions, t1: string, t2: string)
    ensures IngestWith(n, s1, payload, opts, t1).1 == IngestWith(n, s2, payload, opts, t2).1
  {
    var ms, ws := payload.data.metrics.GetOr([]), payload.data.workouts.GetOr([]);
    MetricRunCountsIgnoreStore(n, Progress(s1, NoCounts(), None), Progress(s2, NoCounts(), None), ms, opts);
    WorkoutRunCountsIgnoreStore(n, MetricRun(n, Progress(s1, NoCounts(), None), ms, opts),
                                MetricRun(n, Progress(s2, NoCounts(), None), ms, opts), ws, opts);
  }

  /** Delivering an accepted payload a second time returns the same counts and
      leaves every keyed row as the first delivery left it; only rows whose
      key holds a NULL source are added again, and one more sync-log row. */
  lemma ReingestIsIdempotent(n: Normalizers, s: StoreState, payload: HaePayload, opts: IngestOptions, t1: string, t2: string)
    requires IngestWith(n, s, payload, opts, t1).1.Ok?
    ensures var (s1, r1) := IngestWith(n, s, payload, opts, t1);
      var (s2, r2) := IngestWith(n, s1, payload, opts, t2);
      var ms, ws := payload.data.metrics.GetOr([]), payload.data.workouts.GetOr([]);
      && r2 == r1
      && s2.metrics.keyed == s1.metrics.keyed
      && s2.sleep.keyed == s1.sleep.keyed
      && s2.workouts == s1.workouts
      && s2.metrics.unkeyed == s1.metrics.unkeyed + NullKeyed(MetricRowsOf(n, ms, opts), MetricKeyOf)
      && s2.sleep.unkeyed == s1.sleep.unkeyed + NullKeyed(SleepRowsOfEntries(n, ms, opts), SleepKeyOf)
      && s2.importLog == s1.importLog
      && s2.syncLog == s1.syncLog + [SyncEntryFor(r1.value, opts, t2)]
  {
    var ms, ws := payload.data.metrics.GetOr([]), payload.data.workouts.GetOr([]);
    var s1 := IngestWith(n, s, payload, opts, t1).0;
    RunShape(n, s, payload, opts);
    RunShape(n, s1, payload, opts);
    ResultIgnoresStore(n, s, s1, payload, opts, t1, t2);
    ReplayBatch(s.metrics, MetricRowsOf(n, ms, opts), MetricKeyOf);
    ReplayBatch(s.sleep, SleepRowsOfEntries(n, ms, opts), SleepKeyOf);
    ReplayBatch(s.workouts, WorkoutRowsOf(n, ws, opts), WorkoutKeyOf);
    WorkoutRowsAreKeyed(WorkoutRowsOf(n, ws, opts));
  }

  /** Workout keys are never NULL. */
  lemma {:induction false} WorkoutRowsAreKeyed(rows: seq<NormalizedWorkout>)
    ensures NullKeyed(rows, WorkoutKeyOf) == []
  {
    if |rows| > 0 {
      WorkoutRowsAreKeyed(rows[..|rows| - 1]);
    }
  }

  /** No transaction wraps `ingest`: when metric entry `i` (not sleep) fails
      to normalise, the entries before it stay upserted, no workout is
      touched, no sync-log row is written, and that entry's error is thrown. */
  lemma FailureKeepsEarlierUpserts(n: Normalizers, s: StoreState, payload: HaePayload, opts: IngestOptions,
                                   receivedAt: string, i: int)
    requires var ms := payload.data.metrics.GetOr([]);
      && 0 <= i < |ms| && EntriesAccepted(n, ms[..i], opts)
      && ms[i].name != SleepMetricName && n.metric(ms[i], opts.target, opts.sessionId).Err?
    ensures var ms := payload.data.metrics.GetOr([]);
      var (s', r) := IngestWith(n, s, payload, opts, receivedAt);
      && r == Err(n.metric(ms[i], opts.target, opts.sessionId).error)
      && s'.metrics == ReplaceAll(s.metrics, MetricRowsOf(n, ms[..i], opts), MetricKeyOf)
      && s'.sleep == ReplaceAll(s.sleep, SleepRowsOfEntries(n, ms[..i], opts), SleepKeyOf)
      && s'.workouts == s.workouts && s'.syncLog == s.syncLog
  {
    var ms, ws := payload.data.metrics.GetOr([]), payload.data.workouts.GetOr([]);
    var start := Progress(s, NoCounts(), None);
    MetricRunRows(n, start, ms[..i], opts);
    assert ms[..i + 1][..i] == ms[..i];
    MetricRunStopsAt(n, start, ms, i, opts);
    WorkoutRunStopped(n, MetricRun(n, start, ms, opts), ws, opts);
  }

  /** When record `j` of the `sleep_analysis` entry `i` fails to normalise,
      the entries before it and that entry's earlier records stay upserted,
      no workout is touched, no sync-log row is written, and the record's
      error is thrown. */
  lemma SleepFailureKeepsEarlierUpserts(n: Normalizers, s: StoreState, payload: HaePayload, opts: IngestOptions,
                                        receivedAt: string, i: int, j: int)
    requires var ms := payload.data.metrics.GetOr([]);
      && 0 <= i < |ms| && EntriesAccepted(n, ms[..i], opts) && ms[i].name == SleepMetricName
      && 0 <= j < |ms[i].data| && SleepAccepted(n, ms[i].data[..j], opts)
      && n.sleep(ms[i].data[j], opts.target, opts.sessionId).Err?
    ensures var ms := payload.data.metrics.GetOr([]);
      var (s', r) := IngestWith(n, s, payload, opts, receivedAt);
      && r == Err(n.sleep(ms[i].data[j], opts.target, opts.sessionId).error)
      && s'.metrics == ReplaceAll(s.metrics, MetricRowsOf(n, ms[..i], opts), MetricKeyOf)
      && s'.sleep == ReplaceAll(ReplaceAll(s.sleep, SleepRowsOfEntries(n, ms[..i], opts), SleepKeyOf),
                                SleepRowsOf(n, ms[i].data[..j], opts), SleepKeyOf)
      && s'.workouts == s.workouts && s'.syncLog == s.syncLog
  {
    var ms, ws := payload.data.metrics.GetOr([]), payload.data.workouts.GetOr([]);
    var dps := ms[i].data;
    var start := Progress(s, NoCounts(), None);
    MetricRunRows(n, start, ms[..i], opts);
    var mid := MetricRun(n, start, ms[..i], opts);
    SleepRunRows(n, mid, dps[..j], opts);
    SleepRecordFails(n, mid, dps, j, opts);
    var q := SleepRun(n, mid, dps, opts);
    assert ms[..i + 1][..i] == ms[..i];
    assert MetricRun(n, start, ms[..i + 1], opts) == q;
    MetricRunStopsAt(n, start, ms, i, opts);
    WorkoutRunStopped(n, q, ws, opts);
    assert Run(n, s, payload, opts) == q;
  }

  /** A sleep loop ends where record `j` fails, with that record's error. */
  lemma SleepRecordFails(n: Normalizers, p: Progress, dps: seq<RawRecord>, j: int, opts: IngestOptions)
    requires 0 <= j < |dps| && n.sleep(dps[j], opts.target, opts.sessionId).Err?
    requires SleepRun(n, p, dps[..j], opts).failure.None?
    ensures SleepRun(n, p, dps, opts)
         == SleepRun(n, p, dps[..j], opts).(failure := Some(n.sleep(dps[j], opts.target, opts.sessionId).error))
  {
    assert dps[..j + 1][..j] == dps[..j];
    SleepRunStopsAt(n, p, dps, j, opts);
  }

  /** When workout `k` fails to normalise, every metric and sleep row and the
      workouts before it stay upserted, no sync-log row is written, and the
      workout's error is thrown. */
  lemma WorkoutFailureKeepsEarlierUpserts(n: Normalizers, s: StoreState, payload: HaePayload, opts: IngestOptions,
                                          receivedAt: string, k: int)
    requires var ms, ws := payload.data.metrics.GetOr([]), payload.data.workouts.GetOr([]);
      && EntriesAccepted(n, ms, opts)
      && 0 <= k < |ws| && WorkoutsAccepted(n, ws[..k], opts)
      && n.workout(ws[k], opts.target, opts.sessionId).Err?
    ensures var ms, ws := payload.data.metrics.GetOr([]), payload.data.workouts.GetOr([]);
      var (s', r) := IngestWith(n, s, payload, opts, receivedAt);
      && r == Err(n.workout(ws[k], opts.target, opts.sessionId).error)
      && s'.metrics == ReplaceAll(s.metrics, MetricRowsOf(n, ms, opts), MetricKeyOf)
      && s'.sleep == ReplaceAll(s.sleep, SleepRowsOfEntries(n, ms, opts), SleepKeyOf)
      && s'.workouts == ReplaceAll(s.workouts, WorkoutRowsOf(n, ws[..k], opts), WorkoutKeyOf)
      && s'.syncLog == s.syncLog
  {
    var ms, ws := payload.data.metrics.GetOr([]), payload.data.workouts.GetOr([]);
    var start := Progress(s, NoCounts(), None);
    MetricRunRows(n, start, ms, opts);
    var mid := MetricRun(n, start, ms, opts);
    WorkoutRunRows(n, mid, ws[..k], opts);
    assert ws[..k + 1][..k] == ws[..k];
    var q := WorkoutRun(n, mid, ws[..k + 1], opts);
    assert q == WorkoutRun(n, mid, ws[..k], opts).(failure := Some(n.workout(ws[k], opts.target, opts.sessionId).error));
    WorkoutRunStopsAt(n, mid, ws, k, opts);
    assert Run(n, s, payload, opts) == q;
  }

  // ---- with this model's normalisers ----

  /** The number of datapoints of the entries other than sleep. */
  function DatapointCount(ms: seq<MetricEntry>): nat {
    if |ms| == 0 then 0
    else DatapointCount(ms[..|ms| - 1]) + if ms[|ms| - 1].name == SleepMetricName then 0 else |ms[|ms| - 1].data|
  }

  /** The number of records of the `sleep_analysis` entries. */
  function SleepRecordCount(ms: seq<MetricEntry>): nat {
    if |ms| == 0 then 0
    else SleepRecordCount(ms[..|ms| - 1]) + if ms[|ms| - 1].name == SleepMetricName then |ms[|ms| - 1].data| else 0
  }

  /** With this model's normalisers, an accepted entry other than sleep gives
      one row per datapoint. */
  lemma StandardBatchRows(m: MetricEntry, opts: IngestOptions)
    requires m.name != SleepMetricName && Standard().metric(m, opts.target, opts.sessionId).Ok?
    ensures |Standard().metric(m, opts.target, opts.sessionId).value| == |m.data|
  {
    assert Standard().metric(m, opts.target, opts.sessionId) == ParseMetric(m, opts.target, opts.sessionId);
  }

  /** Normalisers whose metric batches have one row per datapoint. */
  predicate RowPerDatapoint(n: Normalizers, ms: seq<MetricEntry>, opts: IngestOptions) {
    forall i :: 0 <= i < |ms| && ms[i].name != SleepMetricName && n.metric(ms[i], opts.target, opts.sessionId).Ok? ==>
      |n.metric(ms[i], opts.target, opts.sessionId).value| == |ms[i].data|
  }

  lemma {:induction false} RowCounts(n: Normalizers, ms: seq<MetricEntry>, opts: IngestOptions)
    requires EntriesAccepted(n, ms, opts) && RowPerDatapoint(n, ms, opts)
    ensures |MetricRowsOf(n, ms, opts)| == DatapointCount(ms)
    ensures |SleepRowsOfEntries(n, ms, opts)| == SleepRecordCount(ms)
  {
    if |ms| > 0 {
      var front := ms[..|ms| - 1];
      var m := ms[|ms| - 1];
      assert forall i :: 0 <= i < |front| ==> front[i] == ms[i];
      RowCounts(n, front, opts);
      assert EntryAccepted(n, m, opts);
      if m.name == SleepMetricName {
        SleepRunRows(n, Progress(EmptyStore(), NoCounts(), None), m.data, opts);
      }
    }
  }

  /** The counts `ingest` returns: one per datapoint of every metric other than
      sleep, one per sleep record, one per workout; missing lists count as
      empty. */
  lemma IngestCounts(s: StoreState, payload: HaePayload, opts: IngestOptions, receivedAt: string)
    requires IngestSpec(s, payload, opts, receivedAt).1.Ok?
    ensures var ms := payload.data.metrics.GetOr([]);
      IngestSpec(s, payload, opts, receivedAt).1.value
        == IngestResult(DatapointCount(ms), SleepRecordCount(ms), |payload.data.workouts.GetOr([])|)
  {
    var ms := payload.data.metrics.GetOr([]);
    RunShape(Standard(), s, payload, opts);
    forall i | 0 <= i < |ms| && ms[i].name != SleepMetricName && Standard().metric(ms[i], opts.target, opts.sessionId).Ok?
      ensures |Standard().metric(ms[i], opts.target, opts.sessionId).value| == |ms[i].data|
    {
      StandardBatchRows(ms[i], opts);
    }
    RowCounts(Standard(), ms, opts);
  }

  // ---- the method ----

  /** The inner loop over the records of a `sleep_analysis` entry. */
  method IngestSleepRecords(n: Normalizers, db: Vault, dps: seq<RawRecord>, opts: IngestOptions, counts: IngestResult)
    returns (after: IngestResult, failure: Option<TimestampError>)
    modifies db
    ensures SleepRun(n, Progress(old(db.State()), counts, None), dps, opts) == Progress(db.State(), after, failure)
  {
    ghost var before := Progress(db.State(), counts, None);
    after := counts;
    var j := 0;
    while j < |dps|
      invariant 0 <= j <= |dps|
      invariant SleepRun(n, before, dps[..j], opts) == Progress(db.State(), after, None)
    {
      assert dps[..j + 1][..j] == dps[..j];
      var row := n.sleep(dps[j], opts.target, opts.sessionId);
      if row.Err? {
        SleepRunStopsAt(n, before, dps, j, opts);
        return after, Some(row.error);
      }
      db.UpsertSleep(row.value);
      after := after.(sleepAdded := after.sleepAdded + 1);
      j := j + 1;
    }
    assert dps[..j] == dps;
    return after, None;
  }

  /** One metric entry: the sleep records one by one, or the whole batch of
      any other metric in one transaction. */
  method IngestMetricEntry(n: Normalizers, db: Vault, m: MetricEntry, opts: IngestOptions, counts: IngestResult)
    returns (after: IngestResult, failure: Option<TimestampError>)
    modifies db
    ensures MetricStep(n, Progress(old(db.State()), counts, None), m, opts) == Progress(db.State(), after, failure)
  {
    if m.name == SleepMetricName {
      after, failure := IngestSleepRecords(n, db, m.data, opts, counts);
    } else {
      var rows := n.metric(m, opts.target, opts.sessionId);
      if rows.Err? {
        return counts, Some(rows.error);
      }
      var committed := db.UpsertMetrics(rows.value, None);
      after, failure := counts.(metricsAdded := counts.metricsAdded + |rows.value|), None;
    }
  }

  /** The loop over the metric entries. */
  method IngestMetrics(n: Normalizers, db: Vault, ms: seq<MetricEntry>, opts: IngestOptions)
    returns (counts: IngestResult, failure: Option<TimestampError>)
    modifies db
    ensures MetricRun(n, Progress(old(db.State()), NoCounts(), None), ms, opts) == Progress(db.State(), counts, failure)
  {
    ghost var start := Progress(db.State(), NoCounts(), None);
    counts := NoCounts();
    var i := 0;
    while i < |ms|
      invariant 0 <= i <= |ms|
      invariant MetricRun(n, start, ms[..i], opts) == Progress(db.State(), counts, None)
    {
      assert ms[..i + 1][..i] == ms[..i];
      var stopped;
      counts, stopped := IngestMetricEntry(n, db, ms[i], opts, counts);
      if stopped.Some? {
        MetricRunStopsAt(n, start, ms, i, opts);
        return counts, stopped;
      }
      i := i + 1;
    }
    assert ms[..i] == ms;
    return counts, None;
  }

  /** The loop over the workouts. */
  method IngestWorkouts(n: Normalizers, db: Vault, ws: seq<Workout>, opts: IngestOptions, counts: IngestResult)
    returns (after: IngestResult, failure: Option<TimestampError>)
    modifies db
    ensures WorkoutRun(n, Progress(old(db.State()), counts, None), ws, opts) == Progress(db.State(), after, failure)
  {
    ghost var start := Progress(db.State(), counts, None);
    after := counts;
    var k := 0;
    while k < |ws|
      invariant 0 <= k <= |ws|
      invariant WorkoutRun(n, start, ws[..k], opts) == Progress(db.State(), after, None)
    {
      assert ws[..k + 1][..k] == ws[..k];
      var row := n.workout(ws[k], opts.target, opts.sessionId);
      if row.Err? {
        WorkoutRunStopsAt(n, start, ws, k, opts);
        return after, Some(row.error);
      }
      db.UpsertWorkout(row.value);
      after := after.(workoutsAdded := after.workoutsAdded + 1);
      k := k + 1;
    }
    assert ws[..k] == ws;
    return after, None;
  }

  /** `ingest` with the given normalisers. */
  method IngestUsing(n: Normalizers, db: Vault, payload: HaePayload, opts: IngestOptions, receivedAt: string)
    returns (r: Result<IngestResult, TimestampError>)
    modifies db
    ensures (db.State(), r) == IngestWith(n, old(db.State()), payload, opts, receivedAt)
  {
    var counts, failure := IngestMetrics(n, db, payload.data.metrics.GetOr([]), opts);
    if failure.Some? {
      WorkoutRunStopped(n, Progress(db.State(), counts, failure), payload.data.workouts.GetOr([]), opts);
      return Err(failure.value);
    }
    counts, failure := IngestWorkouts(n, db, payload.data.workouts.GetOr([]), opts, counts);
    if failure.Some? {
      return Err(failure.value);
    }
    db.AppendSync(SyncEntryFor(counts, opts, receivedAt));
    return Ok(counts);
  }

  /** `ingest`, with the clock read (`received_at`) passed in. */
  method Ingest(db: Vault, payload: HaePayload, opts: IngestOptions, receivedAt: string)
    returns (r: Result<IngestResult, TimestampError>)
    modifies db
    ensures (db.State(), r) == IngestSpec(old(db.State()), payload, opts, receivedAt)
  {
    r := IngestUsing(Standard(), db, payload, opts, receivedAt);
  }
}
