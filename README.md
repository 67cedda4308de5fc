# hae-vault ingestion core, modelled in Dafny

hae-vault stores Health Auto Export (HAE) payloads in a local SQLite vault.
This project models the part of hae-vault that turns a payload into rows and
stores them, so that a second delivery of the same data does not duplicate
anything. It covers:

- **Timestamp parser** (`HaeTime`, over the proleptic Gregorian calendar in
  `Calendar`). It handles the exporter's 24-hour and 12-hour texts with a
  fixed `±HHMM` offset. Instants are whole seconds since the epoch. It renders
  instants back as `toISOString` text and takes the UTC day.
- **Three normalisers** (`MetricParse`, `SleepParse`, `WorkoutParse`). Each
  detected shape of a record is a datatype case or a branch.
- **Vault tables** (`Tables`, `Store`):
  - three INSERT OR REPLACE tables. A key holding a NULL never conflicts, as
    in SQLite.
  - the append-only `sync_log`.
  - the `import_log` ledger, which ignores a second insert for the same file
    hash.
  - `Store.Vault` is a class whose methods update these fields in place.
- **`ingest`** (`Ingest`): routes every metric entry and workout to its
  normaliser, upserts as it goes, counts, and appends one `sync_log` row.
- **Watch `tick`** (`Watch`): lists a directory and keeps the export file
  names. It imports each file whose content hash is not yet in the ledger.
- **Daily vitals merge** (`Vitals`): keeps the latest valid blood-pressure
  reading per day, then takes the sorted union of the dates.
- **Terminal text helpers** (`Helpers`).

Each loop of the source is a method proved against a specification function:
- the upsert batch;
- `ingest` with its nested loops;
- the watch loop;
- the blood-pressure loop.

The properties are proved about that specification function. The run of
`ingest` and of `tick` is defined for any triple of normalisers (the
`Normalizers` record). Its proofs do not depend on how rows are built.
`Ingest.Standard()` is the triple of this model, and `Ingest.Ingest` and
`Watch.Tick` use it.

Foreign functions and clocks are inputs, not part of the model:
- **Foreign functions:** SHA-256, zip extraction, `JSON.parse`, path joining
  and directory reading are fields of `Watch.Host` and `Watch.Folder`. The
  parse of a stored `meta` text is the `parseMeta` argument of `Vitals`, and
  the locale rendering of `toLocaleString` is the `localeText` argument of
  `Helpers.FmtInt`.
- **Clocks:** every clock reading is a parameter: the `receivedAt` of
  `ingest`, and the `Watch.Clock` readings for the tick and for each
  `logImport`.

The model follows the code in three places where it is weaker than one might
expect:
- `ingest` is not atomic. Only each metric batch is one transaction. A
  normaliser error leaves the earlier upserts in place and writes no
  `sync_log` row, whether a metric batch, a sleep record or a workout fails
  (`Ingest.FailureKeepsEarlierUpserts`, `Ingest.SleepFailureKeepsEarlierUpserts`,
  `Ingest.WorkoutFailureKeepsEarlierUpserts`).
- A sleep record of no known shape is not rejected as such. It is read as the
  older aggregate, and then fails on its missing start
  (`SleepParse.UnknownShapeFallsToV1`).
- Detailed sleep rows leave every total null, including asleep and in-bed
  hours.

## Model

| member | source | states |
|---|---|---|
| HaeTime.Match24 | src/parse/time.ts:20 | A match has the five well-formed groups of the 24-hour expression, and the text is exactly those groups joined by the fixed separators |
| HaeTime.Match12 | src/parse/time.ts:28 | A match has the six well-formed groups of the 12-hour expression (one- or two-digit hour, space or U+202F before the meridiem), and the text is exactly their join |
| HaeTime.Match24Recovers | src/parse/time.ts:20 | Matching the join of any well-formed 24-hour groups gives back exactly those groups |
| HaeTime.Match12Recovers | src/parse/time.ts:28 | Matching the join of any well-formed 12-hour groups gives back exactly those groups, and such a text never has the 24-hour shape |
| HaeTime.HourWidths | src/parse/time.ts:20-28 | The 24-hour shape has a two-digit hour, the 12-hour shape a one- or two-digit hour, and no text has both shapes |
| HaeTime.Parse24h | src/parse/time.ts:3-6 | The result is a date exactly when the engine accepts the stamp read from the groups (ranges of month, day, clock and offset), and that date is the stamp's instant: its wall clock minus its offset |
| HaeTime.To24Hour | src/parse/time.ts:9-12 | For a clock-face hour 1..12 the result is a 24-hour clock hour with the same value modulo 12, before noon exactly when the marker is AM. So 12 AM is 0, 12 PM is 12, and other PM hours gain 12 |
| HaeTime.ClockFaceRoundTrip | src/parse/time.ts:9-12 | Converting a 24-hour clock hour to the clock face and back with its own marker gives the hour again |
| HaeTime.Parse12h | src/parse/time.ts:8-16 | The result is a date exactly when the engine accepts the stamp whose hour is the converted clock-face hour, with AM read case-insensitively, and that date is the stamp's instant |
| HaeTime.PaddedHourReadsAlike | src/parse/time.ts:8-16 | A zero-padded hour (`02 PM`) reads as the same instant as the plain one (`2 PM`) |
| HaeTime.ZeroPmIsNoon | src/parse/time.ts:9-12 | Hour 0 with PM reads as the 24-hour hour 12 |
| HaeTime.HourPastTwelve | src/parse/time.ts:9-12 | An hour past 12 has two digits. With AM it is kept as the 24-hour hour. With PM it is pushed past 23 and the engine rejects the date |
| HaeTime.Parse12hOfStamp | src/parse/time.ts:8-16 | The 12-hour groups written from a valid stamp are read back to that stamp's instant |
| HaeTime.ParseHaeTime | src/parse/time.ts:18-35 | Succeeds exactly when the 24-hour path or the 12-hour path yields a valid date. The value is the 24-hour path's instant when that path yields one, otherwise the 12-hour path's. Otherwise it fails with the error naming the input text |
| HaeTime.UnrecognisedIsRejected | src/parse/time.ts:34 | A text of neither shape fails with the error naming it |
| HaeTime.ParseField | src/parse/time.ts:18-20 | An absent field fails before matching. A present field is parsed as above |
| HaeTime.Text24Parses | src/parse/time.ts:18-24 | The 24-hour text of every valid stamp parses to that stamp's instant, which is the wall clock minus the fixed offset |
| HaeTime.Text12Parses | src/parse/time.ts:26-32 | The 12-hour text of every valid stamp parses to that stamp's instant. This holds with either separator and with the meridiem letters in any case |
| HaeTime.SameInstantBothForms | src/parse/time.ts:18-32 | A 24-hour text and a 12-hour text with the same wall-clock time and offset both parse, to the same instant |
| HaeTime.ZeroOffsetSplit | src/parse/time.ts:3-6 | With a zero offset the instant's day number and second of day are the text's own date and clock time |
| HaeTime.UtcOffsetKeepsWallClock | src/parse/time.ts:37-43 | With a zero offset the ISO text shows the text's own date and clock, and the date string is that date |
| HaeTime.ToDateStrIsUtcDate | src/parse/time.ts:41-43 | The first ten characters of the ISO text are the UTC calendar date of the instant (years 0..9999) |
| HaeTime.ToIso | src/parse/time.ts:37-39 | The ISO text has at least 24 characters: the UTC date text followed by `THH:MM:SS.000Z`. What the text says is stated by `ToDateStrIsUtcDate` and `UtcOffsetKeepsWallClock` |
| HaeTime.ToDateStr | src/parse/time.ts:41-43 | The date string has exactly ten characters. `ToDateStrIsUtcDate` shows that they are the UTC calendar date |
| HaeTime.YearText | src/parse/time.ts:37-39 | Years 0..9999 are four digits whose value is the year. Other years are signed extended years |
| Calendar.CivilRoundTrip | src/parse/time.ts:37-39 | A valid calendar date converted to a day number and back is the same date, which is what `toISOString` relies on |
| Calendar.DaysFromCivilInjective | src/parse/time.ts:37-39 | Two valid dates with the same day number are equal |
| MetricParse.ClassifyDatapoint | src/parse/metrics.ts:24-41 | A range triple exactly when Min, Avg or Max is present. Otherwise a pressure pair exactly when systolic or diastolic is present. Otherwise a scalar. Each case carries the datapoint's own values |
| MetricParse.NormalizeDatapoint | src/parse/metrics.ts:22-48 | Fails exactly when the date does not parse. The row's ts and date come from the parsed instant, its units from the metric and its source, target and session from the datapoint and options. The detected shape's fields are copied, every other representation is null, and at most one representation is filled |
| MetricParse.ParseMetric | src/parse/metrics.ts:19-50 | `sleep_analysis` yields no rows. Any other metric succeeds exactly when every datapoint's date parses, and then yields one row per datapoint, in order |
| MetricParse.ParseMetricFirstFailure | src/parse/metrics.ts:22-23 | A failing batch fails with the error of its first datapoint whose date does not parse |
| SleepParse.OptionalIso | src/parse/sleep.ts:74-75 | A falsy in-bed time gives null. A truthy one is parsed, and its error propagates |
| SleepParse.DetectSleepVariant | src/parse/sleep.ts:25-29 | A truthy `startDate` means the detailed shape. Otherwise a `sleepStart` with a truthy `source` means the newer aggregate. Anything else is the older aggregate |
| SleepParse.DetailedRow | src/parse/sleep.ts:34-49 | Fails exactly when a timestamp fails, start first. On success the day and times come from startDate and endDate, every total and in-bed time is null, the source is the record's, and the record is kept as meta |
| SleepParse.AggregatedV2Row | src/parse/sleep.ts:51-65 | Fails exactly when a timestamp fails, start first. On success all six totals are copied, the in-bed times are null, there is no meta, and the tag is aggregated_v2 |
| SleepParse.AggregatedV1Row | src/parse/sleep.ts:67-81 | Fails exactly when a timestamp fails. On success the phase totals are null, asleep and in-bed hours are copied, the in-bed times are parsed only when present, and the source is `sleepSource` |
| SleepParse.NormalizeSleep | src/parse/sleep.ts:31-82 | A failing start fails the row. A row is tagged with the detected variant, dated by the UTC day of the variant's start field, and carries its start and end as ISO text |
| SleepParse.PhaseHoursOnlyInV2 | src/parse/sleep.ts:42 | A row with any of core, deep, REM or awake hours came from the newer aggregate |
| SleepParse.UnknownShapeFallsToV1 | src/parse/sleep.ts:25-29 | A record with no truthy startDate and no sleepStart is detected as the older aggregate and fails on the missing start |
| WorkoutParse.DurationIsExact | src/parse/workouts.ts:22 | The duration `DurationSeconds`, the rounded millisecond difference divided by 1000, is exactly end minus start, negative when the end comes first |
| WorkoutParse.HeartRates | src/parse/workouts.ts:24 | Only sample values are kept, and never more values than samples |
| WorkoutParse.HeartRatesKeepsNumbers | src/parse/workouts.ts:24 | Every numeric sample is kept |
| WorkoutParse.NonNumericIgnored | src/parse/workouts.ts:24 | Inserting a non-numeric sample anywhere changes nothing |
| WorkoutParse.HeartRatesConcat | src/parse/workouts.ts:24 | The rates of two joined sample lists are the rates of each, joined: order and repeated values are kept |
| WorkoutParse.HeartRatesSingle | src/parse/workouts.ts:24 | One sample gives its rate when numeric and nothing otherwise |
| WorkoutParse.Maximum | src/parse/workouts.ts:26 | The result is one of the values and at least every value |
| WorkoutParse.MeanAtMostMaximum | src/parse/workouts.ts:25-26 | The mean (`Mean`, the sum over the count) of a non-empty list never exceeds its maximum |
| WorkoutParse.SummarizeHeartRate | src/parse/workouts.ts:24-26 | Mean and maximum are both present exactly when there is a numeric sample. They are the mean and the maximum of the numeric samples, and the mean is at most the maximum |
| WorkoutParse.ParseWorkout | src/parse/workouts.ts:19-42 | Fails exactly when a timestamp fails, start first. ts and date come from the start alone and the duration is end minus start. The heart-rate figures are the summary, energy and distance pass through or are null, and the workout is kept as meta |
| Tables.Replace | src/db/schema.ts:30 | The table grows by one row unless the row's complete key was already taken |
| Tables.ReplaceMeaning | src/db/sleep.ts:4-15 | After an upsert the key holds the new row, every other key keeps its row, and a NULL-keyed row is appended |
| Tables.ReplaceTwice | src/db/workouts.ts:4-13 | Upserting the same keyed row twice is the same as once, and so is the row count |
| Tables.NullKeyAlwaysInserts | src/db/schema.ts:54 | A row with a NULL in its key always adds a row |
| Tables.KeysOf | src/db/metrics.ts:11-14 | The complete keys of a batch are exactly those some row of it carries |
| Tables.LastRowWins | src/db/metrics.ts:11-14 | Within a batch, the last row carrying a key is the one kept |
| Tables.OtherKeysUnchanged | src/db/metrics.ts:4-15 | Keys the batch does not carry keep their rows |
| Tables.ReplaceAllGrowth | src/db/metrics.ts:4-15 | A batch never removes a row or a key and adds at most one row per batch row |
| Tables.ReplaceAllKeyed | src/db/metrics.ts:11-14 | A batch (`ReplaceAll`, one upsert per row in order) overrides the keyed rows with its last row per key |
| Tables.ReplaceAllUnkeyed | src/db/metrics.ts:11-14 | A batch appends its NULL-keyed rows in order |
| Tables.ReplaceAllConcat | src/db/metrics.ts:11-14 | Two batches in a row are one batch of both |
| Tables.ReplayBatch | src/db/metrics.ts:4-15 | Replaying a batch leaves the keyed rows as the first time left them. Only its NULL-keyed rows are added again |
| Store.MetricKeyOf | src/db/schema.ts:30 | A metric row has a key exactly when its source is not NULL, and the key is (ts, metric, source, target) |
| Store.SleepKeyOf | src/db/schema.ts:54 | A sleep row has a key exactly when its source is not NULL, and the key is (date, source, target) |
| Store.WorkoutKeyOf | src/db/schema.ts:73 | A workout row always has the key (ts, name, target): ts and name are NOT NULL, and `ingest` always writes its string target |
| Store.LogImportEntry | src/db/importLog.ts:8-18 | The hash is then in the ledger. A hash already present leaves the ledger unchanged. A new hash gets the filename, the time and the three counts, and grows the ledger by one. Other hashes are untouched |
| Store.LogImportTwice | src/db/importLog.ts:15 | A second logImport of the same hash keeps the first entry, whatever its filename and counts |
| Store.Vault.UpsertMetrics | src/db/metrics.ts:4-15 | The batch commits exactly when no statement fails. It then applies every row in order, and otherwise it leaves the metrics table unchanged. No other table changes |
| Store.Vault.UpsertSleep | src/db/sleep.ts:4-15 | The sleep table becomes the INSERT OR REPLACE of the row under its key. No other table changes |
| Store.Vault.UpsertWorkout | src/db/workouts.ts:4-13 | The workouts table becomes the INSERT OR REPLACE of the row under its key. No other table changes |
| Store.Vault.AppendSync | src/server/ingest.ts:54-65 | One sync_log row is appended. Nothing else changes |
| Store.Vault.LogImport | src/db/importLog.ts:8-18 | The ledger becomes the insert-or-ignore of the entry, `HasBeenImported(hash)` (the ledger lookup of importLog.ts:4-6) then holds, and the tables do not change |
| Store.V2SleepRowsAreKeyed | src/parse/sleep.ts:51-65 | A newer-aggregate sleep row always has a key, so a second delivery replaces it |
| Store.V1SleepWithoutSourceAlwaysAdds | src/parse/sleep.ts:79 | An older-aggregate record without sleepSource gives a NULL-keyed row, so every upsert of it adds a row |
| Ingest.SleepRunAccepts | src/server/ingest.ts:34-38 | The sleep loop finishes exactly when every record normalises |
| Ingest.SleepRunRows | src/server/ingest.ts:34-38 | A finished sleep loop has upserted every row in order and counted each record once |
| Ingest.MetricRunAccepts | src/server/ingest.ts:32-44 | The metric loop finishes exactly when every entry is accepted |
| Ingest.MetricRunRows | src/server/ingest.ts:32-44 | A finished metric loop has applied all metric rows and all sleep rows in order, with the counts of those rows |
| Ingest.WorkoutRunAccepts | src/server/ingest.ts:47-51 | The workout loop finishes exactly when every workout normalises |
| Ingest.WorkoutRunRows | src/server/ingest.ts:47-51 | A finished workout loop has upserted every row in order and counted each workout |
| Ingest.WorkoutRowsSnoc | src/server/ingest.ts:47-51 | One more accepted workout appends its row to the batch, and upserting the longer batch equals upserting the shorter one and then replacing that row under its key |
| Ingest.MetricRunStopsAt | src/server/ingest.ts:32-44 | Once an entry fails, the entries after it are not looked at |
| Ingest.SyncLogOnce | src/server/ingest.ts:53-67 | `ingest` succeeds exactly when every normaliser call succeeds. Success appends exactly one sync_log row with the metric and workout counts (sleep not logged). Failure appends none. The ledger is never touched |
| Ingest.ResultIgnoresStore | src/server/ingest.ts:67 | The returned counts, or the error, depend only on the payload and the options, not on what is stored |
| Ingest.ReingestIsIdempotent | src/server/ingest.ts:23-68 | A second delivery of an accepted payload returns the same counts. It leaves every keyed row as the first delivery left it, adds only the NULL-keyed rows again, and adds one more sync_log row |
| Ingest.FailureKeepsEarlierUpserts | src/server/ingest.ts:31-54 | When a metric entry fails, the entries before it stay upserted, no workout is touched, no sync_log row is written, and that entry's error escapes |
| Ingest.SleepFailureKeepsEarlierUpserts | src/server/ingest.ts:33-37 | When a sleep record fails, the entries before its entry and the earlier records of that entry stay upserted, no workout is touched, no sync_log row is written, and the record's error escapes |
| Ingest.WorkoutFailureKeepsEarlierUpserts | src/server/ingest.ts:47-51 | When a workout fails, every metric and sleep row and the earlier workouts stay upserted, no sync_log row is written, and the workout's error escapes |
| Ingest.WorkoutRowsAreKeyed | src/db/schema.ts:73 | No workout row has a NULL key, so a repeated workout always replaces |
| Ingest.IngestCounts | src/server/ingest.ts:27-51 | The counts are one per datapoint of every metric other than sleep, one per sleep record and one per workout. Missing lists count as empty |
| Ingest.IngestSleepRecords | src/server/ingest.ts:34-38 | The inner loop ends in the state and counts of the sleep fold |
| Ingest.IngestMetricEntry | src/server/ingest.ts:33-43 | One entry ends in the state and counts of one step of the metric fold |
| Ingest.IngestMetrics | src/server/ingest.ts:32-44 | The metric loop ends in the state and counts of the metric fold |
| Ingest.IngestWorkouts | src/server/ingest.ts:47-51 | The workout loop ends in the state and counts of the workout fold |
| Ingest.IngestUsing | src/server/ingest.ts:23-68 | The vault and the result after the call are those of the `ingest` specification `IngestWith` (the fold `Run` over entries and workouts, then the sync_log row), for any normalisers |
| Ingest.Ingest | src/server/ingest.ts:23-68 | The vault and the result after the call are those of the `ingest` specification with this model's normalisers |
| Watch.ExportNamesMatch | src/cli/watch.ts:13 | Every name made of the prefix, a middle without line breaks and `.zip` or `.json`, in any letter case, matches |
| Watch.OtherNamesDoNotMatch | src/cli/watch.ts:13 | A name without the prefix, or with a line break after it, does not match |
| Watch.HaePatternIff | src/cli/watch.ts:13 | `HaePattern` holds of a name exactly when it splits into the prefix, a middle without line breaks and `.zip` or `.json`, letters in any case. A name with the prefix and another extension does not match |
| Watch.Matching | src/cli/watch.ts:45 | The kept names are exactly the listed names that match |
| Watch.MatchingConcat | src/cli/watch.ts:45 | The matches of two joined listings are the matches of each, joined: listing order and repeated names are kept |
| Watch.MatchingSingle | src/cli/watch.ts:45 | One name is kept exactly when it matches |
| Watch.LoadBuf | src/cli/watch.ts:19-29 | A `.zip` name goes to the extractor. Anything else is kept exactly when it parses as JSON with a truthy `data`, which is then the payload's data |
| Watch.FileStepEffect | src/cli/watch.ts:53-85 | Of one file step (`FileStep`, after the disposition `Dispose`): an unreadable, already-imported or unloadable file is counted as skipped and changes nothing. A loaded file is ingested. Only when `ingest` returns is its hash logged with the returned counts and the file counted as imported. When `ingest` throws, the error escapes |
| Watch.LedgeredFileSkipped | src/cli/watch.ts:63-67 | A file whose hash is in the ledger is skipped without calling `ingest` |
| Watch.UnloadableFileNotLogged | src/cli/watch.ts:69-73 | A readable but unloadable file is skipped and not recorded in the ledger |
| Watch.TickRunCounts | src/cli/watch.ts:53-85 | A run without an error counts every file exactly once |
| Watch.TickRunStopsAt | src/cli/watch.ts:75-80 | Once `ingest` throws, the remaining files are not looked at |
| Watch.TickBalance | src/cli/watch.ts:51-89 | When the tick returns, imported plus skipped equals found, and found is the number of matching names (0 for an unreadable directory) |
| Watch.UnreadableDirectory | src/cli/watch.ts:44-49 | An unreadable directory gives zero counts and leaves the vault unchanged |
| Watch.SameContentImportedOnce | src/cli/watch.ts:53-85 | Two files with the same new content in one tick: one import and one skip |
| Watch.SettledStays | src/cli/watch.ts:63-67 | A file that a ledger settles stays settled under any larger ledger |
| Watch.RunSettles | src/cli/watch.ts:53-85 | After a run without errors every file it saw is settled and the ledger has only grown |
| Watch.SettledRunIsIdle | src/cli/watch.ts:53-85 | A run over settled files only skips, and leaves the vault as it was |
| Watch.SecondTickImportsNothing | src/cli/watch.ts:39-90 | A second tick over an unchanged directory imports nothing, skips every file and leaves the vault as it was |
| Watch.TickUsing | src/cli/watch.ts:39-90 | The vault and the result after the tick are those of the tick specification `TickWith` (the fold `TickRun` of `FileStep` over the matching names), for any normalisers |
| Watch.Tick | src/cli/watch.ts:39-90 | The vault and the result after the tick are those of the tick specification with this model's normalisers |
| Vitals.ReadingOf | src/cli/vitals.ts:51-56 | A row yields a reading exactly when its meta parses to an object whose systolic and diastolic are both truthy. The reading is those two values |
| Vitals.BpMapMeaning | src/cli/vitals.ts:48-58 | A date is in the map (`BpMapOf`, the map the loop builds) exactly when one of its rows yields a reading, and then it holds the reading of the first such row, which is the latest in descending ts order |
| Vitals.BpMapDomain | src/cli/vitals.ts:48-58 | The dates of the map are exactly the dates some row gives a reading for |
| Vitals.BpMapFirst | src/cli/vitals.ts:48-58 | Each date's first row with a reading is in the map with that reading; later rows of the date do not replace it |
| Vitals.LatestBpPerDate | src/cli/vitals.ts:48-58 | The loop builds the first-valid-per-date map |
| Vitals.LeastUnique | src/cli/vitals.ts:63 | A set of dates has at most one least element |
| Vitals.Least | src/cli/vitals.ts:63 | The result is in the set and below every other member |
| Vitals.SortedDates | src/cli/vitals.ts:63 | The result is strictly ascending and holds exactly the set's dates, each once |
| Vitals.SortedIsUnique | src/cli/vitals.ts:63 | Two strictly ascending lists of the same dates are equal, so the sorted order does not depend on how the set was built |
| Vitals.MainMapOf | src/cli/vitals.ts:62 | The map's dates are exactly the main rows' dates |
| Vitals.MainMapLastWins | src/cli/vitals.ts:62 | A date maps to its last main row |
| Vitals.VitalsShape | src/cli/vitals.ts:65-76 | Of the merged rows `VitalsOf`: one output row per sorted date, in order, each built from that date's main row and reading |
| Vitals.VitalsSorted | src/cli/vitals.ts:63 | The output dates are strictly ascending, so no date repeats |
| Vitals.VitalsDates | src/cli/vitals.ts:61 | The output dates are exactly the union of the main-row dates and the dates with a valid reading |
| Vitals.VitalsFields | src/cli/vitals.ts:65-76 | Each output row carries its date's main averages and reading |
| Vitals.MissingFieldsAreNull | src/cli/vitals.ts:67-75 | A date without a main row has null averages. A date without a reading has null pressures. A date with one has both of its values |
| Vitals.NoDataNoRows | src/cli/vitals.ts:61-76 | No rows in gives no rows out |
| Vitals.MergeVitals | src/cli/vitals.ts:48-76 | The merge returns the specified rows |
| Helpers.Pad | src/cli/helpers.ts:3-5 | The result begins with the text, is right-padded with spaces, and has length max(width, length) |
| Helpers.PadIdempotent | src/cli/helpers.ts:3-5 | Padding twice is padding once |
| Helpers.Ruler | src/cli/helpers.ts:28-31 | The result begins with `── ` + caption + ` `, continues with `─` only, and has length max(width, length of that start) |
| Helpers.RulerDefaultWidth | src/cli/helpers.ts:28 | With the default width 46 every caption of up to 42 characters gives exactly 46 characters |
| Helpers.BarFilled | src/cli/helpers.ts:34 | The filled count is clamped to [0, width]. It is 0 for pct ≤ 0 and width for pct ≥ 100, and otherwise within half a cell of pct% of width |
| Helpers.BarMonotone | src/cli/helpers.ts:34 | A larger percentage never gives fewer filled cells |
| Helpers.Bar | src/cli/helpers.ts:33-36 | A bar exists exactly when width ≥ 0. It has exactly width cells, the filled count of `█` followed by `░` |
| Helpers.Arrow | src/cli/helpers.ts:22-26 | → exactly when the change is under 1% of the first value (of 1 when that is 0). Otherwise ↑ exactly when the value rose and ↓ exactly when it fell |
| Helpers.ArrowScaleInvariant | src/cli/helpers.ts:22-26 | Scaling both values by a positive factor does not change the arrow when the first value is not 0 |
| Helpers.IntText | src/cli/helpers.ts:19 | The text is the decimal digits of the integer, without leading zeros, with a leading minus when negative |
| Helpers.ToFixed1 | src/cli/helpers.ts:9 | A leading minus exactly for negatives, then digits without leading zeros, a point and one digit whose value in tenths is within half a tenth of the absolute value |
| Helpers.Fmt1 | src/cli/helpers.ts:7-10 | Null gives the em dash. A number gives its one-decimal text |
| Helpers.FmtInt | src/cli/helpers.ts:12-15 | Null gives the em dash. A number gives the locale text of its rounded value |
| Helpers.Kj2Kcal | src/cli/helpers.ts:17-20 | Null gives the em dash. Otherwise the result is an integer within half of kJ/4.184, followed by ` kcal` |
| Helpers.TrendLine | src/cli/helpers.ts:38-51 | The line is empty exactly when there are fewer than two values |

## Left out

- The HTTP server and its authentication (`src/server/app.ts`), and the
  `serve`, `start` and `index` wiring. These are plumbing.
- The `setInterval` polling of `watch` (`src/cli/watch.ts:92-111`) and all
  console output. These are timing and logging.
- `src/cli/import.ts`. Its check, ingest and log sequence is the one modelled
  for `tick`.
- **Foreign calls:** SHA-256, zip extraction (`src/util/zip.ts`),
  `readdirSync`/`readFileSync`, `path.join`, `JSON.parse` and
  `JSON.stringify`.
  - The first five are function-valued inputs (`Watch.Host`, `Watch.Folder`,
    `Vitals` `parseMeta`).
  - A `meta` snapshot is kept as the structured value it encodes
    (`HaeTypes.Snapshot`). Its text is not modelled.
- **Clock reads:** `new Date()` for `received_at`, `imported_at` and the tick
  time, and `sinceDate`. These are parameters or left out.
- **SQL-only query modules and dashboards:** these are SQL aggregation or
  rendering. This includes the first query of the vitals view (the seven
  `ROUND(AVG(...))` columns). Its result rows are inputs of `Vitals`. The
  bp query's ordering (`ORDER BY ts DESC`) is an input too.
- The DB helpers `latestMetric`, `dailyAvgs` and `dailySums` in
  `src/cli/helpers.ts`. They are single SQL queries.
- The table DDL beyond the UNIQUE key tuples.
- The `import_log` table definition is not part of this model. Its hash is
  taken as a unique key, which is what INSERT OR IGNORE needs.
- **Storage faults:** store write failures are modelled only inside
  `Store.Vault.UpsertMetrics`, to state its transaction. `ingest` never
  passes one, so a storage error escaping `ingest` is not modelled.
- Floating point: numbers are reals.
  - `Math.round`, `toFixed(1)` and the kJ division are exact.
  - NaN, infinities and the exponent form of `toFixed` for |x| ≥ 1e21 are
    not modelled.
- JSON values: null and absent keys are both `None`, and a value of the wrong
  JSON type counts as absent.
  - The source's `!== undefined` tests treat an explicit `null` Min/Avg/Max
    or systolic/diastolic as present. The model does not separate that case.
  - An `undefined` bound as a statement parameter is taken as NULL.
- `HaeTime.Parse24h`: the engine's date check is the plain ranges (month
  1..12, day within the month, hour < 24, minute and second < 60, offset
  hour < 24, offset minute < 60). V8's own leniency is not modelled. That
  covers a day 31 in a short month, 24:00:00, and years outside ±275760.
- `HaeTime.ToDateStrIsUtcDate`: stated for years 0..9999, where `toISOString`
  writes four-digit years. Extended years are rendered, but that lemma does
  not cover them.
- Text is sequences of Unicode code points:
  - JavaScript string lengths and the default `sort` count and compare UTF-16
    code units. They agree on the ASCII dates and captions used here.
  - `toLowerCase` on file names is ASCII case folding.
- `Helpers.FmtInt`: `toLocaleString` grouping is the `localeText` parameter.
  Its text is not modelled.
- `Helpers.Bar`: a negative width, which makes `repeat` throw a RangeError,
  is `None`.
- `Helpers.TrendLine`: only the empty case is stated. The composed line
  uses `Pad`, `Arrow`, `Fmt1` and `FmtInt`, whose own contracts describe it.
- `Watch.TickUsing`: an error thrown by `ingest` escapes `tick` in the source.
  Here it is the `Err` result, with the vault as the failed `ingest` left it.
- Workout fields that `parseWorkout` does not read, and the HAE payload
  fields the core ignores (units of heart-rate samples, other sleep
  keys).
