/** The shapes of the health export payload (src/types/hae.ts), as the core
    reads them. JSON objects are structural: a record of the `data` list of a
    metric carries whichever keys the exporter wrote, so every key the core
    looks at is optional here, and the normalisers decide the variant. */
module HaeTypes {
  import opened Wrappers

  /** One object of a metric's `data` list: a plain datapoint (`date`, `qty`,
      `Min`/`Avg`/`Max`, `systolic`/`diastolic`, `source`) or, under
      `sleep_analysis`, a sleep record in one of its three shapes. A key that
      is absent, or present with a value of another JSON type, is `None`. */
  datatype RawRecord = RawRecord(
    date: Option<string>,
    qty: Option<real>,
    min: Option<real>, avg: Option<real>, max: Option<real>,
    systolic: Option<real>, diastolic: Option<real>,
    source: Option<string>,
    // detailed sleep (one phase per record)
    startDate: Option<string>, endDate: Option<string>, value: Option<string>,
    // aggregated sleep, both versions
    sleepStart: Option<string>, sleepEnd: Option<string>,
    asleep: Option<real>, inBed: Option<real>,
    // aggregated sleep v2 phase totals
    core: Option<real>, deep: Option<real>, rem: Option<real>, awake: Option<real>,
    // aggregated sleep v1
    inBedStart: Option<string>, inBedEnd: Option<string>,
    sleepSource: Option<string>, inBedSource: Option<string>)

  /** One entry of the payload's `metrics` list. */
  datatype MetricEntry = MetricEntry(name: string, units: string, data: seq<RawRecord>)

  /** `{ qty, units }` sub-objects of a workout. */
  datatype Measure = Measure(qty: real, units: string)

  /** A heart-rate sample; `qty` is `None` when it is not a JSON number. */
  datatype HeartRateSample = HeartRateSample(date: string, qty: Option<real>)

  /** One entry of the payload's `workouts` list (the keys the core reads). */
  datatype Workout = Workout(
    name: string, start: string, end: string,
    activeEnergyBurned: Option<Measure>,
    distance: Option<Measure>,
    heartRateData: Option<seq<HeartRateSample>>)

  /** The payload's `data` object; either list may be missing. */
  datatype PayloadData = PayloadData(metrics: Option<seq<MetricEntry>>, workouts: Option<seq<Workout>>)

  datatype HaePayload = HaePayload(data: PayloadData)

  /** What `JSON.stringify` writes into a `meta` column. The model keeps the
      structured value itself, so decoding a stored snapshot gives back the
      original record exactly. A blood-pressure pair omits a missing side, as
      `JSON.stringify` drops `undefined` properties. */
  datatype Snapshot =
    | PressurePair(systolic: Option<real>, diastolic: Option<real>)
    | SleepSnapshot(record: RawRecord)
    | WorkoutSnapshot(workout: Workout)
}
