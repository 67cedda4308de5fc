/** The sleep normaliser (src/parse/sleep.ts): the record's shape is detected
    once, then one of three branches builds the row. */
module SleepParse {
  import opened Wrappers
  import opened HaeTypes
  import opened HaeTime

  /** The three shapes a `sleep_analysis` record may have. */
  datatype SleepVariant = Detailed | AggregatedV2 | AggregatedV1

  /** JavaScript truthiness of an optional string: present and non-empty. */
  predicate Truthy(s: Option<string>) {
    s.Some? && s.value != ""
  }

  /** A truthy `startDate` means one phase per record; else `sleepStart` with
      a truthy `source` is the newer aggregate; anything else is read as the
      older aggregate, with no error of its own. */
  function DetectSleepVariant(dp: RawRecord): (v: SleepVariant)
    ensures v == Detailed <==> Truthy(dp.startDate)
    ensures v == AggregatedV2 <==> !Truthy(dp.startDate) && dp.sleepStart.Some? && Truthy(dp.source)
    ensures v == AggregatedV1 <==> !Truthy(dp.startDate) && !(dp.sleepStart.Some? && Truthy(dp.source))
  {
    if Truthy(dp.startDate) then Detailed
    else if dp.sleepStart.Some? && Truthy(dp.source) then AggregatedV2
    else AggregatedV1
  }

  /** A row of the `sleep` table. */
  datatype NormalizedSleep = NormalizedSleep(
    date: string, sleepStart: string, sleepEnd: string,
    inBedStart: Option<string>, inBedEnd: Option<string>,
    coreH: Option<real>, deepH: Option<real>, remH: Option<real>, awakeH: Option<real>,
    asleepH: Option<real>, inBedH: Option<real>,
    schemaVer: SleepVariant, source: Option<string>, target: string,
    meta: Option<Snapshot>, sessionId: Option<string>)

  /** The field holding the start of the night for the detected variant. */
  function StartField(dp: RawRecord): Option<string> {
    if DetectSleepVariant(dp) == Detailed then dp.startDate else dp.sleepStart
  }

  /** The field holding the end of the night for the detected variant. */
  function EndField(dp: RawRecord): Option<string> {
    if DetectSleepVariant(dp) == Detailed then dp.endDate else dp.sleepEnd
  }

  /** An in-bed timestamp of the older aggregate: parsed only when truthy. */
  function OptionalIso(field: Option<string>): (r: Result<Option<string>, TimestampError>)
    ensures !Truthy(field) ==> r == Ok(None)
    ensures Truthy(field) ==> match ParseField(field)
                              case Ok(t) => r == Ok(Some(ToIso(t)))
                              case Err(e) => r == Err(e)
  {
    if Truthy(field) then
      var t :- ParseField(field);
      Ok(Some(ToIso(t)))
    else Ok(None)
  }

  /** The row of a one-phase record: no totals, no in-bed times, and the
      whole record kept as its snapshot. */
  function DetailedRow(dp: RawRecord, target: string, sessionId: Option<string>)
    : (r: Result<NormalizedSleep, TimestampError>)
    ensures r.Ok? <==> ParseField(dp.startDate).Ok? && ParseField(dp.endDate).Ok?
    ensures ParseField(dp.startDate).Err? ==> r == Err(ParseField(dp.startDate).error)
    ensures ParseField(dp.startDate).Ok? && ParseField(dp.endDate).Err? ==> r == Err(ParseField(dp.endDate).error)
    ensures r.Ok? ==> var row := r.value;
      && row.date == ToDateStr(ParseField(dp.startDate).value)
      && row.sleepStart == ToIso(ParseField(dp.startDate).value)
      && row.sleepEnd == ToIso(ParseField(dp.endDate).value)
      && row.coreH.None? && row.deepH.None? && row.remH.None? && row.awakeH.None?
      && row.asleepH.None? && row.inBedH.None?
      && row.inBedStart.None? && row.inBedEnd.None?
      && row.schemaVer == Detailed && row.source == dp.source
      && row.meta == Some(SleepSnapshot(dp))
      && row.target == target && row.sessionId == sessionId
  {
    var start :- ParseField(dp.startDate);
    var end :- ParseField(dp.endDate);
    Ok(NormalizedSleep(ToDateStr(start), ToIso(start), ToIso(end), None, None,
                       None, None, None, None, None, None,
                       Detailed, dp.source, target, Some(SleepSnapshot(dp)), sessionId))
  }

  /** The row of a newer aggregate: all six totals copied, no in-bed times,
      no snapshot. */
  function AggregatedV2Row(dp: RawRecord, target: string, sessionId: Option<string>)
    : (r: Result<NormalizedSleep, TimestampError>)
    ensures r.Ok? <==> ParseField(dp.sleepStart).Ok? && ParseField(dp.sleepEnd).Ok?
    ensures ParseField(dp.sleepStart).Err? ==> r == Err(ParseField(dp.sleepStart).error)
    ensures ParseField(dp.sleepStart).Ok? && ParseField(dp.sleepEnd).Err? ==> r == Err(ParseField(dp.sleepEnd).error)
    ensures r.Ok? ==> var row := r.value;
      && row.date == ToDateStr(ParseField(dp.sleepStart).value)
      && row.sleepStart == ToIso(ParseField(dp.sleepStart).value)
      && row.sleepEnd == ToIso(ParseField(dp.sleepEnd).value)
      && row.coreH == dp.core && row.deepH == dp.deep && row.remH == dp.rem && row.awakeH == dp.awake
      && row.asleepH == dp.asleep && row.inBedH == dp.inBed
      && row.inBedStart.None? && row.inBedEnd.None?
      && row.schemaVer == AggregatedV2 && row.source == dp.source && row.meta.None?
      && row.target == target && row.sessionId == sessionId
  {
    var start :- ParseField(dp.sleepStart);
    var end :- ParseField(dp.sleepEnd);
    Ok(NormalizedSleep(ToDateStr(start), ToIso(start), ToIso(end), None, None,
                       dp.core, dp.deep, dp.rem, dp.awake, dp.asleep, dp.inBed,
                       AggregatedV2, dp.source, target, None, sessionId))
  }

  /** The row of an older aggregate: no phase totals, asleep and in-bed
      totals copied, in-bed times parsed only when present, and the source
      taken from `sleepSource`. */
  function AggregatedV1Row(dp: RawRecord, target: string, sessionId: Option<string>)
    : (r: Result<NormalizedSleep, TimestampError>)
    ensures r.Ok? <==> && ParseField(dp.sleepStart).Ok? && ParseField(dp.sleepEnd).Ok?
                       && OptionalIso(dp.inBedStart).Ok? && OptionalIso(dp.inBedEnd).Ok?
    ensures ParseField(dp.sleepStart).Err? ==> r == Err(ParseField(dp.sleepStart).error)
    ensures ParseField(dp.sleepStart).Ok? && ParseField(dp.sleepEnd).Err? ==> r == Err(ParseField(dp.sleepEnd).error)
    ensures r.Ok? ==> var row := r.value;
      && row.date == ToDateStr(ParseField(dp.sleepStart).value)
      && row.sleepStart == ToIso(ParseField(dp.sleepStart).value)
      && row.sleepEnd == ToIso(ParseField(dp.sleepEnd).value)
      && row.coreH.None? && row.deepH.None? && row.remH.None? && row.awakeH.None?
      && row.asleepH == dp.asleep && row.inBedH == dp.inBed
      && Ok(row.inBedStart) == OptionalIso(dp.inBedStart)
      && Ok(row.inBedEnd) == OptionalIso(dp.inBedEnd)
      && row.schemaVer == AggregatedV1 && row.source == dp.sleepSource && row.meta.None?
      && row.target == target && row.sessionId == sessionId
  {
    var start :- ParseField(dp.sleepStart);
    var end :- ParseField(dp.sleepEnd);
    var bedStart :- OptionalIso(dp.inBedStart);
    var bedEnd :- OptionalIso(dp.inBedEnd);
    Ok(NormalizedSleep(ToDateStr(start), ToIso(start), ToIso(end), bedStart, bedEnd,
                       None, None, None, None, dp.asleep, dp.inBed,
                       AggregatedV1, dp.sleepSource, target, None, sessionId))
  }

  /** `normalizeSleep`: detect the shape once, then build that shape's row.
      Whatever the shape, the row is tagged with it and dated by the UTC day
      of the night's start. */
  function NormalizeSleep(dp: RawRecord, target: string, sessionId: Option<string>)
    : (r: Result<NormalizedSleep, TimestampError>)
    ensures ParseField(StartField(dp)).Err? ==> r == Err(ParseField(StartField(dp)).error)
    ensures r.Ok? ==> && ParseField(StartField(dp)).Ok? && ParseField(EndField(dp)).Ok?
                      && r.value.schemaVer == DetectSleepVariant(dp)
                      && r.value.date == ToDateStr(ParseField(StartField(dp)).value)
                      && r.value.sleepStart == ToIso(ParseField(StartField(dp)).value)
                      && r.value.sleepEnd == ToIso(ParseField(EndField(dp)).value)
                      && r.value.target == target && r.value.sessionId == sessionId
  {
    match DetectSleepVariant(dp)
    case Detailed => DetailedRow(dp, target, sessionId)
    case AggregatedV2 => AggregatedV2Row(dp, target, sessionId)
    case AggregatedV1 => AggregatedV1Row(dp, target, sessionId)
  }

  /** Phase totals (core, deep, REM, awake) are reported only by the newer
      aggregate; the other two shapes always leave them null. */
  lemma PhaseHoursOnlyInV2(dp: RawRecord, target: string, sessionId: Option<string>)
    requires NormalizeSleep(dp, target, sessionId).Ok?
    ensures var row := NormalizeSleep(dp, target, sessionId).value;
      (row.coreH.Some? || row.deepH.Some? || row.remH.Some? || row.awakeH.Some?) ==>
        DetectSleepVariant(dp) == AggregatedV2
  {
    match DetectSleepVariant(dp)
    case Detailed => assert NormalizeSleep(dp, target, sessionId) == DetailedRow(dp, target, sessionId);
    case AggregatedV2 =>
    case AggregatedV1 => assert NormalizeSleep(dp, target, sessionId) == AggregatedV1Row(dp, target, sessionId);
  }

  /** A record of no known shape (no truthy `startDate`, no `sleepStart`) is
      read as the older aggregate and fails on its missing start, rather than
      with an error saying the shape is unknown. */
  lemma UnknownShapeFallsToV1(dp: RawRecord, target: string, sessionId: Option<string>)
    requires !Truthy(dp.startDate) && dp.sleepStart.None?
    ensures DetectSleepVariant(dp) == AggregatedV1
    ensures NormalizeSleep(dp, target, sessionId) == Err(MissingTimestamp)
  {
  }
}
