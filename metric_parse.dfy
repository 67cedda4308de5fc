/** The metric normaliser (src/parse/metrics.ts): one row per datapoint, each
    classified as a range triple, a blood-pressure pair or a scalar, in that
    order of priority. */
module MetricParse {
  import opened Wrappers
  import opened HaeTypes
  import opened HaeTime

  const SleepMetricName: string := "sleep_analysis"

  /** The representation a datapoint was found to carry. */
  datatype MetricShape =
    | RangeTriple(min: Option<real>, avg: Option<real>, max: Option<real>)
    | PressureReading(systolic: Option<real>, diastolic: Option<real>)
    | ScalarQuantity(qty: Option<real>)

  /** Range triple first, then the pressure pair, else a scalar. */
  function ClassifyDatapoint(dp: RawRecord): (shape: MetricShape)
    ensures shape.RangeTriple? <==> dp.min.Some? || dp.avg.Some? || dp.max.Some?
    ensures shape.PressureReading? <==> !shape.RangeTriple? && (dp.systolic.Some? || dp.diastolic.Some?)
    ensures shape.RangeTriple? ==> shape == RangeTriple(dp.min, dp.avg, dp.max)
    ensures shape.PressureReading? ==> shape == PressureReading(dp.systolic, dp.diastolic)
    ensures shape.ScalarQuantity? ==> shape == ScalarQuantity(dp.qty)
  {
    if dp.min.Some? || dp.avg.Some? || dp.max.Some? then RangeTriple(dp.min, dp.avg, dp.max)
    else if dp.systolic.Some? || dp.diastolic.Some? then PressureReading(dp.systolic, dp.diastolic)
    else ScalarQuantity(dp.qty)
  }

  /** A row of the `metrics` table. */
  datatype NormalizedMetric = NormalizedMetric(
    ts: string, date: string, metric: string,
    qty: Option<real>, min: Option<real>, avg: Option<real>, max: Option<real>,
    units: string, source: Option<string>, target: string,
    meta: Option<Snapshot>, sessionId: Option<string>)

  /** No row carries two representations. */
  predicate AtMostOneRepresentation(row: NormalizedMetric) {
    && (row.qty.Some? ==> row.min.None? && row.avg.None? && row.max.None? && row.meta.None?)
    && (row.meta.Some? ==> row.qty.None? && row.min.None? && row.avg.None? && row.max.None?)
  }

  /** The row for one datapoint of metric `m`. */
  function NormalizeDatapoint(dp: RawRecord, m: MetricEntry, target: string, sessionId: Option<string>)
    : (r: Result<NormalizedMetric, TimestampError>)
    ensures r.Ok? <==> ParseField(dp.date).Ok?
    ensures r.Err? ==> r.error == ParseField(dp.date).error
    ensures r.Ok? ==> AtMostOneRepresentation(r.value)
    ensures r.Ok? ==> var row := r.value;
      && row.ts == ToIso(ParseField(dp.date).value)
      && row.date == ToDateStr(ParseField(dp.date).value)
      && row.metric == m.name && row.units == m.units && row.source == dp.source
      && row.target == target && row.sessionId == sessionId
    ensures r.Ok? && (dp.min.Some? || dp.avg.Some? || dp.max.Some?) ==>
      && r.value.min == dp.min && r.value.avg == dp.avg && r.value.max == dp.max
      && r.value.qty.None? && r.value.meta.None?
    ensures r.Ok? && dp.min.None? && dp.avg.None? && dp.max.None? && (dp.systolic.Some? || dp.diastolic.Some?) ==>
      && r.value.meta == Some(PressurePair(dp.systolic, dp.diastolic))
      && r.value.qty.None? && r.value.min.None? && r.value.avg.None? && r.value.max.None?
    ensures r.Ok? && dp.min.None? && dp.avg.None? && dp.max.None? && dp.systolic.None? && dp.diastolic.None? ==>
      && r.value.qty == dp.qty
      && r.value.min.None? && r.value.avg.None? && r.value.max.None? && r.value.meta.None?
  {
    match ParseField(dp.date)
    case Err(e) => Err(e)
    case Ok(t) =>
      var shape := ClassifyDatapoint(dp);
      var row := NormalizedMetric(ToIso(t), ToDateStr(t), m.name, None, None, None, None,
                                  m.units, dp.source, target, None, sessionId);
      Ok(match shape
         case RangeTriple(lo, mean, hi) => row.(min := lo, avg := mean, max := hi)
         case PressureReading(sys, dia) => row.(meta := Some(PressurePair(sys, dia)))
         case ScalarQuantity(q) => row.(qty := q))
  }

  /** `parseMetric`: nothing for the sleep pseudo-metric (handled by the sleep
      normaliser), otherwise one row per datapoint. */
  function ParseMetric(m: MetricEntry, target: string, sessionId: Option<string>)
    : (r: Result<seq<NormalizedMetric>, TimestampError>)
    ensures m.name == SleepMetricName ==> r == Ok([])
    ensures m.name != SleepMetricName ==>
      && (r.Ok? <==> forall i :: 0 <= i < |m.data| ==> ParseField(m.data[i].date).Ok?)
      && (r.Ok? ==> |r.value| == |m.data|
                    && forall i :: 0 <= i < |m.data| ==>
                         NormalizeDatapoint(m.data[i], m, target, sessionId) == Ok(r.value[i]))
  {
    if m.name == SleepMetricName then Ok([])
    else TryMap(m.data, dp => NormalizeDatapoint(dp, m, target, sessionId))
  }

  /** The batch fails with the error of its first datapoint whose date does not parse. */
  lemma ParseMetricFirstFailure(m: MetricEntry, target: string, sessionId: Option<string>)
    requires m.name != SleepMetricName && ParseMetric(m, target, sessionId).Err?
    ensures exists i :: 0 <= i < |m.data|
                        && ParseField(m.data[i].date) == Err(ParseMetric(m, target, sessionId).error)
                        && forall j :: 0 <= j < i ==> ParseField(m.data[j].date).Ok?
  {
    var f := dp => NormalizeDatapoint(dp, m, target, sessionId);
    var i :| 0 <= i < |m.data| && f(m.data[i]) == Err(TryMap(m.data, f).error)
             && forall j :: 0 <= j < i ==> f(m.data[j]).Ok?;
    assert ParseField(m.data[i].date) == Err(ParseMetric(m, target, sessionId).error);
  }
}
