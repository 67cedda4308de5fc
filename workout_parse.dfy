/** The workout normaliser (src/parse/workouts.ts): duration from the two
    timestamps, mean and maximum of the numeric heart-rate samples, and the
    remaining fields passed through. */
module WorkoutParse {
  import opened Wrappers
  import opened HaeTypes
  import opened HaeTime
  import opened Text

  /** A row of the `workouts` table. */
  datatype NormalizedWorkout = NormalizedWorkout(
    ts: string, date: string, name: string, durationS: int,
    caloriesKj: Option<real>, distance: Option<real>, distanceUnit: Option<string>,
    avgHr: Option<real>, maxHr: Option<real>,
    target: string, meta: Snapshot, sessionId: Option<string>)

  /** The seconds between two instants, computed the way the source does it:
      millisecond timestamps, divided by 1000, rounded. */
  function DurationSeconds(start: Instant, end: Instant): int {
    JsRound((end * 1000 - start * 1000) as real / 1000.0)
  }

  /** Instants are whole seconds, so the rounding never changes anything: the
      duration is exactly end minus start, negative when the end comes first. */
  lemma DurationIsExact(start: Instant, end: Instant)
    ensures DurationSeconds(start, end) == end - start
  {
    var d := end - start;
    assert (end * 1000 - start * 1000) as real / 1000.0 == d as real;
  }

  /** The numeric samples, in order; non-numeric ones are dropped. */
  function HeartRates(samples: seq<HeartRateSample>): (xs: seq<real>)
    ensures |xs| <= |samples|
    ensures forall i :: 0 <= i < |xs| ==> exists j :: 0 <= j < |samples| && samples[j].qty == Some(xs[i])
  {
    if |samples| == 0 then []
    else
      var rest := HeartRates(samples[..|samples| - 1]);
      match samples[|samples| - 1].qty
      case Some(q) => rest + [q]
      case None => rest
  }

  /** Every numeric sample is kept. */
  lemma {:induction false} HeartRatesKeepsNumbers(samples: seq<HeartRateSample>, j: int)
    requires 0 <= j < |samples| && samples[j].qty.Some?
    ensures samples[j].qty.value in HeartRates(samples)
  {
    if j < |samples| - 1 {
      HeartRatesKeepsNumbers(samples[..|samples| - 1], j);
    }
  }

  /** The filter works sample by sample: the rates of a join are the rates of
      its parts, joined, so order and repeated values are kept. */
  lemma {:induction false} HeartRatesConcat(a: seq<HeartRateSample>, b: seq<HeartRateSample>)
    ensures HeartRates(a + b) == HeartRates(a) + HeartRates(b)
  {
    if |b| == 0 {
      assert a + b == a;
    } else {
      var b' := b[..|b| - 1];
      var x := a + b;
      HeartRatesConcat(a, b');
      assert x[..|x| - 1] == a + b' && x[|x| - 1] == b[|b| - 1];
      HeartRatesSnoc(x);
      HeartRatesSnoc(b);
    }
  }

  lemma HeartRatesSnoc(samples: seq<HeartRateSample>)
    requires |samples| > 0
    ensures var last := samples[|samples| - 1];
      HeartRates(samples) == HeartRates(samples[..|samples| - 1]) + if last.qty.Some? then [last.qty.value] else []
  {
  }

  /** One sample gives its rate when it is numeric, and nothing otherwise. */
  lemma HeartRatesSingle(x: HeartRateSample)
    ensures HeartRates([x]) == if x.qty.Some? then [x.qty.value] else []
  {
    assert [x][..0] == [];
  }

  /** A non-numeric sample anywhere in the list changes nothing. */
  lemma {:induction false} NonNumericIgnored(a: seq<HeartRateSample>, b: seq<HeartRateSample>, date: string)
    ensures HeartRates(a + [HeartRateSample(date, None)] + b) == HeartRates(a + b)
  {
    var gap := [HeartRateSample(date, None)];
    if |b| == 0 {
      assert a + gap + b == a + gap && (a + gap)[..|a|] == a;
      assert a + b == a;
    } else {
      var b' := b[..|b| - 1];
      var x, y := a + gap + b, a + b;
      NonNumericIgnored(a, b', date);
      assert x[..|x| - 1] == a + gap + b' && x[|x| - 1] == b[|b| - 1];
      assert y[..|y| - 1] == a + b' && y[|y| - 1] == b[|b| - 1];
    }
  }

  function Sum(xs: seq<real>): real {
    if |xs| == 0 then 0.0 else Sum(xs[..|xs| - 1]) + xs[|xs| - 1]
  }

  /** `Math.max` of a non-empty list. */
  function Maximum(xs: seq<real>): (m: real)
    requires |xs| > 0
    ensures m in xs
    ensures forall i :: 0 <= i < |xs| ==> xs[i] <= m
  {
    if |xs| == 1 then xs[0]
    else
      var rest := Maximum(xs[..|xs| - 1]);
      assert forall i :: 0 <= i < |xs| - 1 ==> xs[..|xs| - 1][i] == xs[i];
      if xs[|xs| - 1] > rest then xs[|xs| - 1] else rest
  }

  /** The sum of values each at most `m` is at most `m` times their number. */
  lemma {:induction false} SumBound(xs: seq<real>, m: real)
    requires forall i :: 0 <= i < |xs| ==> xs[i] <= m
    ensures Sum(xs) <= |xs| as real * m
  {
    if |xs| > 0 {
      SumBound(xs[..|xs| - 1], m);
    }
  }

  /** The arithmetic mean of a non-empty list. */
  function Mean(xs: seq<real>): real
    requires |xs| > 0
  {
    Sum(xs) / |xs| as real
  }

  /** The mean never exceeds the maximum. */
  lemma MeanAtMostMaximum(xs: seq<real>)
    requires |xs| > 0
    ensures Mean(xs) <= Maximum(xs)
  {
    var n := |xs| as real;
    var m := Maximum(xs);
    SumBound(xs, m);
    DivideBoth(Sum(xs), n * m, n);
    ScaleBack(n, m);
  }

  lemma ScaleBack(n: real, m: real)
    requires n > 0.0
    ensures n * m / n == m
  {
  }

  lemma DivideBoth(a: real, b: real, n: real)
    requires n > 0.0 && a <= b
    ensures a / n <= b / n
  {
    var d := b - a;
    assert b / n == a / n + d / n;
    assert d / n >= 0.0;
  }

  /** The heart-rate figures of a workout: mean and maximum of the numeric
      samples, or both null when there are none. */
  datatype HeartRateSummary = HeartRateSummary(avg: Option<real>, max: Option<real>)

  function SummarizeHeartRate(samples: Option<seq<HeartRateSample>>): (s: HeartRateSummary)
    ensures var hr := HeartRates(samples.GetOr([]));
      && (s.avg.Some? <==> |hr| > 0) && (s.max.Some? <==> |hr| > 0)
      && (|hr| > 0 ==> s.avg.value == Mean(hr))
      && (|hr| > 0 ==> s.max.value in hr && forall i :: 0 <= i < |hr| ==> hr[i] <= s.max.value)
      && (|hr| > 0 ==> s.avg.value <= s.max.value)
  {
    var hr := HeartRates(samples.GetOr([]));
    if |hr| > 0 then
      MeanAtMostMaximum(hr);
      HeartRateSummary(Some(Mean(hr)), Some(Maximum(hr)))
    else HeartRateSummary(None, None)
  }

  /** `parseWorkout`. The start is read before the end; `ts` and `date` come
      from the start alone. */
  function ParseWorkout(w: Workout, target: string, sessionId: Option<string>)
    : (r: Result<NormalizedWorkout, TimestampError>)
    ensures r.Ok? <==> ParseHaeTime(w.start).Ok? && ParseHaeTime(w.end).Ok?
    ensures ParseHaeTime(w.start).Err? ==> r == Err(ParseHaeTime(w.start).error)
    ensures ParseHaeTime(w.start).Ok? && ParseHaeTime(w.end).Err? ==> r == Err(ParseHaeTime(w.end).error)
    ensures r.Ok? ==> var start, end := ParseHaeTime(w.start).value, ParseHaeTime(w.end).value;
      && r.value.ts == ToIso(start) && r.value.date == ToDateStr(start)
      && r.value.durationS == end - start
      && r.value.name == w.name && r.value.target == target && r.value.sessionId == sessionId
      && r.value.meta == WorkoutSnapshot(w)
      && r.value.avgHr == SummarizeHeartRate(w.heartRateData).avg
      && r.value.maxHr == SummarizeHeartRate(w.heartRateData).max
      && r.value.caloriesKj == (if w.activeEnergyBurned.Some? then Some(w.activeEnergyBurned.value.qty) else None)
      && r.value.distance == (if w.distance.Some? then Some(w.distance.value.qty) else None)
      && r.value.distanceUnit == (if w.distance.Some? then Some(w.distance.value.units) else None)
  {
    var start :- ParseHaeTime(w.start);
    var end :- ParseHaeTime(w.end);
    var hr := SummarizeHeartRate(w.heartRateData);
    DurationIsExact(start, end);
    Ok(NormalizedWorkout(
      ToIso(start), ToDateStr(start), w.name, DurationSeconds(start, end),
      if w.activeEnergyBurned.Some? then Some(w.activeEnergyBurned.value.qty) else None,
      if w.distance.Some? then Some(w.distance.value.qty) else None,
      if w.distance.Some? then Some(w.distance.value.units) else None,
      hr.avg, hr.max, target, WorkoutSnapshot(w), sessionId))
  }
}
