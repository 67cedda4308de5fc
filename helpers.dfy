/** The text helpers of the terminal views (src/cli/helpers.ts): padding,
    section rulers, percentage bars, trend arrows and number formatting with
    an em dash for missing values. */
module Helpers {
  import opened Wrappers
  import opened Text
  import opened WorkoutParse

  /** What a missing value is shown as. */
  const Missing: string := "\U{2014}"

  function Abs(x: real): real { if x < 0.0 then -x else x }

  function Repeat(c: char, k: nat): (s: string)
    ensures |s| == k && forall i :: 0 <= i < k ==> s[i] == c
  {
    seq(k, _ => c)
  }

  // ---- pad and ruler ----

  /** `pad`: `s.padEnd(width)`. */
  function Pad(s: string, width: int): (r: string)
    ensures |r| == if width > |s| then width else |s|
    ensures r[..|s|] == s && forall i :: |s| <= i < |r| ==> r[i] == ' '
  {
    if width > |s| then s + Repeat(' ', width - |s|) else s
  }

  /** Padding what is already wide enough changes nothing, so padding twice
      is padding once. */
  lemma PadIdempotent(s: string, width: int)
    ensures Pad(Pad(s, width), width) == Pad(s, width)
  {
  }

  /** `ruler`: the caption between `── ` and a space, continued with `─` up to
      `width` characters. */
  function Ruler(caption: string, width: int): (r: string)
    ensures var inner := "\U{2500}\U{2500} " + caption + " ";
      && |r| == (if width > |inner| then width else |inner|)
      && r[..|inner|] == inner
      && forall i :: |inner| <= i < |r| ==> r[i] == '\U{2500}'
  {
    var inner := "\U{2500}\U{2500} " + caption + " ";
    inner + Repeat('\U{2500}', if width - |inner| > 0 then width - |inner| else 0)
  }

  /** The default width of 46 fits every caption of up to 42 characters exactly. */
  lemma RulerDefaultWidth(caption: string)
    requires |caption| <= 42
    ensures |Ruler(caption, 46)| == 46
  {
  }

  // ---- bar ----

  /** `pct` percent of `width` cells, before rounding. */
  function Share(pct: real, width: int): real {
    pct / 100.0 * width as real
  }

  /** The number of filled cells: the share, rounded, clamped to `[0, width]`. */
  function BarFilled(pct: real, width: int): (f: int)
    ensures width >= 0 ==> 0 <= f <= width
    ensures width >= 0 && pct <= 0.0 ==> f == 0
    ensures width >= 0 && pct >= 100.0 ==> f == width
    ensures width >= 0 && 0.0 <= pct <= 100.0 ==>
      Share(pct, width) - 1.0 / 2.0 < f as real <= Share(pct, width) + 1.0 / 2.0
  {
    var x := Share(pct, width);
    ShareBounds(pct, width);
    var r := JsRound(x);
    var lower := if r > 0 then r else 0;
    if width < lower then width else lower
  }

  lemma ShareBounds(pct: real, width: int)
    ensures width >= 0 && pct <= 0.0 ==> Share(pct, width) <= 0.0
    ensures width >= 0 && pct >= 100.0 ==> Share(pct, width) >= width as real
    ensures width >= 0 && 0.0 <= pct <= 100.0 ==> 0.0 <= Share(pct, width) <= width as real
  {
    var w := width as real;
    if width >= 0 {
      var q := pct / 100.0;
      assert Share(pct, width) == q * w;
      if pct <= 0.0 {
        assert q <= 0.0;
        assert q * w <= 0.0;
      }
      if pct >= 100.0 {
        assert q >= 1.0;
        var d := q - 1.0;
        assert q * w - w == d * w;
        assert d >= 0.0;
        assert d * w >= 0.0;
      }
      if 0.0 <= pct <= 100.0 {
        assert 0.0 <= q <= 1.0;
        assert q * w >= 0.0;
        var d := 1.0 - q;
        assert w - q * w == d * w;
        assert d >= 0.0;
        assert d * w >= 0.0;
      }
    }
  }

  /** A larger percentage never gives fewer filled cells. */
  lemma BarMonotone(p1: real, p2: real, width: int)
    requires p1 <= p2 && width >= 0
    ensures BarFilled(p1, width) <= BarFilled(p2, width)
  {
    var w := width as real;
    assert Share(p2, width) - Share(p1, width) == (p2 - p1) / 100.0 * w;
    JsRoundMonotone(Share(p1, width), Share(p2, width));
  }

  /** `bar`: `width` cells, the filled ones first. A negative width makes
      `repeat` throw a RangeError, which is `None` here. */
  function Bar(pct: real, width: int): (r: Option<string>)
    ensures r.Some? <==> width >= 0
    ensures r.Some? ==> |r.value| == width
    ensures r.Some? ==> forall i :: 0 <= i < width ==>
      (r.value[i] == '\U{2588}' <==> i < BarFilled(pct, width)) && (r.value[i] == '\U{2591}' <==> i >= BarFilled(pct, width))
  {
    var filled := BarFilled(pct, width);
    if width < 0 then None
    else Some(Repeat('\U{2588}', filled) + Repeat('\U{2591}', width - filled))
  }

  // ---- arrow ----

  /** The change counts as flat below one percent of `first` (of 1 when `first` is 0). */
  predicate Flat(first: real, last: real) {
    Abs(last - first) < 0.01 * Abs(if first != 0.0 then first else 1.0)
  }

  /** `arrow`. */
  function Arrow(first: real, last: real): (r: string)
    ensures r == "\U{2192}" <==> Flat(first, last)
    ensures r == "\U{2191}" <==> !Flat(first, last) && last > first
    ensures r == "\U{2193}" <==> !Flat(first, last) && last < first
  {
    var delta := last - first;
    if Abs(delta) < 0.01 * Abs(if first != 0.0 then first else 1.0) then "\U{2192}"
    else if delta > 0.0 then "\U{2191}" else "\U{2193}"
  }

  /** The threshold is relative: scaling both values by the same positive
      factor leaves the arrow as it was, as long as `first` is not 0. */
  lemma ArrowScaleInvariant(first: real, last: real, k: real)
    requires k > 0.0 && first != 0.0
    ensures Arrow(k * first, k * last) == Arrow(first, last)
  {
    FlatScale(first, last, k);
    ScaleLess(k, first, last);
    ScaleLess(k, last, first);
  }

  lemma FlatScale(first: real, last: real, k: real)
    requires k > 0.0 && first != 0.0
    ensures Flat(k * first, k * last) <==> Flat(first, last)
  {
    ScaleLess(k, 0.0, first);
    ScaleLess(k, first, 0.0);
    var a := Abs(last - first);
    var b := 0.01 * Abs(first);
    ScaleAbs(k, last - first);
    ScaleAbs(k, first);
    assert k * last - k * first == k * (last - first);
    assert Abs(k * last - k * first) == k * a;
    assert 0.01 * Abs(k * first) == k * b;
    ScaleLess(k, a, b);
  }

  lemma ScaleAbs(k: real, x: real)
    requires k > 0.0
    ensures Abs(k * x) == k * Abs(x)
  {
    if x < 0.0 { assert k * x == -(k * -x); }
  }

  lemma ScaleLess(k: real, x: real, y: real)
    requires k > 0.0
    ensures k * x < k * y <==> x < y
  {
    assert k * y - k * x == k * (y - x);
  }

  // ---- number formatting ----

  /** The text of an integer (`String(n)`), with a minus sign when negative. */
  function IntText(n: int): (s: string)
    ensures n >= 0 ==> AllDigits(s) && DigitsValue(s) == n && (|s| > 1 ==> s[0] != '0')
    ensures n < 0 ==> |s| >= 2 && s[0] == '-' && AllDigits(s[1..]) && DigitsValue(s[1..]) == -n && s[1] != '0'
  {
    if n < 0 then "-" + Decimal(-n) else Decimal(n)
  }

  /** `x.toFixed(1)`: the sign, then the nearest multiple of a tenth (the
      larger one on a tie) with one digit after the point. */
  function ToFixed1(x: real): (s: string)
    ensures x < 0.0 <==> |s| > 0 && s[0] == '-'
    ensures var body := if x < 0.0 then s[1..] else s;
      && |body| >= 3 && body[|body| - 2] == '.' && AllDigits(body[..|body| - 2]) && IsDigit(body[|body| - 1])
      && (|body| > 3 ==> body[0] != '0')
      && var tenths := DigitsValue(body[..|body| - 2]) * 10 + DigitValue(body[|body| - 1]);
         Abs(x) * 10.0 - 1.0 / 2.0 < tenths as real <= Abs(x) * 10.0 + 1.0 / 2.0
  {
    var n := JsRound(Abs(x) * 10.0);
    assert n >= 0;
    var body := Decimal(n / 10) + "." + [DigitChar(n % 10)];
    assert body[..|body| - 2] == Decimal(n / 10);
    if x < 0.0 then
      var s := "-" + body;
      assert s[1..] == body;
      s
    else body
  }

  /** `fmt1`: one decimal, or the em dash for a missing value. */
  function Fmt1(n: Option<real>): (s: string)
    ensures n.None? ==> s == Missing
    ensures n.Some? ==> s == ToFixed1(n.value)
  {
    match n
    case None => Missing
    case Some(x) => ToFixed1(x)
  }

  /** `fmtInt`: the rounded value in the locale's grouping (`localeText`),
      or the em dash. */
  function FmtInt(n: Option<real>, localeText: int -> string): (s: string)
    ensures n.None? ==> s == Missing
    ensures n.Some? ==> s == localeText(JsRound(n.value))
  {
    match n
    case None => Missing
    case Some(x) => localeText(JsRound(x))
  }

  /** Kilojoules per kilocalorie. */
  const KjPerKcal: real := 4.184

  /** `kj2kcal`: the rounded number of kilocalories followed by ` kcal`, or
      the em dash. */
  function Kj2Kcal(kj: Option<real>): (s: string)
    ensures kj.None? ==> s == Missing
    ensures kj.Some? ==> |s| > 5 && s[|s| - 5..] == " kcal"
    ensures kj.Some? ==> var k := s[..|s| - 5]; var kcal := kj.value / KjPerKcal;
      && (kcal >= -(1.0 / 2.0) ==> AllDigits(k) && kcal - 1.0 / 2.0 < DigitsValue(k) as real <= kcal + 1.0 / 2.0)
      && (kcal < -(1.0 / 2.0) ==>
            && |k| >= 2 && k[0] == '-' && AllDigits(k[1..])
            && kcal - 1.0 / 2.0 < -(DigitsValue(k[1..]) as real) <= kcal + 1.0 / 2.0)
  {
    match kj
    case None => Missing
    case Some(x) =>
      var t := IntText(JsRound(x / KjPerKcal));
      var s := t + " kcal";
      assert s[..|s| - 5] == t;
      s
  }

  // ---- trend line ----

  /** `trendLine`: nothing for fewer than two values; otherwise the caption,
      first and last value, the arrow between them and the mean, each value
      formatted to one decimal or, with `round`, as a locale integer. */
  function TrendLine(values: seq<real>, caption: string, unit: string, round: bool, localeText: int -> string)
    : (s: string)
    ensures s == "" <==> |values| < 2
  {
    if |values| < 2 then ""
    else
      var first := values[0];
      var last := values[|values| - 1];
      var fmt := (x: real) => if round then FmtInt(Some(x), localeText) else Fmt1(Some(x));
      var head := "   " + Pad(caption + ":", 16);
      var s := head + " " + fmt(first) + " \U{2192} " + fmt(last) + unit + " " + Arrow(first, last)
               + "  (avg " + fmt(Mean(values)) + ")";
      assert |s| > 0;
      s
  }
}
