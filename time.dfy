/** The timestamp parser of the health export (src/parse/time.ts): two textual
    forms are tried in order, the wall-clock time is read against its fixed
    `±HHMM` offset, and instants are rendered back as ISO-8601 UTC text. */
module HaeTime {
  import opened Wrappers
  import opened Text
  import opened Calendar

  /** Seconds since 1970-01-01T00:00:00Z. The engine counts milliseconds, but
      every parsed instant is a whole second. */
  type Instant = int

  /** `MissingTimestamp`: the field was absent, so the parser was handed
      `undefined` and failed before matching; `BadTimestamp`: the
      "Failed to parse HAE timestamp" error, naming the text. */
  datatype TimestampError = MissingTimestamp | BadTimestamp(text: string)

  /** What the engine reads from `YYYY-MM-DDTHH:MM:SS±HH:MM`. */
  datatype Stamp = Stamp(date: Date, hour: int, minute: int, second: int,
                         negativeOffset: bool, offsetHours: int, offsetMinutes: int)

  /** When `new Date(...)` yields a valid date (its `getTime()` is not NaN). */
  predicate EngineAccepts(st: Stamp) {
    && ValidDate(st.date)
    && 0 <= st.hour < 24 && 0 <= st.minute < 60 && 0 <= st.second < 60
    && 0 <= st.offsetHours < 24 && 0 <= st.offsetMinutes < 60
  }

  function OffsetSeconds(st: Stamp): int {
    (if st.negativeOffset then -1 else 1) * (st.offsetHours * 3600 + st.offsetMinutes * 60)
  }

  /** The wall-clock reading as if it were UTC. */
  function WallClockSeconds(st: Stamp): int
    requires 1 <= st.date.month <= 12
  {
    DaysFromCivil(st.date) * 86400 + st.hour * 3600 + st.minute * 60 + st.second
  }

  /** The instant a stamp denotes: its wall clock minus its fixed offset. */
  function InstantOf(st: Stamp): Instant
    requires 1 <= st.date.month <= 12
  {
    WallClockSeconds(st) - OffsetSeconds(st)
  }

  // ---- the two regular expressions ----

  /** `\d{4}-\d{2}-\d{2}` */
  predicate DateShaped(s: string) {
    && |s| == 10 && s[4] == '-' && s[7] == '-'
    && AllDigits(s[..4]) && AllDigits(s[5..7]) && AllDigits(s[8..])
  }

  /** `\d{2}` */
  predicate TwoDigits(s: string) { |s| == 2 && AllDigits(s) }

  /** `[+-]\d{4}` */
  predicate OffsetShaped(s: string) {
    |s| == 5 && (s[0] == '+' || s[0] == '-') && AllDigits(s[1..])
  }

  /** `[APap][Mm]` */
  predicate MeridiemShaped(s: string) {
    |s| == 2 && s[0] in "APap" && s[1] in "Mm"
  }

  /** The narrow no-break space U+202F. */
  const NarrowNoBreakSpace: char := '\U{202F}'

  datatype Captures24 = Captures24(date: string, h: string, m: string, s: string, tz: string)

  predicate WellFormed24(c: Captures24) {
    DateShaped(c.date) && TwoDigits(c.h) && TwoDigits(c.m) && TwoDigits(c.s) && OffsetShaped(c.tz)
  }

  /** `^(\d{4}-\d{2}-\d{2}) (\d{2}):(\d{2}):(\d{2}) ([+-]\d{4})$` */
  function Match24(s: string): (r: Option<Captures24>)
    ensures r.Some? ==> WellFormed24(r.value)
    ensures r.Some? ==> s == r.value.date + " " + r.value.h + ":" + r.value.m + ":" + r.value.s + " " + r.value.tz
  {
    if |s| == 25 && DateShaped(s[..10]) && s[10] == ' ' && TwoDigits(s[11..13]) && s[13] == ':'
       && TwoDigits(s[14..16]) && s[16] == ':' && TwoDigits(s[17..19]) && s[19] == ' '
       && OffsetShaped(s[20..])
    then
      var c := Captures24(s[..10], s[11..13], s[14..16], s[17..19], s[20..]);
      assert s == c.date + " " + c.h + ":" + c.m + ":" + c.s + " " + c.tz;
      Some(c)
    else None
  }

  datatype Captures12 = Captures12(date: string, h: string, m: string, s: string, sep: char,
                                   ampm: string, tz: string)

  predicate WellFormed12(c: Captures12) {
    && DateShaped(c.date) && 1 <= |c.h| <= 2 && AllDigits(c.h) && TwoDigits(c.m) && TwoDigits(c.s)
    && (c.sep == ' ' || c.sep == NarrowNoBreakSpace) && MeridiemShaped(c.ampm) && OffsetShaped(c.tz)
  }

  function Text12Of(c: Captures12): string {
    c.date + " " + c.h + ":" + c.m + ":" + c.s + [c.sep] + c.ampm + " " + c.tz
  }

  /** The groups of a text of the 12-hour length whose hour has `k` digits. */
  function Split12(s: string, k: int): Captures12
    requires (k == 1 || k == 2) && |s| == 26 + k
  {
    Captures12(s[..10], s[11..11 + k], s[12 + k..14 + k], s[15 + k..17 + k], s[17 + k],
               s[18 + k..20 + k], s[21 + k..])
  }

  /** `^(\d{4}-\d{2}-\d{2}) (\d{1,2}):(\d{2}):(\d{2})[\u202f ]([APap][Mm]) ([+-]\d{4})$`: the
      hour has one digit exactly when a colon follows its first digit. */
  function Match12(s: string): (r: Option<Captures12>)
    ensures r.Some? ==> WellFormed12(r.value) && s == Text12Of(r.value)
  {
    var k := if |s| >= 13 && s[12] == ':' then 1 else 2;
    if |s| == 26 + k && s[10] == ' ' && s[11 + k] == ':' && s[14 + k] == ':' && s[20 + k] == ' '
       && WellFormed12(Split12(s, k))
    then
      Slices12(s, k);
      Some(Split12(s, k))
    else None
  }

  /** A string of the 12-hour length is the join of its fields and the single
      characters between them. */
  lemma Slices12(s: string, k: int)
    requires (k == 1 || k == 2) && |s| == 26 + k
    ensures s == s[..10] + [s[10]] + s[11..11 + k] + [s[11 + k]] + s[12 + k..14 + k] + [s[14 + k]]
                 + s[15 + k..17 + k] + [s[17 + k]] + s[18 + k..20 + k] + [s[20 + k]] + s[21 + k..]
  {
    if k == 1 {
      assert s == s[..10] + [s[10]] + s[11..12] + [s[12]] + s[13..15] + [s[15]]
                 + s[16..18] + [s[18]] + s[19..21] + [s[21]] + s[22..];
    } else {
      assert s == s[..10] + [s[10]] + s[11..13] + [s[13]] + s[14..16] + [s[16]]
                 + s[17..19] + [s[19]] + s[20..22] + [s[22]] + s[23..];
    }
  }

  /** The stamp the engine reads from `${date}T${hh}:${m}:${s}${tz[0..3]}:${tz[3..]}`. */
  function StampOf(date: string, hour: int, m: string, s: string, tz: string): Stamp
    requires DateShaped(date) && TwoDigits(m) && TwoDigits(s) && OffsetShaped(tz)
  {
    Stamp(Date(DigitsValue(date[..4]), DigitsValue(date[5..7]), DigitsValue(date[8..])),
          hour, DigitsValue(m), DigitsValue(s),
          tz[0] == '-', DigitsValue(tz[1..3]), DigitsValue(tz[3..]))
  }

  /** `parse24h`: the date, or `None` for an Invalid Date. */
  function Parse24h(c: Captures24): (r: Option<Instant>)
    requires WellFormed24(c)
    ensures r.Some? <==> EngineAccepts(StampOf(c.date, DigitsValue(c.h), c.m, c.s, c.tz))
    ensures r.Some? ==> r.value == InstantOf(StampOf(c.date, DigitsValue(c.h), c.m, c.s, c.tz))
  {
    var st := StampOf(c.date, DigitsValue(c.h), c.m, c.s, c.tz);
    if EngineAccepts(st) then Some(InstantOf(st)) else None
  }

  /** The 12-hour clock reading `hour` `AM`/`PM` as a 24-hour clock hour. */
  function To24Hour(hour: nat, isAm: bool): (h: nat)
    ensures 1 <= hour <= 12 ==> 0 <= h < 24 && h % 12 == hour % 12 && (h < 12 <==> isAm)
  {
    if isAm && hour == 12 then 0
    else if !isAm && hour != 12 then hour + 12
    else hour
  }

  /** `parse12h`: the date, or `None` for an Invalid Date. */
  function Parse12h(c: Captures12): (r: Option<Instant>)
    requires WellFormed12(c)
    ensures r.Some? <==> EngineAccepts(StampOf(c.date, To24Hour(DigitsValue(c.h), c.ampm[0] in "Aa"), c.m, c.s, c.tz))
    ensures r.Some? ==>
      r.value == InstantOf(StampOf(c.date, To24Hour(DigitsValue(c.h), c.ampm[0] in "Aa"), c.m, c.s, c.tz))
  {
    var isAm := LowerAscii(c.ampm[0]) == 'a' && LowerAscii(c.ampm[1]) == 'm';
    var st := StampOf(c.date, To24Hour(DigitsValue(c.h), isAm), c.m, c.s, c.tz);
    if EngineAccepts(st) then Some(InstantOf(st)) else None
  }

  /** `parseHaeTime`: the 24-hour form first, then the 12-hour form, else the error naming `s`. */
  function ParseHaeTime(s: string): (r: Result<Instant, TimestampError>)
    ensures r.Err? ==> r.error == BadTimestamp(s)
    ensures r.Ok? <==> (Match24(s).Some? && Parse24h(Match24(s).value).Some?)
                       || (Match12(s).Some? && Parse12h(Match12(s).value).Some?)
    ensures Match24(s).Some? && Parse24h(Match24(s).value).Some? ==>
      r == Ok(Parse24h(Match24(s).value).value)
    ensures !(Match24(s).Some? && Parse24h(Match24(s).value).Some?)
            && Match12(s).Some? && Parse12h(Match12(s).value).Some? ==>
      r == Ok(Parse12h(Match12(s).value).value)
  {
    var m24 := Match24(s);
    if m24.Some? && Parse24h(m24.value).Some? then Ok(Parse24h(m24.value).value)
    else
      var m12 := Match12(s);
      if m12.Some? && Parse12h(m12.value).Some? then Ok(Parse12h(m12.value).value)
      else Err(BadTimestamp(s))
  }

  /** The parser applied to an optional field: an absent field fails too. */
  function ParseField(field: Option<string>): (r: Result<Instant, TimestampError>)
    ensures field.None? ==> r == Err(MissingTimestamp)
    ensures field.Some? ==> r == ParseHaeTime(field.value)
  {
    match field
    case None => Err(MissingTimestamp)
    case Some(s) => ParseHaeTime(s)
  }

  // ---- rendering instants (toISOString) ----

  /** Four digits for years 0..9999, otherwise a sign and six digits. */
  function YearText(y: int): (s: string)
    ensures 0 <= y <= 9999 ==> |s| == 4 && AllDigits(s) && DigitsValue(s) == y
    ensures |s| >= 4
  {
    if 0 <= y <= 9999 then
      assert |Decimal(y)| <= 4 by { DecimalLength(y); }
      ZeroPad(y, 4)
    else if y < 0 then "-" + ZeroPad(-y, 6)
    else "+" + ZeroPad(y, 6)
  }

  lemma DecimalLength(n: nat)
    requires n <= 9999
    ensures |Decimal(n)| <= 4
  {
    if n >= 100 {
      var q := n / 10;
      assert 10 <= q < 1000;
      assert |Decimal(n)| == |Decimal(q)| + 1;
      if q >= 100 {
        assert 10 <= q / 10 < 100;
        assert |Decimal(q)| == |Decimal(q / 10)| + 1;
      }
    }
  }

  /** `YYYY-MM-DD` of a calendar date. */
  function DateText(d: Date): string
    requires ValidDate(d)
  {
    YearText(d.year) + "-" + Pad2(d.month) + "-" + Pad2(d.day)
  }

  /** The UTC calendar date of an instant. */
  function UtcDate(t: Instant): (d: Date)
    ensures ValidDate(d)
  {
    CivilFromDays(t / 86400)
  }

  /** `THH:MM:SS.000Z`: the UTC clock time of an instant. */
  function ClockText(t: Instant): (s: string)
    ensures |s| == 14
  {
    var sod := t % 86400;
    "T" + Pad2(sod / 3600) + ":" + Pad2(sod % 3600 / 60) + ":" + Pad2(sod % 60) + ".000Z"
  }

  /** `toIso`: `YYYY-MM-DDTHH:MM:SS.000Z` in UTC. */
  function ToIso(t: Instant): (s: string)
    ensures |s| >= 24
  {
    DateText(UtcDate(t)) + ClockText(t)
  }

  /** `toDateStr`: the first ten characters of `toIso`. */
  function ToDateStr(t: Instant): (s: string)
    ensures |s| == 10
  {
    ToIso(t)[..10]
  }

  /** A date text of a four-digit year has ten characters. */
  lemma DateTextLength(d: Date)
    requires ValidDate(d) && 0 <= d.year <= 9999
    ensures |DateText(d)| == 10
  {
  }

  /** For the years `Date` renders with four digits, the first ten characters of
      the ISO text are exactly the UTC calendar date. */
  lemma ToDateStrIsUtcDate(t: Instant)
    requires 0 <= UtcDate(t).year <= 9999
    ensures ToDateStr(t) == DateText(UtcDate(t))
  {
    var date := DateText(UtcDate(t));
    DateTextLength(UtcDate(t));
    assert (date + ClockText(t))[..|date|] == date;
  }

  // ---- the two textual forms of one stamp ----

  function Join24(c: Captures24): string {
    c.date + " " + c.h + ":" + c.m + ":" + c.s + " " + c.tz
  }

  /** Matching the 24-hour shape recovers exactly the captured groups. */
  lemma Match24Recovers(c: Captures24)
    requires WellFormed24(c)
    ensures Match24(Join24(c)) == Some(c)
  {
    var s := Join24(c);
    assert s[..10] == c.date && s[11..13] == c.h && s[14..16] == c.m;
    assert s[17..19] == c.s && s[20..] == c.tz;
  }

  /** Matching the 12-hour shape recovers exactly the captured groups, and
      such a text never has the 24-hour shape. */
  lemma Match12Recovers(c: Captures12)
    requires WellFormed12(c)
    ensures Match24(Text12Of(c)).None?
    ensures Match12(Text12Of(c)) == Some(c)
  {
    if |c.h| == 1 {
      Match12RecoversShortHour(c);
    } else {
      Match12RecoversLongHour(c);
    }
  }

  lemma Match12RecoversShortHour(c: Captures12)
    requires WellFormed12(c) && |c.h| == 1
    ensures Match12(Text12Of(c)) == Some(c)
  {
    Text12Slices(c);
  }

  lemma Match12RecoversLongHour(c: Captures12)
    requires WellFormed12(c) && |c.h| == 2
    ensures Match12(Text12Of(c)) == Some(c)
  {
    Text12Slices(c);
    assert IsDigit(c.h[1]);
  }

  /** Where the fields and separators of a 12-hour text sit. */
  lemma Text12Slices(c: Captures12)
    requires |c.date| == 10 && (|c.h| == 1 || |c.h| == 2) && |c.m| == 2 && |c.s| == 2
    requires |c.ampm| == 2 && |c.tz| == 5
    ensures var s, k := Text12Of(c), |c.h|;
      && |s| == 26 + k && s[10] == ' ' && s[11 + k] == ':' && s[14 + k] == ':' && s[20 + k] == ' '
      && Split12(s, k) == c && (k == 1 ==> s[12] == ':') && (k == 2 ==> s[12] == c.h[1])
  {
    var s := Text12Of(c);
    if |c.h| == 1 {
      assert s[..10] == c.date && s[11..12] == c.h && s[13..15] == c.m && s[16..18] == c.s;
      assert s[18] == c.sep && s[19..21] == c.ampm && s[22..] == c.tz;
    } else {
      assert s[..10] == c.date && s[11..13] == c.h && s[14..16] == c.m && s[17..19] == c.s;
      assert s[19] == c.sep && s[20..22] == c.ampm && s[23..] == c.tz;
    }
  }

  /** A stamp whose every field fits the exporter's text. */
  predicate Printable(st: Stamp) {
    EngineAccepts(st) && 0 <= st.date.year <= 9999
  }

  function OffsetText(st: Stamp): (s: string)
    requires Printable(st)
    ensures OffsetShaped(s)
  {
    [if st.negativeOffset then '-' else '+'] + Pad2(st.offsetHours) + Pad2(st.offsetMinutes)
  }

  lemma DateTextParts(d: Date)
    requires ValidDate(d) && 0 <= d.year <= 9999
    ensures DateShaped(DateText(d))
    ensures DigitsValue(DateText(d)[..4]) == d.year
    ensures DigitsValue(DateText(d)[5..7]) == d.month
    ensures DigitsValue(DateText(d)[8..]) == d.day
  {
    DateJoin(YearText(d.year), Pad2(d.month), Pad2(d.day));
  }

  /** Where the year, month and day sit in a `YYYY-MM-DD` join. */
  lemma DateJoin(y: string, m: string, d: string)
    requires |y| == 4 && |m| == 2 && |d| == 2
    ensures var t := y + "-" + m + "-" + d;
      && |t| == 10 && t[4] == '-' && t[7] == '-' && t[..4] == y && t[5..7] == m && t[8..] == d
  {
    var t := y + "-" + m + "-" + d;
    assert t[..4] == y && t[5..7] == m && t[8..] == d;
  }

  lemma OffsetTextParts(st: Stamp)
    requires Printable(st)
    ensures (OffsetText(st)[0] == '-') == st.negativeOffset
    ensures DigitsValue(OffsetText(st)[1..3]) == st.offsetHours
    ensures DigitsValue(OffsetText(st)[3..]) == st.offsetMinutes
  {
    var t := OffsetText(st);
    assert t[1..3] == Pad2(st.offsetHours);
    assert t[3..] == Pad2(st.offsetMinutes);
  }

  /** Reading back the date and offset text of a stamp gives the stamp, whatever the hour. */
  lemma StampOfText(st: Stamp)
    requires Printable(st)
    ensures StampOf(DateText(st.date), st.hour, Pad2(st.minute), Pad2(st.second), OffsetText(st)) == st
  {
    DateTextParts(st.date);
    OffsetTextParts(st);
  }

  /** The 24-hour text `YYYY-MM-DD HH:MM:SS ±HHMM` of a stamp. */
  function Text24(st: Stamp): string
    requires Printable(st)
  {
    Join24(Captures24(DateText(st.date), Pad2(st.hour), Pad2(st.minute), Pad2(st.second), OffsetText(st)))
  }

  /** The hour on a 12-hour clock face. */
  function Hour12(h: int): (r: nat)
    requires 0 <= h < 24
    ensures 1 <= r <= 12
  {
    if h % 12 == 0 then 12 else h % 12
  }

  /** The meridiem letters the exporter may write for `hour`, in either case. */
  predicate MeridiemFor(hour: int, a: char, m: char) {
    (if hour < 12 then a in "Aa" else a in "Pp") && m in "Mm"
  }

  /** The 12-hour text `YYYY-MM-DD H:MM:SS<sep>AM ±HHMM` of a stamp. */
  function Text12(st: Stamp, sep: char, a: char, m: char): string
    requires Printable(st)
  {
    Text12Of(Captures12(DateText(st.date), Decimal(Hour12(st.hour)), Pad2(st.minute), Pad2(st.second),
                        sep, [a, m], OffsetText(st)))
  }

  /** The 24-hour text of a valid stamp parses to the stamp's instant. */
  lemma Text24Parses(st: Stamp)
    requires Printable(st)
    ensures ParseHaeTime(Text24(st)) == Ok(InstantOf(st))
  {
    var c := Captures24(DateText(st.date), Pad2(st.hour), Pad2(st.minute), Pad2(st.second), OffsetText(st));
    DateTextParts(st.date);
    Match24Recovers(c);
    StampOfText(st);
    assert Parse24h(c) == Some(InstantOf(st));
  }

  /** The 12-hour text of a valid stamp, with either separator and the meridiem
      letters in any case, parses to the stamp's instant. */
  lemma Text12Parses(st: Stamp, sep: char, a: char, m: char)
    requires Printable(st)
    requires sep == ' ' || sep == NarrowNoBreakSpace
    requires MeridiemFor(st.hour, a, m)
    ensures ParseHaeTime(Text12(st, sep, a, m)) == Ok(InstantOf(st))
  {
    var c := Captures12(DateText(st.date), Decimal(Hour12(st.hour)), Pad2(st.minute), Pad2(st.second),
                        sep, [a, m], OffsetText(st));
    FaceWellFormed(st, c);
    Match12Recovers(c);
    Parse12hOfStamp(st, c);
    TwelveHourPath(Text12Of(c), c, InstantOf(st));
  }

  /** The clock face of a printable stamp has the shape the 12-hour expression wants. */
  lemma FaceWellFormed(st: Stamp, c: Captures12)
    requires Printable(st)
    requires c == Captures12(DateText(st.date), Decimal(Hour12(st.hour)), Pad2(st.minute), Pad2(st.second),
                             c.sep, c.ampm, OffsetText(st))
    requires c.sep == ' ' || c.sep == NarrowNoBreakSpace
    requires |c.ampm| == 2 && MeridiemFor(st.hour, c.ampm[0], c.ampm[1])
    ensures WellFormed12(c)
  {
    DateTextParts(st.date);
  }

  /** A text the 24-hour expression rejects is read by the 12-hour path. */
  lemma TwelveHourPath(s: string, c: Captures12, t: Instant)
    requires Match24(s).None? && Match12(s) == Some(c) && Parse12h(c) == Some(t)
    ensures ParseHaeTime(s) == Ok(t)
  {
  }

  /** A zero-padded hour (`02 PM`) reads the same as the plain one (`2 PM`). */
  lemma PaddedHourReadsAlike(c: Captures12)
    requires WellFormed12(c) && |c.h| == 2 && c.h[0] == '0'
    ensures WellFormed12(c.(h := c.h[1..]))
    ensures Parse12h(c) == Parse12h(c.(h := c.h[1..]))
  {
    assert c.h[..1] == "0";
    assert DigitsValue(c.h) == DigitsValue(c.h[1..]) by {
      assert c.h[1..] == [c.h[1]];
      assert DigitsValue(c.h[..1]) == 0;
    }
  }

  /** Hour 0 read with `PM` is noon: `0:15:00 PM` is the 24-hour `12:15:00`. */
  lemma ZeroPmIsNoon(c: Captures12)
    requires WellFormed12(c) && DigitsValue(c.h) == 0 && c.ampm[0] in "Pp"
    ensures Parse12h(c) == Parse24h(Captures24(c.date, "12", c.m, c.s, c.tz))
  {
    assert DigitsValue("12") == 12 by { assert "12"[..1] == "1"; }
  }

  /** An hour past 12 is left as it is with `AM` (`13:30:00 AM` is 13:30) and
      pushed past the day with `PM`, which the engine rejects. */
  lemma HourPastTwelve(c: Captures12)
    requires WellFormed12(c) && DigitsValue(c.h) > 12
    ensures |c.h| == 2
    ensures c.ampm[0] in "Aa" ==> Parse12h(c) == Parse24h(Captures24(c.date, c.h, c.m, c.s, c.tz))
    ensures c.ampm[0] in "Pp" ==> Parse12h(c).None?
  {
  }

  /** Reading a 12-hour clock face back gives the 24-hour clock hour. */
  lemma ClockFaceRoundTrip(h: int)
    requires 0 <= h < 24
    ensures To24Hour(Hour12(h), h < 12) == h
  {
  }

  /** `parse12h` undoes the 12-hour clock face of a stamp. */
  lemma Parse12hOfStamp(st: Stamp, c: Captures12)
    requires Printable(st)
    requires c == Captures12(DateText(st.date), Decimal(Hour12(st.hour)), Pad2(st.minute), Pad2(st.second),
                             c.sep, c.ampm, OffsetText(st))
    requires WellFormed12(c) && MeridiemFor(st.hour, c.ampm[0], c.ampm[1])
    ensures Parse12h(c) == Some(InstantOf(st))
  {
    var isAm := LowerAscii(c.ampm[0]) == 'a' && LowerAscii(c.ampm[1]) == 'm';
    MeridiemReading(st.hour, c.ampm[0], c.ampm[1]);
    assert DigitsValue(c.h) == Hour12(st.hour);
    ClockFaceRoundTrip(st.hour);
    var hour := To24Hour(DigitsValue(c.h), isAm);
    assert hour == st.hour;
    StampOfText(st);
    assert StampOf(c.date, hour, c.m, c.s, c.tz) == st;
  }

  /** Lower-casing the meridiem letters tells morning from afternoon. */
  lemma MeridiemReading(hour: int, a: char, m: char)
    requires MeridiemFor(hour, a, m)
    ensures (LowerAscii(a) == 'a' && LowerAscii(m) == 'm') == (hour < 12)
  {
  }

  /** A 24-hour string and a 12-hour string with the same wall-clock time and
      offset yield the same instant. */
  lemma SameInstantBothForms(st: Stamp, sep: char, a: char, m: char)
    requires Printable(st)
    requires sep == ' ' || sep == NarrowNoBreakSpace
    requires MeridiemFor(st.hour, a, m)
    ensures ParseHaeTime(Text24(st)) == ParseHaeTime(Text12(st, sep, a, m))
    ensures ParseHaeTime(Text24(st)).Ok?
  {
    Text24Parses(st);
    Text12Parses(st, sep, a, m);
  }

  /** Euclidean division by the length of a day recovers day and second-of-day. */
  lemma DaySplit(z: int, sod: int)
    requires 0 <= sod < 86400
    ensures (z * 86400 + sod) / 86400 == z && (z * 86400 + sod) % 86400 == sod
  {
  }

  /** The clock fields of a second-of-day are read back by `ToIso`'s divisions. */
  lemma ClockFields(h: int, m: int, s: int)
    requires 0 <= h < 24 && 0 <= m < 60 && 0 <= s < 60
    ensures (h * 3600 + m * 60 + s) / 3600 == h
    ensures (h * 3600 + m * 60 + s) % 3600 / 60 == m
    ensures (h * 3600 + m * 60 + s) % 60 == s
  {
  }

  /** With a zero offset the instant is the wall clock read as UTC. */
  lemma ZeroOffsetSplit(st: Stamp)
    requires Printable(st) && st.offsetHours == 0 && st.offsetMinutes == 0
    ensures InstantOf(st) / 86400 == DaysFromCivil(st.date)
    ensures InstantOf(st) % 86400 == st.hour * 3600 + st.minute * 60 + st.second
  {
    var z := DaysFromCivil(st.date);
    var sod := st.hour * 3600 + st.minute * 60 + st.second;
    assert OffsetSeconds(st) == 0;
    assert InstantOf(st) == z * 86400 + sod;
    DaySplit(z, sod);
  }

  /** With a zero offset the UTC day of the parsed instant is the text's own date,
      and the ISO text shows the same clock reading. */
  lemma UtcOffsetKeepsWallClock(st: Stamp)
    requires Printable(st) && st.offsetHours == 0 && st.offsetMinutes == 0
    ensures UtcDate(InstantOf(st)) == st.date
    ensures ToDateStr(InstantOf(st)) == DateText(st.date)
    ensures ToIso(InstantOf(st)) == DateText(st.date)
                                    + ("T" + Pad2(st.hour) + ":" + Pad2(st.minute) + ":" + Pad2(st.second) + ".000Z")
  {
    var t := InstantOf(st);
    ZeroOffsetSplit(st);
    CivilRoundTrip(st.date);
    assert UtcDate(t) == st.date;
    ClockTextOf(t, st.hour, st.minute, st.second);
    ToDateStrIsUtcDate(t);
  }

  /** The clock text of an instant `h:m:s` past midnight UTC. */
  lemma ClockTextOf(t: Instant, h: int, m: int, s: int)
    requires 0 <= h < 24 && 0 <= m < 60 && 0 <= s < 60
    requires t % 86400 == h * 3600 + m * 60 + s
    ensures ClockText(t) == "T" + Pad2(h) + ":" + Pad2(m) + ":" + Pad2(s) + ".000Z"
  {
    ClockFields(h, m, s);
  }

  /** A string that has neither shape is rejected with the error naming it. */
  lemma UnrecognisedIsRejected(s: string)
    requires Match24(s).None? && Match12(s).None?
    ensures ParseHaeTime(s) == Err(BadTimestamp(s))
  {
  }

  /** The 24-hour shape needs exactly two hour digits, the 12-hour shape takes
      one or two, and no text has both shapes. */
  lemma HourWidths(s: string)
    ensures Match24(s).Some? ==> |Match24(s).value.h| == 2
    ensures Match12(s).Some? ==> 1 <= |Match12(s).value.h| <= 2
    ensures Match24(s).Some? ==> Match12(s).None?
  {
  }
}
