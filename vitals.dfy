/** The merge step of the daily vitals query (src/cli/vitals.ts): the
    per-date averages of the main query, and the latest valid blood-pressure
    reading per date taken from the `meta` JSON of `blood_pressure` rows,
    joined into one row per date in ascending date order. The two SQL result
    sets are inputs. */
module Vitals {
  import opened Wrappers
  import opened Text

  /** A row of the main pivot query: one date and its seven averages. */
  datatype MainRow = MainRow(
    date: string,
    restingHr: Option<real>, hrv: Option<real>, walkingHrAvg: Option<real>, spo2: Option<real>,
    respiratoryRate: Option<real>, cardioRecovery: Option<real>, vo2Max: Option<real>)

  /** A row of the blood-pressure query: a date and the stored `meta` text. */
  datatype BpRow = BpRow(date: string, meta: string)

  /** The outcome of `JSON.parse(meta)`: it throws (or gives a value whose
      members cannot be read), or an object whose numeric members are read. */
  datatype MetaDocument = Malformed | MetaObject(systolic: Option<real>, diastolic: Option<real>)

  datatype Pressure = Pressure(systolic: real, diastolic: real)

  /** One row of the result; `None` is JSON `null`. */
  datatype VitalsDay = VitalsDay(
    date: string,
    restingHr: Option<real>, hrv: Option<real>, walkingHrAvg: Option<real>, spo2: Option<real>,
    respiratoryRate: Option<real>, cardioRecovery: Option<real>, vo2Max: Option<real>,
    systolic: Option<real>, diastolic: Option<real>)

  /** A number is truthy unless it is zero. */
  predicate TruthyNumber(x: Option<real>) {
    x.Some? && x.value != 0.0
  }

  /** The reading a row yields, if its meta parses and both members are truthy. */
  function ReadingOf(parseMeta: string -> MetaDocument, row: BpRow): (r: Option<Pressure>)
    ensures r.Some? <==> parseMeta(row.meta).MetaObject?
                         && TruthyNumber(parseMeta(row.meta).systolic)
                         && TruthyNumber(parseMeta(row.meta).diastolic)
    ensures r.Some? ==> r.value == Pressure(parseMeta(row.meta).systolic.value, parseMeta(row.meta).diastolic.value)
  {
    match parseMeta(row.meta)
    case Malformed => None
    case MetaObject(sys, dia) =>
      if TruthyNumber(sys) && TruthyNumber(dia) then Some(Pressure(sys.value, dia.value)) else None
  }

  // ---- the latest reading per date ----

  /** `bpMap` after the rows so far: a date already present is passed over. */
  function BpMapOf(parseMeta: string -> MetaDocument, rows: seq<BpRow>): map<string, Pressure>
  {
    if |rows| == 0 then map[]
    else
      var m := BpMapOf(parseMeta, rows[..|rows| - 1]);
      var row := rows[|rows| - 1];
      if row.date in m then m
      else match ReadingOf(parseMeta, row)
        case None => m
        case Some(p) => m[row.date := p]
  }

  /** Row `i` is the first row of its date that yields a reading. */
  predicate FirstValid(parseMeta: string -> MetaDocument, rows: seq<BpRow>, i: int) {
    && 0 <= i < |rows| && ReadingOf(parseMeta, rows[i]).Some?
    && forall j :: 0 <= j < i && rows[j].date == rows[i].date ==> ReadingOf(parseMeta, rows[j]).None?
  }

  /** Some row of date `d` yields a reading. */
  predicate HasReading(parseMeta: string -> MetaDocument, rows: seq<BpRow>, d: string) {
    exists i :: 0 <= i < |rows| && rows[i].date == d && ReadingOf(parseMeta, rows[i]).Some?
  }

  /** A date is in the map exactly when one of its rows yields a reading,
      and then it holds the reading of the first such row. With rows in
      descending timestamp order, that is the latest valid reading. */
  lemma BpMapMeaning(parseMeta: string -> MetaDocument, rows: seq<BpRow>)
    ensures forall d :: d in BpMapOf(parseMeta, rows) <==>
                          exists i :: 0 <= i < |rows| && rows[i].date == d && ReadingOf(parseMeta, rows[i]).Some?
    ensures forall i :: FirstValid(parseMeta, rows, i) ==>
                          BpMapOf(parseMeta, rows)[rows[i].date] == ReadingOf(parseMeta, rows[i]).value
  {
    BpMapDomain(parseMeta, rows);
    BpMapFirst(parseMeta, rows);
  }

  lemma {:induction false} BpMapDomain(parseMeta: string -> MetaDocument, rows: seq<BpRow>)
    ensures forall d :: d in BpMapOf(parseMeta, rows) <==> HasReading(parseMeta, rows, d)
  {
    if |rows| > 0 {
      BpMapDomain(parseMeta, rows[..|rows| - 1]);
      forall d {
        HasReadingSnoc(parseMeta, rows, d);
      }
    }
  }

  /** The rows of a date with a reading are those before the last row, or the last row. */
  lemma HasReadingSnoc(parseMeta: string -> MetaDocument, rows: seq<BpRow>, d: string)
    requires |rows| > 0
    ensures HasReading(parseMeta, rows, d) <==>
              HasReading(parseMeta, rows[..|rows| - 1], d)
              || (rows[|rows| - 1].date == d && ReadingOf(parseMeta, rows[|rows| - 1]).Some?)
  {
    var front := rows[..|rows| - 1];
    if HasReading(parseMeta, front, d) {
      var i :| 0 <= i < |front| && front[i].date == d && ReadingOf(parseMeta, front[i]).Some?;
      assert rows[i] == front[i];
    }
    if HasReading(parseMeta, rows, d) {
      var i :| 0 <= i < |rows| && rows[i].date == d && ReadingOf(parseMeta, rows[i]).Some?;
      if i < |front| { assert front[i] == rows[i]; }
    }
  }

  lemma {:induction false} BpMapFirst(parseMeta: string -> MetaDocument, rows: seq<BpRow>)
    ensures forall i :: FirstValid(parseMeta, rows, i) ==>
                          && rows[i].date in BpMapOf(parseMeta, rows)
                          && BpMapOf(parseMeta, rows)[rows[i].date] == ReadingOf(parseMeta, rows[i]).value
  {
    if |rows| > 0 {
      var front := rows[..|rows| - 1];
      BpMapFirst(parseMeta, front);
      forall i | FirstValid(parseMeta, rows, i)
        ensures rows[i].date in BpMapOf(parseMeta, rows)
        ensures BpMapOf(parseMeta, rows)[rows[i].date] == ReadingOf(parseMeta, rows[i]).value
      {
        if i < |front| {
          assert FirstValid(parseMeta, front, i) by {
            forall j | 0 <= j < i && front[j].date == front[i].date
              ensures ReadingOf(parseMeta, front[j]).None?
            {
              assert front[j] == rows[j];
            }
          }
        } else {
          BpMapDomain(parseMeta, front);
          assert !HasReading(parseMeta, front, rows[i].date) by {
            forall j | 0 <= j < |front| && front[j].date == rows[i].date
              ensures ReadingOf(parseMeta, front[j]).None?
            {
              assert front[j] == rows[j];
            }
          }
        }
      }
    }
  }

  /** The loop that fills `bpMap`. */
  method LatestBpPerDate(parseMeta: string -> MetaDocument, rows: seq<BpRow>) returns (bp: map<string, Pressure>)
    ensures bp == BpMapOf(parseMeta, rows)
  {
    bp := map[];
    for i := 0 to |rows|
      invariant bp == BpMapOf(parseMeta, rows[..i])
    {
      assert rows[..i + 1][..i] == rows[..i];
      var row := rows[i];
      if row.date !in bp {
        var reading := ReadingOf(parseMeta, row);
        if reading.Some? {
          bp := bp[row.date := reading.value];
        }
      }
    }
    assert rows[..|rows|] == rows;
  }

  // ---- the sorted union of dates ----

  predicate StrictlySorted(s: seq<string>) {
    forall i, j :: 0 <= i < j < |s| ==> LexLess(s[i], s[j])
  }

  predicate IsLeast(s: set<string>, m: string) {
    m in s && forall x :: x in s && x != m ==> LexLess(m, x)
  }

  lemma LexLessAsymmetric(a: string, b: string)
    requires LexLess(a, b)
    ensures !LexLess(b, a)
  {
    if LexLess(b, a) {
      LexLessTransitive(a, b, a);
      LexLessIrreflexive(a);
    }
  }

  lemma {:induction false} LeastExists(s: set<string>)
    requires s != {}
    ensures exists m :: IsLeast(s, m)
    decreases |s|
  {
    var y :| y in s;
    var rest := s - {y};
    if rest == {} {
      assert s == {y};
      assert IsLeast(s, y);
    } else {
      LeastExists(rest);
      var m :| IsLeast(rest, m);
      LexLessTotal(m, y);
      if LexLess(m, y) {
        assert IsLeast(s, m);
      } else {
        forall x | x in s && x != y
          ensures LexLess(y, x)
        {
          if x != m { LexLessTransitive(y, m, x); }
        }
        assert IsLeast(s, y);
      }
    }
  }

  lemma LeastUnique(s: set<string>, a: string, b: string)
    requires IsLeast(s, a) && IsLeast(s, b)
    ensures a == b
  {
    if a != b {
      LexLessAsymmetric(a, b);
    }
  }

  /** The least date of a non-empty set. */
  function Least(s: set<string>): (m: string)
    requires s != {}
    ensures IsLeast(s, m)
  {
    LeastExists(s);
    assert forall a, b :: IsLeast(s, a) && IsLeast(s, b) ==> a == b by {
      forall a, b | IsLeast(s, a) && IsLeast(s, b) ensures a == b { LeastUnique(s, a, b); }
    }
    var m :| IsLeast(s, m);
    m
  }

  /** `Array.from(dateSet).sort()`: the dates in ascending order, each once. */
  function SortedDates(s: set<string>): (r: seq<string>)
    ensures StrictlySorted(r)
    ensures |r| == |s| && forall d :: d in r <==> d in s
    decreases |s|
  {
    if s == {} then []
    else
      var m := Least(s);
      var rest := SortedDates(s - {m});
      assert forall j :: 0 <= j < |rest| ==> LexLess(m, rest[j]) by {
        forall j | 0 <= j < |rest| ensures LexLess(m, rest[j]) {
          assert rest[j] in rest;
        }
      }
      [m] + rest
  }

  /** However the set was built, its sorted order is the same: a strictly
      sorted sequence is determined by its elements. */
  lemma {:induction false} SortedIsUnique(a: seq<string>, b: seq<string>)
    requires StrictlySorted(a) && StrictlySorted(b)
    requires forall d :: d in a <==> d in b
    ensures a == b
    decreases |a|
  {
    if |a| > 0 { assert a[0] in a; }
    if |b| > 0 { assert b[0] in b; }
    if |a| > 0 && |b| > 0 {
      if a[0] != b[0] {
        assert a[0] in b;
        var j :| 0 <= j < |b| && b[j] == a[0];
        assert b[0] in a;
        var i :| 0 <= i < |a| && a[i] == b[0];
        assert LexLess(b[0], a[0]);
        assert LexLess(a[0], b[0]);
        LexLessAsymmetric(a[0], b[0]);
      }
      forall d ensures d in a[1..] <==> d in b[1..] {
        if d in a[1..] {
          var i :| 1 <= i < |a| && a[i] == d;
          assert LexLess(a[0], d);
          LexLessIrreflexive(d);
          assert d in b;
          var j :| 0 <= j < |b| && b[j] == d;
          assert j != 0;
        }
        if d in b[1..] {
          var j :| 1 <= j < |b| && b[j] == d;
          assert LexLess(b[0], d);
          LexLessIrreflexive(d);
          assert d in a;
          var i :| 0 <= i < |a| && a[i] == d;
          assert i != 0;
        }
      }
      SortedIsUnique(a[1..], b[1..]);
      assert a == [a[0]] + a[1..] && b == [b[0]] + b[1..];
    }
  }

  // ---- the merge ----

  function MainDates(rows: seq<MainRow>): set<string> {
    set i | 0 <= i < |rows| :: rows[i].date
  }

  /** `new Map(mainRows.map(r => [r.date, r]))`: a later row of a date
      replaces an earlier one. */
  function MainMapOf(rows: seq<MainRow>): (m: map<string, MainRow>)
    ensures m.Keys == MainDates(rows)
  {
    if |rows| == 0 then map[]
    else
      var front := rows[..|rows| - 1];
      var last := rows[|rows| - 1];
      assert MainDates(rows) == MainDates(front) + {last.date} by {
        assert forall i :: 0 <= i < |front| ==> front[i] == rows[i];
      }
      MainMapOf(front)[last.date := last]
  }

  /** Each date maps to its last row; the query groups by date, so that is its only row. */
  lemma {:induction false} MainMapLastWins(rows: seq<MainRow>, i: int)
    requires 0 <= i < |rows|
    requires forall j :: i < j < |rows| ==> rows[j].date != rows[i].date
    ensures MainMapOf(rows)[rows[i].date] == rows[i]
  {
    if i < |rows| - 1 {
      var front := rows[..|rows| - 1];
      assert front[i] == rows[i];
      MainMapLastWins(front, i);
    }
  }

  /** The row for one date: the main averages and the pressure of that date, or nulls. */
  function DayOf(date: string, main: map<string, MainRow>, bp: map<string, Pressure>): VitalsDay {
    var r := if date in main then Some(main[date]) else None;
    var p := if date in bp then Some(bp[date]) else None;
    VitalsDay(date,
              if r.Some? then r.value.restingHr else None,
              if r.Some? then r.value.hrv else None,
              if r.Some? then r.value.walkingHrAvg else None,
              if r.Some? then r.value.spo2 else None,
              if r.Some? then r.value.respiratoryRate else None,
              if r.Some? then r.value.cardioRecovery else None,
              if r.Some? then r.value.vo2Max else None,
              if p.Some? then Some(p.value.systolic) else None,
              if p.Some? then Some(p.value.diastolic) else None)
  }

  /** The rows the query returns, from its two result sets. */
  function VitalsOf(parseMeta: string -> MetaDocument, mainRows: seq<MainRow>, bpRows: seq<BpRow>)
    : seq<VitalsDay>
  {
    var bp := BpMapOf(parseMeta, bpRows);
    var main := MainMapOf(mainRows);
    var dates := SortedDates(MainDates(mainRows) + bp.Keys);
    seq(|dates|, i requires 0 <= i < |dates| => DayOf(dates[i], main, bp))
  }

  lemma VitalsShape(parseMeta: string -> MetaDocument, mainRows: seq<MainRow>, bpRows: seq<BpRow>)
    ensures var bp := BpMapOf(parseMeta, bpRows);
      var dates := SortedDates(MainDates(mainRows) + bp.Keys);
      var days := VitalsOf(parseMeta, mainRows, bpRows);
      && |days| == |dates|
      && (forall i :: 0 <= i < |days| ==> days[i].date == dates[i])
      && forall i :: 0 <= i < |days| ==> days[i] == DayOf(dates[i], MainMapOf(mainRows), bp)
  {
  }

  /** The rows are in strictly ascending date order, so each date appears once. */
  lemma VitalsSorted(parseMeta: string -> MetaDocument, mainRows: seq<MainRow>, bpRows: seq<BpRow>)
    ensures var days := VitalsOf(parseMeta, mainRows, bpRows);
      forall i, j :: 0 <= i < j < |days| ==> LexLess(days[i].date, days[j].date)
  {
    VitalsShape(parseMeta, mainRows, bpRows);
  }

  lemma DatesOfRows(days: seq<VitalsDay>, dates: seq<string>)
    requires |days| == |dates| && forall i :: 0 <= i < |days| ==> days[i].date == dates[i]
    ensures forall d :: (exists i :: 0 <= i < |days| && days[i].date == d) <==> d in dates
  {
    forall d | d in dates
      ensures exists i :: 0 <= i < |days| && days[i].date == d
    {
      var i :| 0 <= i < |dates| && dates[i] == d;
      assert days[i].date == d;
    }
  }

  /** The dates are those of the main rows together with those that have a reading. */
  lemma VitalsDates(parseMeta: string -> MetaDocument, mainRows: seq<MainRow>, bpRows: seq<BpRow>)
    ensures var days := VitalsOf(parseMeta, mainRows, bpRows);
      forall d :: (exists i :: 0 <= i < |days| && days[i].date == d) <==>
                  (d in MainDates(mainRows) || d in BpMapOf(parseMeta, bpRows))
  {
    var bp := BpMapOf(parseMeta, bpRows);
    var dates := SortedDates(MainDates(mainRows) + bp.Keys);
    var days := VitalsOf(parseMeta, mainRows, bpRows);
    VitalsShape(parseMeta, mainRows, bpRows);
    DatesOfRows(days, dates);
    forall d
      ensures (exists i :: 0 <= i < |days| && days[i].date == d) <==> (d in MainDates(mainRows) || d in bp)
    {
      assert (exists i :: 0 <= i < |days| && days[i].date == d) <==> d in dates;
      assert d in dates <==> d in MainDates(mainRows) + bp.Keys;
    }
  }

  /** Each row is the main row and reading of its date, with nulls where there is none. */
  lemma VitalsFields(parseMeta: string -> MetaDocument, mainRows: seq<MainRow>, bpRows: seq<BpRow>)
    ensures var days := VitalsOf(parseMeta, mainRows, bpRows);
      forall i :: 0 <= i < |days| ==>
        days[i] == DayOf(days[i].date, MainMapOf(mainRows), BpMapOf(parseMeta, bpRows))
  {
    VitalsShape(parseMeta, mainRows, bpRows);
  }

  /** A date with no main row has null averages; a date with no valid reading
      has null pressures. */
  lemma MissingFieldsAreNull(date: string, main: map<string, MainRow>, bp: map<string, Pressure>)
    ensures date !in main ==> var day := DayOf(date, main, bp);
      && day.restingHr.None? && day.hrv.None? && day.walkingHrAvg.None? && day.spo2.None?
      && day.respiratoryRate.None? && day.cardioRecovery.None? && day.vo2Max.None?
    ensures date !in bp ==> DayOf(date, main, bp).systolic.None? && DayOf(date, main, bp).diastolic.None?
    ensures date in bp ==> DayOf(date, main, bp).systolic == Some(bp[date].systolic)
                           && DayOf(date, main, bp).diastolic == Some(bp[date].diastolic)
  {
  }

  /** No rows in, no rows out. */
  lemma NoDataNoRows(parseMeta: string -> MetaDocument)
    ensures VitalsOf(parseMeta, [], []) == []
  {
    assert MainDates([]) + BpMapOf(parseMeta, []).Keys == {};
  }

  /** The merge as the query runs it: the loop over the pressure rows, then
      the union, sort and row map. */
  method MergeVitals(parseMeta: string -> MetaDocument, mainRows: seq<MainRow>, bpRows: seq<BpRow>)
    returns (days: seq<VitalsDay>)
    ensures days == VitalsOf(parseMeta, mainRows, bpRows)
  {
    var bp := LatestBpPerDate(parseMeta, bpRows);
    var main := MainMapOf(mainRows);
    var dates := SortedDates(MainDates(mainRows) + bp.Keys);
    days := seq(|dates|, i requires 0 <= i < |dates| => DayOf(dates[i], main, bp));
  }
}
