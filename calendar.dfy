/** The proleptic Gregorian calendar that JavaScript's `Date` uses, counted in
    days from 1970-01-01 (day 0). `DaysFromCivil` turns a calendar date into a
    day number and `CivilFromDays` turns a day number back into the date. */
module Calendar {

  predicate IsLeapYear(y: int) {
    y % 4 == 0 && (y % 100 != 0 || y % 400 == 0)
  }

  function DaysInYear(y: int): (n: int)
    ensures n == 365 || n == 366
  {
    if IsLeapYear(y) then 366 else 365
  }

  function DaysInMonth(y: int, m: int): (n: int)
    requires 1 <= m <= 12
    ensures 28 <= n <= 31
  {
    if m == 2 then (if IsLeapYear(y) then 29 else 28)
    else if m == 4 || m == 6 || m == 9 || m == 11 then 30
    else 31
  }

  /** Days of year `y` that come before the first day of month `m` (13 means the year's end). */
  function DaysBeforeMonth(y: int, m: int): (n: int)
    requires 1 <= m <= 13
    ensures 0 <= n
  {
    var cumulative := [0, 31, 59, 90, 120, 151, 181, 212, 243, 273, 304, 334, 365];
    cumulative[m - 1] + (if m > 2 && IsLeapYear(y) then 1 else 0)
  }

  lemma MonthStep(y: int, m: int)
    requires 1 <= m <= 12
    ensures DaysBeforeMonth(y, m + 1) == DaysBeforeMonth(y, m) + DaysInMonth(y, m)
    ensures DaysBeforeMonth(y, 1) == 0 && DaysBeforeMonth(y, 13) == DaysInYear(y)
  {
  }

  /** Day number of January 1st of year `y`. */
  function DaysBeforeYear(y: int): int
    decreases if y >= 1970 then y - 1970 else 1970 - y
  {
    if y == 1970 then 0
    else if y > 1970 then DaysBeforeYear(y - 1) + DaysInYear(y - 1)
    else DaysBeforeYear(y + 1) - DaysInYear(y)
  }

  lemma YearStep(y: int)
    ensures DaysBeforeYear(y + 1) == DaysBeforeYear(y) + DaysInYear(y)
  {
  }

  /** Later years start on later days. */
  lemma {:induction false} YearsIncrease(a: int, b: int)
    requires a < b
    ensures DaysBeforeYear(a + 1) <= DaysBeforeYear(b)
    decreases b - a
  {
    if a + 1 < b {
      YearsIncrease(a, b - 1);
      YearStep(b - 1);
    }
  }

  /** The year containing day `z`, searching upwards from year `y`. */
  function FindYearUp(z: int, y: int): (r: int)
    requires DaysBeforeYear(y) <= z
    ensures DaysBeforeYear(r) <= z < DaysBeforeYear(r + 1)
    decreases z - DaysBeforeYear(y)
  {
    YearStep(y);
    if z < DaysBeforeYear(y + 1) then y else FindYearUp(z, y + 1)
  }

  /** The year containing day `z`, searching downwards from year `y`. */
  function FindYearDown(z: int, y: int): (r: int)
    requires z < DaysBeforeYear(y + 1)
    ensures DaysBeforeYear(r) <= z < DaysBeforeYear(r + 1)
    decreases DaysBeforeYear(y + 1) - z
  {
    YearStep(y);
    if DaysBeforeYear(y) <= z then y else FindYearDown(z, y - 1)
  }

  function YearOfDay(z: int): (y: int)
    ensures DaysBeforeYear(y) <= z < DaysBeforeYear(y + 1)
  {
    if z >= 0 then FindYearUp(z, 1970) else FindYearDown(z, 1969)
  }

  /** The month of year `y` containing day-of-year `doy`, searching from month `m`. */
  function FindMonth(y: int, doy: int, m: int): (r: int)
    requires 1 <= m <= 12
    requires DaysBeforeMonth(y, m) <= doy < DaysInYear(y)
    ensures 1 <= r <= 12
    ensures DaysBeforeMonth(y, r) <= doy < DaysBeforeMonth(y, r + 1)
    decreases 12 - m
  {
    MonthStep(y, m);
    if doy < DaysBeforeMonth(y, m + 1) then m else FindMonth(y, doy, m + 1)
  }

  datatype Date = Date(year: int, month: int, day: int)

  predicate ValidDate(d: Date) {
    1 <= d.month <= 12 && 1 <= d.day <= DaysInMonth(d.year, d.month)
  }

  /** Day number of a calendar date. Like the engine's date arithmetic it is
      linear in the day, so a day past the month's end lands in the next month. */
  function DaysFromCivil(d: Date): int
    requires 1 <= d.month <= 12
  {
    DaysBeforeYear(d.year) + DaysBeforeMonth(d.year, d.month) + d.day - 1
  }

  /** The calendar date of day number `z`. */
  function CivilFromDays(z: int): (d: Date)
    ensures ValidDate(d) && DaysFromCivil(d) == z
  {
    var y := YearOfDay(z);
    YearStep(y);
    var doy := z - DaysBeforeYear(y);
    MonthStep(y, 1);
    var m := FindMonth(y, doy, 1);
    MonthStep(y, m);
    Date(y, m, doy - DaysBeforeMonth(y, m) + 1)
  }

  /** A valid date survives the trip to a day number and back. */
  lemma CivilRoundTrip(d: Date)
    requires ValidDate(d)
    ensures CivilFromDays(DaysFromCivil(d)) == d
  {
    var z := DaysFromCivil(d);
    var e := CivilFromDays(z);
    MonthStep(d.year, d.month);
    MonthStep(e.year, e.month);
    MonthBounds(d.year, d.month);
    MonthBounds(e.year, e.month);
    YearStep(d.year);
    YearStep(e.year);
    if d.year < e.year {
      YearsIncrease(d.year, e.year);
    } else if e.year < d.year {
      YearsIncrease(e.year, d.year);
    }
    assert e.year == d.year;
    if d.month < e.month {
      MonthsIncrease(d.year, d.month, e.month);
    } else if e.month < d.month {
      MonthsIncrease(d.year, e.month, d.month);
    }
  }

  lemma MonthBounds(y: int, m: int)
    requires 1 <= m <= 12
    ensures DaysBeforeMonth(y, m + 1) <= DaysInYear(y)
  {
  }

  lemma {:induction false} MonthsIncrease(y: int, a: int, b: int)
    requires 1 <= a < b <= 12
    ensures DaysBeforeMonth(y, a + 1) <= DaysBeforeMonth(y, b)
    decreases b - a
  {
    if a + 1 < b {
      MonthsIncrease(y, a, b - 1);
      MonthStep(y, b - 1);
    }
  }

  /** Every day number comes from exactly one valid date. */
  lemma DaysFromCivilInjective(d: Date, e: Date)
    requires ValidDate(d) && ValidDate(e) && DaysFromCivil(d) == DaysFromCivil(e)
    ensures d == e
  {
    CivilRoundTrip(d);
    CivilRoundTrip(e);
  }
}
