/**
 The proleptic Gregorian calendar as Python's `datetime` computes it: field-wise dates, the day
 ordinal (1 January of year 1 is day 1) and minutes counted from ordinal 0.
 */
module Calendar {
  const MINUTES_PER_DAY := 1440
  const MICROS_PER_MINUTE := 60_000_000

  predicate IsLeap(year: int) {
    year % 4 == 0 && (year % 100 != 0 || year % 400 == 0)
  }

  function YearLength(year: int): int {
    if IsLeap(year) then 366 else 365
  }

  function MonthLength(year: int, month: int): int
    requires 1 <= month <= 12
  {
    if month == 2 then (if IsLeap(year) then 29 else 28)
    else if month == 4 || month == 6 || month == 9 || month == 11 then 30
    else 31
  }

  function DaysBeforeYear(year: int): int {
    var y := year - 1;
    y * 365 + y / 4 - y / 100 + y / 400
  }

  function DaysBeforeMonth(year: int, month: int): int
    requires 1 <= month <= 12
  {
    (if month == 1 then 0 else if month == 2 then 31 else if month == 3 then 59
     else if month == 4 then 90 else if month == 5 then 120 else if month == 6 then 151
     else if month == 7 then 181 else if month == 8 then 212 else if month == 9 then 243
     else if month == 10 then 273 else if month == 11 then 304 else 334)
    + (if month > 2 && IsLeap(year) then 1 else 0)
  }

  /** A naive UTC datetime with its seconds already dropped. */
  datatype DateTime = DateTime(year: int, month: int, day: int, hour: int, minute: int) {
    predicate Valid() {
      && 1 <= month <= 12
      && 1 <= day <= MonthLength(year, month)
      && 0 <= hour < 24
      && 0 <= minute < 60
    }

    function Ordinal(): int
      requires Valid()
    {
      DaysBeforeYear(year) + DaysBeforeMonth(year, month) + day
    }

    /** Python's `weekday()`: Monday is 0. */
    function Weekday(): int
      requires Valid()
    {
      (Ordinal() + 6) % 7
    }

    function Minutes(): int
      requires Valid()
    {
      Ordinal() * MINUTES_PER_DAY + hour * 60 + minute
    }

    function Micros(): int
      requires Valid()
    {
      Minutes() * MICROS_PER_MINUTE
    }

    /** Field by field order, the way `datetime` compares. */
    predicate Before(that: DateTime) {
      || year < that.year
      || (year == that.year && month < that.month)
      || (year == that.year && month == that.month && day < that.day)
      || (year == that.year && month == that.month && day == that.day && hour < that.hour)
      || (year == that.year && month == that.month && day == that.day && hour == that.hour
          && minute < that.minute)
    }

    predicate SameDay(that: DateTime) {
      year == that.year && month == that.month && day == that.day
    }
  }

  /** A clock reading: a minute and the microseconds that have passed within it. */
  datatype Instant = Instant(at: DateTime, micros: int) {
    predicate Valid() {
      at.Valid() && 0 <= micros < MICROS_PER_MINUTE
    }

    function Stamp(): int
      requires Valid()
    {
      at.Micros() + micros
    }
  }

  /** The lengths of the months. */
  lemma KnownMonths(y: int, m: int)
    requires 1 <= m <= 12
    ensures m == 4 || m == 6 || m == 9 || m == 11 ==> MonthLength(y, m) == 30
    ensures m == 1 || m == 3 || m == 5 || m == 7 || m == 8 || m == 10 || m == 12 ==> MonthLength(y, m) == 31
    ensures MonthLength(y, 2) == 29 <==> y % 4 == 0 && (y % 100 != 0 || y % 400 == 0)
    ensures MonthLength(y, 2) == 28 || MonthLength(y, 2) == 29
  {
  }

  lemma DivStep(y: int, k: int)
    requires k == 4 || k == 100 || k == 400
    ensures y / k == (y - 1) / k + (if y % k == 0 then 1 else 0)
  {
  }

  lemma MultipleOfFour(x: int)
    ensures (4 * x) % 4 == 0
  {
  }

  lemma MultipleOfHundred(x: int)
    ensures (100 * x) % 100 == 0
  {
  }

  lemma ModChain(y: int)
    ensures y % 100 == 0 ==> y % 4 == 0
    ensures y % 400 == 0 ==> y % 100 == 0
  {
    MultipleOfFour(25 * (y / 100));
    MultipleOfHundred(4 * (y / 400));
  }

  lemma YearStep(year: int)
    ensures DaysBeforeYear(year + 1) == DaysBeforeYear(year) + YearLength(year)
  {
    var q, c, g := (year - 1) / 4, (year - 1) / 100, (year - 1) / 400;
    DivStep(year, 4);
    DivStep(year, 100);
    DivStep(year, 400);
    ModChain(year);
    var leap := (if year % 4 == 0 then 1 else 0) - (if year % 100 == 0 then 1 else 0)
                + (if year % 400 == 0 then 1 else 0);
    assert YearLength(year) == 365 + leap;
  }

  lemma {:induction false} YearsGrow(a: int, b: int)
    requires a < b
    ensures DaysBeforeYear(a) + YearLength(a) <= DaysBeforeYear(b)
    decreases b - a
  {
    YearStep(a);
    if a + 1 < b {
      YearsGrow(a + 1, b);
    }
  }

  lemma MonthStep(year: int, month: int)
    requires 1 <= month <= 12
    ensures DaysBeforeMonth(year, month) + MonthLength(year, month)
         == if month == 12 then YearLength(year) else DaysBeforeMonth(year, month + 1)
  {
  }

  lemma {:induction false} MonthsGrow(year: int, a: int, b: int)
    requires 1 <= a < b <= 12
    ensures DaysBeforeMonth(year, a) + MonthLength(year, a) <= DaysBeforeMonth(year, b)
  {
  }

  /** An earlier date has a smaller ordinal. */
  lemma OrdinalGrows(a: DateTime, b: DateTime)
    requires a.Valid() && b.Valid()
    requires a.year < b.year || (a.year == b.year && (a.month < b.month || (a.month == b.month && a.day < b.day)))
    ensures a.Ordinal() < b.Ordinal()
  {
    if a.year < b.year {
      YearsGrow(a.year, b.year);
      if a.month < 12 {
        MonthsGrow(a.year, a.month, 12);
      }
    } else if a.month < b.month {
      MonthsGrow(a.year, a.month, b.month);
    }
  }

  lemma BeforeGrows(a: DateTime, b: DateTime)
    requires a.Valid() && b.Valid() && a.Before(b)
    ensures a.Minutes() < b.Minutes()
  {
    if !a.SameDay(b) {
      OrdinalGrows(a, b);
    }
  }

  /** Counting minutes keeps the field-wise order, and no two datetimes share a minute. */
  lemma MinutesOrder(a: DateTime, b: DateTime)
    requires a.Valid() && b.Valid()
    ensures a.Minutes() < b.Minutes() <==> a.Before(b)
    ensures a.Minutes() == b.Minutes() <==> a == b
  {
    if a.Before(b) {
      BeforeGrows(a, b);
    } else if b.Before(a) {
      BeforeGrows(b, a);
    }
  }

  /** `t + timedelta(days=1)`. */
  function PlusDay(t: DateTime): (r: DateTime)
    requires t.Valid()
    ensures r.Valid() && r.Minutes() == t.Minutes() + MINUTES_PER_DAY
    ensures r.hour == t.hour && r.minute == t.minute
  {
    YearStep(t.year);
    MonthStep(t.year, t.month);
    if t.day < MonthLength(t.year, t.month) then t.(day := t.day + 1)
    else if t.month < 12 then t.(month := t.month + 1, day := 1)
    else t.(year := t.year + 1, month := 1, day := 1)
  }

  /** `t + timedelta(hours=1)`. */
  function PlusHour(t: DateTime): (r: DateTime)
    requires t.Valid()
    ensures r.Valid() && r.Minutes() == t.Minutes() + 60
  {
    if t.hour < 23 then t.(hour := t.hour + 1) else PlusDay(t.(hour := 0))
  }

  /** `t + timedelta(minutes=1)`. */
  function PlusMinute(t: DateTime): (r: DateTime)
    requires t.Valid()
    ensures r.Valid() && r.Minutes() == t.Minutes() + 1
  {
    if t.minute < 59 then t.(minute := t.minute + 1) else PlusHour(t.(minute := 0))
  }

  /** `t.replace(...)` to midnight on the first of the following month. */
  function NextMonth(t: DateTime): (r: DateTime)
    requires t.Valid()
    ensures r.Valid() && t.Minutes() < r.Minutes()
  {
    var r := if t.month + 1 > 12 then DateTime(t.year + 1, 1, 1, 0, 0)
             else DateTime(t.year, t.month + 1, 1, 0, 0);
    BeforeGrows(t, r);
    r
  }

  /** Every later minute is the minute of exactly one datetime. */
  lemma {:induction false} EveryMinuteIsADateTime(t: DateTime, n: int) returns (u: DateTime)
    requires t.Valid() && n >= t.Minutes()
    ensures u.Valid() && u.Minutes() == n
    ensures forall v: DateTime :: v.Valid() && v.Minutes() == n ==> v == u
    decreases n - t.Minutes()
  {
    if n == t.Minutes() {
      u := t;
    } else {
      u := EveryMinuteIsADateTime(PlusMinute(t), n);
    }
    forall v: DateTime | v.Valid() && v.Minutes() == n ensures v == u {
      MinutesOrder(u, v);
    }
  }
}
