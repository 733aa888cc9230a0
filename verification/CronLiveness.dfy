/** Exactly which accepted schedules always have a fire within the 366-day window. */
module CronLiveness {
  import opened Common
  import opened Calendar
  import opened CronSchedule
  import opened CronSearch

  /** The search never gives up on `s`, whatever the clock says. */
  ghost predicate AlwaysFires(s: Schedule) {
    forall after: Instant :: after.Valid() ==> NextFire(s, after).Some?
  }

  /** A minute of the year. */
  datatype Point = Point(month: int, day: int, hour: int, minute: int) {
    function In(year: int): DateTime {
      DateTime(year, month, day, hour, minute)
    }

    /** Every year has this minute; only those on 29 February fail this. */
    ghost predicate EveryYear() {
      forall y :: In(y).Valid()
    }
  }

  function PointOf(t: DateTime): Point {
    Point(t.month, t.day, t.hour, t.minute)
  }

  /** The fields of `s` allow this minute, and a leap year has it. */
  predicate Allows(s: Schedule, p: Point) {
    && p.In(2024).Valid()
    && p.month in s.months && p.day in s.doms && p.hour in s.hours && p.minute in s.minutes
  }

  /** Two different minutes of the year are allowed, one of which every year has. */
  ghost predicate TwoPoints(s: Schedule) {
    exists p, q :: Allows(s, p) && p.EveryYear() && Allows(s, q) && p != q
  }

  /** A matching minute strictly inside the window makes the search succeed. */
  lemma Witness(s: Schedule, after: Instant, u: DateTime)
    requires after.Valid() && u.Valid() && Matches(s, u)
    requires after.at.Minutes() < u.Minutes()
    requires u.Micros() < after.Stamp() + WINDOW_MICROS
    ensures NextFire(s, after).Some?
  {
    NextFireIsTheFirst(s, after);
  }

  // ----- a weekday rule is in force -----

  /** The first of seven consecutive whole days of `month` that start within a year of `t`. */
  function WeekIn(t: DateTime, month: int): DateTime
    requires t.Valid() && 1 <= month <= 12
  {
    if t.month == month && t.day <= 21 then DateTime(t.year, month, t.day + 1, 0, 0)
    else if t.month < month then DateTime(t.year, month, 1, 0, 0)
    else DateTime(t.year + 1, month, 1, 0, 0)
  }

  lemma WeekIsNear(t: DateTime, month: int)
    requires t.Valid() && 1 <= month <= 12
    ensures var w := WeekIn(t, month);
            w.Valid() && w.day <= 22 && t.Ordinal() < w.Ordinal() <= t.Ordinal() + 359
  {
    var w := WeekIn(t, month);
    OrdinalGrows(t, w);
    if t.month < month && !(t.month == month && t.day <= 21) {
      assert DaysBeforeMonth(t.year, month) <= DaysBeforeMonth(t.year, t.month) + 335;
    } else if w.year == t.year + 1 {
      YearStep(t.year);
      if month < t.month {
        MonthsGrow(t.year, month, t.month);
      }
      assert DaysBeforeMonth(t.year + 1, month) <= DaysBeforeMonth(t.year, month) + 1;
    }
  }

  /** One of any seven consecutive days is the wanted weekday. */
  lemma DayOfWeek(ordinal: int, dow: int)
    requires 0 <= dow <= 6
    ensures ((ordinal + (dow - ordinal) % 7 + 6) % 7 + 1) % 7 == dow
  {
  }

  lemma WeekdayScheduleFires(s: Schedule, after: Instant)
    requires s.Valid() && after.Valid() && (s.domStar || !s.dowStar)
    ensures NextFire(s, after).Some?
  {
    var month, dow, hour, minute := Pick(s.months), Pick(s.dows), Pick(s.hours), Pick(s.minutes);
    var week := WeekIn(after.at, month);
    WeekIsNear(after.at, month);
    var k := (dow - week.Ordinal()) % 7;
    var u := DateTime(week.year, month, week.day + k, hour, minute);
    DayOfWeek(week.Ordinal(), dow);
    assert u.Ordinal() == week.Ordinal() + k;
    assert DayMatches(s, u);
    assert u.Minutes() < (after.at.Ordinal() + 366) * MINUTES_PER_DAY;
    Witness(s, after, u);
  }

  // ----- only the day of the month is restricted -----

  /** From one year to the next such a point is 365 or 366 days away, as 29 February falls between. */
  lemma YearGap(p: Point, y: int)
    requires p.EveryYear()
    ensures p.In(y).Valid() && p.In(y + 1).Valid()
    ensures p.In(y + 1).Minutes() - p.In(y).Minutes()
         == MINUTES_PER_DAY * YearLength(if p.month <= 2 then y else y + 1)
  {
    YearStep(y);
  }

  /** The year whose occurrence of `p` is the last one at or before `t`. */
  lemma LastOccurrence(p: Point, t: DateTime) returns (y: int)
    requires p.EveryYear() && t.Valid()
    ensures p.In(y).Valid() && p.In(y + 1).Valid()
    ensures p.In(y).Minutes() <= t.Minutes() < p.In(y + 1).Minutes()
  {
    y := if p.In(t.year).Minutes() <= t.Minutes() then t.year else t.year - 1;
    MinutesOrder(t, p.In(y + 1));
    MinutesOrder(p.In(y), t);
  }

  lemma AllowedPointMatches(s: Schedule, p: Point, y: int)
    requires Allows(s, p) && p.In(y).Valid() && !s.domStar && s.dowStar
    ensures Matches(s, p.In(y))
  {
  }

  /** Strictly between two occurrences of `p` that are 366 days apart lies one of any other point. */
  lemma BetweenLongYear(s: Schedule, p: Point, q: Point, y: int) returns (u: DateTime)
    requires p.EveryYear() && Allows(s, q) && p != q && !s.domStar && s.dowStar
    requires p.In(y).Valid() && p.In(y + 1).Valid()
    requires IsLeap(if p.month <= 2 then y else y + 1)
    ensures u.Valid() && Matches(s, u) && p.In(y).Minutes() < u.Minutes() < p.In(y + 1).Minutes()
  {
    if q.month == 2 && q.day == 29 {
      u := q.In(if p.month <= 2 then y else y + 1);
      assert p.In(y + 1).Valid() && p.In(2023).Valid();
    } else {
      assert q.In(2024).Valid();
      u := q.In(if p.In(y).Before(q.In(y)) then y else y + 1);
    }
    AllowedPointMatches(s, q, u.year);
    MinutesOrder(p.In(y), u);
    MinutesOrder(u, p.In(y + 1));
  }

  lemma TwoPointsFire(s: Schedule, p: Point, q: Point, after: Instant)
    requires after.Valid() && !s.domStar && s.dowStar
    requires Allows(s, p) && p.EveryYear() && Allows(s, q) && p != q
    ensures NextFire(s, after).Some?
  {
    var y := LastOccurrence(p, after.at);
    var u := p.In(y + 1);
    YearGap(p, y);
    AllowedPointMatches(s, p, y + 1);
    if u.Micros() < after.Stamp() + WINDOW_MICROS {
      Witness(s, after, u);
    } else {
      MinutesOrder(p.In(y), after.at);
      var v := BetweenLongYear(s, p, q, y);
      Witness(s, after, v);
    }
  }

  /** A schedule with one yearly minute only matches occurrences of it. */
  lemma OnlyThePoint(s: Schedule, p: Point, r: DateTime)
    requires !s.domStar && s.dowStar && r.Valid() && Matches(s, r)
    requires forall q :: Allows(s, q) ==> q == p
    ensures r == p.In(r.year)
  {
    assert Allows(s, PointOf(r));
  }

  /** The only way for the next occurrence to lie outside the window. */
  lemma NextIsOutsideIff(p: Point, after: Instant, y: int)
    requires p.EveryYear() && after.Valid()
    requires p.In(y).Valid() && p.In(y + 1).Valid()
    requires p.In(y).Minutes() <= after.at.Minutes() < p.In(y + 1).Minutes()
    ensures p.In(y + 1).Micros() >= after.Stamp() + WINDOW_MICROS
       <==> after.micros == 0 && after.at == p.In(y) && IsLeap(if p.month <= 2 then y else y + 1)
  {
    YearGap(p, y);
    MinutesOrder(p.In(y), after.at);
  }

  /** The year of the last occurrence is the reading's own when the reading is on the minute. */
  lemma OnThePointIff(p: Point, t: DateTime, y: int)
    requires t.Valid() && p.In(y).Valid() && p.In(y + 1).Valid()
    requires p.In(y).Minutes() <= t.Minutes() < p.In(y + 1).Minutes()
    ensures t == p.In(y) <==> t == p.In(t.year)
  {
    if t == p.In(t.year) {
      MinutesOrder(t, p.In(y + 1));
      MinutesOrder(p.In(y), t);
    }
  }

  lemma SilentBetween(s: Schedule, p: Point, after: Instant, y: int)
    requires !s.domStar && s.dowStar && after.Valid() && after.at == p.In(y) && p.In(y + 1).Valid()
    requires forall q :: Allows(s, q) ==> q == p
    requires p.In(y + 1).Micros() >= after.Stamp() + WINDOW_MICROS
    ensures NextFire(s, after).None?
  {
    NextFireIsTheFirst(s, after);
    if r: DateTime :| NextFire(s, after) == Some(r) {
      OnlyThePoint(s, p, r);
      MinutesOrder(p.In(y), r);
      MinutesOrder(r, p.In(y + 1));
      assert false;
    }
  }

  /** The same, told by the reading alone. */
  lemma OutsideIff(p: Point, after: Instant, y: int)
    requires p.EveryYear() && after.Valid()
    requires p.In(y).Valid() && p.In(y + 1).Valid()
    requires p.In(y).Minutes() <= after.at.Minutes() < p.In(y + 1).Minutes()
    ensures p.In(y + 1).Micros() >= after.Stamp() + WINDOW_MICROS
       <==> && after.micros == 0 && after.at == p.In(after.at.year)
            && IsLeap(if p.month <= 2 then after.at.year else after.at.year + 1)
  {
    NextIsOutsideIff(p, after, y);
    OnThePointIff(p, after.at, y);
    assert after.at == p.In(y) ==> y == after.at.year;
  }

  lemma SilentIffOutside(s: Schedule, p: Point, after: Instant, y: int)
    requires !s.domStar && s.dowStar && Allows(s, p) && p.EveryYear() && after.Valid()
    requires forall q :: Allows(s, q) ==> q == p
    requires p.In(y).Valid() && p.In(y + 1).Valid()
    requires p.In(y).Minutes() <= after.at.Minutes() < p.In(y + 1).Minutes()
    ensures NextFire(s, after).None? <==> p.In(y + 1).Micros() >= after.Stamp() + WINDOW_MICROS
  {
    if p.In(y + 1).Micros() < after.Stamp() + WINDOW_MICROS {
      AllowedPointMatches(s, p, y + 1);
      Witness(s, after, p.In(y + 1));
    } else {
      NextIsOutsideIff(p, after, y);
      SilentBetween(s, p, after, y);
    }
  }

  /**
   The readings on which a schedule with one yearly minute fails, all of them: that very minute, with no
   seconds gone, when the next occurrence is 366 days away.
   */
  lemma OnePointFailsIff(s: Schedule, p: Point, after: Instant)
    requires !s.domStar && s.dowStar && Allows(s, p) && p.EveryYear() && after.Valid()
    requires forall q :: Allows(s, q) ==> q == p
    ensures NextFire(s, after).None?
       <==> && after.micros == 0 && after.at == p.In(after.at.year)
            && IsLeap(if p.month <= 2 then after.at.year else after.at.year + 1)
  {
    var y := LastOccurrence(p, after.at);
    SilentIffOutside(s, p, after, y);
    OutsideIff(p, after, y);
  }

  /** Without a point that every year has, the year after February 2001 stays silent. */
  lemma NoYearlyPointFails(s: Schedule) returns (after: Instant)
    requires !s.domStar && s.dowStar
    requires forall q :: Allows(s, q) ==> !q.EveryYear()
    ensures after.Valid() && NextFire(s, after).None?
  {
    after := Instant(DateTime(2001, 3, 1, 0, 0), 0);
    NextFireIsTheFirst(s, after);
    if r: DateTime :| NextFire(s, after) == Some(r) {
      assert Allows(s, PointOf(r));
      MinutesOrder(DateTime(2001, 3, 1, 0, 0), r);
      MinutesOrder(r, DateTime(2002, 3, 2, 0, 0));
      assert false;
    }
  }

  /**
   Exactly when the search can never raise: a weekday rule is in force or the day of the month is
   free, or else the fields allow two different minutes of the year, one of them a yearly one.
   */
  lemma AlwaysFiresIff(s: Schedule)
    requires s.Valid()
    ensures AlwaysFires(s) <==> s.domStar || !s.dowStar || TwoPoints(s)
  {
    if s.domStar || !s.dowStar {
      forall after: Instant | after.Valid() ensures NextFire(s, after).Some? {
        WeekdayScheduleFires(s, after);
      }
    } else if TwoPoints(s) {
      var p, q :| Allows(s, p) && p.EveryYear() && Allows(s, q) && p != q;
      forall after: Instant | after.Valid() ensures NextFire(s, after).Some? {
        TwoPointsFire(s, p, q, after);
      }
    } else {
      var after;
      if p :| Allows(s, p) && p.EveryYear() {
        after := Instant(p.In(if p.month <= 2 then 2024 else 2023), 0);
        assert p.In(after.at.year).Valid();
        OnePointFailsIff(s, p, after);
      } else {
        after := NoYearlyPointFails(s);
      }
      assert !NextFire(s, after).Some?;
    }
  }

  /** For every expression the parser accepts, the search succeeds when the weekday decides the day. */
  lemma AcceptedExpressionFires(expr: string, after: Instant)
    requires after.Valid() && CronOf(expr).Some?
    requires Words(expr)[2] == "*" || Words(expr)[4] != "*"
    ensures NextFire(CronOf(expr).value, after).Some?
  {
    ParsedIsValid(expr);
    WeekdayScheduleFires(CronOf(expr).value, after);
  }
}
