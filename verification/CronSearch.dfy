/** The skipping calendar search (docker/cron_mcp.py, `_next_fire_cron`) against a plain scan. */
module CronSearch {
  import opened Common
  import opened Calendar
  import opened CronSchedule

  const WINDOW_MICROS := 366 * MINUTES_PER_DAY * MICROS_PER_MINUTE

  /** The day rule of the code: the two day fields are OR-ed only when both are restricted. */
  predicate DayMatches(s: Schedule, t: DateTime)
    requires t.Valid()
  {
    var posixDow := (t.Weekday() + 1) % 7;
    var domOk := s.domStar || t.day in s.doms;
    var dowOk := s.dowStar || posixDow in s.dows;
    if s.domStar || s.dowStar then domOk && dowOk else domOk || dowOk
  }

  predicate Matches(s: Schedule, t: DateTime)
    requires t.Valid()
  {
    t.month in s.months && DayMatches(s, t) && t.hour in s.hours && t.minute in s.minutes
  }

  /** No minute from `lo` up to but excluding `hi` matches. */
  ghost predicate Quiet(s: Schedule, lo: int, hi: int) {
    forall u: DateTime :: u.Valid() && lo <= u.Minutes() < hi ==> !Matches(s, u)
  }

  /** The reference: look at one minute after the other until one matches or the limit is reached. */
  function Scan(s: Schedule, t: DateTime, limit: int): (r: Option<DateTime>)
    requires t.Valid()
    ensures r.Some? ==> r.value.Valid()
    decreases limit - t.Micros()
  {
    if t.Micros() >= limit then None
    else if Matches(s, t) then Some(t)
    else Scan(s, PlusMinute(t), limit)
  }

  /** The next fire after a clock reading; `None` stands for the `RuntimeError`. */
  function NextFire(s: Schedule, after: Instant): (r: Option<DateTime>)
    requires after.Valid()
    ensures r.Some? ==> r.value.Valid()
  {
    Scan(s, PlusMinute(after.at), after.Stamp() + WINDOW_MICROS)
  }

  /** What the scan finds: the first matching minute, and nothing exactly when there is none. */
  lemma {:induction false} ScanFindsTheFirst(s: Schedule, t: DateTime, limit: int)
    requires t.Valid()
    ensures match Scan(s, t, limit)
            case Some(r) => Matches(s, r) && t.Minutes() <= r.Minutes() && r.Micros() < limit
                            && Quiet(s, t.Minutes(), r.Minutes())
            case None => forall u: DateTime :: u.Valid() && t.Minutes() <= u.Minutes() && u.Micros() < limit
                                               ==> !Matches(s, u)
    decreases limit - t.Micros()
  {
    if t.Micros() < limit && !Matches(s, t) {
      ScanFindsTheFirst(s, PlusMinute(t), limit);
      forall u: DateTime | u.Valid() && u.Minutes() == t.Minutes() ensures u == t {
        MinutesOrder(t, u);
      }
    }
  }

  /** A matching minute that is the first of the window is what the scan returns. */
  lemma ScanIsDetermined(s: Schedule, t: DateTime, limit: int, r: DateTime)
    requires t.Valid() && r.Valid() && Matches(s, r)
    requires t.Minutes() <= r.Minutes() && r.Micros() < limit
    requires Quiet(s, t.Minutes(), r.Minutes())
    ensures Scan(s, t, limit) == Some(r)
  {
    ScanFindsTheFirst(s, t, limit);
    var found := Scan(s, t, limit);
    assert found.Some?;
    MinutesOrder(found.value, r);
  }

  /** Jumping over minutes that do not match leaves the scan's answer alone. */
  lemma {:induction false} ScanSkips(s: Schedule, t: DateTime, u: DateTime, limit: int)
    requires t.Valid() && u.Valid() && t.Minutes() <= u.Minutes()
    requires Quiet(s, t.Minutes(), u.Minutes())
    ensures Scan(s, t, limit) == Scan(s, u, limit)
    decreases u.Minutes() - t.Minutes()
  {
    if t.Minutes() == u.Minutes() {
      MinutesOrder(t, u);
    } else {
      ScanSkips(s, PlusMinute(t), u, limit);
    }
  }

  lemma SkipMonth(s: Schedule, t: DateTime, limit: int)
    requires t.Valid() && t.month !in s.months
    ensures Scan(s, t, limit) == Scan(s, NextMonth(t), limit)
  {
    var n := NextMonth(t);
    forall u: DateTime | u.Valid() && t.Minutes() <= u.Minutes() < n.Minutes() ensures !Matches(s, u) {
      MinutesOrder(u, t);
      MinutesOrder(u, n);
    }
    ScanSkips(s, t, n, limit);
  }

  /** `t += timedelta(days=1)` and back to midnight. */
  function Tomorrow(t: DateTime): (r: DateTime)
    requires t.Valid()
    ensures r.Valid() && t.Minutes() < r.Minutes()
  {
    PlusDay(t).(hour := 0, minute := 0)
  }

  lemma DaySpan(t: DateTime, n: DateTime, u: DateTime)
    requires t.Valid() && u.Valid() && n == Tomorrow(t) && t.Minutes() <= u.Minutes() < n.Minutes()
    ensures u.SameDay(t) && u.Weekday() == t.Weekday()
  {
    MinutesOrder(u, t);
    MinutesOrder(u, n);
  }

  lemma SkipDay(s: Schedule, t: DateTime, limit: int)
    requires t.Valid() && !DayMatches(s, t)
    ensures Scan(s, t, limit) == Scan(s, Tomorrow(t), limit)
  {
    var n := Tomorrow(t);
    forall u: DateTime | u.Valid() && t.Minutes() <= u.Minutes() < n.Minutes() ensures !Matches(s, u) {
      DaySpan(t, n, u);
    }
    ScanSkips(s, t, n, limit);
  }

  /** `t += timedelta(hours=1)` and back to the full hour. */
  function NextHour(t: DateTime): (r: DateTime)
    requires t.Valid()
    ensures r.Valid() && t.Minutes() < r.Minutes()
  {
    PlusHour(t).(minute := 0)
  }

  lemma HourSpan(t: DateTime, n: DateTime, u: DateTime)
    requires t.Valid() && u.Valid() && n == NextHour(t) && t.Minutes() <= u.Minutes() < n.Minutes()
    ensures u.hour == t.hour
  {
    MinutesOrder(u, t);
    MinutesOrder(u, n);
  }

  lemma SkipHour(s: Schedule, t: DateTime, limit: int)
    requires t.Valid() && t.hour !in s.hours
    ensures Scan(s, t, limit) == Scan(s, NextHour(t), limit)
  {
    var n := NextHour(t);
    forall u: DateTime | u.Valid() && t.Minutes() <= u.Minutes() < n.Minutes() ensures !Matches(s, u) {
      HourSpan(t, n, u);
    }
    ScanSkips(s, t, n, limit);
  }

  lemma SkipMinute(s: Schedule, t: DateTime, limit: int)
    requires t.Valid() && !Matches(s, t)
    ensures Scan(s, t, limit) == Scan(s, PlusMinute(t), limit)
  {
    forall u: DateTime | u.Valid() && t.Minutes() <= u.Minutes() < PlusMinute(t).Minutes() ensures !Matches(s, u) {
      MinutesOrder(u, t);
    }
    ScanSkips(s, t, PlusMinute(t), limit);
  }

  /** `_next_fire_cron`: the search that jumps by month, day, hour and minute. */
  method NextFireCron(s: Schedule, after: Instant) returns (r: Option<DateTime>)
    requires after.Valid()
    ensures r == NextFire(s, after)
  {
    var t := PlusMinute(after.at);
    var limit := after.Stamp() + WINDOW_MICROS;
    while t.Micros() < limit
      invariant t.Valid()
      invariant Scan(s, t, limit) == NextFire(s, after)
      decreases limit - t.Micros()
    {
      if t.month !in s.months {
        var m, y := t.month + 1, t.year;
        if m > 12 {
          m, y := 1, y + 1;
        }
        SkipMonth(s, t, limit);
        ghost var firstOfNext := NextMonth(t);
        t := t.(year := y, month := m, day := 1, hour := 0, minute := 0);
        assert t == firstOfNext;
        continue;
      }
      if !DayMatches(s, t) {
        SkipDay(s, t, limit);
        t := PlusDay(t);
        t := t.(hour := 0, minute := 0);
        continue;
      }
      if t.hour !in s.hours {
        SkipHour(s, t, limit);
        t := PlusHour(t);
        t := t.(minute := 0);
        continue;
      }
      if t.minute !in s.minutes {
        SkipMinute(s, t, limit);
        t := PlusMinute(t);
        continue;
      }
      return Some(t);
    }
    return None;
  }

  /** Being later than a reading is being at or past the next whole minute. */
  lemma LaterIsNextMinute(after: Instant, u: DateTime)
    requires after.Valid() && u.Valid()
    ensures after.Stamp() < u.Micros() <==> after.at.Minutes() + 1 <= u.Minutes()
  {
  }

  /** The next fire is the scan from the next whole minute. */
  lemma NextFireScans(s: Schedule, after: Instant) returns (start: DateTime)
    requires after.Valid()
    ensures start.Valid() && start.Minutes() == after.at.Minutes() + 1
    ensures NextFire(s, after) == Scan(s, start, after.Stamp() + WINDOW_MICROS)
  {
    start := PlusMinute(after.at);
  }

  /** The search's promise in one place, for every schedule and every clock reading. */
  lemma NextFireIsTheFirst(s: Schedule, after: Instant)
    requires after.Valid()
    ensures match NextFire(s, after)
            case Some(r) =>
              && Matches(s, r) && after.Stamp() < r.Micros() < after.Stamp() + WINDOW_MICROS
              && (forall u: DateTime :: u.Valid() && after.Stamp() < u.Micros() < r.Micros() ==> !Matches(s, u))
            case None =>
              forall u: DateTime :: u.Valid() && after.Stamp() < u.Micros() < after.Stamp() + WINDOW_MICROS
                                    ==> !Matches(s, u)
  {
    var start := NextFireScans(s, after);
    ScanFindsTheFirst(s, start, after.Stamp() + WINDOW_MICROS);
    if r: DateTime :| NextFire(s, after) == Some(r) {
      LaterIsNextMinute(after, r);
    }
    forall u: DateTime | u.Valid() && after.Stamp() < u.Micros() ensures start.Minutes() <= u.Minutes() {
      LaterIsNextMinute(after, u);
    }
  }

  lemma QuietShrinks(s: Schedule, lo: int, mid: int, hi: int)
    requires Quiet(s, lo, hi) && lo <= mid
    ensures Quiet(s, mid, hi)
  {
  }

  lemma StampsOrderMinutes(early: Instant, late: Instant)
    requires early.Valid() && late.Valid() && early.Stamp() <= late.Stamp()
    ensures early.at.Minutes() <= late.at.Minutes()
  {
  }

  /** A scan that starts later, but not past what was found, and may go further finds the same. */
  lemma ScanIsStable(s: Schedule, first: DateTime, limit: int, next: DateTime, later: int, r: DateTime)
    requires first.Valid() && next.Valid() && r.Valid() && Scan(s, first, limit) == Some(r)
    requires first.Minutes() <= next.Minutes() <= r.Minutes() && limit <= later
    ensures Scan(s, next, later) == Some(r)
  {
    ScanFindsTheFirst(s, first, limit);
    QuietShrinks(s, first.Minutes(), next.Minutes(), r.Minutes());
    ScanIsDetermined(s, next, later, r);
  }

  lemma FoundAgain(s: Schedule, first: DateTime, limit: int, late: Instant, next: DateTime, r: DateTime)
    requires first.Valid() && late.Valid() && next.Valid() && r.Valid() && Scan(s, first, limit) == Some(r)
    requires next.Minutes() == late.at.Minutes() + 1 && first.Minutes() <= next.Minutes()
    requires late.Stamp() < r.Micros() && limit <= late.Stamp() + WINDOW_MICROS
    ensures Scan(s, next, late.Stamp() + WINDOW_MICROS) == Some(r)
  {
    LaterIsNextMinute(late, r);
    ScanIsStable(s, first, limit, next, late.Stamp() + WINDOW_MICROS, r);
  }

  /** Starting later, but still before the fire that was found, finds the same fire. */
  lemma NextFireIsStable(s: Schedule, early: Instant, late: Instant)
    requires early.Valid() && late.Valid() && NextFire(s, early).Some?
    requires early.Stamp() <= late.Stamp() < NextFire(s, early).value.Micros()
    ensures NextFire(s, late) == NextFire(s, early)
  {
    var first := NextFireScans(s, early);
    var next := NextFireScans(s, late);
    StampsOrderMinutes(early, late);
    FoundAgain(s, first, early.Stamp() + WINDOW_MICROS, late, next, NextFire(s, early).value);
  }

  // ----- what the day fields mean, told by days and not by the code's weekday numbers -----

  /** A Sunday. */
  const SUNDAY := DateTime(2023, 12, 31, 0, 0)

  function DaysSinceSunday(t: DateTime): int
    requires t.Valid()
  {
    t.Ordinal() - SUNDAY.Ordinal()
  }

  /** `r` is the first good minute after the reading and strictly within 366 days of it, if there is one. */
  ghost predicate FirstGood(after: Instant, r: Option<DateTime>, good: DateTime -> bool)
    requires after.Valid()
  {
    var limit := after.Stamp() + 366 * 24 * 60 * 60_000_000;
    match r
    case Some(t) =>
      && t.Valid() && good(t) && after.Stamp() < t.Micros() < limit
      && forall u: DateTime :: u.Valid() && after.Stamp() < u.Micros() < t.Micros() ==> !good(u)
    case None =>
      forall u: DateTime :: u.Valid() && after.Stamp() < u.Micros() < limit ==> !good(u)
  }

  lemma FirstGoodIf(s: Schedule, after: Instant, good: DateTime -> bool)
    requires after.Valid() && forall u: DateTime :: u.Valid() ==> good(u) == Matches(s, u)
    ensures FirstGood(after, NextFire(s, after), good)
  {
    NextFireIsTheFirst(s, after);
  }

  lemma SundayOrdinal()
    ensures SUNDAY.Valid() && SUNDAY.Ordinal() == 738885
  {
    assert DaysBeforeYear(2023) == 738520;
  }

  lemma WeekShift(ordinal: int)
    ensures ((ordinal + 6) % 7 + 1) % 7 == (ordinal - 738885) % 7
  {
  }

  lemma SundayIsZero(u: DateTime)
    requires u.Valid()
    ensures (u.Weekday() + 1) % 7 == DaysSinceSunday(u) % 7
  {
    SundayOrdinal();
    WeekShift(u.Ordinal());
  }

  /** The minutes of the allowed months, hours and minutes on an allowed weekday, 0 being Sunday. */
  function WeekdayMinute(s: Schedule): DateTime -> bool {
    (u: DateTime) => u.Valid() && u.month in s.months && u.hour in s.hours && u.minute in s.minutes
                     && DaysSinceSunday(u) % 7 in s.dows
  }

  /** The minutes of the allowed months, hours and minutes on an allowed day of the month. */
  function MonthDayMinute(s: Schedule): DateTime -> bool {
    (u: DateTime) => u.month in s.months && u.day in s.doms && u.hour in s.hours && u.minute in s.minutes
  }

  /** The minutes of the allowed months, hours and minutes on any day. */
  function AnyDayMinute(s: Schedule): DateTime -> bool {
    (u: DateTime) => u.month in s.months && u.hour in s.hours && u.minute in s.minutes
  }

  /** With a restricted weekday only: the first allowed minute of such a day. */
  lemma WeekdayFire(s: Schedule, after: Instant)
    requires after.Valid() && s.domStar && !s.dowStar
    ensures FirstGood(after, NextFire(s, after), WeekdayMinute(s))
  {
    forall u: DateTime | u.Valid() ensures WeekdayMinute(s)(u) == Matches(s, u) {
      SundayIsZero(u);
    }
    FirstGoodIf(s, after, WeekdayMinute(s));
  }

  /** With a restricted day of the month only: the first allowed minute of such a day. */
  lemma MonthDayFire(s: Schedule, after: Instant)
    requires after.Valid() && !s.domStar && s.dowStar
    ensures FirstGood(after, NextFire(s, after), MonthDayMinute(s))
  {
    FirstGoodIf(s, after, MonthDayMinute(s));
  }

  /** With neither restricted: the first allowed minute of any day. */
  lemma AnyDayFire(s: Schedule, after: Instant)
    requires after.Valid() && s.domStar && s.dowStar
    ensures FirstGood(after, NextFire(s, after), AnyDayMinute(s))
  {
    FirstGoodIf(s, after, AnyDayMinute(s));
  }

  function Earlier(a: Option<DateTime>, b: Option<DateTime>): Option<DateTime>
    requires (a.Some? ==> a.value.Valid()) && (b.Some? ==> b.value.Valid())
  {
    if a.None? then b
    else if b.None? || a.value.Minutes() <= b.value.Minutes() then a
    else b
  }

  /** With both restricted, the next fire is the earlier one of those with either field starred. */
  lemma EitherDayFire(s: Schedule, after: Instant)
    requires after.Valid() && !s.domStar && !s.dowStar
    ensures NextFire(s, after) == Earlier(NextFire(s.(domStar := true), after), NextFire(s.(dowStar := true), after))
  {
    var byDow, byDom := s.(domStar := true), s.(dowStar := true);
    NextFireIsTheFirst(s, after);
    NextFireIsTheFirst(byDow, after);
    NextFireIsTheFirst(byDom, after);
    forall u: DateTime | u.Valid() ensures Matches(s, u) <==> Matches(byDow, u) || Matches(byDom, u) {
    }
    var r, e := NextFire(s, after), Earlier(NextFire(byDow, after), NextFire(byDom, after));
    assert r.None? <==> e.None?;
    if r.Some? {
      MinutesOrder(r.value, e.value);
    }
  }
}
