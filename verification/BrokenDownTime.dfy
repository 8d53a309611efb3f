/** `struct tm` conversions: `gmtime_r`, `timegm` and `mktime` (`src/time.rs`). */
module BrokenDownTime {
  import opened Wrappers
  import opened Calendar

  /** `struct tm`; the zone pointer is the text it points to, if any. */
  datatype Tm = Tm(
    sec: int, min: int, hour: int, mday: int, mon: int, year: int,
    wday: int, yday: int, isdst: int, gmtoff: int, zone: Option<string>)

  function DayOfYear(d: Date): Option<int> {
    if 0 <= d.month - 1 < |DAYS_BEFORE_MONTH| then
      var yday := DAYS_BEFORE_MONTH[d.month - 1] + d.day - 1 + if 2 < d.month && IsLeapYear(d.year) then 1 else 0;
      if FitsInt(yday) then Some(yday) else None
    else None
  }

  function TmFromUnixSeconds(seconds: int): Option<Tm> {
    var days := seconds / SECONDS_PER_DAY;
    var secondsOfDay := seconds % SECONDS_PER_DAY;
    var date := CivilFromDays(days);
    var yday := DayOfYear(date);
    if FitsInt(date.year - 1900) && yday.Some? && FitsInt(date.month - 1) && FitsInt(date.day) then
      Some(Tm(secondsOfDay % 60, secondsOfDay % 3_600 / 60, secondsOfDay / 3_600,
              date.day, date.month - 1, date.year - 1900,
              (days + 4) % 7, yday.value, 0, 0, None))
    else None
  }

  function NormalizedSeconds(t: Tm): int {
    var fullYear := t.year + 1900 + t.mon / 12;
    var daySeconds := t.hour * 3_600 + t.min * 60 + t.sec;
    var carryDays := daySeconds / SECONDS_PER_DAY;
    var days := DaysFromCivil(Date(fullYear, t.mon % 12 + 1, 1)) + (t.mday - 1) + carryDays;
    days * SECONDS_PER_DAY + daySeconds % SECONDS_PER_DAY
  }

  /** `mktime` reads a positive DST hint as one hour ahead of the UTC baseline. */
  function NormalizedSecondsForMktime(t: Tm): int {
    NormalizedSeconds(t) - if 0 < t.isdst then 3_600 else 0
  }

  /** What `timegm` and `mktime` return and store for an epoch count, `None` on `ERANGE`. */
  function StoreSeconds(seconds: int): Option<(int, Tm)> {
    var t := TmFromUnixSeconds(seconds);
    if FitsLong(seconds) && t.Some? then Some((seconds, t.value)) else None
  }

  /** Caller storage for one `struct tm`, updated in place. */
  class TmCell {
    var value: Tm

    constructor (t: Tm)
      ensures value == t
    {
      value := t;
    }

    /** `gmtime_r` into this cell: writes only on success. */
    method Gmtime(timer: int) returns (errno: Errno)
      modifies this
      ensures match TmFromUnixSeconds(timer)
        case Some(t) => errno == OK && value == t
        case None => errno == ERANGE && value == old(value)
    {
      var converted := TmFromUnixSeconds(timer);
      if converted.None? {
        return ERANGE;
      }
      value := converted.value;
      errno := OK;
    }

    /** `timegm`: the epoch count, with the cell normalised; `-1` and an untouched cell on `ERANGE`. */
    method Timegm() returns (result: int, errno: Errno)
      modifies this
      ensures match StoreSeconds(NormalizedSeconds(old(value)))
        case Some((s, t)) => result == s && value == t && errno == OK
        case None => result == -1 && value == old(value) && errno == ERANGE
    {
      result, errno := Store(NormalizedSeconds(value));
    }

    /** `mktime`, with its daylight-saving adjustment. */
    method Mktime() returns (result: int, errno: Errno)
      modifies this
      ensures match StoreSeconds(NormalizedSecondsForMktime(old(value)))
        case Some((s, t)) => result == s && value == t && errno == OK
        case None => result == -1 && value == old(value) && errno == ERANGE
    {
      result, errno := Store(NormalizedSecondsForMktime(value));
    }

    method Store(seconds: int) returns (result: int, errno: Errno)
      modifies this
      ensures match StoreSeconds(seconds)
        case Some((s, t)) => result == s && value == t && errno == OK
        case None => result == -1 && value == old(value) && errno == ERANGE
    {
      if !FitsLong(seconds) {
        return -1, ERANGE;
      }
      var normalized := TmFromUnixSeconds(seconds);
      if normalized.None? {
        return -1, ERANGE;
      }
      value := normalized.value;
      result, errno := seconds, OK;
    }
  }

  // ---- Properties ----

  /** The civil date a `tm` names. */
  function DateOf(t: Tm): Date {
    Date(t.year + 1900, t.mon + 1, t.mday)
  }

  /** Every field in the range C promises, with weekday and year day those of the date. */
  predicate Canonical(t: Tm) {
    && 0 <= t.sec < 60 && 0 <= t.min < 60 && 0 <= t.hour < 24
    && ValidDate(DateOf(t)) && FitsInt(t.year)
    && t.wday == (DaysFromCivil(DateOf(t)) + 4) % 7
    && t.yday == DaysFromCivil(DateOf(t)) - DaysFromCivil(Date(t.year + 1900, 1, 1))
    && t.isdst == 0 && t.gmtoff == 0 && t.zone == None
  }

  /** The month table gives the distance from the first of January. */
  lemma DayOfYearIsDistance(d: Date)
    requires ValidDate(d)
    ensures DayOfYear(d) == Some(DaysFromCivil(d) - DaysFromCivil(Date(d.year, 1, 1)))
    ensures 0 <= DaysFromCivil(d) - DaysFromCivil(Date(d.year, 1, 1)) < 365 + if IsLeapYear(d.year) then 1 else 0
  {
    hide DaysFromCivil, MarchYearStart, DayOfYear, DayOfMarchYear;
    var jan1 := Date(d.year, 1, 1);
    DaysFromCivilClosed(d);
    DaysFromCivilClosed(jan1);
    MarchYearLength(d.year - 1);
    YearDayTable(d);
  }

  lemma YearDayTable(d: Date)
    requires ValidDate(d)
    ensures var before := DayOfMarchYear(d) - DayOfMarchYear(Date(d.year, 1, 1));
      var leap := if IsLeapYear(d.year) then 1 else 0;
      var yday := before + if 2 < d.month then 365 + leap else 0;
      DayOfYear(d) == Some(yday) && 0 <= yday < 365 + leap
  {
  }

  /** `gmtime_r` succeeds exactly when the year fits, and then every field is canonical for that instant. */
  lemma GmtimeIsCanonical(seconds: int)
    ensures TmFromUnixSeconds(seconds).Some? <==> FitsInt(CivilFromDays(seconds / SECONDS_PER_DAY).year - 1900)
    ensures TmFromUnixSeconds(seconds).Some? ==> var t := TmFromUnixSeconds(seconds).value;
      && Canonical(t)
      && DaysFromCivil(DateOf(t)) == seconds / SECONDS_PER_DAY
      && t.hour * 3_600 + t.min * 60 + t.sec == seconds % SECONDS_PER_DAY
  {
    hide DaysFromCivil, CivilFromDays, DayOfYear;
    var days := seconds / SECONDS_PER_DAY;
    DaysRoundTrip(days);
    DayOfYearIsDistance(CivilFromDays(days));
    if TmFromUnixSeconds(seconds).Some? {
      assert DateOf(TmFromUnixSeconds(seconds).value) == CivilFromDays(days);
      ClockSplit(seconds % SECONDS_PER_DAY);
    }
  }

  lemma ClockSplit(s: int)
    requires 0 <= s < SECONDS_PER_DAY
    ensures s / 3_600 * 3_600 + s % 3_600 / 60 * 60 + s % 60 == s && 0 <= s / 3_600 < 24 && 0 <= s % 3_600 / 60 < 60
  {
  }

  /** The day of the month enters the day number linearly, so any `tm_mday` is a plain offset. */
  lemma DayIsOffset(year: int, month: int, day: int)
    requires 1 <= month <= 12
    ensures DaysFromCivil(Date(year, month, day)) == DaysFromCivil(Date(year, month, 1)) + day - 1
  {
    hide DaysFromCivil, MarchYearStart, MonthStart;
    DaysFromCivilClosed(Date(year, month, day));
    DaysFromCivilClosed(Date(year, month, 1));
  }

  function ClockSeconds(t: Tm): int {
    t.hour * 3_600 + t.min * 60 + t.sec
  }

  function BaseDays(t: Tm): int {
    DaysFromCivil(Date(t.year + 1900 + t.mon / 12, t.mon % 12 + 1, 1))
  }

  /** Normalisation in one line: the seconds of a `tm` with any field values. */
  lemma NormalizedIsLinear(t: Tm)
    ensures NormalizedSeconds(t) == (BaseDays(t) + t.mday - 1) * SECONDS_PER_DAY + ClockSeconds(t)
  {
    hide DaysFromCivil;
    var clock := ClockSeconds(t);
    assert clock == clock / SECONDS_PER_DAY * SECONDS_PER_DAY + clock % SECONDS_PER_DAY;
  }

  lemma NormalizedAtDate(t: Tm)
    requires 0 <= t.mon < 12
    ensures NormalizedSeconds(t) == DaysFromCivil(DateOf(t)) * SECONDS_PER_DAY + ClockSeconds(t)
  {
    hide DaysFromCivil, NormalizedSeconds;
    NormalizedIsLinear(t);
    assert t.mon / 12 == 0 && t.mon % 12 == t.mon;
    DayIsOffset(t.year + 1900, t.mon + 1, t.mday);
  }

  lemma SplitSeconds(n: int, days: int, clock: int)
    requires 0 <= clock < SECONDS_PER_DAY && n == days * SECONDS_PER_DAY + clock
    ensures n / SECONDS_PER_DAY == days && n % SECONDS_PER_DAY == clock
  {
  }

  /** A canonical `tm` is the one `gmtime_r` produces for its own seconds. */
  lemma CanonicalRoundTrip(t: Tm)
    requires Canonical(t)
    ensures TmFromUnixSeconds(NormalizedSeconds(t)) == Some(t)
  {
    hide DaysFromCivil, CivilFromDays, DayOfYear, NormalizedSeconds;
    NormalizedAtDate(t);
    ClockFields(t);
    SplitSeconds(NormalizedSeconds(t), DaysFromCivil(DateOf(t)), ClockSeconds(t));
    CivilRoundTrip(DateOf(t));
    DayOfYearIsDistance(DateOf(t));
  }

  lemma ClockFields(t: Tm)
    requires 0 <= t.sec < 60 && 0 <= t.min < 60 && 0 <= t.hour < 24
    ensures var clock := ClockSeconds(t);
      && 0 <= clock < SECONDS_PER_DAY && clock / 3_600 == t.hour && clock % 3_600 / 60 == t.min && clock % 60 == t.sec
  {
  }

  /** `timegm` (and `mktime`) undo `gmtime_r` at every representable time. */
  lemma TimegmUndoesGmtime(seconds: int)
    requires TmFromUnixSeconds(seconds).Some?
    ensures var t := TmFromUnixSeconds(seconds).value;
      NormalizedSeconds(t) == seconds && NormalizedSecondsForMktime(t) == seconds
  {
    GmtimeIsCanonical(seconds);
    var t := TmFromUnixSeconds(seconds).value;
    NormalizedAtDate(t);
  }

  /** A second `timegm` or `mktime` call changes nothing: same count, same fields, whatever the first input. */
  lemma StoreIsIdempotent(seconds: int)
    requires StoreSeconds(seconds).Some?
    ensures var (s, t) := StoreSeconds(seconds).value;
      && StoreSeconds(NormalizedSeconds(t)) == Some((s, t))
      && StoreSeconds(NormalizedSecondsForMktime(t)) == Some((s, t))
  {
    TimegmUndoesGmtime(seconds);
  }

  /** Arbitrary out-of-range fields add up as units of time. */
  lemma FieldsAreAdditive(t: Tm, k: int)
    ensures NormalizedSeconds(t.(sec := t.sec + k)) == NormalizedSeconds(t) + k
    ensures NormalizedSeconds(t.(min := t.min + k)) == NormalizedSeconds(t) + 60 * k
    ensures NormalizedSeconds(t.(hour := t.hour + k)) == NormalizedSeconds(t) + 3_600 * k
    ensures NormalizedSeconds(t.(mday := t.mday + k)) == NormalizedSeconds(t) + SECONDS_PER_DAY * k
  {
    LinearInFields(t, t.(sec := t.sec + k));
    LinearInFields(t, t.(min := t.min + k));
    LinearInFields(t, t.(hour := t.hour + k));
    LinearInFields(t, t.(mday := t.mday + k));
  }

  lemma LinearInFields(t: Tm, u: Tm)
    requires t.year == u.year && t.mon == u.mon
    ensures NormalizedSeconds(u) - NormalizedSeconds(t)
         == (u.mday - t.mday) * SECONDS_PER_DAY + ClockSeconds(u) - ClockSeconds(t)
  {
    NormalizedIsLinear(t);
    NormalizedIsLinear(u);
  }

  /** Twelve months are one year. */
  lemma TwelveMonthsAreAYear(t: Tm, k: int)
    ensures NormalizedSeconds(t.(mon := t.mon + 12 * k)) == NormalizedSeconds(t.(year := t.year + k))
  {
    assert (t.mon + 12 * k) / 12 == t.mon / 12 + k && (t.mon + 12 * k) % 12 == t.mon % 12;
  }

  /** A positive daylight hint makes `mktime` read the fields one hour earlier; no other hint changes anything. */
  lemma DaylightIsOneHour(t: Tm)
    ensures NormalizedSecondsForMktime(t) == NormalizedSeconds(if 0 < t.isdst then t.(hour := t.hour - 1) else t)
  {
    FieldsAreAdditive(t, -1);
    hide NormalizedSeconds;
  }

  lemma FittingYearsFitLong(d: Date)
    requires ValidDate(d) && FitsInt(d.year - 1900)
    ensures -1_000_000_000_000 <= DaysFromCivil(d) <= 1_000_000_000_000
  {
    DaysFromCivilClosed(d);
    DayOfMarchYearBounds(d);
    hide DaysFromCivil, DayOfMarchYear;
  }

  /** `timegm` and `mktime` fail exactly when the year does not fit: the epoch count always does then. */
  lemma StoreFailsIff(seconds: int)
    ensures StoreSeconds(seconds).None? <==> !FitsInt(CivilFromDays(seconds / SECONDS_PER_DAY).year - 1900)
    ensures StoreSeconds(seconds).Some? ==> StoreSeconds(seconds).value.0 == seconds
  {
    GmtimeIsCanonical(seconds);
    if TmFromUnixSeconds(seconds).Some? {
      FittingYearsFitLong(DateOf(TmFromUnixSeconds(seconds).value));
    }
    hide DaysFromCivil, CivilFromDays, TmFromUnixSeconds;
  }
}
