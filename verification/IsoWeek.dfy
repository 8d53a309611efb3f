/** Week numbers of `strftime` (`src/time.rs`) against ISO 8601:2004, section 4.1.4. */
module IsoWeek {
  import opened Wrappers
  import opened Calendar
  import opened BrokenDownTime

  // ---- The source's functions ----

  function MaxYdayForFullYear(fullYear: int): int {
    if IsLeapYear(fullYear) then 365 else 364
  }

  predicate IsValidYday(fullYear: int, yday: int) {
    0 <= yday <= MaxYdayForFullYear(fullYear)
  }

  function IsoWeeksInYear(year: int): int {
    var januaryFirst := (DaysFromCivil(Date(year, 1, 1)) + 4) % 7;
    if januaryFirst == 4 || (januaryFirst == 3 && IsLeapYear(year)) then 53 else 52
  }

  function IsoWeekContext(tmYear: int, yday: int, wday: int): Option<(int, int)> {
    var fullYear := tmYear + 1900;
    if !(0 <= yday <= 365) || !(0 <= wday <= 6) || !IsValidYday(fullYear, yday) then None
    else
      var isoWeekday := if wday == 0 then 7 else wday;
      var week := Quot(yday + 10 - isoWeekday, 7);
      if week < 1 then Some((fullYear - 1, IsoWeeksInYear(fullYear - 1)))
      else if IsoWeeksInYear(fullYear) < week then Some((fullYear + 1, 1))
      else Some((fullYear, week))
  }

  /** `%U` (Sunday-based) and `%W` (Monday-based); `None` where the source prints `?`. */
  function WeekNumber(tmYear: int, yday: int, wday: int, mondayBased: bool): Option<int> {
    if !(0 <= wday <= 6) || !IsValidYday(tmYear + 1900, yday) then None
    else
      var offset := if mondayBased then (if wday == 0 then 6 else wday - 1) else wday;
      Some(Quot(yday + 7 - offset, 7))
  }

  // ---- The standard ----

  function MondayOf(n: int): int {
    n - (n + 3) % 7
  }

  function JanuaryFirst(year: int): int {
    DaysFromCivil(Date(year, 1, 1))
  }

  /** Week 1 is the week that holds 4 January. */
  function WeekOneMonday(year: int): int {
    MondayOf(JanuaryFirst(year) + 3)
  }

  /** Day `n` lies in week `week` of ISO year `year`. */
  predicate InIsoWeek(n: int, year: int, week: int) {
    && 1 <= week
    && MondayOf(n) == WeekOneMonday(year) + 7 * (week - 1)
    && MondayOf(n) < WeekOneMonday(year + 1)
  }

  predicate StartsOnThursday(year: int) {
    (JanuaryFirst(year) + 4) % 7 == 4
  }

  // ---- Facts about years and weeks ----

  lemma YearLength(year: int)
    ensures JanuaryFirst(year + 1) == JanuaryFirst(year) + 365 + if IsLeapYear(year) then 1 else 0
  {
    DaysFromCivilClosed(Date(year, 1, 1));
    DaysFromCivilClosed(Date(year + 1, 1, 1));
    MarchYearLength(year - 1);
  }

  lemma JanuaryFirstGrows(a: int, b: int)
    requires a < b
    ensures JanuaryFirst(a) < JanuaryFirst(b)
  {
    DaysStrictlyIncrease(Date(a, 1, 1), Date(b, 1, 1));
  }

  lemma MondayMonotone(a: int, b: int)
    requires a <= b
    ensures MondayOf(a) <= MondayOf(b)
  {
  }

  lemma WeekOneGrows(a: int, b: int)
    requires a <= b
    ensures WeekOneMonday(a) <= WeekOneMonday(b)
  {
    if a < b { JanuaryFirstGrows(a, b); }
    MondayMonotone(JanuaryFirst(a) + 3, JanuaryFirst(b) + 3);
  }

  /** Week arithmetic of one year, over its first day `j`, length and leap flag alone. */
  lemma WeeksFit(j: int, leap: bool)
    ensures var days := MondayOf(j + 365 + (if leap then 1 else 0) + 3) - MondayOf(j + 3);
      days == 7 * if (j + 4) % 7 == 4 || ((j + 4) % 7 == 3 && leap) then 53 else 52
  {
    var a := (j + 3) % 7;
    var k := (j + 3) / 7;
    assert j + 3 == 7 * k + a;
  }

  /** The source's week count of a year is the distance between two first weeks. */
  lemma WeeksInYearExact(year: int)
    ensures WeekOneMonday(year + 1) - WeekOneMonday(year) == 7 * IsoWeeksInYear(year)
  {
    YearLength(year);
    WeeksFit(JanuaryFirst(year), IsLeapYear(year));
  }

  // ---- The standard determines one week for every day ----

  lemma IsoWeekUnique(n: int, y1: int, w1: int, y2: int, w2: int)
    requires InIsoWeek(n, y1, w1) && InIsoWeek(n, y2, w2)
    ensures y1 == y2 && w1 == w2
  {
    if y1 < y2 { WeekOneGrows(y1 + 1, y2); }
    if y2 < y1 { WeekOneGrows(y2 + 1, y1); }
  }

  /** Monday to Sunday share a week; the next Monday opens the next week or the next year's first. */
  lemma IsoWeekAdvances(n: int, year: int, week: int)
    requires InIsoWeek(n, year, week)
    ensures forall m | MondayOf(n) <= m < MondayOf(n) + 7 :: InIsoWeek(m, year, week)
    ensures week <= IsoWeeksInYear(year)
    ensures if week < IsoWeeksInYear(year) then InIsoWeek(n + 7, year, week + 1) else InIsoWeek(n + 7, year + 1, 1)
  {
    hide DaysFromCivil;
    WeeksInYearExact(year);
    WeeksInYearExact(year + 1);
    assert MondayOf(n + 7) == MondayOf(n) + 7;
    forall m | MondayOf(n) <= m < MondayOf(n) + 7
      ensures MondayOf(m) == MondayOf(n)
    {
      assert MondayOf(n) == 7 * ((n + 3) / 7) - 3;
    }
  }

  // ---- What the source's formula computes ----

  lemma MondayClosed(q: int, r: int)
    requires 0 <= r < 7
    ensures MondayOf(7 * q + r - 3) == 7 * q - 3
  {
  }

  lemma WeekdayOf(n: int, wday: int)
    requires wday == (n + 4) % 7
    ensures (if wday == 0 then 7 else wday) == 1 + (n + 3) % 7
  {
  }

  lemma GuessQuot(weeks: int, a: int)
    requires 0 <= weeks && 0 <= a <= 6
    ensures Quot(7 * weeks + 9 - a, 7) == weeks + if a <= 2 then 1 else 0
  {
  }

  /** The first guess, over the year's first day and the day of the year alone. */
  lemma FirstGuess(j: int, yday: int, wday: int)
    requires 0 <= yday <= 365 && wday == (j + yday + 4) % 7
    ensures var isoWeekday := if wday == 0 then 7 else wday;
      var late := if (j + 4) % 7 == 4 then 7 else 0;
      MondayOf(j + yday) - late == MondayOf(j + 3) + 7 * (Quot(yday + 10 - isoWeekday, 7) - 1)
  {
    var p, r := (j + yday + 3) / 7, (j + yday + 3) % 7;
    var k, a := (j + 3) / 7, (j + 3) % 7;
    hide Quot, MondayOf;
    WeekdayOf(j + yday, wday);
    MondayClosed(p, r);
    if a <= 3 { MondayClosed(k, a + 3); } else { MondayClosed(k + 1, a - 4); }
    GuessQuot(p - k, a);
    assert yday + 10 - (1 + r) == 7 * (p - k) + 9 - a;
    assert (j + 4) % 7 == 4 <==> a == 3;
  }

  /** For every canonical `tm` the formula names the ISO week of the day, or of the day a week
      earlier when the civil year starts on a Thursday. */
  lemma IsoWeekContextExact(t: Tm)
    requires Canonical(t)
    ensures var n := DaysFromCivil(DateOf(t));
      var r := IsoWeekContext(t.year, t.yday, t.wday);
      r.Some? && InIsoWeek(n - if StartsOnThursday(t.year + 1900) then 7 else 0, r.value.0, r.value.1)
  {
    hide DaysFromCivil, DayOfYear, DaysInMonth;
    var year := t.year + 1900;
    DayOfYearIsDistance(DateOf(t));
    ContextIsWeek(year, t.yday, t.wday);
  }

  lemma ContextIsWeek(year: int, yday: int, wday: int)
    requires IsValidYday(year, yday) && wday == (JanuaryFirst(year) + yday + 4) % 7
    ensures var r := IsoWeekContext(year - 1900, yday, wday);
      && r.Some?
      && InIsoWeek(JanuaryFirst(year) + yday - if StartsOnThursday(year) then 7 else 0, r.value.0, r.value.1)
  {
    hide DaysFromCivil, IsLeapYear, Quot, IsoWeeksInYear;
    var j := JanuaryFirst(year);
    var n := j + yday - if StartsOnThursday(year) then 7 else 0;
    FirstGuess(j, yday, wday);
    WeeksInYearExact(year - 1);
    WeeksInYearExact(year);
    WeeksInYearExact(year + 1);
    AtLeastOneWeek(year - 1);
    AtLeastOneWeek(year + 1);
    YearLength(year);
    NearYear(j, yday, IsLeapYear(year));
    WeekEarlier(j + yday);
    hide MondayOf, WeekOneMonday, JanuaryFirst, StartsOnThursday, IsValidYday;
    var isoWeekday := if wday == 0 then 7 else wday;
    assert MondayOf(n) == WeekOneMonday(year) + 7 * (Quot(yday + 10 - isoWeekday, 7) - 1);
    YdayInRange(year, yday);
  }

  lemma AtLeastOneWeek(year: int)
    ensures 52 <= IsoWeeksInYear(year)
  {
    hide DaysFromCivil, IsLeapYear;
  }

  lemma WeekEarlier(n: int)
    ensures MondayOf(n - 7) == MondayOf(n) - 7
  {
  }

  lemma YdayInRange(year: int, yday: int)
    requires IsValidYday(year, yday)
    ensures 0 <= yday <= 365
  {
  }

  /** A day of a year lies at most one week before its first ISO week or in the first one after it. */
  lemma NearYear(j: int, yday: int, leap: bool)
    requires 0 <= yday < 365 + if leap then 1 else 0
    ensures MondayOf(j + 3) - 7 <= MondayOf(j + yday) <= MondayOf(j + 365 + (if leap then 1 else 0) + 3)
    ensures (j + 4) % 7 == 4 ==> MondayOf(j + 3) <= MondayOf(j + yday) < MondayOf(j + 365 + (if leap then 1 else 0) + 3)
  {
  }

  /** `%G` and `%V` follow the standard exactly in the years that do not start on a Thursday. */
  lemma IsoWeekContextCorrectIff(t: Tm)
    requires Canonical(t)
    ensures var n := DaysFromCivil(DateOf(t));
      var r := IsoWeekContext(t.year, t.yday, t.wday);
      r.Some? && (InIsoWeek(n, r.value.0, r.value.1) <==> !StartsOnThursday(t.year + 1900))
  {
    hide DaysFromCivil;
    IsoWeekContextExact(t);
    var n := DaysFromCivil(DateOf(t));
    var (y, w) := IsoWeekContext(t.year, t.yday, t.wday).value;
    if StartsOnThursday(t.year + 1900) {
      assert MondayOf(n - 7) != MondayOf(n);
    }
  }

  /** 1 January 2015, a Thursday: ISO week 1 of 2015, which the source calls week 52 of 2014. */
  lemma ThursdayYearExample()
    ensures TmFromUnixSeconds(1_420_070_400) == Some(Tm(0, 0, 0, 1, 0, 115, 4, 0, 0, 0, None))
    ensures IsoWeekContext(115, 0, 4) == Some((2014, 52))
    ensures InIsoWeek(16_436, 2015, 1) && !InIsoWeek(16_436, 2014, 52)
  {
    JanuaryFirst2015();
    JanuaryFirsts();
    hide DaysFromCivil, CivilFromDays;
  }

  lemma JanuaryFirst2015()
    ensures CivilFromDays(16_436) == Date(2015, 1, 1)
  {
    hide CivilFromDays;
    JanuaryFirsts();
    hide DaysFromCivil;
    CivilRoundTrip(Date(2015, 1, 1));
  }

  lemma JanuaryFirsts()
    ensures JanuaryFirst(2014) == 16_071 && JanuaryFirst(2015) == 16_436 && JanuaryFirst(2016) == 16_801
  {
    YearLength(2014);
    YearLength(2015);
    assert JanuaryFirst(2014) == 16_071;
    hide DaysFromCivil, JanuaryFirst;
  }

  // ---- %U and %W ----

  /** Days 0..yday of the year starting on day `j` that fall on weekday `start`. */
  function CountWeekStarts(j: int, yday: int, start: int): nat
    decreases yday + 1
  {
    if yday < 0 then 0
    else CountWeekStarts(j, yday - 1, start) + if (j + yday + 4) % 7 == start then 1 else 0
  }

  /** One more day adds a week start exactly when it falls on one. */
  lemma StepBack(x: int, yday: int)
    requires 1 <= yday
    ensures (yday + 7 - x % 7) / 7 == (yday - 1 + 7 - (x - 1) % 7) / 7 + if x % 7 == 0 then 1 else 0
  {
    if x % 7 == 0 {
      assert (x - 1) % 7 == 6;
    } else {
      assert (x - 1) % 7 == x % 7 - 1;
    }
  }

  lemma SameWeekday(x: int, start: int)
    requires 0 <= start <= 6
    ensures x % 7 == start <==> (x - start) % 7 == 0
  {
  }

  lemma {:induction false} CountWeekStartsClosed(j: int, yday: int, start: int)
    requires 0 <= yday && 0 <= start <= 6
    ensures CountWeekStarts(j, yday, start) == (yday + 7 - (j + yday + 4 - start) % 7) / 7
    decreases yday
  {
    SameWeekday(j + yday + 4, start);
    if yday == 0 {
      assert CountWeekStarts(j, -1, start) == 0;
    } else {
      CountWeekStartsClosed(j, yday - 1, start);
      StepBack(j + yday + 4 - start, yday);
      assert j + (yday - 1) + 4 - start == j + yday + 4 - start - 1;
    }
  }

  /** `%U` and `%W` count the Sundays, respectively Mondays, of the year up to the day. */
  lemma WeekNumberCounts(t: Tm, mondayBased: bool)
    requires Canonical(t)
    ensures WeekNumber(t.year, t.yday, t.wday, mondayBased)
         == Some(CountWeekStarts(JanuaryFirst(t.year + 1900), t.yday, if mondayBased then 1 else 0))
  {
    hide DaysFromCivil, DayOfYear, DaysInMonth, CountWeekStarts;
    DayOfYearIsDistance(DateOf(t));
    CountWeekStartsClosed(JanuaryFirst(t.year + 1900), t.yday, if mondayBased then 1 else 0);
  }
}
