/** Every directive of `strftime` names the field it stands for: its text reads back as the field. */
module StrftimeFields {
  import opened Calendar
  import opened BrokenDownTime
  import opened IsoWeek
  import opened DecimalText
  import opened Strftime

  // ---- Which text a directive stands for ----

  lemma HourTokens(t: Tm)
    ensures TokenText('I', t) == Hour12Text(t, false) && TokenText('l', t) == Hour12Text(t, true)
    ensures TokenText('p', t) == MeridiemText(t, false) && TokenText('P', t) == MeridiemText(t, true)
    ensures TokenText('H', t) == HourText(t)
    ensures TokenText('k', t) == if 0 <= t.hour <= 23 then SpacePadded(t.hour, 2) else "?"
  {
    hide Hour12Text, MeridiemText, HourText, SpacePadded;
  }

  lemma NameTokens(t: Tm)
    ensures TokenText('a', t) == NameIn(WEEKDAY_SHORT, t.wday) && TokenText('A', t) == NameIn(WEEKDAY_LONG, t.wday)
    ensures TokenText('b', t) == NameIn(MONTH_SHORT, t.mon) && TokenText('B', t) == NameIn(MONTH_LONG, t.mon)
    ensures TokenText('h', t) == TokenText('b', t)
  {
    hide NameIn;
  }

  lemma DayTokens(t: Tm)
    ensures TokenText('d', t) == DayText(t) && TokenText('e', t) == DaySpaceText(t)
    ensures TokenText('j', t) == JulianText(t)
    ensures TokenText('u', t) == WeekdayNumberText(t, "7") && TokenText('w', t) == WeekdayNumberText(t, "0")
  {
    hide DayText, DaySpaceText, JulianText, WeekdayNumberText;
  }

  lemma WeekTokens(t: Tm)
    ensures TokenText('G', t) == IsoYearText(t, false) && TokenText('g', t) == IsoYearText(t, true)
    ensures TokenText('V', t) == IsoWeekText(t)
    ensures TokenText('U', t) == OptionalNumber(WeekNumber(t.year, t.yday, t.wday, false), 2)
    ensures TokenText('W', t) == OptionalNumber(WeekNumber(t.year, t.yday, t.wday, true), 2)
  {
    hide IsoYearText, IsoWeekText, OptionalNumber, WeekNumber;
  }

  // ---- Years ----

  lemma FullYearReadsBack(year: int)
    ensures SignedValue(FullYearText(year)) == year
  {
    hide Value;
    if 0 <= year {
      SignedPaddedReadsBack(year, 4);
    } else {
      ZeroPaddedReadsBack(-year, 4);
      assert FullYearText(year)[1..] == ZeroPadded(-year, 4);
    }
  }

  lemma YearTokens(t: Tm)
    ensures TokenText('Y', t) == YearText(t) && TokenText('C', t) == CenturyText(t)
    ensures TokenText('y', t) == YearTwoDigitsText(t)
  {
    hide YearText, CenturyText, YearTwoDigitsText;
  }

  /** `%Y` reads back as the year and `%C` and `%y` as its floored quotient and remainder by 100, in every year. */
  lemma YearsReadBack(t: Tm)
    ensures SignedValue(TokenText('Y', t)) == t.year + 1900
    ensures SignedValue(TokenText('C', t)) == (t.year + 1900) / 100
    ensures Value(TokenText('y', t)) == (t.year + 1900) % 100
    ensures 100 * SignedValue(TokenText('C', t)) + Value(TokenText('y', t)) == t.year + 1900
  {
    hide Value, ZeroPadded, FullYearText, SignedValue, TokenText;
    YearTokens(t);
    FullYearReadsBack(t.year + 1900);
    SignedPaddedReadsBack((t.year + 1900) / 100, 2);
    ZeroPaddedReadsBack((t.year + 1900) % 100, 2);
  }

  // ---- Hours ----

  /** A number after at most one leading space. */
  function SpacedValue(s: string): int {
    if s != [] && s[0] == ' ' then Value(s[1..]) else Value(s)
  }

  lemma SpacePaddedReadsBack(n: nat)
    requires n < 100
    ensures |SpacePadded(n, 2)| == 2 && SpacedValue(SpacePadded(n, 2)) == n
  {
    ValueOfDigits(n);
    TwoDigitsWide(n);
    hide Value;
    var d := Digits(n);
    assert d[0] in d;
    if |d| == 1 {
      assert SpacePadded(n, 2)[1..] == d;
    } else {
      assert SpacePadded(n, 2) == d;
    }
  }

  function TwelveHour(hour: int): int {
    if hour % 12 == 0 then 12 else hour % 12
  }

  lemma Hour12Values(t: Tm)
    requires 0 <= t.hour <= 23
    ensures Value(Hour12Text(t, false)) == TwelveHour(t.hour) && SpacedValue(Hour12Text(t, true)) == TwelveHour(t.hour)
  {
    hide Value, ZeroPadded, SpacePadded, SpacedValue;
    ZeroPaddedReadsBack(TwelveHour(t.hour), 2);
    SpacePaddedReadsBack(TwelveHour(t.hour));
  }

  lemma MeridiemNames(t: Tm)
    requires 0 <= t.hour <= 23
    ensures MeridiemText(t, false) == if t.hour < 12 then "AM" else "PM"
    ensures MeridiemText(t, true) == if t.hour < 12 then "am" else "pm"
    ensures "AM" != "PM"
  {
    assert "AM"[0] != "PM"[0];
  }

  /** `%I` with `%p` (or `%P`) determines the hour. */
  lemma TwelveHourClockReadsBack(t: Tm)
    requires 0 <= t.hour <= 23
    ensures 1 <= Value(TokenText('I', t)) <= 12
    ensures TokenText('p', t) == "AM" || TokenText('p', t) == "PM"
    ensures t.hour == Value(TokenText('I', t)) % 12 + if TokenText('p', t) == "PM" then 12 else 0
    ensures TokenText('P', t) == if TokenText('p', t) == "PM" then "pm" else "am"
  {
    hide Value, TokenText, Hour12Text, MeridiemText;
    HourTokens(t);
    Hour12Values(t);
    MeridiemNames(t);
  }

  lemma PlainFieldValues(t: Tm)
    requires 1 <= t.mday <= 31 && 0 <= t.hour <= 23
    ensures SpacedValue(DaySpaceText(t)) == Value(DayText(t)) == t.mday
    ensures SpacedValue(SpacePadded(t.hour, 2)) == Value(HourText(t)) == t.hour
  {
    hide Value, ZeroPadded, SpacePadded, SpacedValue;
    SpacePaddedReadsBack(t.mday);
    SpacePaddedReadsBack(t.hour);
    ZeroPaddedReadsBack(t.mday, 2);
    ZeroPaddedReadsBack(t.hour, 2);
  }

  /** The space-padded directives `%e`, `%k` and `%l` show what `%d`, `%H` and `%I` show. */
  lemma SpacePaddedFieldsReadBack(t: Tm)
    requires 1 <= t.mday <= 31 && 0 <= t.hour <= 23
    ensures SpacedValue(TokenText('e', t)) == Value(TokenText('d', t)) == t.mday
    ensures SpacedValue(TokenText('k', t)) == Value(TokenText('H', t)) == t.hour
    ensures SpacedValue(TokenText('l', t)) == Value(TokenText('I', t))
  {
    hide Value, SpacePadded, SpacedValue, TokenText, DayText, DaySpaceText, HourText, Hour12Text, TwelveHour;
    HourTokens(t);
    DayTokens(t);
    Hour12Values(t);
    PlainFieldValues(t);
  }

  // ---- Names ----

  /** Weekday and month names determine the field, and the short name is the long one's first three letters. */
  lemma NamesReadBack(t: Tm, u: Tm)
    requires 0 <= t.wday <= 6 && 0 <= u.wday <= 6 && 0 <= t.mon <= 11 && 0 <= u.mon <= 11
    ensures TokenText('a', t) == TokenText('a', u) <==> t.wday == u.wday
    ensures TokenText('b', t) == TokenText('b', u) <==> t.mon == u.mon
    ensures |TokenText('A', t)| >= 3 && TokenText('A', t)[..3] == TokenText('a', t)
    ensures |TokenText('B', t)| >= 3 && TokenText('B', t)[..3] == TokenText('b', t) == TokenText('h', t)
  {
    hide NameIn, TokenText;
    NameTokens(t);
    NameTokens(u);
    WeekdayNames(t.wday, u.wday);
    MonthNames(t.mon, u.mon);
  }

  lemma WeekdayNames(i: int, j: int)
    requires 0 <= i <= 6 && 0 <= j <= 6
    ensures NameIn(WEEKDAY_SHORT, i) == NameIn(WEEKDAY_SHORT, j) <==> i == j
    ensures |NameIn(WEEKDAY_LONG, i)| >= 3 && NameIn(WEEKDAY_LONG, i)[..3] == NameIn(WEEKDAY_SHORT, i)
  {
    LettersOfWeekday(i);
    LettersOfWeekday(j);
  }

  /** The first and third letters of a weekday, as a number. */
  lemma LettersOfWeekday(i: int)
    requires 0 <= i <= 6
    ensures |WEEKDAY_SHORT[i]| == 3
    ensures [WEEKDAY_SHORT[i][0], WEEKDAY_SHORT[i][2]]
      == [['S', 'n'], ['M', 'n'], ['T', 'e'], ['W', 'd'], ['T', 'u'], ['F', 'i'], ['S', 't']][i]
    ensures |WEEKDAY_LONG[i]| >= 3 && WEEKDAY_LONG[i][..3] == WEEKDAY_SHORT[i]
  {
  }

  lemma MonthNames(i: int, j: int)
    requires 0 <= i <= 11 && 0 <= j <= 11
    ensures NameIn(MONTH_SHORT, i) == NameIn(MONTH_SHORT, j) <==> i == j
    ensures |NameIn(MONTH_LONG, i)| >= 3 && NameIn(MONTH_LONG, i)[..3] == NameIn(MONTH_SHORT, i)
  {
    LettersOfMonth(i);
    LettersOfMonth(j);
  }

  lemma LettersOfMonth(i: int)
    requires 0 <= i <= 11
    ensures |MONTH_SHORT[i]| == 3
    ensures [MONTH_SHORT[i][1], MONTH_SHORT[i][2]]
      == [['a', 'n'], ['e', 'b'], ['a', 'r'], ['p', 'r'], ['a', 'y'], ['u', 'n'],
          ['u', 'l'], ['u', 'g'], ['e', 'p'], ['c', 't'], ['o', 'v'], ['e', 'c']][i]
    ensures |MONTH_LONG[i]| >= 3 && MONTH_LONG[i][..3] == MONTH_SHORT[i]
  {
  }

  // ---- Offsets ----

  predicate ValidOffset(gmtoff: int) {
    -86_340 <= gmtoff <= 86_340 && gmtoff % 60 == 0
  }

  /** `%z` is `?` exactly for offsets that are not whole minutes within a day, and otherwise determines the offset. */
  lemma OffsetReadsBack(t: Tm)
    ensures TokenText('z', t) == "?" <==> !ValidOffset(t.gmtoff)
    ensures ValidOffset(t.gmtoff) ==>
      var z := TokenText('z', t);
      && |z| == 5 && (z[0] == '+' || z[0] == '-')
      && t.gmtoff == (if z[0] == '-' then -1 else 1) * (3_600 * Value(z[1..3]) + 60 * Value(z[3..5]))
  {
    hide OffsetText, TokenText, Value, ValidOffset;
    OffsetToken(t);
    if ValidOffset(t.gmtoff) {
      GoodOffset(t);
    } else {
      BadOffset(t);
    }
  }

  lemma OffsetToken(t: Tm)
    ensures TokenText('z', t) == OffsetText(t)
  {
    hide OffsetText;
  }

  lemma GoodOffset(t: Tm)
    requires ValidOffset(t.gmtoff)
    ensures var z := OffsetText(t);
      && |z| == 5 && (z[0] == '+' || z[0] == '-')
      && t.gmtoff == (if z[0] == '-' then -1 else 1) * (3_600 * Value(z[1..3]) + 60 * Value(z[3..5]))
  {
    hide Value, ZeroPadded;
    var a := if t.gmtoff < 0 then -t.gmtoff else t.gmtoff;
    var sign := if t.gmtoff < 0 then "-" else "+";
    assert OffsetText(t) == sign + ZeroPadded(a / 60 / 60, 2) + ZeroPadded(a / 60 % 60, 2);
    hide OffsetText;
    OffsetParts(sign, a / 60 / 60, a / 60 % 60);
    assert a == 3_600 * (a / 60 / 60) + 60 * (a / 60 % 60);
  }

  lemma BadOffset(t: Tm)
    requires !ValidOffset(t.gmtoff)
    ensures OffsetText(t) == "?"
  {
    hide ZeroPadded;
  }

  lemma OffsetParts(sign: string, h: nat, m: nat)
    requires |sign| == 1 && h < 100 && m < 100
    ensures var z := sign + ZeroPadded(h, 2) + ZeroPadded(m, 2);
      |z| == 5 && z[0] == sign[0] && Value(z[1..3]) == h && Value(z[3..5]) == m
  {
    hide Value, ZeroPadded;
    TwoDigitsWide(h);
    TwoDigitsWide(m);
    ZeroPaddedReadsBack(h, 2);
    ZeroPaddedReadsBack(m, 2);
    var z := sign + ZeroPadded(h, 2) + ZeroPadded(m, 2);
    assert z[1..3] == ZeroPadded(h, 2) && z[3..5] == ZeroPadded(m, 2);
  }

  // ---- Days and weeks ----

  lemma CanonicalDays(t: Tm)
    requires Canonical(t)
    ensures IsValidYday(t.year + 1900, t.yday) && 0 <= t.wday <= 6
  {
    hide DaysFromCivil, DayOfYear;
    DayOfYearIsDistance(DateOf(t));
  }

  lemma WeekdayNumbersReadBack(t: Tm)
    requires 0 <= t.wday <= 6
    ensures Value(WeekdayNumberText(t, "0")) == t.wday
    ensures Value(WeekdayNumberText(t, "7")) == if t.wday == 0 then 7 else t.wday
  {
    hide Value, Digits;
    ValueOfDigits(t.wday);
    OneDigitValues();
  }

  /** `%j`, `%u` and `%w` of a canonical time are the day of the year and the weekday in both countings. */
  lemma DaysReadBack(t: Tm)
    requires Canonical(t)
    ensures Value(TokenText('j', t)) == t.yday + 1
    ensures Value(TokenText('w', t)) == t.wday
    ensures 1 <= Value(TokenText('u', t)) <= 7 && Value(TokenText('u', t)) % 7 == t.wday
  {
    hide Canonical, ZeroPadded, Value, TokenText, IsValidYday, WeekdayNumberText;
    CanonicalDays(t);
    DayTokens(t);
    WeekdayNumbersReadBack(t);
    assert 0 <= t.yday by { NonNegativeYday(t); }
    ZeroPaddedReadsBack(t.yday + 1, 3);
  }

  lemma NonNegativeYday(t: Tm)
    requires IsValidYday(t.year + 1900, t.yday)
    ensures 0 <= t.yday
  {
  }

  lemma OneDigitValues()
    ensures Value("7") == 7 && Value("0") == 0
  {
    assert "7"[..0] == [] && "0"[..0] == [];
  }

  /** What `%G` and `%V` print is the ISO 8601 week of the day, in the years that do not start on a Thursday. */
  lemma PrintedIsoWeekIsCorrect(t: Tm)
    requires Canonical(t) && !StartsOnThursday(t.year + 1900)
    ensures InIsoWeek(DaysFromCivil(DateOf(t)), SignedValue(TokenText('G', t)), Value(TokenText('V', t)))
    ensures Value(TokenText('g', t)) == SignedValue(TokenText('G', t)) % 100
  {
    hide IsoWeekContext;
    IsoWeekContextCorrectIff(t);
    hide Canonical, DaysFromCivil, StartsOnThursday, Value, SignedValue, ZeroPadded, FullYearText, InIsoWeek, TokenText;
    WeekTokens(t);
    var (year, week) := IsoWeekContext(t.year, t.yday, t.wday).value;
    FullYearReadsBack(year);
    ZeroPaddedReadsBack(week, 2);
    ZeroPaddedReadsBack(year % 100, 2);
  }

  /** What `%U` and `%W` print counts the Sundays and Mondays of the year up to the day. */
  lemma PrintedWeekNumbersCount(t: Tm)
    requires Canonical(t)
    ensures Value(TokenText('U', t)) == CountWeekStarts(JanuaryFirst(t.year + 1900), t.yday, 0)
    ensures Value(TokenText('W', t)) == CountWeekStarts(JanuaryFirst(t.year + 1900), t.yday, 1)
  {
    hide Canonical, DaysFromCivil, Value, ZeroPadded, CountWeekStarts, WeekNumber, TokenText, JanuaryFirst;
    WeekTokens(t);
    WeekNumberCounts(t, false);
    WeekNumberCounts(t, true);
    ZeroPaddedReadsBack(CountWeekStarts(JanuaryFirst(t.year + 1900), t.yday, 0), 2);
    ZeroPaddedReadsBack(CountWeekStarts(JanuaryFirst(t.year + 1900), t.yday, 1), 2);
  }
}
