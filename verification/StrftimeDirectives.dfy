/** Which directives `strftime` expands, and when a field is shown as `?` (`src/time.rs`). */
module StrftimeDirectives {
  import opened Calendar
  import opened BrokenDownTime
  import opened IsoWeek
  import opened DecimalText
  import opened Strftime
  import opened StrftimeFields

  // ---- Modified directives ----

  /** The directives of section `strftime` of POSIX.1-2017 that take a modifier. */
  const POSIX_E: seq<char> := "cCxXyY"
  const POSIX_O: seq<char> := "deHImMSuUVwWy"

  /** Those that `strftime` documents besides. */
  const MORE_E: seq<char> := "zupPrRTsnt"
  const MORE_O: seq<char> := "CjklYGgpPRTrsntz"

  lemma ModifierAlone(modifier: char, token: char, t: Tm)
    requires IsAlternativeModifier(modifier)
    ensures Format(['%', modifier, token], t)
         == if AcceptsModifier(modifier, token) then TokenText(token, t) else ['%', modifier, token]
  {
    var format := ['%', modifier, token];
    assert format[3..] == [];
    assert Format([], t) == "";
    hide TokenText, AcceptsModifier;
  }

  lemma PlainAlone(token: char, t: Tm)
    requires !IsAlternativeModifier(token)
    ensures Format(['%', token], t) == TokenText(token, t)
  {
    var format := ['%', token];
    assert format[2..] == [];
    assert Format([], t) == "";
    hide TokenText;
  }

  lemma AcceptedAfterE(token: char)
    ensures AcceptsModifier('E', token) <==> token in POSIX_E || token in MORE_E
    ensures AcceptsModifier('E', token) ==> !IsAlternativeModifier(token)
  {
  }

  lemma AcceptedAfterO(token: char)
    ensures AcceptsModifier('O', token) <==> token in POSIX_O || token in MORE_O
    ensures AcceptsModifier('O', token) ==> !IsAlternativeModifier(token)
  {
  }

  /** `%E` and `%O` are dropped before the directives that POSIX allows and those documented besides; before any
      other character, another modifier included, the three characters are copied. */
  lemma ModifiersExact(token: char, t: Tm)
    ensures Format(['%', 'E', token], t)
         == if token in POSIX_E || token in MORE_E then Format(['%', token], t) else ['%', 'E', token]
    ensures Format(['%', 'O', token], t)
         == if token in POSIX_O || token in MORE_O then Format(['%', token], t) else ['%', 'O', token]
  {
    hide TokenText, AcceptsModifier, Format, POSIX_E, POSIX_O, MORE_E, MORE_O;
    AcceptedAfterE(token);
    AcceptedAfterO(token);
    ModifierAlone('E', token, t);
    ModifierAlone('O', token, t);
    if !IsAlternativeModifier(token) { PlainAlone(token, t); }
  }

  // ---- Literal directives ----

  const DOCUMENTED: seq<char> := "%YmdHMScFTRrvaAbBjUWGgVwCyDuntxXheIklpPsZz"

  /** `%%`, `%n`, `%t` and the zone name; a character that is no directive is copied with its `%`, and so is a `%` or
      a modifier that ends the format. */
  lemma LiteralDirectives(token: char, t: Tm)
    ensures Format("%%", t) == "%" && Format("%n", t) == "\n" && Format("%t", t) == "\t"
    ensures Format("%Z", t) == if t.zone.Some? then t.zone.value else ""
    ensures token !in DOCUMENTED ==> Format(['%', token], t) == ['%', token]
    ensures Format("%", t) == "%"
  {
    hide TokenText;
    PlainAlone('%', t);
    PlainAlone('n', t);
    PlainAlone('t', t);
    PlainAlone('Z', t);
    LiteralTokens(token, t);
    if IsAlternativeModifier(token) {
      assert Format(['%', token], t) == ['%', token];
    } else {
      PlainAlone(token, t);
    }
  }

  lemma LiteralTokens(token: char, t: Tm)
    ensures TokenText('%', t) == "%" && TokenText('n', t) == "\n" && TokenText('t', t) == "\t"
    ensures TokenText('Z', t) == if t.zone.Some? then t.zone.value else ""
    ensures token !in DOCUMENTED && !IsAlternativeModifier(token) ==> TokenText(token, t) == ['%', token]
  {
  }

  // ---- Fields out of range ----

  /** The text is `?` exactly outside the range, and otherwise two digits that denote the value. */
  predicate Shows(text: string, value: int, good: bool) {
    if good then |text| == 2 && Value(text) == value else text == "?"
  }

  lemma TwoDigitsShow(n: int)
    requires 0 <= n < 100
    ensures Shows(ZeroPadded(n, 2), n, true)
  {
    TwoDigitsWide(n);
    ZeroPaddedReadsBack(n, 2);
    hide Value, ZeroPadded;
  }

  lemma ClockFieldTokens(t: Tm)
    ensures TokenText('S', t) == SecondText(t) && TokenText('M', t) == MinuteText(t) && TokenText('H', t) == HourText(t)
    ensures TokenText('d', t) == DayText(t) && TokenText('m', t) == MonthText(t)
  {
    hide SecondText, MinuteText, HourText, DayText, MonthText;
  }

  /** Seconds, minutes, hours, days and months, at every value. */
  lemma FieldsExact(t: Tm)
    ensures Shows(TokenText('S', t), t.sec, 0 <= t.sec <= 60)
    ensures Shows(TokenText('M', t), t.min, 0 <= t.min <= 59)
    ensures Shows(TokenText('H', t), t.hour, 0 <= t.hour <= 23)
    ensures Shows(TokenText('d', t), t.mday, 1 <= t.mday <= 31)
    ensures Shows(TokenText('m', t), t.mon + 1, 0 <= t.mon <= 11)
  {
    hide TokenText, ZeroPadded, Value;
    ClockFieldTokens(t);
    RangeExact(t.sec, 0, 60);
    RangeExact(t.min, 0, 59);
    RangeExact(t.hour, 0, 23);
    RangeExact(t.mday, 1, 31);
    if 0 <= t.mon <= 11 { TwoDigitsShow(t.mon + 1); }
    hide Shows, InRange;
  }

  lemma RangeExact(value: int, min: int, max: int)
    requires 0 <= min <= max < 100
    ensures Shows(InRange(value, 2, min, max), value, min <= value <= max)
  {
    if min <= value <= max { TwoDigitsShow(value); }
    hide ZeroPadded, Value;
  }

  /** The twelve-hour fields and names are `?` exactly outside their fields' ranges. */
  lemma UnknownExact(t: Tm)
    ensures TokenText('I', t) == "?" <==> !(0 <= t.hour <= 23)
    ensures TokenText('l', t) == "?" <==> !(0 <= t.hour <= 23)
    ensures TokenText('k', t) == "?" <==> !(0 <= t.hour <= 23)
    ensures TokenText('p', t) == "?" <==> !(0 <= t.hour <= 23)
    ensures TokenText('e', t) == "?" <==> !(1 <= t.mday <= 31)
  {
    hide TokenText;
    HourTokens(t);
    DayTokens(t);
    if 0 <= t.hour <= 23 {
      TwoDigitsWide(TwelveHour(t.hour));
      SpacePaddedReadsBack(TwelveHour(t.hour));
      SpacePaddedReadsBack(t.hour);
      MeridiemNames(t);
    }
    if 1 <= t.mday <= 31 { SpacePaddedReadsBack(t.mday); }
    hide ZeroPadded, SpacePadded, SpacedValue;
  }

  /** Weekday names and numbers are `?` exactly outside the week, month names outside the year. */
  lemma UnknownNames(t: Tm)
    ensures TokenText('a', t) == "?" <==> !(0 <= t.wday <= 6)
    ensures TokenText('A', t) == "?" <==> !(0 <= t.wday <= 6)
    ensures TokenText('b', t) == "?" <==> !(0 <= t.mon <= 11)
    ensures TokenText('B', t) == "?" <==> !(0 <= t.mon <= 11)
  {
    hide TokenText;
    NameTokens(t);
    if 0 <= t.wday <= 6 { LettersOfWeekday(t.wday); }
    if 0 <= t.mon <= 11 { LettersOfMonth(t.mon); }
    hide WEEKDAY_SHORT, WEEKDAY_LONG, MONTH_SHORT, MONTH_LONG;
  }

  predicate DayFits(t: Tm) {
    0 <= t.yday < if IsLeapYear(t.year + 1900) then 366 else 365
  }

  lemma DayFitsIsValid(t: Tm)
    ensures DayFits(t) <==> IsValidYday(t.year + 1900, t.yday)
  {
  }

  lemma NumbersAreKnown(n: int, width: nat)
    ensures ZeroPadded(n, width) != "?" && FullYearText(n) != "?" && Decimal(n) != "?"
  {
    ValueOfDigits(if n < 0 then -n else n);
    var d := Digits(if n < 0 then -n else n);
    assert d[|d| - 1] in d && d[|d| - 1] != '?';
    var z := ZeroPadded(n, width);
    assert z[|z| - 1] == d[|d| - 1];
    var y := ZeroPadded(if n < 0 then -n else n, 4);
    assert y[|y| - 1] == d[|d| - 1];
    var f := FullYearText(n);
    assert f[|f| - 1] == y[|y| - 1];
  }

  lemma WeekTextsKnown(t: Tm, mondayBased: bool, twoDigits: bool)
    ensures var known := 0 <= t.wday <= 6 && DayFits(t);
      && (OptionalNumber(WeekNumber(t.year, t.yday, t.wday, mondayBased), 2) == "?" <==> !known)
      && (IsoYearText(t, twoDigits) == "?" <==> !known) && (IsoWeekText(t) == "?" <==> !known)
  {
    DayFitsIsValid(t);
    var n := WeekNumber(t.year, t.yday, t.wday, mondayBased);
    var i := IsoWeekContext(t.year, t.yday, t.wday);
    if n.Some? { NumbersAreKnown(n.value, 2); }
    if i.Some? {
      NumbersAreKnown(i.value.0, 0);
      NumbersAreKnown(i.value.0 % 100, 2);
      NumbersAreKnown(i.value.1, 2);
    }
    hide ZeroPadded, FullYearText, Quot, IsoWeeksInYear;
  }

  /** The day of the year is `?` exactly outside its year; week numbers and the ISO 8601 year also when the weekday
      is outside the week. */
  lemma UnknownWeeks(t: Tm)
    ensures TokenText('j', t) == "?" <==> !DayFits(t)
    ensures forall token :: token in "UWGgV" ==> (TokenText(token, t) == "?" <==> !(0 <= t.wday <= 6 && DayFits(t)))
    ensures TokenText('u', t) == "?" <==> !(0 <= t.wday <= 6)
    ensures TokenText('w', t) == "?" <==> !(0 <= t.wday <= 6)
  {
    hide TokenText, ZeroPadded, IsoYearText, IsoWeekText, OptionalNumber, WeekNumber, IsoWeekContext;
    DayTokens(t);
    WeekTokens(t);
    DayFitsIsValid(t);
    hide DayFits, IsValidYday;
    WeekTextsKnown(t, false, false);
    WeekTextsKnown(t, true, true);
    NumbersAreKnown(t.yday + 1, 3);
    NumbersAreKnown(t.wday, 0);
    WeekdayDigits();
  }

  lemma WeekdayDigits()
    ensures "0" != "?" && "7" != "?"
  {
    assert "0"[0] != "?"[0] && "7"[0] != "?"[0];
  }

  // ---- Widths ----

  lemma ThreeDigitsWide(n: nat)
    requires n < 1000
    ensures |ZeroPadded(n, 3)| == 3
  {
    assert n >= 10 ==> |Digits(n)| == |Digits(n / 10)| + 1;
    assert n >= 100 ==> |Digits(n / 10)| == |Digits(n / 10 / 10)| + 1;
  }

  lemma WeekTextsWide(t: Tm, mondayBased: bool)
    requires 0 <= t.wday <= 6 && DayFits(t)
    ensures |OptionalNumber(WeekNumber(t.year, t.yday, t.wday, mondayBased), 2)| == 2
    ensures |IsoYearText(t, true)| == 2 && |IsoWeekText(t)| == 2
  {
    DayFitsIsValid(t);
    var n := WeekNumber(t.year, t.yday, t.wday, mondayBased);
    var i := IsoWeekContext(t.year, t.yday, t.wday);
    TwoDigitsWide(n.value);
    TwoDigitsWide(i.value.0 % 100);
    assert 1 <= i.value.1 <= 53;
    TwoDigitsWide(i.value.1);
    hide ZeroPadded, WeekNumber, IsoWeekContext;
  }

  /** Fixed widths: two characters for the year in its century, the week numbers, the day, the hours and the clock;
      three for the day of the year; two for the century of the years 0 to 9999. */
  lemma FieldWidths(t: Tm)
    ensures |TokenText('y', t)| == 2
    ensures DayFits(t) ==> |TokenText('j', t)| == 3
    ensures 0 <= t.wday <= 6 && DayFits(t) ==> forall token :: token in "UWgV" ==> |TokenText(token, t)| == 2
    ensures 0 <= t.hour <= 23 ==> forall token :: token in "Ilk" ==> |TokenText(token, t)| == 2
    ensures 1 <= t.mday <= 31 ==> |TokenText('e', t)| == 2
    ensures 0 <= t.year + 1900 <= 9_999 ==> |TokenText('C', t)| == 2
  {
    hide TokenText;
    YearTokens(t);
    HourTokens(t);
    DayTokens(t);
    WeekTokens(t);
    DayFitsIsValid(t);
    TwoDigitsWide((t.year + 1900) % 100);
    if 0 <= t.year + 1900 <= 9_999 { TwoDigitsWide((t.year + 1900) / 100); }
    if DayFits(t) { ThreeDigitsWide(t.yday + 1); }
    if 0 <= t.wday <= 6 && DayFits(t) {
      WeekTextsWide(t, false);
      WeekTextsWide(t, true);
    }
    if 0 <= t.hour <= 23 { HoursWide(t); }
    if 1 <= t.mday <= 31 { SpacePaddedReadsBack(t.mday); }
    hide ZeroPadded, SpacePadded, SpacedValue, OptionalNumber, WeekNumber, IsoYearText, IsoWeekText, IsoWeekContext;
    hide Hour12Text, DayFits, IsValidYday;
  }

  lemma HoursWide(t: Tm)
    requires 0 <= t.hour <= 23
    ensures |Hour12Text(t, false)| == 2 && |Hour12Text(t, true)| == 2 && |SpacePadded(t.hour, 2)| == 2
  {
    TwoDigitsWide(TwelveHour(t.hour));
    SpacePaddedReadsBack(TwelveHour(t.hour));
    SpacePaddedReadsBack(t.hour);
    hide ZeroPadded, SpacePadded, SpacedValue;
  }
}
