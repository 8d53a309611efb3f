/** What `strftime` output means: expansions, reading back, and the text left in the caller's buffer. */
module StrftimeLaws {
  import opened Wrappers
  import opened BrokenDownTime
  import opened IsoWeek
  import opened DecimalText
  import opened OutputBuffers
  import opened Strftime
  import opened StrftimeFields

  // ---- Composite directives equal their written-out forms ----

  /** The format does not end inside a directive. */
  predicate Complete(format: string)
    decreases |format|
  {
    if format == [] then true
    else if format[0] != '%' then Complete(format[1..])
    else if |format| == 1 then false
    else if !IsAlternativeModifier(format[1]) then Complete(format[2..])
    else |format| > 2 && Complete(format[3..])
  }

  /** The characters and the text of a format's first directive or plain character. */
  function FirstStep(format: string): (n: nat)
    requires format != [] && Complete(format)
    ensures 1 <= n <= |format|
  {
    if format[0] != '%' then 1 else if !IsAlternativeModifier(format[1]) then 2 else 3
  }

  function FirstText(format: string, t: Tm): string
    requires format != [] && (format[0] == '%' ==> 1 < |format| && (IsAlternativeModifier(format[1]) ==> 2 < |format|))
  {
    if format[0] != '%' then [format[0]]
    else if !IsAlternativeModifier(format[1]) then TokenText(format[1], t)
    else ModifiedText(format[1], format[2], t)
  }

  lemma FormatFirst(format: string, t: Tm)
    requires format != [] && (format[0] == '%' ==> 1 < |format| && (IsAlternativeModifier(format[1]) ==> 2 < |format|))
    ensures var n := if format[0] != '%' then 1 else if !IsAlternativeModifier(format[1]) then 2 else 3;
      Format(format, t) == FirstText(format, t) + Format(format[n..], t)
  {
    hide TokenText, ModifiedText;
  }

  lemma CompleteRest(a: string)
    requires Complete(a) && a != []
    ensures Complete(a[FirstStep(a)..])
  {
  }

  lemma FirstOfConcat(a: string, b: string, t: Tm)
    requires Complete(a) && a != []
    ensures FirstText(a + b, t) == FirstText(a, t)
  {
    hide TokenText, ModifiedText;
    assert forall k :: 0 <= k < |a| ==> (a + b)[k] == a[k];
  }

  lemma ThreeTexts(a: string, b: string, c: string)
    ensures a + (b + c) == (a + b) + c
  {
  }

  /** Formatting is compositional at directive boundaries. */
  lemma {:induction false} FormatConcat(a: string, b: string, t: Tm)
    requires Complete(a)
    ensures Format(a + b, t) == Format(a, t) + Format(b, t)
    decreases |a|
  {
    hide TokenText, ModifiedText, Format, FirstText;
    if a == [] {
      FormatEmpty(t);
      assert a + b == b;
    } else {
      var step := FirstStep(a);
      FormatFirst(a, t);
      FormatFirst(a + b, t);
      FirstOfConcat(a, b, t);
      CompleteRest(a);
      hide Complete;
      FormatConcat(a[step..], b, t);
      assert (a + b)[step..] == a[step..] + b;
      ThreeTexts(FirstText(a, t), Format(a[step..], t), Format(b, t));
    }
  }

  /** The written-out form of each composite directive. */
  function Expansion(token: char): Option<string> {
    match token
    case 'c' => Some("%a %b %e %T %Y")
    case 'D' => Some("%m/%d/%y")
    case 'x' => Some("%m/%d/%y")
    case 'F' => Some("%Y-%m-%d")
    case 'T' => Some("%H:%M:%S")
    case 'X' => Some("%H:%M:%S")
    case 'R' => Some("%H:%M")
    case 'v' => Some("%e-%b-%Y")
    case 'r' => Some("%I:%M:%S %p")
    case _ => None
  }

  lemma FormatDirective(token: char, format: string, t: Tm)
    requires !IsAlternativeModifier(token)
    ensures Format(['%', token] + format, t) == TokenText(token, t) + Format(format, t)
    ensures Complete(['%', token] + format) <==> Complete(format)
  {
    hide TokenText, ModifiedText;
    assert (['%', token] + format)[2..] == format;
  }

  /** A directive, a plain character, and more. */
  lemma FormatPair(token: char, c: char, format: string, t: Tm)
    requires !IsAlternativeModifier(token) && c != '%'
    ensures Format(['%', token, c] + format, t) == TokenText(token, t) + [c] + Format(format, t)
    ensures Complete(['%', token, c] + format) <==> Complete(format)
  {
    hide TokenText, ModifiedText;
    FormatDirective(token, [c] + format, t);
    assert ['%', token] + ([c] + format) == ['%', token, c] + format;
    assert ([c] + format)[1..] == format;
  }

  lemma FormatSingle(token: char, t: Tm)
    requires !IsAlternativeModifier(token)
    ensures Format(['%', token], t) == TokenText(token, t) && Complete(['%', token])
  {
    hide TokenText, ModifiedText;
    FormatDirective(token, [], t);
    assert ['%', token] + [] == ['%', token];
    assert Format([], t) == "" && Complete([]);
  }

  lemma FieldTokens(t: Tm)
    ensures TokenText('Y', t) == YearText(t) && TokenText('y', t) == YearTwoDigitsText(t)
    ensures TokenText('m', t) == MonthText(t)
    ensures TokenText('d', t) == DayText(t) && TokenText('e', t) == DaySpaceText(t)
    ensures TokenText('a', t) == NameIn(WEEKDAY_SHORT, t.wday) && TokenText('b', t) == NameIn(MONTH_SHORT, t.mon)
  {
    hide YearText, YearTwoDigitsText, MonthText, DayText, DaySpaceText, NameIn;
  }

  lemma ClockTokens(t: Tm)
    ensures TokenText('H', t) == HourText(t) && TokenText('M', t) == MinuteText(t) && TokenText('S', t) == SecondText(t)
    ensures TokenText('I', t) == Hour12Text(t, false) && TokenText('p', t) == MeridiemText(t, false)
    ensures TokenText('T', t) == TokenText('H', t) + ":" + TokenText('M', t) + ":" + TokenText('S', t)
  {
    hide HourText, MinuteText, SecondText, Hour12Text, MeridiemText;
  }

  lemma DatesExpand(t: Tm)
    ensures TokenText('D', t) == TokenText('x', t) == Format("%m/%d/%y", t) && Complete("%m/%d/%y")
    ensures TokenText('F', t) == Format("%Y-%m-%d", t) && Complete("%Y-%m-%d")
    ensures TokenText('v', t) == Format("%e-%b-%Y", t) && Complete("%e-%b-%Y")
  {
    hide Format, Complete, FieldText, NameIn, MonthText, DayText, YearText, DaySpaceText, YearTwoDigitsText;
    FieldTokens(t);
    TwoSeparators('m', '/', 'd', '/', 'y', t);
    TwoSeparators('Y', '-', 'm', '-', 'd', t);
    TwoSeparators('e', '-', 'b', '-', 'Y', t);
  }

  lemma TwoSeparators(a: char, s1: char, b: char, s2: char, c: char, t: Tm)
    requires !IsAlternativeModifier(a) && !IsAlternativeModifier(b) && !IsAlternativeModifier(c)
    requires s1 != '%' && s2 != '%'
    ensures Format(['%', a, s1, '%', b, s2, '%', c], t)
         == TokenText(a, t) + [s1] + TokenText(b, t) + [s2] + TokenText(c, t)
    ensures Complete(['%', a, s1, '%', b, s2, '%', c])
  {
    hide TokenText, Format, Complete;
    FormatSingle(c, t);
    FormatPair(b, s2, ['%', c], t);
    FormatPair(a, s1, ['%', b, s2, '%', c], t);
    assert ['%', a, s1] + ['%', b, s2, '%', c] == ['%', a, s1, '%', b, s2, '%', c];
    assert ['%', b, s2] + ['%', c] == ['%', b, s2, '%', c];
    AppendAssociative();
  }

  lemma TimesExpand(t: Tm)
    ensures TokenText('T', t) == TokenText('X', t) == Format("%H:%M:%S", t) && Complete("%H:%M:%S")
    ensures TokenText('R', t) == Format("%H:%M", t) && Complete("%H:%M")
  {
    hide Format, Complete, FieldText, HourText, MinuteText, SecondText;
    ClockTokens(t);
    TwoSeparators('H', ':', 'M', ':', 'S', t);
    FormatSingle('M', t);
    FormatPair('H', ':', "%M", t);
    assert ['%', 'H', ':'] + "%M" == "%H:%M";
  }

  lemma MinutesToMeridiem(t: Tm)
    ensures Format("%M:%S %p", t) == TokenText('M', t) + ":" + (TokenText('S', t) + " " + TokenText('p', t))
    ensures Complete("%M:%S %p")
  {
    hide Format, Complete, TokenText;
    FormatSingle('p', t);
    FormatPair('S', ' ', "%p", t);
    assert ['%', 'S', ' '] + "%p" == "%S %p";
    FormatPair('M', ':', "%S %p", t);
    assert ['%', 'M', ':'] + "%S %p" == "%M:%S %p";
  }

  lemma ClockParts(t: Tm)
    ensures TokenText('r', t)
         == TokenText('I', t) + ":" + (TokenText('M', t) + ":" + (TokenText('S', t) + " " + TokenText('p', t)))
  {
    hide FieldText, Hour12Text, MinuteText, SecondText, MeridiemText;
    ClockTokens(t);
    var i, m, s, p := TokenText('I', t), TokenText('M', t), TokenText('S', t), TokenText('p', t);
    assert TokenText('r', t) == i + ":" + m + ":" + s + " " + p;
    hide TokenText;
    ThreeTexts(i + ":" + m + ":", s + " ", p);
    ThreeTexts(i + ":" + m + ":", s, " ");
    ThreeTexts(i + ":", m + ":", s + " " + p);
    ThreeTexts(i + ":", m, ":");
  }

  lemma ClockExpands(t: Tm)
    ensures TokenText('r', t) == Format("%I:%M:%S %p", t) && Complete("%I:%M:%S %p")
  {
    hide Format, Complete, TokenText;
    ClockParts(t);
    MinutesToMeridiem(t);
    FormatPair('I', ':', "%M:%S %p", t);
    assert ['%', 'I', ':'] + "%M:%S %p" == "%I:%M:%S %p";
  }

  lemma DayTimeYear(t: Tm)
    ensures Format("%e %T %Y", t) == TokenText('e', t) + " " + (TokenText('T', t) + " " + TokenText('Y', t))
    ensures Complete("%e %T %Y")
  {
    hide Format, Complete, TokenText;
    FormatSingle('Y', t);
    FormatPair('T', ' ', "%Y", t);
    assert ['%', 'T', ' '] + "%Y" == "%T %Y";
    FormatPair('e', ' ', "%T %Y", t);
    assert ['%', 'e', ' '] + "%T %Y" == "%e %T %Y";
  }

  lemma DateTimeParts(t: Tm)
    ensures TokenText('c', t)
         == TokenText('a', t) + " " + (TokenText('b', t) + " "
            + (TokenText('e', t) + " " + (TokenText('T', t) + " " + TokenText('Y', t))))
  {
    hide FieldText, TimeText, NameIn, DaySpaceText, YearText, TokenText;
    FieldTokens(t);
    DateTimeToken(t);
    NestText(NameIn(WEEKDAY_SHORT, t.wday), NameIn(MONTH_SHORT, t.mon), DaySpaceText(t), TimeText(t), YearText(t));
  }

  lemma DateTimeToken(t: Tm)
    ensures TokenText('c', t) == DateTimeText(t) && TokenText('T', t) == TimeText(t)
  {
    hide DateTimeText, TimeText;
  }

  lemma NestText(a: string, b: string, c: string, d: string, e: string)
    ensures a + " " + b + " " + c + " " + d + " " + e == a + " " + (b + " " + (c + " " + (d + " " + e)))
  {
    ThreeTexts(a + " " + b + " " + c + " ", d + " ", e);
    ThreeTexts(a + " " + b + " " + c + " ", d, " ");
    ThreeTexts(a + " " + b + " ", c + " ", d + " " + e);
    ThreeTexts(a + " " + b + " ", c, " ");
    ThreeTexts(a + " ", b + " ", c + " " + (d + " " + e));
    ThreeTexts(a + " ", b, " ");
  }

  lemma DateTimeExpands(t: Tm)
    ensures TokenText('c', t) == Format("%a %b %e %T %Y", t) && Complete("%a %b %e %T %Y")
  {
    hide Format, Complete, TokenText;
    DateTimeParts(t);
    DayTimeYear(t);
    FormatPair('b', ' ', "%e %T %Y", t);
    assert ['%', 'b', ' '] + "%e %T %Y" == "%b %e %T %Y";
    FormatPair('a', ' ', "%b %e %T %Y", t);
    assert ['%', 'a', ' '] + "%b %e %T %Y" == "%a %b %e %T %Y";
  }

  /** A composite directive anywhere in a format may be written out. */
  lemma ExpansionsAgree(token: char, pre: string, post: string, t: Tm)
    requires Expansion(token).Some? && Complete(pre)
    ensures Format(pre + ['%', token] + post, t) == Format(pre + Expansion(token).value + post, t)
  {
    var long := Expansion(token).value;
    ExpansionAlone(token, t);
    FormatSingle(token, t);
    hide Format, TokenText, Expansion, Complete;
    CompleteConcat(pre, ['%', token]);
    CompleteConcat(pre, long);
    FormatConcat(pre, ['%', token], t);
    FormatConcat(pre, long, t);
    FormatConcat(pre + ['%', token], post, t);
    FormatConcat(pre + long, post, t);
  }

  lemma ExpansionAlone(token: char, t: Tm)
    requires Expansion(token).Some?
    ensures TokenText(token, t) == Format(Expansion(token).value, t)
    ensures !IsAlternativeModifier(token) && Complete(Expansion(token).value)
  {
    hide Format, TokenText, Complete;
    DatesExpand(t);
    TimesExpand(t);
    ClockExpands(t);
    DateTimeExpands(t);
  }

  lemma {:induction false} CompleteConcat(a: string, b: string)
    requires Complete(a) && Complete(b)
    ensures Complete(a + b)
    decreases |a|
  {
    if a == [] {
      assert a + b == b;
    } else {
      var step := if a[0] != '%' then 1 else if !IsAlternativeModifier(a[1]) then 2 else 3;
      CompleteConcat(a[step..], b);
      assert (a + b)[step..] == a[step..] + b;
    }
  }

  // ---- Reading the output back ----

  /** `%s` after `gmtime_r` prints the epoch count itself. */
  lemma EpochReadsBack(seconds: int)
    requires TmFromUnixSeconds(seconds).Some?
    ensures SignedValue(Format("%s", TmFromUnixSeconds(seconds).value)) == seconds
  {
    hide Format, NormalizedSeconds, TmFromUnixSeconds, SignedValue, Decimal;
    var t := TmFromUnixSeconds(seconds).value;
    FormatSingle('s', t);
    TimegmUndoesGmtime(seconds);
    DecimalReadsBack(seconds);
  }

  /** The six numbers of `%F %T`: the year takes what the fifteen fixed characters after it leave. */
  function TimestampValues(s: string): (int, int, int, int, int, int)
    requires 15 <= |s|
  {
    var n := |s| - 15;
    (SignedValue(s[..n]), Value(s[n + 1..n + 3]), Value(s[n + 4..n + 6]),
     Value(s[n + 7..n + 9]), Value(s[n + 10..n + 12]), Value(s[n + 13..n + 15]))
  }

  lemma Parts(a: string, s1: char, b: string, s2: char, c: string)
    ensures var whole := a + [s1] + b + [s2] + c;
      && |whole| == |a| + |b| + |c| + 2 && whole[..|a|] == a
      && whole[|a| + 1..|a| + 1 + |b|] == b && whole[|a| + |b| + 2..|a| + |b| + |c| + 2] == c
  {
  }

  /** A text, then two two-digit numbers after separators. */
  lemma PaddedParts(a: string, s1: char, b: nat, s2: char, c: nat)
    requires b < 100 && c < 100
    ensures var whole := a + [s1] + ZeroPadded(b, 2) + [s2] + ZeroPadded(c, 2);
      && |whole| == |a| + 6 && whole[..|a|] == a
      && Value(whole[|a| + 1..|a| + 3]) == b && Value(whole[|a| + 4..|a| + 6]) == c
  {
    hide ZeroPadded, Value;
    TwoDigitsWide(b);
    TwoDigitsWide(c);
    ZeroPaddedReadsBack(b, 2);
    ZeroPaddedReadsBack(c, 2);
    Parts(a, s1, ZeroPadded(b, 2), s2, ZeroPadded(c, 2));
  }

  lemma DateFieldText(t: Tm)
    requires Canonical(t)
    ensures var f := TokenText('F', t);
      var n := |f| - 6;
      && 0 <= n && (0 <= t.year + 1900 < 10_000 ==> n == 4)
      && SignedValue(f[..n]) == t.year + 1900
      && Value(f[n + 1..n + 3]) == t.mon + 1 && Value(f[n + 4..n + 6]) == t.mday
  {
    hide Canonical, Value, SignedValue, TokenText, FullYearText, ZeroPadded;
    DateToken(t);
    YearTextWidth(t.year + 1900);
    FullYearReadsBack(t.year + 1900);
    PaddedParts(FullYearText(t.year + 1900), '-', t.mon + 1, '-', t.mday);
  }

  lemma DateToken(t: Tm)
    requires Canonical(t)
    ensures 0 <= t.mon <= 11 && 1 <= t.mday <= 31
    ensures TokenText('F', t)
         == FullYearText(t.year + 1900) + ['-'] + ZeroPadded(t.mon + 1, 2) + ['-'] + ZeroPadded(t.mday, 2)
  {
    hide ZeroPadded, FullYearText;
    assert 0 <= t.mon <= 11 && 1 <= t.mday <= 31;
    hide Canonical;
  }

  lemma YearTextWidth(year: int)
    ensures 0 <= year < 10_000 ==> |FullYearText(year)| == 4
  {
    hide ZeroPadded;
    if 0 <= year < 10_000 {
      FourDigitsWide(year);
    }
  }

  lemma TimeFieldText(t: Tm)
    requires Canonical(t)
    ensures var f := TokenText('T', t);
      && |f| == 8 && Value(f[..2]) == t.hour && Value(f[3..5]) == t.min && Value(f[6..8]) == t.sec
  {
    hide ZeroPadded, Value;
    assert TokenText('T', t) == ZeroPadded(t.hour, 2) + [':'] + ZeroPadded(t.min, 2) + [':'] + ZeroPadded(t.sec, 2);
    hide TokenText;
    TwoDigitsWide(t.hour);
    ZeroPaddedReadsBack(t.hour, 2);
    PaddedParts(ZeroPadded(t.hour, 2), ':', t.min, ':', t.sec);
  }

  lemma DateThenTime(f: string, h: string)
    requires 6 <= |f| && |h| == 8
    ensures var s := f + " " + h;
      var n := |f| - 6;
      && |s| == n + 15 && s[..n] == f[..n] && s[n + 1..n + 3] == f[n + 1..n + 3] && s[n + 4..n + 6] == f[n + 4..n + 6]
      && s[n + 7..n + 9] == h[..2] && s[n + 10..n + 12] == h[3..5] && s[n + 13..n + 15] == h[6..8]
  {
  }

  /** `%F %T` of any canonical time reads back as its fields, years before 0 and after 9999 included; in the
      years between it has 19 characters. */
  lemma TimestampReadsBack(t: Tm)
    requires Canonical(t)
    ensures var s := Format("%F %T", t);
      && 15 <= |s| && (0 <= t.year + 1900 < 10_000 ==> |s| == 19)
      && TimestampValues(s) == (t.year + 1900, t.mon + 1, t.mday, t.hour, t.min, t.sec)
  {
    hide Format, TokenText, Canonical, Value, SignedValue;
    DateFieldText(t);
    TimeFieldText(t);
    FormatSingle('T', t);
    FormatPair('F', ' ', "%T", t);
    assert ['%', 'F', ' '] + "%T" == "%F %T";
    DateThenTime(TokenText('F', t), TokenText('T', t));
  }

  // ---- What a C caller finds in the buffer ----

  /** The C string at the start of the storage. */
  function CText(cells: string): string {
    if cells == [] || cells[0] == '\0' then "" else [cells[0]] + CText(cells[1..])
  }

  lemma {:induction false} CTextOfPrefix(text: string, rest: string)
    requires '\0' !in text
    ensures CText(text + ['\0'] + rest) == text
  {
    var cells := text + ['\0'] + rest;
    if text != [] {
      CTextOfPrefix(text[1..], rest);
      assert cells[1..] == text[1..] + ['\0'] + rest;
    }
  }

  lemma NumbersHaveNoNul(n: int, width: nat)
    ensures '\0' !in ZeroPadded(n, width) && '\0' !in SpacePadded(n, width) && '\0' !in Decimal(n)
  {
    ValueOfDigits(if n < 0 then -n else n);
  }

  lemma NamesHaveNoNul(index: int)
    ensures '\0' !in NameIn(WEEKDAY_SHORT, index) && '\0' !in NameIn(WEEKDAY_LONG, index)
    ensures '\0' !in NameIn(MONTH_SHORT, index) && '\0' !in NameIn(MONTH_LONG, index)
  {
  }

  lemma NumbersNoNul()
    ensures forall n, width :: '\0' !in ZeroPadded(n, width)
    ensures forall n, width :: '\0' !in SpacePadded(n, width)
    ensures forall n :: '\0' !in Decimal(n)
  {
    hide ZeroPadded, SpacePadded, Decimal;
    forall n: int, width: nat
      ensures '\0' !in ZeroPadded(n, width) && '\0' !in SpacePadded(n, width)
    {
      NumbersHaveNoNul(n, width);
    }
    forall n: int
      ensures '\0' !in Decimal(n)
    {
      NumbersHaveNoNul(n, 0);
    }
  }

  lemma FieldsHaveNoNul(token: char, t: Tm)
    requires token != '\0' && (t.zone.Some? ==> '\0' !in t.zone.value)
    ensures '\0' !in FieldText(token, t)
  {
    hide ZeroPadded, SpacePadded, Decimal, NormalizedSeconds, IsoWeekContext, WeekNumber, NameIn;
    NumbersNoNul();
    NamesHaveNoNul(t.wday);
    NamesHaveNoNul(t.mon);
  }

  lemma PartsHaveNoNul(t: Tm)
    ensures '\0' !in YearText(t) && '\0' !in YearTwoDigitsText(t) && '\0' !in MonthText(t) && '\0' !in DayText(t)
    ensures '\0' !in DaySpaceText(t) && '\0' !in HourText(t) && '\0' !in MinuteText(t) && '\0' !in SecondText(t)
    ensures '\0' !in Hour12Text(t, false) && '\0' !in MeridiemText(t, false)
  {
    hide ZeroPadded, SpacePadded;
    NumbersNoNul();
  }

  lemma DatesHaveNoNul(t: Tm)
    ensures '\0' !in TokenText('D', t) && '\0' !in TokenText('F', t) && '\0' !in TokenText('v', t)
  {
    hide NameIn, MonthText, DayText, YearText, DaySpaceText, YearTwoDigitsText;
    PartsHaveNoNul(t);
    NamesHaveNoNul(t.mon);
  }

  lemma TimesHaveNoNul(t: Tm)
    ensures '\0' !in TimeText(t) && '\0' !in TokenText('R', t) && '\0' !in TokenText('r', t)
  {
    hide HourText, MinuteText, SecondText, Hour12Text, MeridiemText;
    PartsHaveNoNul(t);
  }

  lemma DateTimeHasNoNul(t: Tm)
    ensures '\0' !in DateTimeText(t)
  {
    hide NameIn, DaySpaceText, TimeText, YearText;
    PartsHaveNoNul(t);
    TimesHaveNoNul(t);
    NamesHaveNoNul(t.wday);
    NamesHaveNoNul(t.mon);
  }

  lemma TokensHaveNoNul(token: char, t: Tm)
    requires token != '\0' && (t.zone.Some? ==> '\0' !in t.zone.value)
    ensures '\0' !in TokenText(token, t)
  {
    hide FieldText, DateTimeText, TimeText, MonthText, DayText, YearText, YearTwoDigitsText;
    hide DaySpaceText, NameIn, HourText, MinuteText, SecondText, Hour12Text, MeridiemText;
    DatesHaveNoNul(t);
    TimesHaveNoNul(t);
    DateTimeHasNoNul(t);
    FieldsHaveNoNul(token, t);
  }

  /** No output of `strftime` contains a NUL. */
  lemma {:induction false} FormatHasNoNul(format: string, t: Tm)
    requires '\0' !in format && (t.zone.Some? ==> '\0' !in t.zone.value)
    ensures '\0' !in Format(format, t)
    decreases |format|
  {
    hide TokenText;
    if |format| > 1 {
      FormatHasNoNul(format[1..], t);
      FormatHasNoNul(format[2..], t);
      TokensHaveNoNul(format[1], t);
      if |format| > 2 {
        FormatHasNoNul(format[3..], t);
        TokensHaveNoNul(format[2], t);
      }
    }
  }

  /** The caller of `strftime` reads the output's longest prefix that fits before the NUL: all of it
      exactly when the reported length is that of the output. Cells from `max` on keep their content. */
  lemma StrftimeReadsBack(before: string, max: nat, format: string, t: Tm)
    requires 0 < max <= |before| && '\0' !in format && (t.zone.Some? ==> '\0' !in t.zone.value)
    ensures var text := Format(format, t);
      var cells := Terminated(before, max, text);
      && CText(cells) <= text && |CText(cells)| < max
      && (CText(cells) == text <==> |text| < max) && (CText(cells) != text ==> |CText(cells)| == max - 1)
      && cells[max..] == before[max..]
  {
    hide Format;
    FormatHasNoNul(format, t);
    BufferReadsBack(before, max, Format(format, t));
  }

  lemma BufferReadsBack(before: string, max: nat, text: string)
    requires 0 < max <= |before| && '\0' !in text
    ensures var cells := Terminated(before, max, text);
      && CText(cells) <= text && |CText(cells)| < max
      && (CText(cells) == text <==> |text| < max) && (CText(cells) != text ==> |CText(cells)| == max - 1)
      && cells[max..] == before[max..]
  {
    var kept := if |text| < max then |text| else max - 1;
    CTextOfPrefix(text[..kept], before[kept + 1..]);
  }
}
