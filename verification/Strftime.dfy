/** `strftime` in the C locale (`src/time.rs`). */
module Strftime {
  import opened Wrappers
  import opened BrokenDownTime
  import opened IsoWeek
  import opened DecimalText
  import opened OutputBuffers

  const WEEKDAY_SHORT := ["Sun", "Mon", "Tue", "Wed", "Thu", "Fri", "Sat"]
  const WEEKDAY_LONG := ["Sunday", "Monday", "Tuesday", "Wednesday", "Thursday", "Friday", "Saturday"]
  const MONTH_SHORT := ["Jan", "Feb", "Mar", "Apr", "May", "Jun", "Jul", "Aug", "Sep", "Oct", "Nov", "Dec"]
  const MONTH_LONG := ["January", "February", "March", "April", "May", "June", "July", "August", "September",
                       "October", "November", "December"]

  // ---- The text of each field ----

  function NameIn(names: seq<string>, index: int): string {
    if 0 <= index < |names| then names[index] else "?"
  }

  function FullYearText(fullYear: int): string {
    if 0 <= fullYear then ZeroPadded(fullYear, 4) else "-" + ZeroPadded(-fullYear, 4)
  }

  function YearText(t: Tm): string {
    FullYearText(t.year + 1900)
  }

  function CenturyText(t: Tm): string {
    ZeroPadded((t.year + 1900) / 100, 2)
  }

  function YearTwoDigitsText(t: Tm): string {
    ZeroPadded((t.year + 1900) % 100, 2)
  }

  function InRange(value: int, width: nat, min: int, max: int): string {
    if value < min || max < value then "?" else ZeroPadded(value, width)
  }

  function MonthText(t: Tm): string {
    if 0 <= t.mon <= 11 then ZeroPadded(t.mon + 1, 2) else "?"
  }

  function DayText(t: Tm): string {
    InRange(t.mday, 2, 1, 31)
  }

  function DaySpaceText(t: Tm): string {
    if 1 <= t.mday <= 31 then SpacePadded(t.mday, 2) else "?"
  }

  function HourText(t: Tm): string {
    InRange(t.hour, 2, 0, 23)
  }

  function MinuteText(t: Tm): string {
    InRange(t.min, 2, 0, 59)
  }

  function SecondText(t: Tm): string {
    InRange(t.sec, 2, 0, 60)
  }

  function NormalizeHour12(hour: int): Option<int> {
    if 1 <= hour <= 11 then Some(hour)
    else if hour == 0 || hour == 12 then Some(12)
    else if 13 <= hour <= 23 then Some(hour - 12)
    else None
  }

  function Hour12Text(t: Tm, spaced: bool): string {
    match NormalizeHour12(t.hour)
    case None => "?"
    case Some(h) => if spaced then SpacePadded(h, 2) else ZeroPadded(h, 2)
  }

  function MeridiemText(t: Tm, lowercase: bool): string {
    if 0 <= t.hour <= 11 then (if lowercase then "am" else "AM")
    else if 12 <= t.hour <= 23 then (if lowercase then "pm" else "PM")
    else "?"
  }

  const MAX_NUMERIC_UTC_OFFSET_SECONDS := 86_340

  function OffsetText(t: Tm): string {
    var absolute := if t.gmtoff < 0 then -t.gmtoff else t.gmtoff;
    if MAX_NUMERIC_UTC_OFFSET_SECONDS < absolute || absolute % 60 != 0 then "?"
    else (if t.gmtoff < 0 then "-" else "+") + ZeroPadded(absolute / 60 / 60, 2) + ZeroPadded(absolute / 60 % 60, 2)
  }

  function OptionalNumber(n: Option<int>, width: nat): string {
    match n
    case None => "?"
    case Some(v) => ZeroPadded(v, width)
  }

  function JulianText(t: Tm): string {
    if IsValidYday(t.year + 1900, t.yday) then ZeroPadded(t.yday + 1, 3) else "?"
  }

  function IsoYearText(t: Tm, twoDigits: bool): string {
    match IsoWeekContext(t.year, t.yday, t.wday)
    case None => "?"
    case Some((isoYear, _)) => if twoDigits then ZeroPadded(isoYear % 100, 2) else FullYearText(isoYear)
  }

  function IsoWeekText(t: Tm): string {
    match IsoWeekContext(t.year, t.yday, t.wday)
    case None => "?"
    case Some((_, week)) => ZeroPadded(week, 2)
  }

  function WeekdayNumberText(t: Tm, sunday: string): string {
    if t.wday == 0 then sunday else if 1 <= t.wday <= 6 then Decimal(t.wday) else "?"
  }

  function ZoneText(t: Tm): string {
    match t.zone
    case None => ""
    case Some(name) => name
  }

  /** The directives that stand for one field; any other character is copied with its `%`. */
  function FieldText(token: char, t: Tm): string {
    match token
    case '%' => "%"
    case 'C' => CenturyText(t)
    case 'y' => YearTwoDigitsText(t)
    case 'Y' => YearText(t)
    case 's' => Decimal(NormalizedSeconds(t))
    case 'm' => MonthText(t)
    case 'd' => DayText(t)
    case 'e' => DaySpaceText(t)
    case 'H' => HourText(t)
    case 'k' => if 0 <= t.hour <= 23 then SpacePadded(t.hour, 2) else "?"
    case 'I' => Hour12Text(t, false)
    case 'l' => Hour12Text(t, true)
    case 'p' => MeridiemText(t, false)
    case 'P' => MeridiemText(t, true)
    case 'Z' => ZoneText(t)
    case 'z' => OffsetText(t)
    case 'M' => MinuteText(t)
    case 'S' => SecondText(t)
    case 'a' => NameIn(WEEKDAY_SHORT, t.wday)
    case 'A' => NameIn(WEEKDAY_LONG, t.wday)
    case 'h' => NameIn(MONTH_SHORT, t.mon)
    case 'b' => NameIn(MONTH_SHORT, t.mon)
    case 'B' => NameIn(MONTH_LONG, t.mon)
    case 'j' => JulianText(t)
    case 'U' => OptionalNumber(WeekNumber(t.year, t.yday, t.wday, false), 2)
    case 'W' => OptionalNumber(WeekNumber(t.year, t.yday, t.wday, true), 2)
    case 'G' => IsoYearText(t, false)
    case 'g' => IsoYearText(t, true)
    case 'V' => IsoWeekText(t)
    case 'u' => WeekdayNumberText(t, "7")
    case 'w' => WeekdayNumberText(t, "0")
    case 'n' => "\n"
    case 't' => "\t"
    case _ => ['%', token]
  }

  // ---- Composite directives ----

  function TimeText(t: Tm): string {
    HourText(t) + ":" + MinuteText(t) + ":" + SecondText(t)
  }

  function DateTimeText(t: Tm): string {
    NameIn(WEEKDAY_SHORT, t.wday) + " " + NameIn(MONTH_SHORT, t.mon) + " " + DaySpaceText(t)
    + " " + TimeText(t) + " " + YearText(t)
  }

  /** The text of `%` and one character, no modifier in between. */
  function TokenText(token: char, t: Tm): string {
    match token
    case 'c' => DateTimeText(t)
    case 'D' => MonthText(t) + "/" + DayText(t) + "/" + YearTwoDigitsText(t)
    case 'x' => MonthText(t) + "/" + DayText(t) + "/" + YearTwoDigitsText(t)
    case 'F' => YearText(t) + "-" + MonthText(t) + "-" + DayText(t)
    case 'T' => TimeText(t)
    case 'X' => TimeText(t)
    case 'R' => HourText(t) + ":" + MinuteText(t)
    case 'v' => DaySpaceText(t) + "-" + NameIn(MONTH_SHORT, t.mon) + "-" + YearText(t)
    case 'r' => Hour12Text(t, false) + ":" + MinuteText(t) + ":" + SecondText(t) + " " + MeridiemText(t, false)
    case _ => FieldText(token, t)
  }

  predicate IsAlternativeModifier(token: char) {
    token == 'E' || token == 'O'
  }

  /** The directives that accept the modifier. */
  predicate AcceptsModifier(modifier: char, token: char) {
    if modifier == 'E' then token in "cCxXyYzurRpPTsnt" else token in "deHImMSuUVwWyYCGgjklpPRTrzsnt"
  }

  function ModifiedText(modifier: char, token: char, t: Tm): string {
    if AcceptsModifier(modifier, token) then TokenText(token, t) else ['%', modifier, token]
  }

  /** The whole output, without any bound. */
  function Format(format: string, t: Tm): string
    decreases |format|
  {
    if format == [] then ""
    else if format[0] != '%' then [format[0]] + Format(format[1..], t)
    else if |format| == 1 then "%"
    else if !IsAlternativeModifier(format[1]) then TokenText(format[1], t) + Format(format[2..], t)
    else if |format| == 2 then ['%', format[1]]
    else ModifiedText(format[1], format[2], t) + Format(format[3..], t)
  }

  // ---- The implementation ----

  lemma AppendAssociative()
    ensures forall a: string, b: string, c: string {:trigger (a + b) + c} :: (a + b) + c == a + (b + c)
  {
    forall a: string, b: string, c: string
      ensures (a + b) + c == a + (b + c)
    {
    }
  }

  method AppendTimeOfDay(buffer: OutputBuffer, t: Tm)
    requires buffer.Valid()
    modifies buffer`required, buffer`pushed, buffer.dst
    ensures buffer.Valid() && buffer.pushed == old(buffer.pushed) + TimeText(t)
  {
    hide HourText, MinuteText, SecondText, buffer.Valid, Stored, CellsOf;
    AppendAssociative();
    buffer.PushBytes(HourText(t));
    buffer.PushByte(':');
    buffer.PushBytes(MinuteText(t));
    buffer.PushByte(':');
    buffer.PushBytes(SecondText(t));
  }

  /** Pushing after `done` since `start`. */
  method PushNext(buffer: OutputBuffer, bytes: string, ghost start: string, ghost done: string)
    requires buffer.Valid() && buffer.pushed == start + done
    modifies buffer`required, buffer`pushed, buffer.dst
    ensures buffer.Valid() && buffer.pushed == start + (done + bytes)
  {
    AppendAssociative();
    buffer.PushBytes(bytes);
  }

  method AppendCLocaleDatetime(buffer: OutputBuffer, t: Tm)
    requires buffer.Valid()
    modifies buffer`required, buffer`pushed, buffer.dst
    ensures buffer.Valid() && buffer.pushed == old(buffer.pushed) + DateTimeText(t)
  {
    hide NameIn, TimeText, DaySpaceText, YearText, buffer.Valid, Stored, CellsOf;
    ghost var start := buffer.pushed;
    buffer.PushBytes(NameIn(WEEKDAY_SHORT, t.wday));
    ghost var done := NameIn(WEEKDAY_SHORT, t.wday);
    PushNext(buffer, " ", start, done);
    PushNext(buffer, NameIn(MONTH_SHORT, t.mon), start, done + " ");
    done := done + " " + NameIn(MONTH_SHORT, t.mon);
    PushNext(buffer, " ", start, done);
    PushNext(buffer, DaySpaceText(t), start, done + " ");
    done := done + " " + DaySpaceText(t);
    PushNext(buffer, " ", start, done);
    AppendTimeOfDay(buffer, t);
    AppendAssociative();
    PushNext(buffer, " ", start, done + " " + TimeText(t));
    PushNext(buffer, YearText(t), start, done + " " + TimeText(t) + " ");
  }

  method AppendAmericanDate(buffer: OutputBuffer, t: Tm)
    requires buffer.Valid()
    modifies buffer`required, buffer`pushed, buffer.dst
    ensures buffer.Valid() && buffer.pushed == old(buffer.pushed) + TokenText('D', t)
  {
    hide MonthText, DayText, YearTwoDigitsText, buffer.Valid, Stored, CellsOf;
    AppendAssociative();
    buffer.PushBytes(MonthText(t));
    buffer.PushByte('/');
    buffer.PushBytes(DayText(t));
    buffer.PushByte('/');
    buffer.PushBytes(YearTwoDigitsText(t));
  }

  method AppendIsoDate(buffer: OutputBuffer, t: Tm)
    requires buffer.Valid()
    modifies buffer`required, buffer`pushed, buffer.dst
    ensures buffer.Valid() && buffer.pushed == old(buffer.pushed) + TokenText('F', t)
  {
    hide MonthText, DayText, YearText, buffer.Valid, Stored, CellsOf;
    AppendAssociative();
    buffer.PushBytes(YearText(t));
    buffer.PushByte('-');
    buffer.PushBytes(MonthText(t));
    buffer.PushByte('-');
    buffer.PushBytes(DayText(t));
  }

  method AppendHourMinute(buffer: OutputBuffer, t: Tm)
    requires buffer.Valid()
    modifies buffer`required, buffer`pushed, buffer.dst
    ensures buffer.Valid() && buffer.pushed == old(buffer.pushed) + TokenText('R', t)
  {
    hide HourText, MinuteText, buffer.Valid, Stored, CellsOf;
    AppendAssociative();
    buffer.PushBytes(HourText(t));
    buffer.PushByte(':');
    buffer.PushBytes(MinuteText(t));
  }

  method AppendVmsDate(buffer: OutputBuffer, t: Tm)
    requires buffer.Valid()
    modifies buffer`required, buffer`pushed, buffer.dst
    ensures buffer.Valid() && buffer.pushed == old(buffer.pushed) + TokenText('v', t)
  {
    hide NameIn, DaySpaceText, YearText, buffer.Valid, Stored, CellsOf;
    AppendAssociative();
    buffer.PushBytes(DaySpaceText(t));
    buffer.PushByte('-');
    buffer.PushBytes(NameIn(MONTH_SHORT, t.mon));
    buffer.PushByte('-');
    buffer.PushBytes(YearText(t));
  }

  method AppendClock12(buffer: OutputBuffer, t: Tm)
    requires buffer.Valid()
    modifies buffer`required, buffer`pushed, buffer.dst
    ensures buffer.Valid() && buffer.pushed == old(buffer.pushed) + TokenText('r', t)
  {
    hide Hour12Text, MinuteText, SecondText, MeridiemText, buffer.Valid, Stored, CellsOf;
    ghost var start := buffer.pushed;
    buffer.PushBytes(Hour12Text(t, false));
    ghost var done := Hour12Text(t, false);
    PushNext(buffer, ":", start, done);
    PushNext(buffer, MinuteText(t), start, done + ":");
    done := done + ":" + MinuteText(t);
    PushNext(buffer, ":", start, done);
    PushNext(buffer, SecondText(t), start, done + ":");
    done := done + ":" + SecondText(t);
    PushNext(buffer, " ", start, done);
    PushNext(buffer, MeridiemText(t, false), start, done + " ");
  }

  method AppendToken(buffer: OutputBuffer, token: char, t: Tm)
    requires buffer.Valid()
    modifies buffer`required, buffer`pushed, buffer.dst
    ensures buffer.Valid() && buffer.pushed == old(buffer.pushed) + TokenText(token, t)
  {
    hide FieldText, DateTimeText, TimeText, MonthText, DayText, YearText, HourText, buffer.Valid, Stored, CellsOf;
    match token {
      case 'c' => AppendCLocaleDatetime(buffer, t);
      case 'D' => AppendAmericanDate(buffer, t);
      case 'x' => AppendAmericanDate(buffer, t);
      case 'F' => AppendIsoDate(buffer, t);
      case 'T' => AppendTimeOfDay(buffer, t);
      case 'X' => AppendTimeOfDay(buffer, t);
      case 'R' => AppendHourMinute(buffer, t);
      case 'v' => AppendVmsDate(buffer, t);
      case 'r' => AppendClock12(buffer, t);
      case _ => buffer.PushBytes(FieldText(token, t));
    }
  }

  /** `strftime`. The first `max` cells receive as much of the full text as fits before a NUL, no other
      cell changes, and the result is the length of the text exactly when all of it fits. */
  method Strftime(s: array?<char>, max: nat, format: Option<string>, time: Option<Tm>)
    returns (written: nat, errno: Errno)
    requires s != null ==> max <= s.Length
    modifies s
    ensures format.None? || time.None? || (max != 0 && s == null) ==>
      written == 0 && errno == EINVAL && CellsOf(s) == old(CellsOf(s))
    ensures format.Some? && time.Some? && (max == 0 || s != null) ==>
      var text := Format(format.value, time.value);
      && errno == OK
      && CellsOf(s) == (if s == null then [] else Terminated(old(s[..]), max, text))
      && written == (if |text| < max then |text| else 0)
  {
    if format.None? || time.None? || (max != 0 && s == null) {
      return 0, EINVAL;
    }
    var buffer := new OutputBuffer(s, max);
    FormatInto(buffer, format.value, time.value);
    written := buffer.Finish();
    errno := OK;
  }

  /** One step of formatting at position `i`. */
  lemma FormatAt(format: string, i: nat, t: Tm)
    requires i < |format|
    ensures format[i] != '%' ==> Format(format[i..], t) == [format[i]] + Format(format[i + 1..], t)
    ensures format[i] == '%' && i + 1 == |format| ==> Format(format[i..], t) == "%"
    ensures format[i] == '%' && i + 1 < |format| && !IsAlternativeModifier(format[i + 1]) ==>
      Format(format[i..], t) == TokenText(format[i + 1], t) + Format(format[i + 2..], t)
    ensures format[i] == '%' && i + 2 == |format| && IsAlternativeModifier(format[i + 1]) ==>
      Format(format[i..], t) == ['%', format[i + 1]]
    ensures format[i] == '%' && i + 2 < |format| && IsAlternativeModifier(format[i + 1]) ==>
      Format(format[i..], t) == ModifiedText(format[i + 1], format[i + 2], t) + Format(format[i + 3..], t)
  {
    hide TokenText, ModifiedText;
    var rest := format[i..];
    assert rest[1..] == format[i + 1..];
    assert |rest| > 1 ==> rest[2..] == format[i + 2..];
    assert |rest| > 2 ==> rest[3..] == format[i + 3..];
  }

  method AppendModified(buffer: OutputBuffer, modifier: char, token: char, t: Tm)
    requires buffer.Valid() && IsAlternativeModifier(modifier)
    modifies buffer`required, buffer`pushed, buffer.dst
    ensures buffer.Valid() && buffer.pushed == old(buffer.pushed) + ModifiedText(modifier, token, t)
  {
    hide TokenText, AcceptsModifier, buffer.Valid, Stored, CellsOf;
    if AcceptsModifier(modifier, token) {
      AppendToken(buffer, token, t);
    } else {
      buffer.PushBytes(['%', modifier, token]);
    }
  }

  method FormatInto(buffer: OutputBuffer, format: string, t: Tm)
    requires buffer.Valid() && buffer.pushed == ""
    modifies buffer`required, buffer`pushed, buffer.dst
    ensures buffer.Valid() && buffer.pushed == Format(format, t)
  {
    hide TokenText, ModifiedText, Format, buffer.Valid, Stored, CellsOf;
    var index := 0;
    ghost var total := Format(format, t);
    assert format[0..] == format;
    while index < |format|
      invariant 0 <= index <= |format|
      invariant buffer.Valid() && buffer.pushed + Format(format[index..], t) == total
    {
      FormatAt(format, index, t);
      AppendAssociative();
      if format[index] != '%' {
        buffer.PushByte(format[index]);
        index := index + 1;
        continue;
      }
      index := index + 1;
      if index == |format| {
        buffer.PushByte('%');
        return;
      }
      var token := format[index];
      if IsAlternativeModifier(token) {
        if index + 1 == |format| {
          buffer.PushBytes(['%', token]);
          return;
        }
        AppendModified(buffer, token, format[index + 1], t);
        index := index + 2;
        continue;
      }
      AppendToken(buffer, token, t);
      index := index + 1;
    }
    assert format[index..] == "" && Format("", t) == "" by { FormatEmpty(t); }
  }

  lemma FormatEmpty(t: Tm)
    ensures Format("", t) == ""
  {
  }
}
