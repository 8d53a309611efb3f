/** Proleptic Gregorian day arithmetic (`src/time.rs`). Day 0 is 1970-01-01. */
module Calendar {

  /** Rust's integer `/` for a positive divisor: truncation toward zero. */
  function Quot(a: int, b: int): int
    requires 0 < b
  {
    if 0 <= a then a / b else -((-a) / b)
  }

  const SECONDS_PER_DAY := 86_400
  const DAYS_PER_400_YEARS := 146_097
  const EPOCH_SHIFT := 719_468
  const DAYS_BEFORE_MONTH: seq<int> := [0, 31, 59, 90, 120, 151, 181, 212, 243, 273, 304, 334]

  datatype Date = Date(year: int, month: int, day: int)

  predicate IsLeapYear(year: int) {
    (year % 4 == 0 && year % 100 != 0) || year % 400 == 0
  }

  function DaysInMonth(year: int, month: int): int {
    if month == 2 then (if IsLeapYear(year) then 29 else 28)
    else if month == 4 || month == 6 || month == 9 || month == 11 then 30
    else 31
  }

  predicate ValidDate(d: Date) {
    1 <= d.month <= 12 && 1 <= d.day <= DaysInMonth(d.year, d.month)
  }

  /** The calendar's own successor rule: the independent reference for both conversions. */
  function NextDate(d: Date): Date {
    if d.day < DaysInMonth(d.year, d.month) then d.(day := d.day + 1)
    else if d.month < 12 then Date(d.year, d.month + 1, 1)
    else Date(d.year + 1, 1, 1)
  }

  /** Lexicographic date order. */
  predicate Before(a: Date, b: Date) {
    a.year < b.year
    || (a.year == b.year && (a.month < b.month || (a.month == b.month && a.day < b.day)))
  }

  /** `civil_from_days`, cut at its local variables. */
  function CivilFromDays(daysSinceEpoch: int): Date {
    CivilOfMarchDay(MarchYearOf(daysSinceEpoch + EPOCH_SHIFT), DayOfMarchYearOf(daysSinceEpoch + EPOCH_SHIFT))
  }

  function MarchYearOf(shifted: int): int {
    YearOfEra(DayOfEra(shifted)) + EraOf(shifted) * 400
  }

  function DayOfMarchYearOf(shifted: int): int {
    var yearOfEra := YearOfEra(DayOfEra(shifted));
    DayOfEra(shifted) - (365 * yearOfEra + Quot(yearOfEra, 4) - Quot(yearOfEra, 100))
  }

  function EraOf(shifted: int): int {
    Quot(if 0 <= shifted then shifted else shifted - (DAYS_PER_400_YEARS - 1), DAYS_PER_400_YEARS)
  }

  function DayOfEra(shifted: int): int {
    shifted - EraOf(shifted) * DAYS_PER_400_YEARS
  }

  function YearOfEra(dayOfEra: int): int {
    Quot(dayOfEra - Quot(dayOfEra, 1_460) + Quot(dayOfEra, 36_524) - Quot(dayOfEra, 146_096), 365)
  }

  function CivilOfMarchDay(year: int, dayOfYear: int): Date {
    var monthPhase := Quot(5 * dayOfYear + 2, 153);
    var day := dayOfYear - Quot(153 * monthPhase + 2, 5) + 1;
    var month := monthPhase + if monthPhase < 10 then 3 else -9;
    Date(if month <= 2 then year + 1 else year, month, day)
  }

  function DaysFromCivil(d: Date): int {
    var adjustedYear := d.year - if d.month <= 2 then 1 else 0;
    var era := Quot(if 0 <= adjustedYear then adjustedYear else adjustedYear - 399, 400);
    var yearOfEra := adjustedYear - era * 400;
    var monthPhase := d.month + if 2 < d.month then -3 else 9;
    var dayOfYear := Quot(153 * monthPhase + 2, 5) + d.day - 1;
    var dayOfEra := yearOfEra * 365 + Quot(yearOfEra, 4) - Quot(yearOfEra, 100) + dayOfYear;
    era * DAYS_PER_400_YEARS + dayOfEra - EPOCH_SHIFT
  }

  // ---- The March-based year of an era ----

  /** Days of an era before its (March-based) year `y`. */
  function YearStart(y: int): int {
    365 * y + y / 4 - y / 100
  }

  /** Days of a March-based year before its month `mp`. */
  function MonthStart(mp: int): int {
    (153 * mp + 2) / 5
  }

  /** Centuries, four-year blocks and days split an era; the closed formula reads the year off them. */
  lemma YearOfEraSplit(doe: int, c: int, q: int, m: int)
    requires 0 <= c <= 3 && 0 <= q <= 24 && 0 <= m <= 1_460
    requires doe == 36_524 * c + 1_461 * q + m < 146_097
    requires 1_461 * q + m < 36_524 + if c == 3 then 1 else 0
    ensures (doe - doe / 1_460 + doe / 36_524 - doe / 146_096) / 365
         == 100 * c + 4 * q + if m == 1_460 then 3 else m / 365
  {
    var carry := if 1_460 <= 24 * c + q + m then 1 else 0;
    assert doe == 1_460 * (25 * c + q) + (24 * c + q + m);
    assert doe / 1_460 == 25 * c + q + carry;
    assert doe / 36_524 - doe / 146_096 == c;
    assert doe - doe / 1_460 + doe / 36_524 - doe / 146_096 == 365 * (100 * c + 4 * q) + m - carry;
  }

  lemma YearOfEraPlain(doe: int)
    requires 0 <= doe < 146_097
    ensures YearOfEra(doe) == (doe - doe / 1_460 + doe / 36_524 - doe / 146_096) / 365
  {
    assert 0 <= doe - doe / 1_460;
  }

  lemma SplitDayOfEra(doe: int) returns (c: int, q: int, m: int)
    requires 0 <= doe < 146_097
    ensures 0 <= c <= 3 && 0 <= q <= 24 && 0 <= m <= 1_460
    ensures doe == 36_524 * c + 1_461 * q + m
    ensures 1_461 * q + m < 36_524 + if c == 3 then 1 else 0
  {
    c := if doe == 146_096 then 3 else doe / 36_524;
    q := (doe - 36_524 * c) / 1_461;
    m := doe - 36_524 * c - 1_461 * q;
  }

  lemma YearStartSplit(c: int, q: int, k: int)
    requires 0 <= c <= 3 && 0 <= q <= 24 && 0 <= k <= 3
    ensures YearStart(100 * c + 4 * q + k) == 36_524 * c + 1_461 * q + 365 * k
  {
    assert (100 * c + 4 * q + k) / 4 == 25 * c + q;
    assert (100 * c + 4 * q + k) / 100 == c;
  }

  /** The closed formula for the year of an era finds the year whose span holds the day. */
  lemma YearOfEraBrackets(doe: int)
    requires 0 <= doe < 146_097
    ensures var y := YearOfEra(doe);
      && 0 <= y <= 399 && YearStart(y) <= doe && (doe < YearStart(y + 1) || (y == 399 && doe == 146_096))
  {
    var c, q, m := SplitDayOfEra(doe);
    YearOfEraSplit(doe, c, q, m);
    YearOfEraPlain(doe);
    var k := if m == 1_460 then 3 else m / 365;
    YearStartSplit(c, q, k);
    if k < 3 {
      YearStartSplit(c, q, k + 1);
    } else if q < 24 {
      YearStartSplit(c, q + 1, 0);
    } else if c < 3 {
      YearStartSplit(c + 1, 0, 0);
    }
  }

  // ---- Both conversions without eras ----

  /** Days before the March that opens March-based year `y`, over all years. */
  function MarchYearStart(y: int): int {
    365 * y + y / 4 - y / 100 + y / 400
  }

  function MarchYear(d: Date): int {
    d.year - if d.month <= 2 then 1 else 0
  }

  function MarchMonth(d: Date): int {
    d.month + if 2 < d.month then -3 else 9
  }

  function DayOfMarchYear(d: Date): int {
    MonthStart(MarchMonth(d)) + d.day - 1
  }

  /** Days from the March-based origin. */
  function MarchDay(d: Date): int {
    MarchYearStart(MarchYear(d)) + DayOfMarchYear(d)
  }

  lemma DaysFromCivilClosed(d: Date)
    requires 1 <= d.month <= 12
    ensures DaysFromCivil(d) == MarchDay(d) - EPOCH_SHIFT
  {
    var y := MarchYear(d);
    assert Quot(if 0 <= y then y else y - 399, 400) == y / 400;
    EraShift(y % 400, y / 400);
  }

  lemma MarchYearLength(y: int)
    ensures MarchYearStart(y + 1) == MarchYearStart(y) + 365 + if IsLeapYear(y + 1) then 1 else 0
  {
    DivStep(y, 4);
    DivStep(y, 100);
    DivStep(y, 400);
    LeapNesting(y + 1);
  }

  lemma DivStep(y: int, b: int)
    requires b == 4 || b == 100 || b == 400
    ensures (y + 1) / b == y / b + if (y + 1) % b == 0 then 1 else 0
  {
    if b == 4 {
    } else if b == 100 {
    } else {
    }
  }

  lemma LeapNesting(y: int)
    ensures y % 400 == 0 ==> y % 100 == 0
    ensures y % 100 == 0 ==> y % 4 == 0
  {
    if y % 100 == 0 {
      FourTimes(y, y / 100);
    }
    if y % 400 == 0 {
      HundredTimes(y, y / 400);
    }
  }

  lemma FourTimes(y: int, k: int)
    requires y == 100 * k
    ensures y % 4 == 0
  {
    assert y == 4 * (25 * k);
  }

  lemma HundredTimes(y: int, k: int)
    requires y == 400 * k
    ensures y % 100 == 0
  {
    assert y == 100 * (4 * k);
  }

  lemma EraShift(yoe: int, era: int)
    requires 0 <= yoe <= 399
    ensures MarchYearStart(yoe + era * 400) == era * DAYS_PER_400_YEARS + YearStart(yoe)
  {
    var y := yoe + era * 400;
    assert y / 400 == era;
    assert y / 100 == yoe / 100 + 4 * era;
    assert y / 4 == yoe / 4 + 100 * era;
  }

  lemma MarchYearStartGrows(a: int, b: int)
    requires a < b
    ensures MarchYearStart(a + 1) <= MarchYearStart(b)
  {
  }

  lemma DayOfMarchYearBounds(d: Date)
    requires ValidDate(d)
    ensures 0 <= DayOfMarchYear(d) < 365 + if IsLeapYear(MarchYear(d) + 1) then 1 else 0
  {
  }

  /** The same day reached through an era and through the March-based year. */
  lemma EraDay(era: int, doe: int)
    requires 0 <= doe < 146_097
    ensures var y := YearOfEra(doe) + era * 400;
      var doy := doe - YearStart(YearOfEra(doe));
      && MarchYearStart(y) + doy == era * DAYS_PER_400_YEARS + doe
      && 0 <= doy < 365 + if IsLeapYear(y + 1) then 1 else 0
  {
    YearOfEraBrackets(doe);
    var yoe := YearOfEra(doe);
    EraShift(yoe, era);
    if yoe < 399 { EraShift(yoe + 1, era); } else { EraShift(0, era + 1); }
    MarchYearLength(yoe + era * 400);
  }

  lemma EraIsFloor(shifted: int)
    ensures 0 <= DayOfEra(shifted) < DAYS_PER_400_YEARS
  {
  }

  /** `CivilFromDays` splits every day number into a March-based year and a day inside it. */
  lemma MarchSplit(shifted: int)
    ensures shifted == MarchYearStart(MarchYearOf(shifted)) + DayOfMarchYearOf(shifted)
    ensures 0 <= DayOfMarchYearOf(shifted) < 365 + if IsLeapYear(MarchYearOf(shifted) + 1) then 1 else 0
  {
    EraIsFloor(shifted);
    YearStartQuot(DayOfEra(shifted));
    EraDay(EraOf(shifted), DayOfEra(shifted));
  }

  lemma YearStartQuot(doe: int)
    requires 0 <= doe < 146_097
    ensures var y := YearOfEra(doe); 365 * y + Quot(y, 4) - Quot(y, 100) == YearStart(y)
  {
    YearOfEraBrackets(doe);
  }

  /** Months of a March-based year: the phase formula names a valid date and its own month and day. */
  lemma MarchDayIsValid(y: int, doy: int)
    requires 0 <= doy < 365 + if IsLeapYear(y + 1) then 1 else 0
    ensures var d := CivilOfMarchDay(y, doy);
      ValidDate(d) && MarchYear(d) == y && DayOfMarchYear(d) == doy
  {
  }

  lemma EpochIsDayZero()
    ensures DaysFromCivil(Date(1970, 1, 1)) == 0
  {
  }

  // ---- Main results ----

  /** Every day number names a valid Gregorian date and is recovered from it. */
  lemma DaysRoundTrip(n: int)
    ensures ValidDate(CivilFromDays(n))
    ensures DaysFromCivil(CivilFromDays(n)) == n
  {
    hide DaysFromCivil, MarchYearStart, MonthStart, MarchYearOf, DayOfMarchYearOf, CivilOfMarchDay;
    var shifted := n + EPOCH_SHIFT;
    MarchSplit(shifted);
    MarchDayIsValid(MarchYearOf(shifted), DayOfMarchYearOf(shifted));
    DaysFromCivilClosed(CivilFromDays(n));
  }

  /** Every valid Gregorian date is recovered from its day number. */
  lemma CivilRoundTrip(d: Date)
    requires ValidDate(d)
    ensures CivilFromDays(DaysFromCivil(d)) == d
  {
    hide DaysFromCivil, CivilFromDays;
    var n := DaysFromCivil(d);
    DaysRoundTrip(n);
    DaysInjective(CivilFromDays(n), d);
  }

  lemma DaysInjective(a: Date, b: Date)
    requires ValidDate(a) && ValidDate(b) && DaysFromCivil(a) == DaysFromCivil(b)
    ensures a == b
  {
    hide DaysFromCivil;
    if Before(a, b) {
      DaysStrictlyIncrease(a, b);
    } else if Before(b, a) {
      DaysStrictlyIncrease(b, a);
    }
  }

  /** Day numbers follow the calendar: the next date has the next number. */
  lemma DaysFollowCalendar(d: Date)
    requires ValidDate(d)
    ensures ValidDate(NextDate(d)) && DaysFromCivil(NextDate(d)) == DaysFromCivil(d) + 1
  {
    hide DaysFromCivil, MarchDay;
    DaysFromCivilClosed(d);
    NextMarchDay(d);
    DaysFromCivilClosed(NextDate(d));
  }

  lemma NextMarchDay(d: Date)
    requires ValidDate(d)
    ensures ValidDate(NextDate(d)) && MarchDay(NextDate(d)) == MarchDay(d) + 1
  {
    NextDateOfMarchYear(d);
    MarchYearLength(d.year - 1);
  }

  lemma NextDateOfMarchYear(d: Date)
    requires ValidDate(d)
    ensures ValidDate(NextDate(d))
    ensures if d.month == 2 && d.day == DaysInMonth(d.year, 2)
      then MarchYear(NextDate(d)) == MarchYear(d) + 1 && DayOfMarchYear(NextDate(d)) == 0
        && DayOfMarchYear(d) == 364 + if IsLeapYear(d.year) then 1 else 0
      else MarchYear(NextDate(d)) == MarchYear(d) && DayOfMarchYear(NextDate(d)) == DayOfMarchYear(d) + 1
  {
  }

  /** On valid dates the day number orders exactly as the date does. */
  lemma DaysOrderDates(a: Date, b: Date)
    requires ValidDate(a) && ValidDate(b)
    ensures Before(a, b) <==> DaysFromCivil(a) < DaysFromCivil(b)
  {
    hide DaysFromCivil;
    if Before(a, b) {
      DaysStrictlyIncrease(a, b);
    } else if Before(b, a) {
      DaysStrictlyIncrease(b, a);
    }
  }

  lemma DaysStrictlyIncrease(a: Date, b: Date)
    requires ValidDate(a) && ValidDate(b) && Before(a, b)
    ensures DaysFromCivil(a) < DaysFromCivil(b)
  {
    hide DaysFromCivil, DayOfMarchYear, MarchYearStart;
    DaysFromCivilClosed(a);
    DaysFromCivilClosed(b);
    MarchOrder(a, b);
    if MarchYear(a) < MarchYear(b) {
      DayOfMarchYearBounds(a);
      DayOfMarchYearBounds(b);
      MarchYearLength(MarchYear(a));
      MarchYearStartGrows(MarchYear(a), MarchYear(b));
    }
  }

  lemma MarchOrder(a: Date, b: Date)
    requires ValidDate(a) && ValidDate(b) && Before(a, b)
    ensures MarchYear(a) < MarchYear(b) || (MarchYear(a) == MarchYear(b) && DayOfMarchYear(a) < DayOfMarchYear(b))
  {
  }
}
