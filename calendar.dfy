/**
 * The date helpers of the search card and the checkout screen (the two files
 * carry identical copies): reading and writing "YYYY-MM-DD", the
 * "DD/MM/YYYY" display form, the month grid of the date picker, month
 * navigation and the two-click date-range selection.
 *
 * A JavaScript `Date` is modelled by its calendar fields in the local time
 * zone; the month is the zero-based `getMonth()` index. The weekday and the
 * length of a month come from the proleptic Gregorian calendar, as `Date`
 * computes them.
 */
module Calendar {
  import opened Text
  import opened Collections

  datatype Date = Date(year: int, month: int, day: int)

  // ---------------------------------------------------------------------
  // Gregorian calendar
  // ---------------------------------------------------------------------

  predicate IsLeapYear(y: int) {
    y % 4 == 0 && (y % 100 != 0 || y % 400 == 0)
  }

  /** `new Date(year, monthIndex + 1, 0).getDate()`: the length of the month. */
  function DaysInMonth(y: int, m: int): (n: int)
    requires 0 <= m < 12
    ensures 28 <= n <= 31
  {
    if m == 1 then (if IsLeapYear(y) then 29 else 28)
    else if m == 3 || m == 5 || m == 8 || m == 10 then 30
    else 31
  }

  /** A date that `Date` represents without rolling any field over. */
  predicate ValidDate(d: Date) {
    0 <= d.month < 12 && 1 <= d.day <= DaysInMonth(d.year, d.month)
  }

  const MonthShift: seq<int> := [0, 3, 2, 5, 0, 3, 5, 1, 4, 6, 2, 4]

  /** Days contributed by the years up to `yy`, counted modulo 7. */
  function YearBase(yy: int): int {
    yy + yy / 4 - yy / 100 + yy / 400
  }

  /** `getDay()`: 0 for Sunday up to 6 for Saturday. */
  function Weekday(y: int, m: int, d: int): (w: int)
    requires 0 <= m < 12
    ensures 0 <= w < 7
  {
    (YearBase(if m < 2 then y - 1 else y) + MonthShift[m] + d) % 7
  }

  /** The next day falls on the next weekday. */
  lemma WeekdayNextDay(y: int, m: int, d: int)
    requires 0 <= m < 12
    ensures Weekday(y, m, d + 1) == (Weekday(y, m, d) + 1) % 7
  {
  }

  /** A year advances the weekday by one, a leap year by two. */
  lemma YearBaseStep(y: int)
    ensures YearBase(y) == YearBase(y - 1) + 1 + (if IsLeapYear(y) then 1 else 0)
  {
    DivStep(y, 4);
    DivStep(y, 100);
    DivStep(y, 400);
    MultiplesNest(y);
  }

  /** A multiple of 400 is a multiple of 100, and a multiple of 100 one of 4. */
  lemma MultiplesNest(y: int)
    ensures y % 400 == 0 ==> y % 100 == 0
    ensures y % 100 == 0 ==> y % 4 == 0
  {
    if y % 400 == 0 {
      var q := y / 400;
      assert y == 400 * q;
      assert y / 100 == 4 * q;
    }
    if y % 100 == 0 {
      var q := y / 100;
      assert y == 100 * q;
      assert y / 4 == 25 * q;
    }
  }

  /** `y / k` grows by one exactly when `y` is a multiple of `k`. */
  lemma DivStep(y: int, k: int)
    requires k == 4 || k == 100 || k == 400
    ensures y / k - (y - 1) / k == (if y % k == 0 then 1 else 0)
  {
    if k == 4 {
    } else if k == 100 {
    } else {
    }
  }

  lemma ShiftMod7(b: int, s0: int, s1: int, n: int)
    requires (s1 - s0 - n) % 7 == 0
    ensures (b + s1 + 1) % 7 == ((b + s0 + 1) % 7 + n) % 7
  {
  }

  /**
   * The first of each month falls as many weekdays after the first of the
   * previous month as that month has days: the weekday function and the
   * month lengths describe one calendar.
   */
  lemma WeekdayNextMonth(y: int, m: int)
    requires 0 <= m < 12
    ensures var (ny, nm) := if m == 11 then (y + 1, 0) else (y, m + 1);
      Weekday(ny, nm, 1) == (Weekday(y, m, 1) + DaysInMonth(y, m)) % 7
  {
    var n := DaysInMonth(y, m);
    if m == 1 {
      WeekdayAfterFebruary(y);
    } else if m == 11 {
      ShiftMod7(YearBase(y), MonthShift[11], MonthShift[0], n);
    } else {
      var yy := if m < 2 then y - 1 else y;
      MonthShiftFits(y, m);
      ShiftMod7(YearBase(yy), MonthShift[m], MonthShift[m + 1], n);
    }
  }

  /** March begins a new year-base period, which absorbs the leap day. */
  lemma WeekdayAfterFebruary(y: int)
    ensures Weekday(y, 2, 1) == (Weekday(y, 1, 1) + DaysInMonth(y, 1)) % 7
  {
    var b0, b1 := YearBase(y - 1), YearBase(y);
    assert Weekday(y, 1, 1) == (b0 + 3 + 1) % 7;
    assert Weekday(y, 2, 1) == (b1 + 2 + 1) % 7;
    YearBaseStep(y);
    ShiftMod7(b0, 3, b1 - b0 + 2, DaysInMonth(y, 1));
  }

  /** Within one year-base period, the shifts of consecutive months differ by the month's length, modulo 7. */
  lemma MonthShiftFits(y: int, m: int)
    requires 0 <= m < 11 && m != 1
    ensures (MonthShift[m + 1] - MonthShift[m] - DaysInMonth(y, m)) % 7 == 0
  {
  }

  /** 1 October 2026 is a Thursday. */
  lemma WeekdayExample()
    ensures Weekday(2026, 9, 1) == 4
  {
  }

  // ---------------------------------------------------------------------
  // Ordering (`getTime()` comparisons)
  // ---------------------------------------------------------------------

  /** `a.getTime() < b.getTime()` for dates at the same time of day. */
  predicate Before(a: Date, b: Date) {
    a.year < b.year
    || (a.year == b.year && a.month < b.month)
    || (a.year == b.year && a.month == b.month && a.day < b.day)
  }

  lemma BeforeTotal(a: Date, b: Date)
    ensures a == b || Before(a, b) || Before(b, a)
    ensures !(Before(a, b) && Before(b, a))
  {
  }

  // ---------------------------------------------------------------------
  // Day numbers (`getTime()` in whole days)
  // ---------------------------------------------------------------------

  /** Days of the year before the first of month `m` (0..12). */
  function DaysBeforeMonth(y: int, m: int): (n: int)
    requires 0 <= m <= 12
    ensures 0 <= n <= 366
  {
    [0, 31, 59, 90, 120, 151, 181, 212, 243, 273, 304, 334, 365][m]
    + (if m >= 2 && IsLeapYear(y) then 1 else 0)
  }

  /** Days before 1 January of year `y`, counted from a fixed origin. */
  function YearStart(y: int): int {
    365 * y + (y - 1) / 4 - (y - 1) / 100 + (y - 1) / 400
  }

  /**
   * The day count of `new Date(y, m, d)`: a month outside 0..11 moves into a
   * neighbouring year and a day outside the month moves into a neighbouring
   * month, as `Date` normalises its fields.
   */
  function DayNumber(y: int, m: int, d: int): int {
    var yy := y + m / 12;
    YearStart(yy) + DaysBeforeMonth(yy, m % 12) + d - 1
  }

  function DayOf(d: Date): int {
    DayNumber(d.year, d.month, d.day)
  }

  lemma MonthLengths(y: int, m: int)
    requires 0 <= m < 12
    ensures DaysBeforeMonth(y, m + 1) == DaysBeforeMonth(y, m) + DaysInMonth(y, m)
  {
  }

  lemma {:induction false} DaysBeforeMonthGrows(y: int, m: int, n: int)
    requires 0 <= m <= n <= 12
    ensures DaysBeforeMonth(y, m) <= DaysBeforeMonth(y, n)
    decreases n - m
  {
    if m < n {
      MonthLengths(y, m);
      DaysBeforeMonthGrows(y, m + 1, n);
    }
  }

  /** A year has as many days as its twelve months. */
  lemma YearLength(y: int)
    ensures YearStart(y + 1) == YearStart(y) + DaysBeforeMonth(y, 12)
  {
    YearBaseStep(y);
  }

  lemma {:induction false} YearStartIncreases(a: int, b: int)
    requires a < b
    ensures YearStart(a) + DaysBeforeMonth(a, 12) <= YearStart(b)
    decreases b - a
  {
    YearLength(a);
    if a + 1 < b {
      YearStartIncreases(a + 1, b);
    }
  }

  /** The last day of a month is followed by the first of the next. */
  lemma DayNumberRollsOver(y: int, m: int)
    requires 0 <= m < 12
    ensures DayNumber(y, m, DaysInMonth(y, m) + 1) == DayNumber(y, m + 1, 1)
  {
    MonthLengths(y, m);
    assert m / 12 == 0 && m % 12 == m;
    assert DayNumber(y, m, DaysInMonth(y, m) + 1) == YearStart(y) + DaysBeforeMonth(y, m + 1);
    if m == 11 {
      assert DayNumber(y, 12, 1) == YearStart(y + 1);
      YearLength(y);
    } else {
      assert (m + 1) / 12 == 0 && (m + 1) % 12 == m + 1;
    }
  }

  lemma DayOfValid(d: Date)
    requires ValidDate(d)
    ensures DayOf(d) == YearStart(d.year) + DaysBeforeMonth(d.year, d.month) + d.day - 1
  {
    assert d.month / 12 == 0 && d.month % 12 == d.month;
  }

  lemma DayNumberInYear(d: Date)
    requires ValidDate(d)
    ensures YearStart(d.year) <= DayOf(d) < YearStart(d.year) + DaysBeforeMonth(d.year, 12)
  {
    DayOfValid(d);
    MonthLengths(d.year, d.month);
    DaysBeforeMonthGrows(d.year, d.month + 1, 12);
  }

  lemma EarlierYear(a: Date, b: Date)
    requires ValidDate(a) && ValidDate(b) && a.year < b.year
    ensures DayOf(a) < DayOf(b)
  {
    DayNumberInYear(a);
    DayNumberInYear(b);
    YearStartIncreases(a.year, b.year);
  }

  lemma EarlierMonth(a: Date, b: Date)
    requires ValidDate(a) && ValidDate(b) && a.year == b.year && a.month < b.month
    ensures DayOf(a) < DayOf(b)
  {
    DayOfValid(a);
    DayOfValid(b);
    MonthLengths(a.year, a.month);
    DaysBeforeMonthGrows(a.year, a.month + 1, b.month);
  }

  /** On valid dates the day numbers order the dates as `Before` does. */
  lemma DayNumberOrder(a: Date, b: Date)
    requires ValidDate(a) && ValidDate(b)
    ensures DayOf(a) < DayOf(b) <==> Before(a, b)
    ensures DayOf(a) == DayOf(b) <==> a == b
  {
    if a.year < b.year {
      EarlierYear(a, b);
    } else if b.year < a.year {
      EarlierYear(b, a);
    } else if a.month < b.month {
      EarlierMonth(a, b);
    } else if b.month < a.month {
      EarlierMonth(b, a);
    } else {
      DayOfValid(a);
      DayOfValid(b);
    }
  }

  /** `isSameDate`: false when either date is missing, else equal year, month and day. */
  predicate IsSameDate(a: Option<Date>, b: Option<Date>) {
    a.Some? && b.Some? && a.value.year == b.value.year
    && a.value.month == b.value.month && a.value.day == b.value.day
  }

  /** `isWithinRange`: false without both bounds, otherwise inclusive at both ends. */
  predicate IsWithinRange(date: Date, start: Option<Date>, end: Option<Date>) {
    start.Some? && end.Some? && !Before(date, start.value) && !Before(end.value, date)
  }

  /** Both ends of a well-ordered range lie within it, and the same date is the same day. */
  lemma RangeEnds(start: Date, end: Date)
    requires !Before(end, start)
    ensures IsWithinRange(start, Some(start), Some(end)) && IsWithinRange(end, Some(start), Some(end))
    ensures IsSameDate(Some(start), Some(end)) <==> start == end
  {
  }

  // ---------------------------------------------------------------------
  // `Number(part)` for the parts of an ISO date
  // ---------------------------------------------------------------------

  datatype JsInt = Int(v: int) | NotANumber

  /**
   * `Number(s)` on integer notation: surrounding whitespace is ignored, the
   * empty string is 0, an optional sign precedes the digits, and anything
   * else is NaN.
   */
  function JsNumber(s: string): JsInt {
    IntegerText(Trim(s))
  }

  /** `Number` on text that has no surrounding whitespace. */
  function IntegerText(t: string): JsInt {
    if t == [] then Int(0)
    else if |t| > 1 && t[0] == '-' && AllDigits(t[1..]) then Int(0 - DigitsValue(t[1..]))
    else if |t| > 1 && t[0] == '+' && AllDigits(t[1..]) then Int(DigitsValue(t[1..]))
    else if AllDigits(t) then Int(DigitsValue(t))
    else NotANumber
  }

  /** A string of digits is the number it denotes. */
  lemma JsNumberOfDigits(s: string)
    requires AllDigits(s) && s != []
    ensures JsNumber(s) == Int(DigitsValue(s))
  {
    TrimSigned(s);
  }

  /** Digits with at most a sign in front have no whitespace to trim. */
  lemma TrimSigned(t: string)
    requires t != [] && (t[0] == '-' || t[0] == '+' || IsDigit(t[0])) && AllDigits(t[1..])
    ensures Trim(t) == t
  {
    assert NoSpace(t) by {
      forall i | 0 <= i < |t|
        ensures !IsSpace(t[i])
      {
        if i > 0 {
          assert t[i] == t[1..][i - 1];
        }
      }
    }
    TrimNoSpace(t);
  }

  /** A minus sign in front of the digits negates the number. */
  lemma JsNumberNegative(d: string)
    requires AllDigits(d) && d != []
    ensures JsNumber("-" + d) == Int(0 - DigitsValue(d))
  {
    var t := "-" + d;
    assert t[1..] == d;
    TrimSigned(t);
  }

  // ---------------------------------------------------------------------
  // parseIsoDate / toIsoDate
  // ---------------------------------------------------------------------

  /** `new Date(y, …)` reads a year from 0 to 99 as 1900 to 1999. */
  function JsYear(y: int): (r: int)
    ensures 0 <= y <= 99 ==> r == 1900 + y
    ensures !(0 <= y <= 99) ==> r == y
  {
    if 0 <= y <= 99 then 1900 + y else y
  }

  /**
   * `parseIsoDate(value)`: null for a missing or empty value, for anything
   * that does not split into three parts at '-', and for a year that is 0 or
   * not a number or a month or day that is not a number. The date is built by
   * `new Date`, so a year from 1 to 99 becomes 1901 to 1999.
   */
  function ParseIsoDate(value: Option<string>): (r: Option<Date>)
    ensures value.None? || value == Some("") ==> r.None?
    ensures r.Some? ==> |Split(value.value, '-')| == 3 && r.value.year != 0
    ensures r.Some? ==> !(0 <= r.value.year <= 99)
  {
    if value.None? || value.value == [] then None
    else DateOfParts(Split(value.value, '-'))
  }

  /** The date `new Date(year, month - 1, day)` built from the parts of a value split at '-'. */
  function DateOfParts(parts: seq<string>): (r: Option<Date>)
    ensures r.Some? ==> |parts| == 3 && r.value.year != 0
    ensures r.Some? ==> !(0 <= r.value.year <= 99)
  {
    if |parts| != 3 then None
    else
      var year, month, day := JsNumber(parts[0]), JsNumber(parts[1]), JsNumber(parts[2]);
      if year.NotANumber? || year.v == 0 || month.NotANumber? || day.NotANumber? then None
      else Some(Date(JsYear(year.v), month.v - 1, day.v))
  }

  /** The parts of three dash-free strings joined by dashes. */
  lemma SplitThree(a: string, b: string, c: string)
    requires '-' !in a && '-' !in b && '-' !in c
    ensures Split(a + ("-" + (b + ("-" + c))), '-') == [a, b, c]
  {
    assert a + ("-" + (b + ("-" + c))) == a + ['-'] + (b + ['-'] + c);
    SplitAfter(a, '-', b + ['-'] + c);
    SplitAfter(b, '-', c);
    SplitNoSep(c, '-');
  }

  /**
   * Three digit groups joined by dashes read as year, month index and day,
   * a year below 100 in the 1900s. Only the year is tested against 0: a month
   * or day of "00" is accepted.
   */
  lemma ParseDigitGroups(a: string, b: string, c: string)
    requires AllDigits(a) && AllDigits(b) && AllDigits(c) && a != [] && b != [] && c != []
    requires DigitsValue(a) != 0
    ensures ParseIsoDate(Some(a + ("-" + (b + ("-" + c)))))
      == Some(Date(JsYear(DigitsValue(a)), DigitsValue(b) - 1, DigitsValue(c)))
  {
    SplitDigitGroups(a, b, c);
    DateOfDigitGroups(a, b, c);
    ParseOfSplit(a + ("-" + (b + ("-" + c))), [a, b, c]);
  }

  lemma SplitDigitGroups(a: string, b: string, c: string)
    requires AllDigits(a) && AllDigits(b) && AllDigits(c)
    ensures Split(a + ("-" + (b + ("-" + c))), '-') == [a, b, c]
  {
    NoDashInDigits(a);
    NoDashInDigits(b);
    NoDashInDigits(c);
    SplitThree(a, b, c);
  }

  lemma DateOfDigitGroups(a: string, b: string, c: string)
    requires AllDigits(a) && AllDigits(b) && AllDigits(c) && a != [] && b != [] && c != []
    requires DigitsValue(a) != 0
    ensures DateOfParts([a, b, c]) == Some(Date(JsYear(DigitsValue(a)), DigitsValue(b) - 1, DigitsValue(c)))
  {
    JsNumberOfDigits(a);
    JsNumberOfDigits(b);
    JsNumberOfDigits(c);
    DateOfNumbers(a, b, c, DigitsValue(a), DigitsValue(b), DigitsValue(c));
  }

  /** A non-empty value is read through its parts. */
  lemma ParseOfSplit(s: string, parts: seq<string>)
    requires s != [] && Split(s, '-') == parts
    ensures ParseIsoDate(Some(s)) == DateOfParts(parts)
  {
  }

  /** Three parts that read as numbers, the first non-zero, give the date they denote. */
  lemma DateOfNumbers(x: string, y: string, z: string, year: int, month: int, day: int)
    requires year != 0
    requires JsNumber(x) == Int(year) && JsNumber(y) == Int(month) && JsNumber(z) == Int(day)
    ensures DateOfParts([x, y, z]) == Some(Date(JsYear(year), month - 1, day))
  {
    var parts := [x, y, z];
    assert parts[0] == x && parts[1] == y && parts[2] == z;
  }

  /** `toIsoDate(date)`: year, then month and day zero-padded to two digits. */
  function ToIsoDate(d: Date): string {
    IntToString(d.year) + ("-" + (Pad2(IntToString(d.month + 1)) + ("-" + Pad2(IntToString(d.day)))))
  }

  /** The three digit groups of the ISO form of a valid date with a positive year. */
  lemma IsoParts(d: Date)
    requires ValidDate(d) && d.year >= 1
    ensures var y, m, dd := NatToString(d.year), Pad2(NatToString(d.month + 1)), Pad2(NatToString(d.day));
      && ToIsoDate(d) == y + ("-" + (m + ("-" + dd)))
      && AllDigits(y) && |m| == 2 && AllDigits(m) && |dd| == 2 && AllDigits(dd)
      && DigitsValue(y) == d.year && DigitsValue(m) == d.month + 1 && DigitsValue(dd) == d.day
  {
    NatToStringValue(d.year);
    Pad2Value(d.month + 1);
    Pad2Value(d.day);
  }

  lemma NoDashInDigits(s: string)
    requires AllDigits(s)
    ensures '-' !in s
  {
    assert forall i :: 0 <= i < |s| ==> s[i] != '-';
  }

  /** Reading back the ISO form of a valid date from the year 100 on gives the date. */
  lemma IsoRoundTrip(d: Date)
    requires ValidDate(d) && d.year >= 100
    ensures ParseIsoDate(Some(ToIsoDate(d))) == Some(d)
  {
    IsoReadBack(d);
  }

  /** The ISO form of a date in the years 1 to 99 reads back 1900 years later. */
  lemma IsoRoundTripShortYear(d: Date)
    requires ValidDate(d) && 1 <= d.year <= 99
    ensures ParseIsoDate(Some(ToIsoDate(d))) == Some(d.(year := 1900 + d.year))
  {
    IsoReadBack(d);
    assert JsYear(d.year) == 1900 + d.year;
  }

  /** The ISO form of a valid date with a positive year reads back with the year `new Date` makes of it. */
  lemma IsoReadBack(d: Date)
    requires ValidDate(d) && d.year >= 1
    ensures ParseIsoDate(Some(ToIsoDate(d))) == Some(d.(year := JsYear(d.year)))
  {
    IsoParts(d);
    var y, m, dd := NatToString(d.year), Pad2(NatToString(d.month + 1)), Pad2(NatToString(d.day));
    ParseDigitGroups(y, m, dd);
  }

  // ---------------------------------------------------------------------
  // formatDateForDisplay
  // ---------------------------------------------------------------------

  /** The shape `^\d{4}-\d{2}-\d{2}$`. */
  predicate IsoShaped(s: string) {
    |s| == 10 && AllDigits(s[..4]) && s[4] == '-' && AllDigits(s[5..7]) && s[7] == '-' && AllDigits(s[8..])
  }

  lemma SplitIsoShaped(s: string)
    requires IsoShaped(s)
    ensures Split(s, '-') == [s[..4], s[5..7], s[8..]]
  {
    NoDashInDigits(s[..4]);
    NoDashInDigits(s[5..7]);
    NoDashInDigits(s[8..]);
    assert s == s[..4] + ("-" + (s[5..7] + ("-" + s[8..])));
    SplitThree(s[..4], s[5..7], s[8..]);
  }

  /**
   * `formatDateForDisplay(value)`: "" for an empty value, "DD/MM/YYYY" for a
   * "YYYY-MM-DD" value, any other string unchanged.
   */
  function FormatDateForDisplay(value: string): (r: string)
    ensures value == [] ==> r == []
    ensures !IsoShaped(value) ==> r == value
    ensures IsoShaped(value) ==> r == value[8..] + "/" + value[5..7] + "/" + value[..4]
  {
    if value == [] then ""
    else if !IsoShaped(value) then value
    else
      SplitIsoShaped(value);
      var parts := Split(value, '-');
      parts[2] + "/" + parts[1] + "/" + parts[0]
  }

  /** A valid date of a four-digit year is shown day first. */
  lemma DisplayOfIsoDate(d: Date)
    requires ValidDate(d) && 1000 <= d.year <= 9999
    ensures FormatDateForDisplay(ToIsoDate(d))
      == Pad2(NatToString(d.day)) + "/" + Pad2(NatToString(d.month + 1)) + "/" + NatToString(d.year)
  {
    IsoFields(d);
  }

  /** The ISO form of a valid date of a four-digit year has the ISO shape, with its fields in place. */
  lemma IsoFields(d: Date)
    requires ValidDate(d) && 1000 <= d.year <= 9999
    ensures var s := ToIsoDate(d);
      && IsoShaped(s)
      && s[..4] == NatToString(d.year) && s[5..7] == Pad2(NatToString(d.month + 1)) && s[8..] == Pad2(NatToString(d.day))
  {
    IsoParts(d);
    NatToStringLength(d.year, 4);
    IsoSlices(NatToString(d.year), Pad2(NatToString(d.month + 1)), Pad2(NatToString(d.day)));
  }

  /** Where the groups of "YYYY-MM-DD" sit. */
  lemma IsoSlices(y: string, m: string, dd: string)
    requires |y| == 4 && |m| == 2 && |dd| == 2
    ensures var s := y + ("-" + (m + ("-" + dd)));
      |s| == 10 && s[..4] == y && s[4] == '-' && s[5..7] == m && s[7] == '-' && s[8..] == dd
  {
  }

  /** Where the groups of "DD/MM/YYYY" sit. */
  lemma DisplaySlices(y: string, m: string, dd: string)
    requires |y| == 4 && |m| == 2 && |dd| == 2
    ensures var t := dd + "/" + m + "/" + y;
      |t| == 10 && t[..2] == dd && t[2] == '/' && t[3..5] == m && t[5] == '/' && t[6..] == y
  {
  }

  /**
   * For four-digit years the string order of ISO forms, which the checkout
   * form uses to compare its dates, is the order of the dates.
   */
  lemma IsoOrder(a: Date, b: Date)
    requires ValidDate(a) && ValidDate(b)
    requires 1000 <= a.year <= 9999 && 1000 <= b.year <= 9999
    ensures StrLess(ToIsoDate(a), ToIsoDate(b)) <==> Before(a, b)
  {
    IsoParts(a);
    IsoParts(b);
    NatToStringLength(a.year, 4);
    NatToStringLength(b.year, 4);
    var ya, ma, da := NatToString(a.year), Pad2(NatToString(a.month + 1)), Pad2(NatToString(a.day));
    var yb, mb, db := NatToString(b.year), Pad2(NatToString(b.month + 1)), Pad2(NatToString(b.day));
    GroupsCompare(ya, ma, da, yb, mb, db);
    DigitsCompare(ya, yb);
    DigitsCompare(ma, mb);
    DigitsCompare(da, db);
  }

  /** Equal-length digit strings are equal exactly when their numbers are, and otherwise ordered by them. */
  lemma DigitsCompare(a: string, b: string)
    requires AllDigits(a) && AllDigits(b) && |a| == |b|
    ensures a == b <==> DigitsValue(a) == DigitsValue(b)
    ensures StrLess(a, b) <==> DigitsValue(a) < DigitsValue(b)
  {
    StrLessDigits(a, b);
    StrLessDigits(b, a);
    if a != b {
      StrLessTotal(a, b);
    }
  }

  /** Dash-joined groups of equal lengths compare group by group. */
  lemma GroupsCompare(ya: string, ma: string, da: string, yb: string, mb: string, db: string)
    requires |ya| == |yb| && |ma| == |mb|
    ensures StrLess(ya + ("-" + (ma + ("-" + da))), yb + ("-" + (mb + ("-" + db))))
      <==> if ya != yb then StrLess(ya, yb) else if ma != mb then StrLess(ma, mb) else StrLess(da, db)
  {
    StrLessAppend(ya, "-" + (ma + ("-" + da)), yb, "-" + (mb + ("-" + db)));
    StrLessAppend("-", ma + ("-" + da), "-", mb + ("-" + db));
    StrLessAppend(ma, "-" + da, mb, "-" + db);
    StrLessAppend("-", da, "-", db);
  }

  // ---------------------------------------------------------------------
  // buildCalendarDays
  // ---------------------------------------------------------------------

  /**
   * `buildCalendarDays(year, monthIndex)`: one empty cell per weekday before
   * the first of the month, then every day of the month in order.
   */
  method BuildCalendarDays(year: int, monthIndex: int) returns (days: seq<Option<Date>>)
    requires 0 <= monthIndex < 12
    ensures |days| == Weekday(year, monthIndex, 1) + DaysInMonth(year, monthIndex)
    ensures forall i :: 0 <= i < Weekday(year, monthIndex, 1) ==> days[i].None?
    ensures forall i :: Weekday(year, monthIndex, 1) <= i < |days| ==>
              days[i] == Some(Date(year, monthIndex, i - Weekday(year, monthIndex, 1) + 1))
  {
    var startWeekday := Weekday(year, monthIndex, 1);
    var daysInMonth := DaysInMonth(year, monthIndex);
    days := [];
    var i := 0;
    while i < startWeekday
      invariant 0 <= i <= startWeekday && |days| == i
      invariant forall k :: 0 <= k < i ==> days[k].None?
    {
      days := days + [None];
      i := i + 1;
    }
    var day := 1;
    while day <= daysInMonth
      invariant 1 <= day <= daysInMonth + 1
      invariant |days| == startWeekday + day - 1
      invariant forall k :: 0 <= k < startWeekday ==> days[k].None?
      invariant forall k :: startWeekday <= k < |days| ==> days[k] == Some(Date(year, monthIndex, k - startWeekday + 1))
    {
      days := days + [Some(Date(year, monthIndex, day))];
      day := day + 1;
    }
  }

  // ---------------------------------------------------------------------
  // handleChangeMonth
  // ---------------------------------------------------------------------

  /** A month of the picker as year and zero-based month. */
  datatype MonthView = MonthView(year: int, month: int)

  function MonthNumber(v: MonthView): int {
    v.year * 12 + v.month
  }

  /**
   * `handleChangeMonth(delta)`: add `delta` to the month and wrap into the
   * previous or next year when the result leaves 0..11. The buttons pass -1
   * and +1.
   */
  function ShiftMonth(v: MonthView, delta: int): MonthView {
    var next := v.month + delta;
    if next < 0 then MonthView(v.year - 1, 11)
    else if next > 11 then MonthView(v.year + 1, 0)
    else MonthView(v.year, next)
  }

  /** A step of one month keeps the month in 0..11 and moves by exactly one month. */
  lemma ShiftMonthStep(v: MonthView, delta: int)
    requires 0 <= v.month < 12 && (delta == 1 || delta == -1)
    ensures 0 <= ShiftMonth(v, delta).month < 12
    ensures MonthNumber(ShiftMonth(v, delta)) == MonthNumber(v) + delta
  {
  }

  /** Going forward one month and back again returns to the same month. */
  lemma ShiftMonthBack(v: MonthView)
    requires 0 <= v.month < 12
    ensures ShiftMonth(ShiftMonth(v, 1), -1) == v
  {
  }

  // ---------------------------------------------------------------------
  // handleDayClick
  // ---------------------------------------------------------------------

  /** The effect of a click: the new start and end values and whether the picker closes. */
  datatype RangeUpdate = RangeUpdate(start: string, end: string, closeCalendar: bool)

  /**
   * `handleDayClick(date)`: with no start, or a complete range, the click
   * starts a new range; a click before the start makes it the start and the
   * old start the end; otherwise the click becomes the end. Only a click that
   * completes a range closes the picker.
   */
  function DayClick(dateStart: string, dateEnd: string, clicked: Date): RangeUpdate
  {
    var startDate := ParseIsoDate(Some(dateStart));
    var endDate := ParseIsoDate(Some(dateEnd));
    if startDate.None? || endDate.Some? then RangeUpdate(ToIsoDate(clicked), "", false)
    else if DayOf(clicked) < DayOf(startDate.value) then
      RangeUpdate(ToIsoDate(clicked), ToIsoDate(startDate.value), true)
    else RangeUpdate(dateStart, ToIsoDate(clicked), true)
  }

  /**
   * The calendar closes exactly when a start date is set and no end date;
   * otherwise the click starts a new range on its own.
   */
  lemma DayClickCloses(dateStart: string, dateEnd: string, clicked: Date)
    ensures var u := DayClick(dateStart, dateEnd, clicked);
      && (u.closeCalendar <==> ParseIsoDate(Some(dateStart)).Some? && ParseIsoDate(Some(dateEnd)).None?)
      && (!u.closeCalendar ==> u.start == ToIsoDate(clicked) && u.end == "")
  {
  }

  /**
   * A click that completes a range leaves a start and an end that both read
   * back as dates, the start not after the end, and one of them the clicked day.
   */
  lemma DayClickOrdersRange(dateStart: string, dateEnd: string, clicked: Date)
    requires ValidDate(clicked) && clicked.year >= 100
    requires ParseIsoDate(Some(dateStart)).Some? ==>
      ValidDate(ParseIsoDate(Some(dateStart)).value) && ParseIsoDate(Some(dateStart)).value.year >= 1
    ensures var u := DayClick(dateStart, dateEnd, clicked);
      u.closeCalendar ==>
        && ParseIsoDate(Some(u.start)).Some? && ParseIsoDate(Some(u.end)).Some?
        && !Before(ParseIsoDate(Some(u.end)).value, ParseIsoDate(Some(u.start)).value)
        && (ParseIsoDate(Some(u.start)) == Some(clicked) || ParseIsoDate(Some(u.end)) == Some(clicked))
  {
    var startDate := ParseIsoDate(Some(dateStart));
    var endDate := ParseIsoDate(Some(dateEnd));
    var u := DayClick(dateStart, dateEnd, clicked);
    if startDate.Some? && endDate.None? {
      var s := startDate.value;
      IsoRoundTrip(clicked);
      IsoRoundTrip(s);
      DayNumberOrder(clicked, s);
      if Before(clicked, s) {
        assert u == RangeUpdate(ToIsoDate(clicked), ToIsoDate(s), true);
      } else {
        assert u == RangeUpdate(dateStart, ToIsoDate(clicked), true);
      }
    }
  }
}
