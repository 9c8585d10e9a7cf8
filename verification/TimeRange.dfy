/**
 * The dashboard's time ranges, in the server's local days. The local zone is one fixed distance from UTC; the clock
 * is read twice, first in seconds, then for the calendar day.
 */
module TimeRange {
  import opened Options
  import opened Text
  import opened Calendar
  import opened MinMax

  // ---------------------------------------------------------------- dates as text

  predicate Digit(c: char) { '0' <= c <= '9' }

  function DigitValue(c: char): int { c as int - '0' as int }

  function DigitChar(n: int): char
    requires 0 <= n <= 9
  {
    ('0' as int + n) as char
  }

  /** Four digits, a dash, two digits, a dash, two digits (full-date of section 5.6 of RFC 3339). */
  predicate Shaped(t: string) {
    && |t| == 10 && t[4] == '-' && t[7] == '-'
    && Digit(t[0]) && Digit(t[1]) && Digit(t[2]) && Digit(t[3])
    && Digit(t[5]) && Digit(t[6]) && Digit(t[8]) && Digit(t[9])
  }

  function Numbers(t: string): Civil
    requires Shaped(t)
  {
    Civil(1000 * DigitValue(t[0]) + 100 * DigitValue(t[1]) + 10 * DigitValue(t[2]) + DigitValue(t[3]),
          10 * DigitValue(t[5]) + DigitValue(t[6]),
          10 * DigitValue(t[8]) + DigitValue(t[9]))
  }

  /** new Date(y, mo - 1, d): days beyond the month run on, and the years 0 to 99 mean 1900 to 1999. */
  function JsDay(y: int, mo: int, d: int): int {
    var year := if 0 <= y <= 99 then 1900 + y else y;
    DayNumber(Civil(year, mo, 1)) + d - 1
  }

  function ParseYmd(raw: Option<string>): Option<Civil> {
    match raw
    case None => None
    case Some(s) =>
      var t := Trim(s);
      if !Shaped(t) then None
      else
        var c := Numbers(t);
        if c.month < 1 || c.month > 12 || c.day < 1 || c.day > 31 then None
        else if CivilOf(JsDay(c.year, c.month, c.day)) != c then None
        else Some(c)
  }

  function PadTwo(n: int): string
    requires n >= 0
  {
    if n < 10 then "0" + Decimal(n) else Decimal(n)
  }

  function FormatYmd(c: Civil): string
    requires c.month >= 0 && c.day >= 0
  {
    (if c.year < 0 then "-" + Decimal(-c.year) else Decimal(c.year)) + "-" + PadTwo(c.month) + "-" + PadTwo(c.day)
  }

  /** Running over the end of a month leads to another date. */
  lemma OverrunIsAnotherDay(c: Civil)
    requires 1 <= c.month <= 12 && 1 <= c.day
    ensures CivilOf(DayNumber(c)) == c <==> RealDay(c)
  {
    if RealDay(c) { CivilOfReal(c); } else { CivilOfDay(DayNumber(c)); }
  }

  lemma JsDateKeepsIff(c: Civil)
    requires c.year >= 0 && 1 <= c.month <= 12 && 1 <= c.day <= 31
    ensures CivilOf(JsDay(c.year, c.month, c.day)) == c <==> RealDay(c) && c.year >= 100
  {
    if c.year >= 100 {
      assert JsDay(c.year, c.month, c.day) == DayNumber(c);
      OverrunIsAnotherDay(c);
    } else {
      ShortYearIsAnotherYear(c);
    }
  }

  lemma MonthsAreShort(c: Civil)
    requires RealDay(c)
    ensures 1 <= c.month <= 12 && 1 <= c.day <= 31
  {
  }

  /** Parsing accepts exactly the well-formed dates that exist and lie in the year 100 or later. */
  lemma ParseYmdIff(raw: Option<string>)
    ensures ParseYmd(raw).Some? <==>
      && raw.Some? && Shaped(Trim(raw.value)) && RealDay(Numbers(Trim(raw.value))) && Numbers(Trim(raw.value)).year >= 100
    ensures ParseYmd(raw).Some? ==> ParseYmd(raw).value == Numbers(Trim(raw.value))
  {
    if raw.Some? && Shaped(Trim(raw.value)) {
      var c := Numbers(Trim(raw.value));
      if 1 <= c.month <= 12 && 1 <= c.day <= 31 { JsDateKeepsIff(c); }
      if RealDay(c) { MonthsAreShort(c); }
    }
  }

  lemma ShortYearIsAnotherYear(c: Civil)
    requires 0 <= c.year <= 99 && 1 <= c.month <= 12 && 1 <= c.day <= 31
    ensures CivilOf(JsDay(c.year, c.month, c.day)) != c
  {
    var n := JsDay(c.year, c.month, c.day);
    MonthsIncrease(1, c.month, Leap(1900 + c.year));
    YearFrom(1900 + c.year, YearOf(n), n);
  }

  lemma YearFrom(y: int, z: int, n: int)
    requires DayFromYear(y) <= n && InYear(z, n)
    ensures z >= y
  {
    if z < y { YearsIncrease(z + 1, y); }
  }

  // ---------------------------------------------------------------- parsing what was formatted

  predicate OneDigit(n: int) { 0 <= n <= 9 }

  lemma AppendDigit(x: int, d: int)
    requires x >= 1 && OneDigit(d)
    ensures Decimal(10 * x + d) == Decimal(x) + [DigitChar(d)]
  {
    assert (10 * x + d) / 10 == x && (10 * x + d) % 10 == d;
  }

  lemma AppendThree(w: string, x: string, y: string, z: string, a: char, b: char, c: char, d: char)
    requires w == [a] && x == w + [b] && y == x + [c] && z == y + [d]
    ensures z == [a, b, c, d]
  {
  }

  lemma DecimalOfDigits(a: int, b: int, c: int, d: int, x: int, y: int, z: int)
    requires 1 <= a <= 9 && OneDigit(b) && OneDigit(c) && OneDigit(d)
    requires x == 10 * a + b && y == 10 * x + c && z == 10 * y + d
    ensures Decimal(z) == [DigitChar(a), DigitChar(b), DigitChar(c), DigitChar(d)]
  {
    AppendDigit(a, b);
    AppendDigit(x, c);
    AppendDigit(y, d);
    AppendThree(Decimal(a), Decimal(x), Decimal(y), Decimal(z), DigitChar(a), DigitChar(b), DigitChar(c), DigitChar(d));
  }

  lemma PadTwoOfDigits(a: int, b: int)
    requires OneDigit(a) && OneDigit(b)
    ensures PadTwo(10 * a + b) == [DigitChar(a), DigitChar(b)]
  {
    if a > 0 { AppendDigit(a, b); }
  }

  lemma TwoDigits(n: int) returns (a: int, b: int)
    requires 0 <= n <= 99
    ensures OneDigit(a) && OneDigit(b) && n == 10 * a + b
  {
    a, b := n / 10, n % 10;
  }

  lemma FourDigits(n: int) returns (a: int, b: int, c: int, d: int)
    requires 1000 <= n <= 9999
    ensures 1 <= a <= 9 && OneDigit(b) && OneDigit(c) && OneDigit(d) && n == 1000 * a + 100 * b + 10 * c + d
  {
    var h, l := n / 100, n % 100;
    a, b := TwoDigits(h);
    c, d := TwoDigits(l);
  }

  /** A date written out with its digits. */
  lemma FormatOfDigits(c: Civil, y0: int, y1: int, y2: int, y3: int, m0: int, m1: int, d0: int, d1: int)
    requires 1 <= y0 <= 9 && OneDigit(y1) && OneDigit(y2) && OneDigit(y3)
    requires OneDigit(m0) && OneDigit(m1) && OneDigit(d0) && OneDigit(d1)
    requires c == Civil(1000 * y0 + 100 * y1 + 10 * y2 + y3, 10 * m0 + m1, 10 * d0 + d1)
    ensures FormatYmd(c) == [DigitChar(y0), DigitChar(y1), DigitChar(y2), DigitChar(y3), '-', DigitChar(m0), DigitChar(m1), '-',
                             DigitChar(d0), DigitChar(d1)]
  {
    DecimalOfDigits(y0, y1, y2, y3, 10 * y0 + y1, 100 * y0 + 10 * y1 + y2, c.year);
    PadTwoOfDigits(m0, m1);
    PadTwoOfDigits(d0, d1);
  }

  lemma DecimalOfOther(y: nat)
    ensures y < 1000 ==> |Decimal(y)| <= 3
    ensures y > 9999 ==> |Decimal(y)| >= 5
    ensures Digit(Decimal(y)[0])
  {
    if y < 1000 {
      if y >= 10 { assert |Decimal(y / 10)| <= 2; }
    } else {
      assert |Decimal(y / 10)| == 1 + |Decimal(y / 10 / 10)|;
      if y > 9999 {
        assert |Decimal(y / 10 / 10)| == 1 + |Decimal(y / 10 / 10 / 10)|;
        assert |Decimal(y / 10 / 10 / 10)| >= 2;
      }
    }
    DecimalStarts(y);
  }

  lemma {:induction false} DecimalStarts(y: nat)
    ensures |Decimal(y)| >= 1 && Digit(Decimal(y)[0])
  {
    if y >= 10 { DecimalStarts(y / 10); }
  }

  lemma FormatOfFour(c: Civil)
    requires RealDay(c) && 1000 <= c.year <= 9999
    ensures Shaped(FormatYmd(c)) && Trim(FormatYmd(c)) == FormatYmd(c) && Numbers(FormatYmd(c)) == c
  {
    var y0, y1, y2, y3 := FourDigits(c.year);
    var m0, m1 := TwoDigits(c.month);
    var d0, d1 := TwoDigits(c.day);
    FormatOfDigits(c, y0, y1, y2, y3, m0, m1, d0, d1);
  }

  lemma FormatOfOther(c: Civil)
    requires RealDay(c) && !(1000 <= c.year <= 9999)
    ensures !Shaped(Trim(FormatYmd(c)))
  {
    var m0, m1 := TwoDigits(c.month);
    var d0, d1 := TwoDigits(c.day);
    PadTwoOfDigits(m0, m1);
    PadTwoOfDigits(d0, d1);
    var t := FormatYmd(c);
    if c.year >= 0 { DecimalOfOther(c.year); } else { DecimalStarts(-c.year); }
    assert Digit(t[|t| - 1]) && (Digit(t[0]) || t[0] == '-');
    assert Trim(t) == t;
  }

  /** For every date that exists, parsing the formatted date gives it back exactly when its year has four digits. */
  lemma ParseOfFormatIff(c: Civil)
    requires RealDay(c)
    ensures ParseYmd(Some(FormatYmd(c))) == Some(c) <==> 1000 <= c.year <= 9999
  {
    ParseYmdIff(Some(FormatYmd(c)));
    if 1000 <= c.year <= 9999 { FormatOfFour(c); } else { FormatOfOther(c); }
  }

  /** Formatting a parsed date gives the trimmed text back exactly when its year has four significant digits. */
  lemma FormatOfParseIff(raw: Option<string>)
    requires ParseYmd(raw).Some?
    ensures FormatYmd(ParseYmd(raw).value) == Trim(raw.value) <==> ParseYmd(raw).value.year >= 1000
  {
    ParseYmdIff(raw);
    var t := Trim(raw.value);
    var c := Numbers(t);
    if c.year >= 1000 { FormatOfNumbers(t); } else { FormatOfOther(c); }
  }

  lemma FormatOfNumbers(t: string)
    requires Shaped(t) && Numbers(t).year >= 1000
    ensures FormatYmd(Numbers(t)) == t
  {
    FormatOfDigits(Numbers(t), DigitValue(t[0]), DigitValue(t[1]), DigitValue(t[2]), DigitValue(t[3]), DigitValue(t[5]),
                   DigitValue(t[6]), DigitValue(t[8]), DigitValue(t[9]));
    assert t == [t[0], t[1], t[2], t[3], t[4], t[5], t[6], t[7], t[8], t[9]];
  }

  // ---------------------------------------------------------------- windows

  datatype Range = Today | Yesterday | Last7 | Last30 | Custom

  function NormalizeRange(raw: Option<string>): Range {
    match raw
    case None => Today
    case Some(s) =>
      var r := Lower(Trim(s));
      if r == "yesterday" then Yesterday
      else if r == "last7" then Last7
      else if r == "last30" then Last30
      else if r == "custom" then Custom
      else Today
  }

  datatype Bounds = Bounds(range: Range, startSec: int, endSec: int, startDate: Civil, endDate: Civil, customInvalid: bool)

  const DAY: int := 86400

  /** The day number of the local day an instant falls into. */
  function LocalDay(sec: int, offset: int): int { (sec + offset) / DAY }

  function DayStart(n: int, offset: int): int { n * DAY - offset }

  function DayEnd(n: int, offset: int): int { DayStart(n, offset) + DAY - 1 }

  function LocalDayStartSec(c: Civil, offset: int): int { DayStart(JsDay(c.year, c.month, c.day), offset) }

  function LocalDayEndSec(c: Civil, offset: int): int { DayEnd(JsDay(c.year, c.month, c.day), offset) }

  /** The date `back` days before the given one, by letting the day of the month run below 1. */
  function DaysBack(c: Civil, back: int): Civil { CivilOf(JsDay(c.year, c.month, c.day - back)) }

  function TodayBounds(today: Civil, n: int, offset: int, invalid: bool): Bounds {
    Bounds(Today, LocalDayStartSec(today, offset), n, today, today, invalid)
  }

  /** `n` is the first reading of the clock, `d` the second. */
  function BoundsOf(range: Range, startDate: Option<string>, endDate: Option<string>, n: int, d: int, offset: int): Bounds {
    var today := CivilOf(LocalDay(d, offset));
    match range
    case Today => TodayBounds(today, n, offset, false)
    case Yesterday =>
      var yd := DaysBack(today, 1);
      Bounds(Yesterday, LocalDayStartSec(yd, offset), LocalDayEndSec(yd, offset), yd, yd, false)
    case Last7 =>
      var s := DaysBack(today, 6);
      Bounds(Last7, LocalDayStartSec(s, offset), n, s, today, false)
    case Last30 =>
      var s := DaysBack(today, 29);
      Bounds(Last30, LocalDayStartSec(s, offset), n, s, today, false)
    case Custom =>
      var s, e := ParseYmd(startDate), ParseYmd(endDate);
      if s.None? || e.None? then TodayBounds(today, n, offset, true)
      else
        var a, b := LocalDayStartSec(s.value, offset), LocalDayEndSec(e.value, offset);
        var (startSec, endSec) := if a > b then (b, a) else (a, b);
        var last := if endSec < n then endSec else n;
        if startSec > last then TodayBounds(today, n, offset, true)
        else Bounds(Custom, startSec, last, s.value, e.value, false)
  }

  function GetTimeRangeBounds(raw: Option<string>, startDate: Option<string>, endDate: Option<string>, n: int, d: int,
                              offset: int): Bounds {
    BoundsOf(NormalizeRange(raw), startDate, endDate, n, d, offset)
  }

  /** The clock reads a date in the year 101 or later, so that no date in use has a two-digit year. */
  predicate Modern(d: int, offset: int) { YearOf(LocalDay(d, offset)) >= 101 }

  lemma YearBack(y: int, z: int, n: int, back: int)
    requires InYear(y, n) && InYear(z, n - back) && y >= 101 && 0 <= back <= 29
    ensures z >= 100
  {
    YearLength(y - 1);
    if z < 100 { YearsIncrease(z + 1, y - 1); }
  }

  lemma JsDayIs(c: Civil, n: int)
    requires RealDay(c) && c.year >= 100 && DayNumber(c) == n
    ensures JsDay(c.year, c.month, c.day) == n
  {
  }

  lemma JsDayOfCivil(n: int)
    requires YearOf(n) >= 100
    ensures JsDay(CivilOf(n).year, CivilOf(n).month, CivilOf(n).day) == n
  {
    CivilOfDay(n);
    JsDayIs(CivilOf(n), n);
  }

  /** A date up to 29 days back still has a year of three digits, so that new Date takes it as it is. */
  lemma ModernYears(n: int, back: int)
    requires YearOf(n) >= 101 && 0 <= back <= 29
    ensures JsDay(CivilOf(n - back).year, CivilOf(n - back).month, CivilOf(n - back).day) == n - back
  {
    YearBack(YearOf(n), YearOf(n - back), n, back);
    JsDayOfCivil(n - back);
  }

  lemma JsDayShifts(y: int, mo: int, d: int, back: int)
    ensures JsDay(y, mo, d - back) == JsDay(y, mo, d) - back
  {
  }

  lemma DaysBackFrom(c: Civil, n: int, back: int)
    requires JsDay(c.year, c.month, c.day) == n
    ensures DaysBack(c, back) == CivilOf(n - back)
  {
    JsDayShifts(c.year, c.month, c.day, back);
  }

  lemma DaysBackIs(n: int, back: int)
    requires YearOf(n) >= 101
    ensures DaysBack(CivilOf(n), back) == CivilOf(n - back)
  {
    ModernYears(n, 0);
    DaysBackFrom(CivilOf(n), n, back);
  }

  function DaysBefore(range: Range): int {
    match range
    case Yesterday => 1
    case Last7 => 6
    case Last30 => 29
    case _ => 0
  }

  lemma StartsDaysBack(k: int, back: int, offset: int)
    requires YearOf(k) >= 101 && 0 <= back <= 29
    ensures LocalDayStartSec(DaysBack(CivilOf(k), back), offset) == DayStart(k - back, offset)
    ensures LocalDayEndSec(DaysBack(CivilOf(k), back), offset) == DayEnd(k - back, offset)
    ensures DaysBack(CivilOf(k), back) == CivilOf(k - back)
    ensures LocalDayStartSec(CivilOf(k), offset) == DayStart(k, offset)
  {
    DaysBackIs(k, back);
    ModernYears(k, back);
    ModernYears(k, 0);
  }

  /** The fixed windows in day numbers, across month ends and leap days. */
  lemma FixedWindows(range: Range, startDate: Option<string>, endDate: Option<string>, n: int, d: int, offset: int)
    requires Modern(d, offset) && range != Custom
    ensures var b := BoundsOf(range, startDate, endDate, n, d, offset);
      var k := LocalDay(d, offset);
      && b.startSec == DayStart(k - DaysBefore(range), offset)
      && b.endSec == (if range == Yesterday then DayStart(k, offset) - 1 else n)
      && b.startDate == CivilOf(k - DaysBefore(range))
      && b.endDate == CivilOf(if range == Yesterday then k - 1 else k)
      && b.range == range && !b.customInvalid
  {
    StartsDaysBack(LocalDay(d, offset), DaysBefore(range), offset);
  }

  /** The custom window in day numbers: in order, reversed, cut at the present, or refused. */
  lemma CustomWindow(startDate: Option<string>, endDate: Option<string>, n: int, d: int, offset: int)
    requires Modern(d, offset) && ParseYmd(startDate).Some? && ParseYmd(endDate).Some?
    ensures var b := BoundsOf(Custom, startDate, endDate, n, d, offset);
      var i, j := DayNumber(ParseYmd(startDate).value), DayNumber(ParseYmd(endDate).value);
      var first := if i <= j then DayStart(i, offset) else DayEnd(j, offset);
      var last := if i <= j then DayEnd(j, offset) else DayStart(i, offset);
      && (first <= n ==>
            b == Bounds(Custom, first, if last <= n then last else n, ParseYmd(startDate).value, ParseYmd(endDate).value, false))
      && (first > n ==>
            b == Bounds(Today, DayStart(LocalDay(d, offset), offset), n, CivilOf(LocalDay(d, offset)),
                         CivilOf(LocalDay(d, offset)), true))
  {
    ParseYmdIff(startDate);
    ParseYmdIff(endDate);
    JsDayIs(ParseYmd(startDate).value, DayNumber(ParseYmd(startDate).value));
    JsDayIs(ParseYmd(endDate).value, DayNumber(ParseYmd(endDate).value));
    ModernYears(LocalDay(d, offset), 0);
  }

  /**
   * Reversing a custom range does not give the same window: it starts one second before the end of the earlier day and ends
   * with the first second of the later one, so of each it keeps a single second.
   */
  lemma ReversedCustomDropsBothDays(earlier: Option<string>, later: Option<string>, n: int, d: int, offset: int)
    requires Modern(d, offset) && ParseYmd(earlier).Some? && ParseYmd(later).Some?
    requires DayNumber(ParseYmd(earlier).value) < DayNumber(ParseYmd(later).value)
    requires DayEnd(DayNumber(ParseYmd(later).value), offset) <= n
    ensures var straight := BoundsOf(Custom, earlier, later, n, d, offset);
      var reversed := BoundsOf(Custom, later, earlier, n, d, offset);
      reversed.startSec == straight.startSec + DAY - 1 && reversed.endSec == straight.endSec - (DAY - 1)
  {
    CustomWindow(earlier, later, n, d, offset);
    CustomWindow(later, earlier, n, d, offset);
  }

  /** The custom dates are refused: one is no date, or the range has not begun. */
  predicate Refused(startDate: Option<string>, endDate: Option<string>, n: int, offset: int) {
    || ParseYmd(startDate).None? || ParseYmd(endDate).None?
    || var i, j := DayNumber(ParseYmd(startDate).value), DayNumber(ParseYmd(endDate).value);
       n < if i <= j then DayStart(i, offset) else DayEnd(j, offset)
  }

  lemma RefusedIsToday(startDate: Option<string>, endDate: Option<string>, n: int, d: int, offset: int)
    requires Modern(d, offset)
    ensures var b := BoundsOf(Custom, startDate, endDate, n, d, offset);
      && b.customInvalid == Refused(startDate, endDate, n, offset)
      && (b.customInvalid ==> b.startSec == DayStart(LocalDay(d, offset), offset) && b.endSec == n)
      && (!b.customInvalid ==> b.startSec <= b.endSec <= n)
  {
    ModernYears(LocalDay(d, offset), 0);
    if ParseYmd(startDate).Some? && ParseYmd(endDate).Some? { CustomWindow(startDate, endDate, n, d, offset); }
  }

  /** The word of a request's range: trimmed, in small letters. */
  function Word(raw: Option<string>): string { if raw.Some? then Lower(Trim(raw.value)) else "" }

  /** A window from `first` to `last`, of days given by their numbers. */
  predicate Spans(b: Bounds, first: int, last: int, startDay: int, endDay: int) {
    b.startSec == first && b.endSec == last && b.startDate == CivilOf(startDay) && b.endDate == CivilOf(endDay) && !b.customInvalid
  }

  /**
   * The window a request gets by the word of its range: yesterday's whole day, seven or thirty days that end now, or the custom
   * dates; every other word, and none, is today so far.
   */
  lemma WindowOfItsWord(raw: Option<string>, startDate: Option<string>, endDate: Option<string>, n: int, d: int, offset: int)
    requires Modern(d, offset)
    ensures var b, k := GetTimeRangeBounds(raw, startDate, endDate, n, d, offset), LocalDay(d, offset);
      && (Word(raw) == "yesterday" ==>
            b.range == Yesterday && Spans(b, DayStart(k, offset) - DAY, DayStart(k, offset) - 1, k - 1, k - 1))
      && (Word(raw) == "last7" ==> b.range == Last7 && Spans(b, DayStart(k, offset) - 6 * DAY, n, k - 6, k))
      && (Word(raw) == "last30" ==> b.range == Last30 && Spans(b, DayStart(k, offset) - 29 * DAY, n, k - 29, k))
      && (Word(raw) == "custom" ==> b == BoundsOf(Custom, startDate, endDate, n, d, offset))
      && (Word(raw) !in {"yesterday", "last7", "last30", "custom"} ==> b.range == Today && Spans(b, DayStart(k, offset), n, k, k))
  {
    var range := NormalizeRange(raw);
    if range != Custom { FixedWindows(range, startDate, endDate, n, d, offset); }
  }

  /** A refused custom range: today so far, and marked. */
  function TodayInstead(n: int, d: int, offset: int): Bounds {
    var k := LocalDay(d, offset);
    Bounds(Today, DayStart(k, offset), n, CivilOf(k), CivilOf(k), true)
  }

  lemma CustomWord(raw: Option<string>)
    ensures NormalizeRange(raw) == Custom <==> Word(raw) == "custom"
  {
  }

  /**
   * The custom window in seconds: with two dates in order it runs from the start of the first to the end of the second or now;
   * with the later date first, from the end of the earlier day to the start of the later or now; where it has not begun, or
   * with a text that is no date, it is refused and is today so far.
   */
  lemma CustomByDates(raw: Option<string>, startDate: Option<string>, endDate: Option<string>, n: int, d: int, offset: int)
    requires Modern(d, offset) && Word(raw) == "custom"
    ensures var b, s, e := GetTimeRangeBounds(raw, startDate, endDate, n, d, offset), ParseYmd(startDate), ParseYmd(endDate);
      if s.None? || e.None? then b == TodayInstead(n, d, offset)
      else
        var i, j := DayNumber(s.value), DayNumber(e.value);
        var first := if i <= j then i * DAY - offset else j * DAY - offset + DAY - 1;
        var last := if i <= j then j * DAY - offset + DAY - 1 else i * DAY - offset;
        b == if first <= n then Bounds(Custom, first, Min(last, n), s.value, e.value, false) else TodayInstead(n, d, offset)
  {
    CustomWord(raw);
    if ParseYmd(startDate).Some? && ParseYmd(endDate).Some? {
      CustomWindow(startDate, endDate, n, d, offset);
    } else {
      NoDatesIsToday(startDate, endDate, n, d, offset);
    }
  }

  lemma NoDatesIsToday(startDate: Option<string>, endDate: Option<string>, n: int, d: int, offset: int)
    requires Modern(d, offset) && (ParseYmd(startDate).None? || ParseYmd(endDate).None?)
    ensures BoundsOf(Custom, startDate, endDate, n, d, offset) == TodayInstead(n, d, offset)
  {
    ModernYears(LocalDay(d, offset), 0);
  }

  /**
   * Whether a window starts no later than it ends and ends no later than now, for every range, every input and any two
   * readings of the clock: exactly when the first reading is not before the day (of the second reading) the window starts
   * on; for yesterday, not before the last second of that day; for an accepted custom range always.
   */
  lemma WindowsAreOrderedIff(raw: Option<string>, startDate: Option<string>, endDate: Option<string>, n: int, d: int, offset: int)
    requires Modern(d, offset)
    ensures var b, today := GetTimeRangeBounds(raw, startDate, endDate, n, d, offset), DayStart(LocalDay(d, offset), offset);
      b.startSec <= b.endSec <= n <==>
        if Word(raw) == "yesterday" then n >= today - 1
        else if Word(raw) == "last7" then n >= today - 6 * DAY
        else if Word(raw) == "last30" then n >= today - 29 * DAY
        else if Word(raw) == "custom" then !Refused(startDate, endDate, n, offset) || n >= today
        else n >= today
  {
    WindowOfItsWord(raw, startDate, endDate, n, d, offset);
    RefusedIsToday(startDate, endDate, n, d, offset);
  }

  /** So every window is in order when both readings of the clock fall on the same day. */
  lemma WindowsAreOrdered(raw: Option<string>, startDate: Option<string>, endDate: Option<string>, n: int, d: int, offset: int)
    requires Modern(d, offset) && LocalDay(n, offset) == LocalDay(d, offset)
    ensures var b := GetTimeRangeBounds(raw, startDate, endDate, n, d, offset); b.startSec <= b.endSec <= n
  {
    WindowsAreOrderedIff(raw, startDate, endDate, n, d, offset);
  }

  // ---------------------------------------------------------------- comparing today with yesterday

  datatype Intraday = Intraday(
    todayStartMs: int, yesterdayStartMs: int, yesterdayTsEnd: int, maxHourIdx: int, sqlFromEpochSec: int,
    sqlUntilEpochSec: int, nowBoundMs: int)

  function GetTodayYesterdayIntradayCompareEpochBounds(n: int, d: int, offset: int): Intraday {
    var tb := GetTimeRangeBounds(Some("today"), Some(""), Some(""), n, d, offset);
    var day := CivilOf(LocalDay(tb.startSec, offset));
    var yd := DaysBack(day, 1);
    var yesterdayStart := LocalDayStartSec(yd, offset);
    var elapsed := Max(0, tb.endSec - tb.startSec);
    Intraday(tb.startSec * 1000, yesterdayStart * 1000, (yesterdayStart + elapsed) * 1000,
             Min(23, Max(0, elapsed / 3600)), yesterdayStart, tb.endSec, tb.endSec * 1000)
  }

  lemma DayStartIsInItsDay(k: int, offset: int)
    ensures LocalDay(DayStart(k, offset), offset) == k
  {
  }

  lemma ElapsedFits(n: int, offset: int)
    ensures 0 <= n - DayStart(LocalDay(n, offset), offset) < DAY
  {
  }

  /**
   * Yesterday's part is exactly one day before today's, of the same length, and over before today starts; the last hour
   * index is the hour of the day, and never beyond 23.
   */
  lemma IntradayWindowsCorrespond(n: int, d: int, offset: int)
    requires Modern(d, offset) && LocalDay(n, offset) == LocalDay(d, offset)
    ensures var w := GetTodayYesterdayIntradayCompareEpochBounds(n, d, offset);
      && w.todayStartMs == DayStart(LocalDay(n, offset), offset) * 1000
      && w.yesterdayStartMs == w.todayStartMs - DAY * 1000 == w.sqlFromEpochSec * 1000
      && w.yesterdayTsEnd - w.yesterdayStartMs == w.nowBoundMs - w.todayStartMs == (n - DayStart(LocalDay(n, offset), offset)) * 1000
      && w.yesterdayTsEnd < w.todayStartMs <= w.nowBoundMs == w.sqlUntilEpochSec * 1000
      && 0 <= w.maxHourIdx <= 23
      && w.maxHourIdx * 3600 <= n - DayStart(LocalDay(n, offset), offset) < (w.maxHourIdx + 1) * 3600
  {
    assert Word(Some("today")) == "today";
    WindowOfItsWord(Some("today"), Some(""), Some(""), n, d, offset);
    var k := LocalDay(d, offset);
    DayStartIsInItsDay(k, offset);
    StartsDaysBack(k, 1, offset);
    ElapsedFits(n, offset);
  }
}
