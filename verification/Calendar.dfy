/** The proleptic Gregorian calendar behind the Date object: day numbers from 1970-01-01 and civil dates. */
module Calendar {

  datatype Civil = Civil(year: int, month: int, day: int)

  predicate Leap(y: int) { y % 4 == 0 && (y % 100 != 0 || y % 400 == 0) }

  function DaysInYear(y: int): int { if Leap(y) then 366 else 365 }

  /** Day number of the first of January, counted year by year from 1970. */
  function DayFromYear(y: int): int
    decreases if y >= 1970 then y - 1970 else 1970 - y
  {
    if y == 1970 then 0
    else if y > 1970 then DayFromYear(y - 1) + DaysInYear(y - 1)
    else DayFromYear(y + 1) - DaysInYear(y)
  }

  function MonthLength(m: int, leap: bool): int {
    if m == 2 then (if leap then 29 else 28)
    else if m == 4 || m == 6 || m == 9 || m == 11 then 30
    else 31
  }

  /** Days before the first of the month. */
  function MonthStart(m: int, leap: bool): int
    decreases m
  {
    if m <= 1 then 0 else MonthStart(m - 1, leap) + MonthLength(m - 1, leap)
  }

  function DaysInMonth(y: int, m: int): int { MonthLength(m, Leap(y)) }

  predicate RealDay(c: Civil) { 1 <= c.month <= 12 && 1 <= c.day <= DaysInMonth(c.year, c.month) }

  function DayNumber(c: Civil): int { DayFromYear(c.year) + MonthStart(c.month, Leap(c.year)) + c.day - 1 }

  lemma YearLength(y: int)
    ensures DayFromYear(y + 1) - DayFromYear(y) == DaysInYear(y)
  {
  }

  /** The formula of section 21.4.1.8 of ECMA-262. */
  function DayFromYearFormula(y: int): int { 365 * (y - 1970) + (y - 1969) / 4 - (y - 1901) / 100 + (y - 1601) / 400 }

  lemma Quarter(y: int)
    ensures (y - 1968) / 4 - (y - 1969) / 4 == if y % 4 == 0 then 1 else 0
  {
  }

  lemma Century(y: int)
    ensures (y - 1900) / 100 - (y - 1901) / 100 == if y % 100 == 0 then 1 else 0
  {
  }

  lemma FourCenturies(y: int)
    ensures (y - 1600) / 400 - (y - 1601) / 400 == if y % 400 == 0 then 1 else 0
  {
  }

  lemma CenturiesAreFourths(y: int)
    ensures (y % 100 == 0 ==> y % 4 == 0) && (y % 400 == 0 ==> y % 100 == 0)
  {
  }

  lemma YearStep(y: int, a: int, a': int, b: int, b': int, c: int, c': int)
    requires a' - a == (if y % 4 == 0 then 1 else 0) && b' - b == (if y % 100 == 0 then 1 else 0)
    requires c' - c == (if y % 400 == 0 then 1 else 0)
    ensures (365 * (y - 1969) + a' - b' + c') - (365 * (y - 1970) + a - b + c) == DaysInYear(y)
  {
    CenturiesAreFourths(y);
  }

  lemma FormulaStep(y: int)
    ensures DayFromYearFormula(y + 1) - DayFromYearFormula(y) == DaysInYear(y)
  {
    Quarter(y);
    Century(y);
    FourCenturies(y);
    YearStep(y, (y - 1969) / 4, (y - 1968) / 4, (y - 1901) / 100, (y - 1900) / 100, (y - 1601) / 400, (y - 1600) / 400);
  }

  /** Counting year by year agrees with the closed formula, for every year. */
  lemma {:induction false} YearsByFormula(y: int)
    ensures DayFromYear(y) == DayFromYearFormula(y)
    decreases if y >= 1970 then y - 1970 else 1970 - y
  {
    if y > 1970 {
      YearsByFormula(y - 1);
      FormulaStep(y - 1);
    } else if y < 1970 {
      YearsByFormula(y + 1);
      FormulaStep(y);
    }
  }

  lemma {:induction false} YearsIncrease(y: int, z: int)
    requires y <= z
    ensures DayFromYear(z) - DayFromYear(y) >= 365 * (z - y)
    decreases z - y
  {
    if y < z {
      YearLength(y);
      YearsIncrease(y + 1, z);
    }
  }

  predicate InYear(y: int, n: int) { DayFromYear(y) <= n < DayFromYear(y + 1) }

  lemma OneYear(n: int)
    ensures forall y, z :: InYear(y, n) && InYear(z, n) ==> y == z
  {
    forall y, z | InYear(y, n) && InYear(z, n) ensures y == z {
      if y < z { YearsIncrease(y + 1, z); }
      if z < y { YearsIncrease(z + 1, y); }
    }
  }

  lemma {:induction false} FindYear(n: int, y: int)
    ensures exists z :: InYear(z, n)
    decreases if n >= DayFromYear(y) then n - DayFromYear(y) else DayFromYear(y) - n, n < DayFromYear(y)
  {
    if InYear(y, n) {
    } else if n >= DayFromYear(y) {
      YearLength(y);
      FindYear(n, y + 1);
    } else {
      FindYearBelow(n, y);
    }
  }

  lemma {:induction false} FindYearBelow(n: int, y: int)
    requires n < DayFromYear(y)
    ensures exists z :: InYear(z, n)
    decreases DayFromYear(y) - n
  {
    YearLength(y - 1);
    if n >= DayFromYear(y - 1) { assert InYear(y - 1, n); } else { FindYearBelow(n, y - 1); }
  }

  /** The year a day number falls into (section 21.4.1.8 of ECMA-262). */
  function YearOf(n: int): (y: int)
    ensures InYear(y, n)
  {
    FindYear(n, 1970);
    OneYear(n);
    var y :| InYear(y, n);
    y
  }

  /** The first month from `m` on whose end lies behind day `r` of the year. */
  function MonthFrom(r: int, leap: bool, m: int): int
    decreases 12 - m
  {
    if m >= 12 || r < MonthStart(m + 1, leap) then m else MonthFrom(r, leap, m + 1)
  }

  /** getFullYear, getMonth + 1 and getDate of a day. */
  function CivilOf(n: int): Civil {
    var y := YearOf(n);
    var r := n - DayFromYear(y);
    var m := MonthFrom(r, Leap(y), 1);
    Civil(y, m, r - MonthStart(m, Leap(y)) + 1)
  }

  /** The days before a month, of section 21.4.1.11 of ECMA-262. */
  function MonthStartTable(m: int, leap: bool): int {
    var l := if leap then 1 else 0;
    match m
    case 1 => 0
    case 2 => 31
    case 3 => 59 + l
    case 4 => 90 + l
    case 5 => 120 + l
    case 6 => 151 + l
    case 7 => 181 + l
    case 8 => 212 + l
    case 9 => 243 + l
    case 10 => 273 + l
    case 11 => 304 + l
    case 12 => 334 + l
    case _ => 365 + l
  }

  /** Adding up the months agrees with it. */
  lemma {:induction false} MonthsByTable(m: int, leap: bool)
    requires 1 <= m <= 13
    ensures MonthStart(m, leap) == MonthStartTable(m, leap)
    decreases m
  {
    if m > 1 { MonthsByTable(m - 1, leap); }
  }

  /** The number of a date in closed form; the real ones are those whose day lies before the next month. */
  lemma DayNumberByFormula(c: Civil)
    requires 1 <= c.month <= 12
    ensures DayNumber(c) == DayFromYearFormula(c.year) + MonthStartTable(c.month, Leap(c.year)) + c.day - 1
    ensures RealDay(c) <==>
      1 <= c.day <= MonthStartTable(c.month + 1, Leap(c.year)) - MonthStartTable(c.month, Leap(c.year))
  {
    YearsByFormula(c.year);
    MonthsByTable(c.month, Leap(c.year));
    MonthsByTable(c.month + 1, Leap(c.year));
  }

  lemma MonthsFillTheYear(leap: bool)
    ensures MonthStart(13, leap) == if leap then 366 else 365
  {
    MonthsByTable(13, leap);
  }

  lemma {:induction false} MonthsIncrease(m: int, k: int, leap: bool)
    requires 1 <= m <= k
    ensures MonthStart(k, leap) >= MonthStart(m, leap) + 28 * (k - m)
    decreases k
  {
    if m < k { MonthsIncrease(m, k - 1, leap); }
  }

  predicate InMonth(r: int, leap: bool, k: int) { MonthStart(k, leap) <= r < MonthStart(k + 1, leap) }

  lemma {:induction false} MonthFromIs(r: int, leap: bool, m: int)
    requires 1 <= m <= 12 && MonthStart(m, leap) <= r < MonthStart(13, leap)
    ensures m <= MonthFrom(r, leap, m) <= 12 && InMonth(r, leap, MonthFrom(r, leap, m))
    decreases 12 - m
  {
    if m == 12 {
      assert MonthFrom(r, leap, 12) == 12;
    } else if r < MonthStart(m + 1, leap) {
      assert MonthFrom(r, leap, m) == m;
    } else {
      MonthFromIs(r, leap, m + 1);
    }
  }

  lemma EarlierMonth(r: int, leap: bool, j: int, k: int)
    requires 1 <= j < k && r < MonthStart(j + 1, leap)
    ensures r < MonthStart(k, leap)
  {
    MonthsIncrease(j + 1, k, leap);
  }

  lemma LaterMonth(r: int, leap: bool, j: int, k: int)
    requires 1 <= j <= k && MonthStart(k, leap) <= r
    ensures MonthStart(j, leap) <= r
  {
    MonthsIncrease(j, k, leap);
  }

  lemma OneMonth(r: int, leap: bool, k: int)
    requires 1 <= k <= 12 && InMonth(r, leap, k)
    ensures MonthFrom(r, leap, 1) == k
  {
    EarlierMonth(r, leap, k, 13);
    LaterMonth(r, leap, 1, k);
    MonthFromIs(r, leap, 1);
    SameMonth(r, leap, MonthFrom(r, leap, 1), k);
  }

  lemma SameMonth(r: int, leap: bool, j: int, k: int)
    requires 1 <= j && 1 <= k && InMonth(r, leap, j) && InMonth(r, leap, k)
    ensures j == k
  {
    if j < k { EarlierMonth(r, leap, j, k); }
    if k < j { EarlierMonth(r, leap, k, j); }
  }

  /** Every day number is that of exactly one real date. */
  lemma CivilOfDay(n: int)
    ensures RealDay(CivilOf(n)) && DayNumber(CivilOf(n)) == n
  {
    var y := YearOf(n);
    YearLength(y);
    MonthsFillTheYear(Leap(y));
    MonthFromIs(n - DayFromYear(y), Leap(y), 1);
  }

  lemma RealDayInYear(c: Civil)
    requires RealDay(c)
    ensures InYear(c.year, DayNumber(c))
    ensures MonthStart(c.month, Leap(c.year)) <= DayNumber(c) - DayFromYear(c.year) < MonthStart(c.month + 1, Leap(c.year))
  {
    YearLength(c.year);
    MonthsFillTheYear(Leap(c.year));
    MonthsIncrease(c.month + 1, 13, Leap(c.year));
    MonthsIncrease(1, c.month, Leap(c.year));
  }

  lemma CivilOfReal(c: Civil)
    requires RealDay(c)
    ensures CivilOf(DayNumber(c)) == c
  {
    RealDayInYear(c);
    OneYear(DayNumber(c));
    OneMonth(DayNumber(c) - DayFromYear(c.year), Leap(c.year), c.month);
  }
}
