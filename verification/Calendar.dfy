/**
 * Dates as milliseconds, by section 21.4.1 of ECMA-262: day numbers, years, months, and
 * Date.UTC with its reading of the years 0 to 99 as 1900 to 1999.
 */
module Calendar {
  import opened Common

  const HOUR_MS := 3_600_000
  const DAY_MS := 86_400_000

  /** `month` counts from 0, `day` from 1. */
  datatype Date = Date(year: int, month: int, day: int)

  // Dafny's division by a positive number rounds down, as the standard's floor does.
  function DayNumber(t: int): int {
    t / DAY_MS
  }

  function TimeOfDay(t: int): int {
    t % DAY_MS
  }

  predicate Leap(year: int) {
    year % 4 == 0 && (year % 100 != 0 || year % 400 == 0)
  }

  function YearLength(year: int): int {
    if Leap(year) then 366 else 365
  }

  /** The day number of 1 January. */
  function YearStart(year: int): int
    decreases if year < 1970 then 1970 - year else year - 1970
  {
    if year == 1970 then 0
    else if year > 1970 then YearStart(year - 1) + YearLength(year - 1)
    else YearStart(year + 1) - YearLength(year)
  }

  /** DayFromYear, as the standard writes it. */
  function DayFromYear(year: int): int {
    365 * (year - 1970) + (year - 1969) / 4 - (year - 1901) / 100 + (year - 1601) / 400
  }

  lemma Quotient4(n: int)
    ensures (n + 1) / 4 == n / 4 + if (n + 1) % 4 == 0 then 1 else 0
  {
  }

  lemma Quotient100(n: int)
    ensures (n + 1) / 100 == n / 100 + if (n + 1) % 100 == 0 then 1 else 0
  {
  }

  lemma Quotient400(n: int)
    ensures (n + 1) / 400 == n / 400 + if (n + 1) % 400 == 0 then 1 else 0
  {
  }

  lemma Remainder4(year: int)
    ensures (year - 1968) % 4 == 0 <==> year % 4 == 0
  {
  }

  lemma Remainder100(year: int)
    ensures (year - 1900) % 100 == 0 <==> year % 100 == 0
  {
  }

  lemma Remainder400(year: int)
    ensures (year - 1600) % 400 == 0 <==> year % 400 == 0
  {
  }

  lemma Multiples(year: int)
    ensures year % 100 == 0 ==> year % 4 == 0
    ensures year % 400 == 0 ==> year % 100 == 0
  {
  }

  lemma DayFromYearStep(year: int)
    ensures DayFromYear(year + 1) == DayFromYear(year) + YearLength(year)
  {
    Quotient4(year - 1969);
    Quotient100(year - 1901);
    Quotient400(year - 1601);
    Remainder4(year);
    Remainder100(year);
    Remainder400(year);
    Multiples(year);
  }

  lemma {:induction false} YearStartIsDayFromYear(year: int)
    ensures YearStart(year) == DayFromYear(year)
    decreases if year < 1970 then 1970 - year else year - 1970
  {
    if year > 1970 {
      YearStartIsDayFromYear(year - 1);
      DayFromYearStep(year - 1);
    } else if year < 1970 {
      YearStartIsDayFromYear(year + 1);
      DayFromYearStep(year);
    }
  }

  lemma YearStep(year: int)
    ensures YearStart(year + 1) == YearStart(year) + YearLength(year)
  {
  }

  lemma {:induction false} YearsAscend(y: int, z: int)
    requires y <= z
    ensures YearStart(y) + 365 * (z - y) <= YearStart(z)
    decreases z - y
  {
    if y < z {
      YearStep(z - 1);
      YearsAscend(y, z - 1);
    }
  }

  lemma {:induction false} YearExists(day: int, y: int)
    ensures exists year :: YearStart(year) <= day < YearStart(year + 1)
    decreases if day < YearStart(y) then YearStart(y) - day else day - YearStart(y)
  {
    YearStep(y);
    YearStep(y - 1);
    if day < YearStart(y) {
      if YearStart(y - 1) <= day {
        assert YearStart(y - 1) <= day < YearStart(y - 1 + 1);
      } else {
        YearExists(day, y - 1);
      }
    } else if YearStart(y + 1) <= day {
      YearExists(day, y + 1);
    }
  }

  /** The year a day is in. */
  ghost function YearOf(day: int): (year: int)
    ensures YearStart(year) <= day < YearStart(year + 1)
  {
    YearExists(day, 1970);
    var year :| YearStart(year) <= day < YearStart(year + 1);
    year
  }

  lemma YearUnique(day: int, y: int)
    requires YearStart(y) <= day < YearStart(y + 1)
    ensures YearOf(day) == y
  {
    var z := YearOf(day);
    if z < y {
      YearsAscend(z + 1, y);
    } else if y < z {
      YearsAscend(y + 1, z);
    }
  }

  function CommonMonthStart(month: int): int
    requires 0 <= month <= 12
  {
    if month == 0 then 0 else if month == 1 then 31 else if month == 2 then 59 else if month == 3 then 90
    else if month == 4 then 120 else if month == 5 then 151 else if month == 6 then 181 else if month == 7 then 212
    else if month == 8 then 243 else if month == 9 then 273 else if month == 10 then 304 else if month == 11 then 334
    else 365
  }

  /** Days before a month in its year. */
  function MonthStart(leap: bool, month: int): int
    requires 0 <= month <= 12
  {
    CommonMonthStart(month) + if leap && month >= 2 then 1 else 0
  }

  function MonthLength(year: int, month: int): (n: int)
    requires 0 <= month < 12
    ensures 28 <= n <= 31
  {
    MonthStart(Leap(year), month + 1) - MonthStart(Leap(year), month)
  }

  const MONTH_LENGTHS := [31, 28, 31, 30, 31, 30, 31, 31, 30, 31, 30, 31]

  lemma MonthLengths(year: int, month: int)
    requires 0 <= month < 12
    ensures MonthLength(year, month) == MONTH_LENGTHS[month] + if month == 1 && Leap(year) then 1 else 0
  {
    assert MONTH_LENGTHS[0] == MONTH_LENGTHS[2] == MONTH_LENGTHS[4] == MONTH_LENGTHS[6] == MONTH_LENGTHS[7]
        == MONTH_LENGTHS[9] == MONTH_LENGTHS[11] == 31;
    assert MONTH_LENGTHS[3] == MONTH_LENGTHS[5] == MONTH_LENGTHS[8] == MONTH_LENGTHS[10] == 30;
    assert MONTH_LENGTHS[1] == 28;
  }

  predicate ValidDate(d: Date) {
    0 <= d.month < 12 && 1 <= d.day <= MonthLength(d.year, d.month)
  }

  lemma DateExists(day: int)
    ensures exists d :: ValidDate(d) && DayOf(d.year, d.month, d.day) == day
  {
    var year := YearOf(day);
    YearStep(year);
    var yearDay := day - YearStart(year);
    var month := 0;
    while MonthStart(Leap(year), month + 1) <= yearDay
      invariant 0 <= month < 12 && MonthStart(Leap(year), month) <= yearDay < MonthStart(Leap(year), 12)
      decreases 12 - month
    {
      month := month + 1;
    }
    var d := Date(year, month, yearDay - MonthStart(Leap(year), month) + 1);
    assert ValidDate(d) && DayOf(d.year, d.month, d.day) == day;
  }

  /** getUTCFullYear, getUTCMonth and getUTCDate of a day: the date that the day number is of. */
  ghost function DateOf(day: int): (d: Date)
    ensures ValidDate(d) && DayOf(d.year, d.month, d.day) == day
  {
    DateExists(day);
    var d :| ValidDate(d) && DayOf(d.year, d.month, d.day) == day;
    d
  }

  function DayOf(year: int, month: int, day: int): int
    requires 0 <= month < 12
  {
    YearStart(year) + MonthStart(Leap(year), month) + day - 1
  }

  lemma MonthUnique(leap: bool, m: int, n: int, yearDay: int)
    requires 0 <= m < 12 && 0 <= n < 12
    requires MonthStart(leap, m) <= yearDay < MonthStart(leap, m + 1)
    requires MonthStart(leap, n) <= yearDay < MonthStart(leap, n + 1)
    ensures m == n
  {
  }

  lemma DateOfDay(d: Date)
    requires ValidDate(d)
    ensures DateOf(DayOf(d.year, d.month, d.day)) == d
  {
    var day := DayOf(d.year, d.month, d.day);
    var e := DateOf(day);
    DayInYear(d);
    DayInYear(e);
    YearUnique(day, d.year);
    YearUnique(day, e.year);
    MonthUnique(Leap(d.year), d.month, e.month, day - YearStart(d.year));
  }

  lemma DayInYear(d: Date)
    requires ValidDate(d)
    ensures YearStart(d.year) <= DayOf(d.year, d.month, d.day) < YearStart(d.year + 1)
  {
    YearStep(d.year);
  }

  /** MakeDay: a month outside the year carries into it. */
  function MakeDay(year: int, month: int, day: int): int {
    DayOf(year + month / 12, month % 12, 1) + day - 1
  }

  predicate TwoDigit(year: int) {
    0 <= year <= 99
  }

  function FullYear(year: int): int {
    if TwoDigit(year) then 1900 + year else year
  }

  /** Date.UTC(year, month, day), before its range is checked. */
  function DateUtc(year: int, month: int, day: int): int {
    MakeDay(FullYear(year), month, day) * DAY_MS
  }

  /** Date.UTC reads the years 0 to 99 as 1900 to 1999, and every other year as itself. */
  lemma TwoDigitYears(year: int, month: int, day: int)
    ensures DateUtc(year, month, day)
         == if 0 <= year < 100 then DateUtc(year + 1900, month, day) else MakeDay(year, month, day) * DAY_MS
  {
  }

  lemma UtcOfDate(d: Date)
    requires ValidDate(d)
    ensures !TwoDigit(d.year) ==> DateUtc(d.year, d.month, d.day) == DayOf(d.year, d.month, d.day) * DAY_MS
    ensures TwoDigit(d.year) ==> DateUtc(d.year, d.month, d.day) > (DayOf(d.year, d.month, d.day) + 1000) * DAY_MS
  {
    YearsAscend(d.year, d.year + 1900);
  }

  /** Months since year 0, and the day number of a month's first day. */
  function MonthIndex(d: Date): int {
    12 * d.year + d.month
  }

  function MonthFirst(index: int): int {
    DayOf(index / 12, index % 12, 1)
  }

  lemma MonthFirstStep(index: int)
    ensures MonthFirst(index + 1) == MonthFirst(index) + MonthLength(index / 12, index % 12)
  {
    if index % 12 == 11 {
      assert (index + 1) / 12 == index / 12 + 1 && (index + 1) % 12 == 0;
      YearStep(index / 12);
    } else {
      assert (index + 1) / 12 == index / 12 && (index + 1) % 12 == index % 12 + 1;
    }
  }

  lemma {:induction false} MonthsAscend(i: int, j: int)
    requires i <= j
    ensures MonthFirst(i) + 28 * (j - i) <= MonthFirst(j)
    decreases j - i
  {
    if i < j {
      MonthFirstStep(j - 1);
      MonthsAscend(i, j - 1);
    }
  }

  lemma MakeDayIsMonthFirst(year: int, month: int, day: int)
    ensures MakeDay(year, month, day) == MonthFirst(12 * year + month) + day - 1
  {
    assert (12 * year + month) / 12 == year + month / 12;
    assert (12 * year + month) % 12 == month % 12;
  }

  /** The month a day is in, found between two firsts. */
  lemma MonthOfDay(day: int, index: int)
    requires MonthFirst(index) <= day < MonthFirst(index + 1)
    ensures DateOf(day) == Date(index / 12, index % 12, day - MonthFirst(index) + 1)
  {
    MonthFirstStep(index);
    DateOfDay(Date(index / 12, index % 12, day - MonthFirst(index) + 1));
  }

  lemma DayInMonth(day: int)
    ensures var d := DateOf(day);
            MonthFirst(MonthIndex(d)) + d.day - 1 == day < MonthFirst(MonthIndex(d) + 1)
  {
    var d := DateOf(day);
    IndexParts(d.year, d.month);
    MonthFirstStep(MonthIndex(d));
    assert day == DayOf(d.year, d.month, d.day);
    assert MonthFirst(MonthIndex(d)) == DayOf(d.year, d.month, 1);
  }

  lemma IndexParts(year: int, month: int)
    requires 0 <= month < 12
    ensures (12 * year + month) / 12 == year && (12 * year + month) % 12 == month
  {
  }

  /** 0 is Sunday; day 0, 1 January 1970, was a Thursday. */
  function WeekDay(day: int): int {
    (day + 4) % 7
  }
}
