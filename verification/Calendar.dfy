/** The proleptic Gregorian calendar: day numbers and civil dates, as the time package counts them. */
module Calendar {

  predicate IsLeap(y: int) {
    y % 4 == 0 && (y % 100 != 0 || y % 400 == 0)
  }

  /** Month lengths by the calendar rule. */
  function DaysIn(y: int, m: int): int
    requires 1 <= m <= 12
  {
    if m == 2 then (if IsLeap(y) then 29 else 28)
    else if m == 4 || m == 6 || m == 9 || m == 11 then 30
    else 31
  }

  /** Days from 1 January of year 1 to 1 January of year y. */
  function DaysBeforeYear(y: int): int {
    365 * (y - 1) + (y - 1) / 4 - (y - 1) / 100 + (y - 1) / 400
  }

  function DaysBeforeMonth(y: int, m: int): int
    requires 1 <= m <= 13
    decreases m
  {
    if m == 1 then 0 else DaysBeforeMonth(y, m - 1) + DaysIn(y, m - 1)
  }

  predicate ValidDate(y: int, m: int, d: int) {
    1 <= m <= 12 && 1 <= d <= DaysIn(y, m)
  }

  function DayNumber(y: int, m: int, d: int): int
    requires 1 <= m <= 12
  {
    DaysBeforeYear(y) + DaysBeforeMonth(y, m) + d - 1
  }

  lemma YearLength(y: int)
    ensures DaysBeforeYear(y + 1) == DaysBeforeYear(y) + (if IsLeap(y) then 366 else 365)
    ensures DaysBeforeMonth(y, 13) == if IsLeap(y) then 366 else 365
  {
    assert DaysBeforeMonth(y, 5) == DaysBeforeMonth(y, 2) + DaysIn(y, 2) + 31 + 30;
    assert DaysBeforeMonth(y, 9) == DaysBeforeMonth(y, 5) + 31 + 30 + 31 + 31;
    assert DaysBeforeMonth(y, 13) == DaysBeforeMonth(y, 9) + 30 + 31 + 30 + 31;
    assert y / 4 == (y - 1) / 4 + (if y % 4 == 0 then 1 else 0);
    assert y / 100 == (y - 1) / 100 + (if y % 100 == 0 then 1 else 0);
    assert y / 400 == (y - 1) / 400 + (if y % 400 == 0 then 1 else 0);
  }

  lemma {:induction false} YearsAscend(y1: int, y2: int)
    requires y1 <= y2
    ensures DaysBeforeYear(y1) + 365 * (y2 - y1) <= DaysBeforeYear(y2)
    decreases y2 - y1
  {
    if y1 < y2 {
      YearLength(y2 - 1);
      YearsAscend(y1, y2 - 1);
    }
  }

  lemma {:induction false} MonthsAscend(y: int, m1: int, m2: int)
    requires 1 <= m1 < m2 <= 13
    ensures DaysBeforeMonth(y, m1) + DaysIn(y, m1) <= DaysBeforeMonth(y, m2)
    ensures 0 <= DaysBeforeMonth(y, m1)
    decreases m2
  {
    if m1 + 1 < m2 {
      MonthsAscend(y, m1, m2 - 1);
    } else if 1 < m1 {
      MonthsAscend(y, m1 - 1, m1);
    }
  }

  datatype Date = Date(year: int, month: int, day: int)

  ghost predicate Earlier(a: Date, b: Date) {
    || a.year < b.year
    || (a.year == b.year && a.month < b.month)
    || (a.year == b.year && a.month == b.month && a.day < b.day)
  }

  /** Day numbers order valid dates the way dates are ordered. */
  lemma DayNumberOrders(a: Date, b: Date)
    requires ValidDate(a.year, a.month, a.day) && ValidDate(b.year, b.month, b.day) && Earlier(a, b)
    ensures DayNumber(a.year, a.month, a.day) < DayNumber(b.year, b.month, b.day)
  {
    if a.year < b.year {
      YearsAscend(a.year + 1, b.year);
      YearLength(a.year);
      MonthsAscend(a.year, a.month, 13);
      if 1 < b.month {
        MonthsAscend(b.year, 1, b.month);
      }
    } else if a.month < b.month {
      MonthsAscend(a.year, a.month, b.month);
    }
  }

  const MonthTable: seq<int> := [31, 28, 31, 30, 31, 30, 31, 31, 30, 31, 30, 31]

  /** Month lengths against the table, with the leap day. */
  lemma MonthLengths(y: int, m: int)
    requires 1 <= m <= 12
    ensures DaysIn(y, m) == MonthTable[m - 1] + (if m == 2 && IsLeap(y) then 1 else 0)
    ensures m < 12 ==> DayNumber(y, m + 1, 1) - DayNumber(y, m, 1) == DaysIn(y, m)
  {
  }

  /** Fixed dates: the zero time, the Unix epoch and a leap day. */
  lemma FixedDates()
    ensures DayNumber(1, 1, 1) == 0
    ensures DayNumber(1970, 1, 1) == 719_162
    ensures DayNumber(2024, 2, 29) == 738_944 && DayNumber(2024, 3, 31) == 738_975 && DayNumber(2024, 4, 1) == 738_976
  {
    var y := 2024;
    assert DaysBeforeMonth(y, 2) == 31;
    assert DaysBeforeMonth(y, 3) == 60;
    assert DaysBeforeMonth(y, 4) == 91;
  }

  // ----- from day numbers back to dates -----

  /** The year containing day n, searched from a year known to start no later. */
  function YearFrom(n: int, y: int): (r: int)
    requires DaysBeforeYear(y) <= n
    ensures DaysBeforeYear(r) <= n < DaysBeforeYear(r + 1)
    decreases n - DaysBeforeYear(y)
  {
    YearLength(y);
    if n < DaysBeforeYear(y + 1) then y else YearFrom(n, y + 1)
  }

  /** A year that starts no later than day n. */
  function YearGuess(n: int): (y: int)
    ensures DaysBeforeYear(y) <= n
  {
    if n >= 0 then 1
    else
      // a 400-year cycle has 146097 days
      var cycles := -n / 146097 + 1;
      assert -n < 146097 * cycles;
      CyclesBack(cycles);
      1 - 400 * cycles
  }

  lemma CyclesBack(c: int)
    requires 0 <= c
    ensures DaysBeforeYear(1 - 400 * c) == -146097 * c
  {
    assert (-400 * c) / 4 == -100 * c;
    assert (-400 * c) / 100 == -4 * c;
    assert (-400 * c) / 400 == -c;
  }

  function MonthFrom(y: int, dayOfYear: int, m: int): (r: int)
    requires 1 <= m <= 12 && DaysBeforeMonth(y, m) <= dayOfYear < DaysBeforeMonth(y, 13)
    ensures m <= r <= 12 && DaysBeforeMonth(y, r) <= dayOfYear < DaysBeforeMonth(y, r + 1)
    decreases 12 - m
  {
    if m == 12 || dayOfYear < DaysBeforeMonth(y, m + 1) then m else MonthFrom(y, dayOfYear, m + 1)
  }

  /** The civil date of a day number. */
  function Civil(n: int): (date: Date)
    ensures ValidDate(date.year, date.month, date.day)
    ensures DayNumber(date.year, date.month, date.day) == n
  {
    var y := YearFrom(n, YearGuess(n));
    YearLength(y);
    var m := MonthFrom(y, n - DaysBeforeYear(y), 1);
    Date(y, m, n - DaysBeforeYear(y) - DaysBeforeMonth(y, m) + 1)
  }

  /** Civil and DayNumber are inverse: the calendar is a bijection between valid dates and day numbers. */
  lemma CivilInverts(date: Date)
    requires ValidDate(date.year, date.month, date.day)
    ensures Civil(DayNumber(date.year, date.month, date.day)) == date
  {
    var back := Civil(DayNumber(date.year, date.month, date.day));
    if Earlier(date, back) {
      DayNumberOrders(date, back);
    } else if Earlier(back, date) {
      DayNumberOrders(back, date);
    }
  }

  /** Civil dates advance with day numbers. */
  lemma CivilAscends(n1: int, n2: int)
    requires n1 < n2
    ensures Earlier(Civil(n1), Civil(n2))
  {
    var a, b := Civil(n1), Civil(n2);
    if Earlier(b, a) {
      DayNumberOrders(b, a);
    } else {
      assert a != b;
    }
  }

  // ----- time.Date's normalisation -----

  /** The month normalised into 1..12, carrying whole years, then the day carried as a day count. */
  function DateDay(year: int, month: int, day: int): int {
    var y := year + (month - 1) / 12;
    var m := (month - 1) % 12 + 1;
    DayNumber(y, m, 1) + day - 1
  }
}
