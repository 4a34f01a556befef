/** nextMonthly over instants in nanoseconds, in a zone with a fixed offset. */
module MonthlySchedule {
  import opened Domain
  import opened Calendar
  import opened Occurrences

  const MINUTE := 60 * 1_000_000_000
  const HOUR := 60 * MINUTE
  const DAY := 24 * HOUR

  /** A validated MONTHLY schedule and the zone's offset from UTC. */
  datatype Monthly = Monthly(dayOfMonth: int, hour: int, minute: int, offset: int) {
    predicate Valid() {
      1 <= dayOfMonth <= 31 && 0 <= hour <= 23 && 0 <= minute <= 59
    }
  }

  /** The local civil date of an instant. */
  function LocalDate(t: int, offset: int): (date: Date)
    ensures ValidDate(date.year, date.month, date.day)
  {
    Civil((t + offset) / DAY)
  }

  /** time.Date with no seconds, in a zone with this offset. */
  function TimeDate(year: int, month: int, day: int, hour: int, minute: int, offset: int): int {
    DateDay(year, month, day) * DAY + hour * HOUR + minute * MINUTE - offset
  }

  /** The first of the following month, minus one day, and that day's number in its month. */
  function LastDayOfMonth(year: int, month: int): int {
    var firstOfNext := Civil(DateDay(year, month + 1, 1));
    Civil(DateDay(firstOfNext.year, firstOfNext.month, firstOfNext.day - 1)).day
  }

  function MonthlyOccurrence(year: int, month: int, s: Monthly): int {
    var last := LastDayOfMonth(year, month);
    var day := if s.dayOfMonth > last then last else s.dayOfMonth;
    TimeDate(year, month, day, s.hour, s.minute, s.offset)
  }

  function NextMonthly(s: Monthly, after: int): int {
    var date := LocalDate(after, s.offset);
    var candidate := MonthlyOccurrence(date.year, date.month, s);
    if candidate <= after then
      var year, month := date.year, date.month + 1;
      if month > 12 then MonthlyOccurrence(year + 1, 1, s) else MonthlyOccurrence(year, month, s)
    else candidate
  }

  // ----- what it promises -----

  /** The month after m, carrying into the next year after December. */
  lemma FirstOfNext(y: int, m: int, ny: int, nm: int)
    requires 1 <= m <= 12
    requires ny == (if m == 12 then y + 1 else y) && nm == (if m == 12 then 1 else m + 1)
    ensures DateDay(y, m + 1, 1) == DayNumber(ny, nm, 1)
    ensures DateDay(ny, nm, 0) == DayNumber(y, m, DaysIn(y, m))
  {
    YearLength(y);
    DateOfValid(ny, nm, 0);
    assert DateDay(y, 13, 1) == DayNumber(y + 1, 1, 1);
    if m < 12 {
      DateOfValid(y, m + 1, 1);
    }
    hide DateDay, DaysBeforeYear, IsLeap;
  }

  /** lastDayOfMonth is the calendar's month length, through the month-13 normalisation in December too. */
  lemma LastDayIsMonthLength(y: int, m: int)
    requires 1 <= m <= 12
    ensures LastDayOfMonth(y, m) == DaysIn(y, m)
  {
    hide Civil, DateDay, DayNumber;
    var ny, nm := if m == 12 then y + 1 else y, if m == 12 then 1 else m + 1;
    FirstOfNext(y, m, ny, nm);
    CivilInverts(Date(ny, nm, 1));
    CivilInverts(Date(y, m, DaysIn(y, m)));
  }

  /** The clamped day of an occurrence, by the calendar's rule. */
  function ClampedDay(y: int, m: int, day: int): int
    requires 1 <= m <= 12
  {
    if day > DaysIn(y, m) then DaysIn(y, m) else day
  }

  /** A month's occurrence falls on its clamped day at the scheduled time, inside that month. */
  lemma OccurrenceInMonth(y: int, m: int, s: Monthly)
    requires 1 <= m <= 12 && s.Valid()
    ensures (MonthlyOccurrence(y, m, s) + s.offset) % DAY == s.hour * HOUR + s.minute * MINUTE
    ensures (MonthlyOccurrence(y, m, s) + s.offset) % 86_400_000_000_000 ==
            s.hour * 3_600_000_000_000 + s.minute * 60_000_000_000
    ensures LocalDate(MonthlyOccurrence(y, m, s), s.offset) == Date(y, m, ClampedDay(y, m, s.dayOfMonth))
  {
    hide DayNumber, Civil;
    var d := ClampedDay(y, m, s.dayOfMonth);
    assert MonthlyOccurrence(y, m, s) + s.offset == DayNumber(y, m, d) * DAY + (s.hour * HOUR + s.minute * MINUTE) by {
      LastDayIsMonthLength(y, m);
      DateOfValid(y, m, d);
      hide LastDayOfMonth, DateDay;
    }
    DivMod(DayNumber(y, m, d), s.hour * HOUR + s.minute * MINUTE);
    CivilInverts(Date(y, m, d));
  }

  lemma DateOfValid(y: int, m: int, d: int)
    requires 1 <= m <= 12
    ensures DateDay(y, m, d) == DayNumber(y, m, d)
  {
  }

  lemma DivMod(q: int, r: int)
    requires 0 <= r < DAY
    ensures (q * DAY + r) / DAY == q && (q * DAY + r) % DAY == r
  {
  }

  /** The occurrences of a schedule: one in every month of every year. */
  ghost function OccurrencesOf(s: Monthly): iset<int> {
    iset y: int, m: int | 1 <= m <= 12 :: MonthlyOccurrence(y, m, s)
  }

  ghost predicate MonthBefore(y1: int, m1: int, y2: int, m2: int) {
    y1 < y2 || (y1 == y2 && m1 < m2)
  }

  /** An instant in an earlier month is an earlier instant. */
  lemma EarlierMonthEarlier(t: int, u: int, offset: int)
    requires MonthBefore(LocalDate(t, offset).year, LocalDate(t, offset).month, LocalDate(u, offset).year,
                         LocalDate(u, offset).month)
    ensures t < u
  {
    hide DayNumber, Civil;
    DayNumberOrders(LocalDate(t, offset), LocalDate(u, offset));
  }

  /** Occurrences of later months are later. */
  lemma OccurrencesAscend(y1: int, m1: int, y2: int, m2: int, s: Monthly)
    requires s.Valid() && 1 <= m1 <= 12 && 1 <= m2 <= 12 && MonthBefore(y1, m1, y2, m2)
    ensures MonthlyOccurrence(y1, m1, s) < MonthlyOccurrence(y2, m2, s)
  {
    hide MonthlyOccurrence, LocalDate;
    OccurrenceInMonth(y1, m1, s);
    OccurrenceInMonth(y2, m2, s);
    EarlierMonthEarlier(MonthlyOccurrence(y1, m1, s), MonthlyOccurrence(y2, m2, s), s.offset);
  }

  /** nextMonthly returns the least monthly occurrence strictly after its argument, for every instant. */
  lemma NextMonthlyIsLeast(s: Monthly, after: int)
    requires s.Valid()
    ensures LeastAfter(OccurrencesOf(s), after, NextMonthly(s, after))
  {
    hide MonthlyOccurrence, LocalDate;
    var date := LocalDate(after, s.offset);
    var y, m := date.year, date.month;
    var ny, nm := if m == 12 then y + 1 else y, if m == 12 then 1 else m + 1;
    var next := NextMonthly(s, after);
    OccurrenceInMonth(ny, nm, s);
    EarlierMonthEarlier(after, MonthlyOccurrence(ny, nm, s), s.offset);
    assert next == MonthlyOccurrence(y, m, s) || next == MonthlyOccurrence(ny, nm, s);
    forall u | after < u < next
      ensures u !in OccurrencesOf(s)
    {
      if u in OccurrencesOf(s) {
        var yu, mu :| 1 <= mu <= 12 && u == MonthlyOccurrence(yu, mu, s);
        NotBetween(s, after, yu, mu);
      }
    }
  }

  /** No occurrence lies between an instant and the one nextMonthly returns for it. */
  lemma NotBetween(s: Monthly, after: int, yu: int, mu: int)
    requires s.Valid() && 1 <= mu <= 12
    ensures MonthlyOccurrence(yu, mu, s) <= after || NextMonthly(s, after) <= MonthlyOccurrence(yu, mu, s)
  {
    hide MonthlyOccurrence, LocalDate;
    var date := LocalDate(after, s.offset);
    var y, m := date.year, date.month;
    var ny, nm := if m == 12 then y + 1 else y, if m == 12 then 1 else m + 1;
    OccurrenceInMonth(yu, mu, s);
    if MonthBefore(yu, mu, y, m) {
      EarlierMonthEarlier(MonthlyOccurrence(yu, mu, s), after, s.offset);
    } else if MonthBefore(y, m, yu, mu) {
      if MonthBefore(ny, nm, yu, mu) {
        OccurrencesAscend(ny, nm, yu, mu, s);
      }
      OccurrencesAscend(y, m, yu, mu, s);
    }
  }

  /** So a monthly schedule meets the contract the dispatcher relies on. */
  lemma MonthlyMeetsContract(s: Monthly)
    requires s.Valid()
    ensures NextOf(OccurrencesOf(s), t => Some(NextMonthly(s, t)))
  {
    forall t
      ensures LeastAfter(OccurrencesOf(s), t, NextMonthly(s, t))
    {
      NextMonthlyIsLeast(s, t);
    }
  }
}
