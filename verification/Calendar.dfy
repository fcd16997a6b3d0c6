/** UTC calendar arithmetic of the autostack schedule.
    A time value is a number of milliseconds since 1970-01-01T00:00:00Z.  Years,
    months and days of the month are those of section 21.4.1 of ECMA-262; months
    are numbered from 0. */
module Calendar {

  const DAY_MS: int := 86_400_000

  datatype Frequency = Daily | Weekly | Monthly

  datatype Date = Date(year: int, month: int, day: int)

  predicate LeapYear(y: int) {
    y % 4 == 0 && (y % 100 != 0 || y % 400 == 0)
  }

  function MonthDays(m: int, leap: bool): int {
    if m == 1 then (if leap then 29 else 28)
    else if m == 3 || m == 5 || m == 8 || m == 10 then 30
    else 31
  }

  /** Days of a year that precede month `m`. */
  function MonthOffset(m: int, leap: bool): int
    requires 0 <= m < 12
  {
    [0, 31, 59, 90, 120, 151, 181, 212, 243, 273, 304, 334][m] + (if m > 1 && leap then 1 else 0)
  }

  lemma MonthStep(m: int, leap: bool)
    requires 0 <= m < 12
    ensures MonthOffset(m, leap) + MonthDays(m, leap)
         == if m < 11 then MonthOffset(m + 1, leap) else if leap then 366 else 365
  {}

  lemma {:induction false} MonthOrder(m: int, n: int, leap: bool)
    requires 0 <= m < n < 12
    ensures MonthOffset(m, leap) + MonthDays(m, leap) <= MonthOffset(n, leap)
    decreases n - m
  {
    MonthStep(m, leap);
    if m + 1 < n { MonthOrder(m + 1, n, leap); }
  }

  function DaysInMonth(y: int, m: int): int {
    MonthDays(m, LeapYear(y))
  }

  /** Day number of the first of January. */
  function DayFromYear(y: int): int {
    365 * (y - 1970) + (y - 1969) / 4 - (y - 1901) / 100 + (y - 1601) / 400
  }

  /** Day number of the first day of month `m`. */
  function DayFromMonth(y: int, m: int): int
    requires 0 <= m < 12
  {
    DayFromYear(y) + MonthOffset(m, LeapYear(y))
  }

  /** Day number of a date whose month and day may run past the end of the year
      and of the month: both carry over. */
  function MakeDay(y: int, m: int, d: int): int {
    DayFromMonth(y + m / 12, m % 12) + d - 1
  }

  predicate ValidDate(c: Date) {
    0 <= c.month < 12 && 1 <= c.day <= DaysInMonth(c.year, c.month)
  }

  lemma FirstOfNextMonth(y: int, m: int)
    requires 0 <= m < 12
    ensures MakeDay(y, m + 1, 1) == if m < 11 then DayFromMonth(y, m + 1) else DayFromYear(y + 1)
  {
    if m < 11 { PlainDay(y, m + 1, 1); }
  }

  /** A month is as long as the distance between the first days of it and of its successor. */
  lemma MonthLength(y: int, m: int)
    requires 0 <= m < 12
    ensures MakeDay(y, m + 1, 1) == MakeDay(y, m, 1) + DaysInMonth(y, m)
  {
    MonthStep(m, LeapYear(y));
    PlainDay(y, m, 1);
    FirstOfNextMonth(y, m);
    if m == 11 { YearLength(y); }
  }

  lemma PlainDay(y: int, m: int, d: int)
    requires 0 <= m < 12
    ensures MakeDay(y, m, d) == DayFromMonth(y, m) + d - 1
  {
    assert m / 12 == 0 && m % 12 == m;
  }

  lemma LeapFourths(y: int)
    ensures (y + 1 - 1969) / 4 == (y - 1969) / 4 + (if y % 4 == 0 then 1 else 0)
  {}

  lemma LeapCenturies(y: int)
    ensures (y + 1 - 1901) / 100 == (y - 1901) / 100 + (if y % 100 == 0 then 1 else 0)
  {}

  lemma LeapFourHundreds(y: int)
    ensures (y + 1 - 1601) / 400 == (y - 1601) / 400 + (if y % 400 == 0 then 1 else 0)
  {}

  lemma LeapNesting(y: int)
    ensures y % 400 == 0 ==> y % 100 == 0
    ensures y % 100 == 0 ==> y % 4 == 0
  {}

  lemma YearLength(y: int)
    ensures DayFromYear(y + 1) == DayFromYear(y) + (if LeapYear(y) then 366 else 365)
  {
    LeapFourths(y);
    LeapCenturies(y);
    LeapFourHundreds(y);
    LeapNesting(y);
  }

  lemma YearBound(y: int)
    requires y <= 1970
    ensures DayFromYear(y) <= 365 * (y - 1970)
  {}

  /** The year that holds a day, searched upwards from one that starts no later. */
  function YearFrom(day: int, y: int): (r: int)
    requires DayFromYear(y) <= day
    ensures DayFromYear(r) <= day < DayFromYear(r + 1)
    decreases day - DayFromYear(y)
  {
    YearLength(y);
    if day < DayFromYear(y + 1) then y else YearFrom(day, y + 1)
  }

  /** The month that holds a day of a year, counted from the first of January. */
  function MonthFrom(rest: int, leap: bool, m: int): (r: int)
    requires 0 <= m < 12 && MonthOffset(m, leap) <= rest < (if leap then 366 else 365)
    ensures 0 <= r < 12 && MonthOffset(r, leap) <= rest < MonthOffset(r, leap) + MonthDays(r, leap)
    decreases 12 - m
  {
    MonthStep(m, leap);
    if rest < MonthOffset(m, leap) + MonthDays(m, leap) then m else MonthFrom(rest, leap, m + 1)
  }

  /** A year no later than the one that holds the day. */
  function YearNoLater(day: int): (y: int)
    ensures DayFromYear(y) <= day
  {
    var y := if day >= 0 then 1970 else 1970 - (364 - day) / 365;
    YearBound(y);
    y
  }

  /** The UTC date of a day number. */
  function DateOf(day: int): (c: Date)
    ensures ValidDate(c) && MakeDay(c.year, c.month, c.day) == day
  {
    var y := YearFrom(day, YearNoLater(day));
    YearLength(y);
    var m := MonthFrom(day - DayFromYear(y), LeapYear(y), 0);
    PlainDay(y, m, day - DayFromMonth(y, m) + 1);
    Date(y, m, day - DayFromMonth(y, m) + 1)
  }

  lemma {:induction false} YearsIncrease(y: int, z: int)
    requires y <= z
    ensures DayFromYear(y) <= DayFromYear(z)
    decreases z - y
  {
    if y < z {
      YearsIncrease(y, z - 1);
      YearLength(z - 1);
    }
  }

  lemma MonthWithinYear(y: int, m: int)
    requires 0 <= m < 12
    ensures DayFromYear(y) <= DayFromMonth(y, m)
    ensures DayFromMonth(y, m) + DaysInMonth(y, m) <= DayFromYear(y + 1)
  {
    YearLength(y);
    MonthStep(11, LeapYear(y));
    if m < 11 { MonthOrder(m, 11, LeapYear(y)); }
    if 0 < m { MonthOrder(0, m, LeapYear(y)); }
  }

  function DayOf(c: Date): int
    requires ValidDate(c)
  {
    DayFromMonth(c.year, c.month) + c.day - 1
  }

  lemma EarlierYear(c: Date, e: Date)
    requires ValidDate(c) && ValidDate(e) && c.year < e.year
    ensures DayOf(c) < DayOf(e)
  {
    MonthWithinYear(c.year, c.month);
    MonthWithinYear(e.year, e.month);
    YearsIncrease(c.year + 1, e.year);
    hide DayFromYear, DayFromMonth, DaysInMonth;
  }

  lemma EarlierMonth(c: Date, e: Date)
    requires ValidDate(c) && ValidDate(e) && c.year == e.year && c.month < e.month
    ensures DayOf(c) < DayOf(e)
  {
    MonthOrder(c.month, e.month, LeapYear(c.year));
    hide DayFromYear, MonthOffset, LeapYear, MonthDays;
  }

  lemma SameDaySameDate(c: Date, e: Date)
    requires ValidDate(c) && ValidDate(e) && DayOf(c) == DayOf(e)
    ensures c == e
  {
    hide ValidDate;
    if c.year < e.year {
      EarlierYear(c, e);
    } else if e.year < c.year {
      EarlierYear(e, c);
    } else if c.month < e.month {
      EarlierMonth(c, e);
    } else if e.month < c.month {
      EarlierMonth(e, c);
    }
  }

  /** No two valid dates share a day, so DateOf is the inverse of MakeDay on valid dates. */
  lemma DateOfInvertsMakeDay(c: Date)
    requires ValidDate(c)
    ensures DateOf(MakeDay(c.year, c.month, c.day)) == c
  {
    var e := DateOf(MakeDay(c.year, c.month, c.day));
    PlainDay(c.year, c.month, c.day);
    PlainDay(e.year, e.month, e.day);
    SameDaySameDate(c, e);
  }

  /** The day after a date, by the lengths of the months and the leap years of the Gregorian calendar. */
  function NextDay(c: Date): Date {
    var last := if c.month in {3, 5, 8, 10} then 30
                else if c.month != 1 then 31
                else if c.year % 400 == 0 || (c.year % 4 == 0 && c.year % 100 != 0) then 29
                else 28;
    if c.day < last then Date(c.year, c.month, c.day + 1)
    else if c.month < 11 then Date(c.year, c.month + 1, 1)
    else Date(c.year + 1, 0, 1)
  }

  lemma NextDayNumber(c: Date)
    requires ValidDate(c)
    ensures ValidDate(NextDay(c)) && DayOf(NextDay(c)) == DayOf(c) + 1
  {
    hide MonthOffset, DayFromYear;
    MonthStep(c.month, LeapYear(c.year));
    YearLength(c.year);
    assert MonthOffset(0, LeapYear(c.year + 1)) == 0 by { MonthZero(LeapYear(c.year + 1)); }
  }

  lemma MonthZero(leap: bool)
    ensures MonthOffset(0, leap) == 0
  {}

  lemma DateIs(day: int, c: Date)
    requires ValidDate(c) && DayOf(c) == day
    ensures DateOf(day) == c
  {
    hide DateOf, DayFromMonth;
    PlainDay(c.year, c.month, c.day);
    DateOfInvertsMakeDay(c);
  }

  lemma FirstDay(c: Date)
    requires c == Date(1970, 0, 1)
    ensures ValidDate(c) && DayOf(c) == 0
  {}

  lemma DayAfter(day: int)
    ensures DateOf(day + 1) == NextDay(DateOf(day))
  {
    hide DateOf, NextDay, DayFromMonth;
    var c := DateOf(day);
    PlainDay(c.year, c.month, c.day);
    hide MakeDay;
    NextDayNumber(c);
    DateIs(day + 1, NextDay(c));
  }

  /** Day 0 is the first of January 1970, and the dates follow each other day by day, before it as
      after it: this leaves no other way to number the days. */
  lemma DatesFollow(day: int)
    ensures DateOf(0) == Date(1970, 0, 1)
    ensures DateOf(day + 1) == NextDay(DateOf(day))
  {
    hide *;
    FirstDay(Date(1970, 0, 1));
    DateIs(0, Date(1970, 0, 1));
    DayAfter(day);
  }

  /** The date on which a time value falls. */
  function DateAt(t: int): Date {
    DateOf(t / DAY_MS)
  }

  /** `date.setUTCDate(date.getUTCDate() + days)`. */
  function AddDays(t: int, days: int): int {
    var c := DateAt(t);
    MakeDay(c.year, c.month, c.day + days) * DAY_MS + t % DAY_MS
  }

  /** `date.setUTCMonth(date.getUTCMonth() + 1)`. */
  function AddMonth(t: int): int {
    var c := DateAt(t);
    MakeDay(c.year, c.month + 1, c.day) * DAY_MS + t % DAY_MS
  }

  lemma ShiftDay(y: int, m: int, d: int)
    ensures MakeDay(y, m, d) == MakeDay(y, m, 1) + d - 1
  {}

  /** A time value falls on the date of the day whose 86,400,000 ms it lies in. */
  lemma DateAtIsItsDay(t: int, day: int)
    requires day * 86_400_000 <= t < (day + 1) * 86_400_000
    ensures DateAt(t) == DateOf(day)
  {
    hide DateOf;
    assert t / DAY_MS == day;
  }

  lemma AddDaysIsElapsedTime(t: int, days: int)
    ensures AddDays(t, days) == t + days * 86_400_000
  {
    var c := DateAt(t);
    ShiftDay(c.year, c.month, c.day + days);
    ShiftDay(c.year, c.month, c.day);
  }

  /** The monthly step advances by the whole length of the month it starts in,
      whatever the day of the month: a day past the end of a short month carries over. */
  lemma AddMonthIsMonthLength(t: int)
    ensures AddMonth(t) == t + DaysInMonth(DateAt(t).year, DateAt(t).month) * 86_400_000
  {
    var c := DateAt(t);
    hide DaysInMonth, DateOf, MakeDay;
    MonthLength(c.year, c.month);
    ShiftDay(c.year, c.month + 1, c.day);
    ShiftDay(c.year, c.month, c.day);
  }

  /** The interest period in days: 1, 7 or 30. */
  function PeriodDays(f: Frequency): int {
    match f
    case Daily => 1
    case Weekly => 7
    case Monthly => 30
  }

  function PeriodMs(f: Frequency): int {
    PeriodDays(f) * DAY_MS
  }

  function NextExecution(f: Frequency, from: int): int {
    match f
    case Daily => AddDays(from, 1)
    case Weekly => AddDays(from, 7)
    case Monthly => AddMonth(from)
  }

  function NextInterest(f: Frequency, from: int): int {
    AddDays(from, PeriodDays(f))
  }

  predicate SameUtcDate(left: int, right: int) {
    DateAt(left) == DateAt(right)
  }

  predicate Due(nextExecutionAt: int, now: int) {
    nextExecutionAt <= now
  }

  /** `isExecutionDue`. */
  predicate ExecutionDue(nextExecutionAt: int, now: int, includeSameUtcDate: bool) {
    Due(nextExecutionAt, now) || (includeSameUtcDate && SameUtcDate(nextExecutionAt, now))
  }

  /** Two instants share a UTC date exactly when they lie in the same day of 86,400,000 ms,
      so an execution forced on its own date runs less than a day early. */
  lemma SameDateIsSameDay(left: int, right: int)
    ensures SameUtcDate(left, right) <==> left / 86_400_000 == right / 86_400_000
    ensures SameUtcDate(left, right) ==> -86_400_000 < left - right < 86_400_000
  {}

  /** An execution is due from its time on; with the flag, on its whole date. */
  lemma ExecutionDueIff(nextExecutionAt: int, now: int, includeSameUtcDate: bool)
    ensures ExecutionDue(nextExecutionAt, now, includeSameUtcDate) <==>
      nextExecutionAt <= now || (includeSameUtcDate && nextExecutionAt / 86_400_000 == now / 86_400_000)
  {
    SameDateIsSameDay(nextExecutionAt, now);
  }

  /** How the two dates that an execution sets compare: execution comes strictly before
      interest for a monthly stack executed in February, they coincide for daily and weekly
      stacks and in 30-day months, and interest comes first in 31-day months. */
  lemma ExecutionAgainstInterest(f: Frequency, at: int)
    ensures NextInterest(f, at) == at + PeriodMs(f)
    ensures PeriodMs(f) == (match f case Daily => 1 case Weekly => 7 case Monthly => 30) * 86_400_000
    ensures at < NextExecution(f, at)
    ensures f == Monthly ==> NextExecution(f, at) == AddMonth(at)
    ensures f != Monthly ==> NextExecution(f, at) == NextInterest(f, at)
    ensures NextExecution(f, at) < NextInterest(f, at) <==> f == Monthly && DateAt(at).month == 1
    ensures NextExecution(f, at) > NextInterest(f, at)
      <==> f == Monthly && DateAt(at).month in {0, 2, 4, 6, 7, 9, 11}
  {
    hide DateOf, AddDays, AddMonth, LeapYear;
    AddMonthIsMonthLength(at);
    AddDaysIsElapsedTime(at, PeriodDays(f));
    assert ValidDate(DateAt(at));
  }

  /** After an execution at `at`, the first due charge at `now` finds no interest due exactly
      when the stack is monthly, `at` lies in February and `now` falls before day 30. */
  lemma DueWithoutInterest(f: Frequency, at: int, now: int)
    ensures ExecutionDue(NextExecution(f, at), now, false) && NextInterest(f, at) > now
      <==> f == Monthly && DateAt(at).month == 1
           && at + DaysInMonth(DateAt(at).year, 1) * 86_400_000 <= now < at + 30 * 86_400_000
  {
    ExecutionAgainstInterest(f, at);
    AddMonthIsMonthLength(at);
  }
}
