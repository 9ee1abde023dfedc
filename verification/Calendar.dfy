/** Proleptic Gregorian dates in UTC, as `Date.UTC` and the `getUTC*` accessors see them.
    Months count from 0 as in JavaScript. */
module Calendar {
  datatype Date = Date(year: int, month: int, day: int)

  predicate IsLeap(y: int) {
    y % 4 == 0 && (y % 100 != 0 || y % 400 == 0)
  }

  function DaysInMonth(y: int, m: int): (n: nat)
    requires 0 <= m < 12
    ensures 28 <= n <= 31
  {
    if m == 1 then (if IsLeap(y) then 29 else 28)
    else if m == 3 || m == 5 || m == 8 || m == 10 then 30
    else 31
  }

  predicate ValidDate(d: Date) {
    0 <= d.month < 12 && 1 <= d.day <= DaysInMonth(d.year, d.month)
  }

  function DaysBeforeYear(y: int): int {
    365 * (y - 1) + (y - 1) / 4 - (y - 1) / 100 + (y - 1) / 400
  }

  function DaysBeforeMonth(y: int, m: int): nat
    requires 0 <= m <= 12
  {
    if m == 0 then 0 else DaysBeforeMonth(y, m - 1) + DaysInMonth(y, m - 1)
  }

  /** Days since 31 December of the year 0; timestamps are 86400000 times this, shifted. */
  function DayNumber(d: Date): int
    requires 0 <= d.month < 12
  {
    DaysBeforeYear(d.year) + DaysBeforeMonth(d.year, d.month) + d.day
  }

  /** `getUTCDay`: 0 is Sunday; 1 January of the year 1 was a Monday. */
  function Weekday(d: Date): int
    requires 0 <= d.month < 12
  {
    DayNumber(d) % 7
  }

  function NextDay(d: Date): Date
    requires ValidDate(d)
  {
    if d.day < DaysInMonth(d.year, d.month) then Date(d.year, d.month, d.day + 1)
    else if d.month < 11 then Date(d.year, d.month + 1, 1)
    else Date(d.year + 1, 0, 1)
  }

  function YearLength(y: int): int { if IsLeap(y) then 366 else 365 }

  lemma QuarterSteps(y: int)
    ensures y / 4 == (y - 1) / 4 + (if y % 4 == 0 then 1 else 0)
  {
  }

  lemma CenturySteps(y: int)
    ensures y / 100 == (y - 1) / 100 + (if y % 100 == 0 then 1 else 0)
  {
  }

  lemma GregorianSteps(y: int)
    ensures y / 400 == (y - 1) / 400 + (if y % 400 == 0 then 1 else 0)
  {
  }

  lemma LeapCases(y: int)
    ensures y % 400 == 0 ==> y % 100 == 0
    ensures y % 100 == 0 ==> y % 4 == 0
  {
  }

  lemma YearSteps(y: int)
    ensures DaysBeforeYear(y + 1) == DaysBeforeYear(y) + YearLength(y)
    ensures DaysBeforeMonth(y, 12) == YearLength(y)
  {
    QuarterSteps(y);
    CenturySteps(y);
    GregorianSteps(y);
    LeapCases(y);
    MonthStarts(y);
  }

  /** Where the months start: the leap day shifts March and what follows. */
  lemma MonthStarts(y: int)
    ensures forall m :: 0 <= m <= 12 ==>
              DaysBeforeMonth(y, m) == [0, 31, 59, 90, 120, 151, 181, 212, 243, 273, 304, 334, 365][m]
                                       + (if m >= 2 && IsLeap(y) then 1 else 0)
  {
    assert DaysBeforeMonth(y, 1) == 31;
    assert DaysBeforeMonth(y, 2) == 31 + DaysInMonth(y, 1);
    assert DaysBeforeMonth(y, 3) == DaysBeforeMonth(y, 2) + 31;
    assert DaysBeforeMonth(y, 4) == DaysBeforeMonth(y, 3) + 30;
    assert DaysBeforeMonth(y, 5) == DaysBeforeMonth(y, 4) + 31;
    assert DaysBeforeMonth(y, 6) == DaysBeforeMonth(y, 5) + 30;
    assert DaysBeforeMonth(y, 7) == DaysBeforeMonth(y, 6) + 31;
    assert DaysBeforeMonth(y, 8) == DaysBeforeMonth(y, 7) + 31;
    assert DaysBeforeMonth(y, 9) == DaysBeforeMonth(y, 8) + 30;
    assert DaysBeforeMonth(y, 10) == DaysBeforeMonth(y, 9) + 31;
    assert DaysBeforeMonth(y, 11) == DaysBeforeMonth(y, 10) + 30;
    assert DaysBeforeMonth(y, 12) == DaysBeforeMonth(y, 11) + 31;
  }

  lemma NextDayNumber(d: Date)
    requires ValidDate(d)
    ensures ValidDate(NextDay(d)) && DayNumber(NextDay(d)) == DayNumber(d) + 1
  {
    YearSteps(d.year);
  }

  /** 1 January 1970, the origin of timestamps, was a Thursday. */
  lemma EpochIsThursday()
    ensures Weekday(Date(1970, 0, 1)) == 4
  {
  }

  /** Each day is followed by the next one of the week. */
  lemma WeekdaysFollow(d: Date)
    requires ValidDate(d)
    ensures 0 <= Weekday(d) <= 6 && Weekday(NextDay(d)) == (Weekday(d) + 1) % 7
  {
    NextDayNumber(d);
    DayAfter(DayNumber(d));
    hide DayNumber; hide NextDay;
  }

  lemma DayAfter(n: int)
    ensures 0 <= n % 7 <= 6 && (n + 1) % 7 == (n % 7 + 1) % 7
  {
  }

  /** So Thursdays are the days whole weeks away from that one. */
  lemma ThursdaysByEpoch(d: Date)
    requires 0 <= d.month < 12
    ensures Weekday(d) == 4 <==> (DayNumber(d) - DayNumber(Date(1970, 0, 1))) % 7 == 0
  {
    EpochIsThursday();
    SameRemainder(DayNumber(d), DayNumber(Date(1970, 0, 1)));
    hide DayNumber;
  }

  lemma SameRemainder(a: int, b: int)
    requires b % 7 == 4
    ensures a % 7 == 4 <==> (a - b) % 7 == 0
  {
    assert a - b == 7 * (a / 7 - b / 7) + (a % 7 - b % 7);
  }

  predicate Earlier(a: Date, b: Date) {
    a.year < b.year || (a.year == b.year && (a.month < b.month || (a.month == b.month && a.day < b.day)))
  }

  lemma {:induction false} YearsGrow(y: int, z: int)
    requires y < z
    ensures DaysBeforeYear(y) + YearLength(y) <= DaysBeforeYear(z)
    decreases z - y
  {
    YearSteps(y);
    if y + 1 < z { YearsGrow(y + 1, z); }
  }

  lemma {:induction false} MonthsGrow(y: int, m: int, n: int)
    requires 0 <= m < n <= 12
    ensures DaysBeforeMonth(y, m) + DaysInMonth(y, m) <= DaysBeforeMonth(y, n)
    decreases n - m
  {
    if m + 1 < n { MonthsGrow(y, m, n - 1); }
  }

  /** Calendar order is timestamp order. */
  lemma DayNumberOrder(a: Date, b: Date)
    requires ValidDate(a) && ValidDate(b)
    ensures Earlier(a, b) <==> DayNumber(a) < DayNumber(b)
    ensures DayNumber(a) == DayNumber(b) <==> a == b
  {
    if Earlier(a, b) {
      EarlierNumber(a, b);
    } else if a != b {
      EarlierNumber(b, a);
    }
  }

  lemma EarlierNumber(a: Date, b: Date)
    requires ValidDate(a) && ValidDate(b) && Earlier(a, b)
    ensures DayNumber(a) < DayNumber(b)
  {
    if a.year < b.year {
      YearsGrow(a.year, b.year);
      YearSteps(a.year);
      MonthsGrow(a.year, a.month, 12);
    } else if a.month < b.month {
      MonthsGrow(a.year, a.month, b.month);
    }
  }

  function AddDays(d: Date, n: nat): (r: Date)
    requires ValidDate(d)
    ensures ValidDate(r) && DayNumber(r) == DayNumber(d) + n
    decreases n
  {
    if n == 0 then d else (NextDayNumber(d); AddDays(NextDay(d), n - 1))
  }
}
