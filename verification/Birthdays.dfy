/** The birthday filter of the working plan (api/src/routes/events.ts): month-day strings compared
    with wrap-around, against real calendar dates. */
module Birthdays {
  import opened Wrappers
  import opened Calendar

  datatype Row = Row(id: nat, dateOfBirth: Option<Date>)

  /** `monthDay` as the number MMDD; four digits with leading zeros compare as strings just as
      the numbers do. */
  function MonthDay(d: Date): int { 100 * (d.month + 1) + d.day }

  predicate Keeps(r: Row, from: Date, to: Date, days: int) {
    r.dateOfBirth.Some? &&
    (days >= 365 ||
     var mmdd := MonthDay(r.dateOfBirth.value);
     if MonthDay(to) < MonthDay(from) then mmdd <= MonthDay(to) || mmdd >= MonthDay(from)
     else MonthDay(from) <= mmdd <= MonthDay(to))
  }

  function FilterBirthdaysInRange(rows: seq<Row>, from: Date, to: Date, days: int): seq<Row> {
    if rows == [] then []
    else (if Keeps(rows[0], from, to, days) then [rows[0]] else []) + FilterBirthdaysInRange(rows[1..], from, to, days)
  }

  /** The date lies in [from, from + days]. */
  predicate InWindow(d: Date, from: Date, days: nat)
    requires ValidDate(from)
  {
    ValidDate(d) && DayNumber(from) <= DayNumber(d) <= DayNumber(from) + days
  }

  /** Some date of the window has this month and day. */
  ghost predicate Celebrated(b: Date, from: Date, days: nat)
    requires ValidDate(from)
  {
    exists y :: InWindow(Date(y, b.month, b.day), from, days)
  }

  predicate LeapDay(b: Date) { b.month == 1 && b.day == 29 }

  /** 28 February and 1 March of one year both lie in the window. */
  ghost predicate AroundLeapDay(from: Date, days: nat)
    requires ValidDate(from)
  {
    exists y :: InWindow(Date(y, 1, 28), from, days) && InWindow(Date(y, 2, 1), from, days)
  }

  lemma OrderByMonthDay(a: Date, b: Date)
    requires ValidDate(a) && ValidDate(b)
    ensures a.year == b.year ==> (DayNumber(a) <= DayNumber(b) <==> MonthDay(a) <= MonthDay(b))
    ensures a.year < b.year ==> DayNumber(a) < DayNumber(b)
  {
    DayNumberOrder(a, b);
    DayNumberOrder(b, a);
  }

  lemma YearApart(a: Date)
    requires ValidDate(a) && !LeapDay(a)
    ensures ValidDate(Date(a.year + 1, a.month, a.day))
    ensures 365 <= DayNumber(Date(a.year + 1, a.month, a.day)) - DayNumber(a) <= 366
  {
    YearSteps(a.year);
    SameMonthStart(a.year, a.month);
    SameMonthStart(a.year + 1, a.month);
    ConsecutiveLeaps(a.year);
  }

  lemma ConsecutiveLeaps(y: int)
    ensures !(IsLeap(y) && IsLeap(y + 1))
  {
  }

  lemma SameMonthStart(y: int, m: int)
    requires 0 <= m < 12
    ensures DaysBeforeMonth(y, m) == DaysBeforeMonth(2001, m) + (if m >= 2 && IsLeap(y) then 1 else 0)
  {
    MonthStarts(y);
    MonthStarts(2001);
  }

  /** Under a year, the window ends in the year it starts in, or in the next one strictly before the
      month and day it started on. */
  lemma ShortWindow(from: Date, to: Date, days: nat)
    requires ValidDate(from) && days < 365 && to == AddDays(from, days)
    ensures || (to.year == from.year && MonthDay(from) <= MonthDay(to))
            || (to.year == from.year + 1 && MonthDay(to) < MonthDay(from))
  {
    if to.year < from.year { OrderByMonthDay(to, from); }
    if to.year == from.year { OrderByMonthDay(from, to); }
    if to.year > from.year {
      var f := if LeapDay(from) then Date(from.year, 1, 28) else from;
      YearApart(f);
      if LeapDay(from) { assert IsLeap(from.year); LeapYearApart(from.year); }
      var next := Date(f.year + 1, f.month, f.day);
      assert DayNumber(to) <= DayNumber(next);
      if to.year > next.year { OrderByMonthDay(next, to); }
      OrderByMonthDay(to, next);
      if !LeapDay(from) { DayNumberOrder(to, next); }
    }
  }

  lemma LeapYearApart(y: int)
    requires IsLeap(y)
    ensures DayNumber(Date(y + 1, 1, 28)) == DayNumber(Date(y, 1, 28)) + 366
  {
    YearSteps(y);
    SameMonthStart(y, 1);
    SameMonthStart(y + 1, 1);
  }

  /** Under a year: kept exactly when the window, cut at new year, holds the month and day. */
  lemma ShortWindowKeeps(from: Date, to: Date, days: nat, b: Date, y: int)
    requires ValidDate(from) && days < 365 && to == AddDays(from, days)
    requires ValidDate(Date(y, b.month, b.day))
    ensures InWindow(Date(y, b.month, b.day), from, days) <==>
              || (y == from.year == to.year && MonthDay(from) <= MonthDay(b) <= MonthDay(to))
              || (y == from.year < to.year && MonthDay(from) <= MonthDay(b))
              || (from.year < to.year == y && MonthDay(b) <= MonthDay(to))
  {
    var d := Date(y, b.month, b.day);
    ShortWindow(from, to, days);
    OrderByMonthDay(from, d);
    OrderByMonthDay(d, from);
    OrderByMonthDay(d, to);
    OrderByMonthDay(to, d);
  }

  /** A year or more: every month and day but 29 February occurs. */
  lemma LongWindow(from: Date, days: nat, b: Date)
    requires ValidDate(from) && days >= 365 && ValidDate(b) && !LeapDay(b)
    ensures Celebrated(b, from, days)
  {
    var d := Date(from.year, b.month, b.day);
    assert ValidDate(d);
    OrderByMonthDay(from, d);
    if MonthDay(from) <= MonthDay(b) {
      YearSteps(from.year);
      SameYearGap(from, d);
      assert InWindow(d, from, days);
    } else {
      OrderByMonthDay(d, from);
      YearApart(d);
      var e := Date(from.year + 1, b.month, b.day);
      OrderByMonthDay(from, e);
      DayNumberOrder(d, from);
      assert InWindow(e, from, days);
    }
  }

  lemma SameYearGap(a: Date, b: Date)
    requires ValidDate(a) && ValidDate(b) && a.year == b.year
    ensures DayNumber(b) - DayNumber(a) <= 365
  {
    YearSteps(a.year);
    MonthsGrow(b.year, b.month, 12);
  }

  /** A row with any other birthday is kept if and only if the window holds that month and day. */
  lemma BirthdayKeptIff(from: Date, days: nat, r: Row)
    requires ValidDate(from) && r.dateOfBirth.Some? && ValidDate(r.dateOfBirth.value) && !LeapDay(r.dateOfBirth.value)
    ensures Keeps(r, from, AddDays(from, days), days) <==> Celebrated(r.dateOfBirth.value, from, days)
  {
    var b, to := r.dateOfBirth.value, AddDays(from, days);
    if days >= 365 {
      LongWindow(from, days, b);
    } else {
      ShortWindow(from, to, days);
      forall y ensures ValidDate(Date(y, b.month, b.day)) { }
      ShortWindowKeeps(from, to, days, b, from.year);
      ShortWindowKeeps(from, to, days, b, to.year);
      forall y | InWindow(Date(y, b.month, b.day), from, days) ensures Keeps(r, from, to, days) {
        ShortWindowKeeps(from, to, days, b, y);
      }
    }
  }

  /** A 29 February birthday is kept if and only if the window holds a 29 February, or the 28 February
      and the 1 March of one year. */
  lemma LeapDayKeptIff(from: Date, days: nat, r: Row)
    requires ValidDate(from) && r.dateOfBirth.Some? && LeapDay(r.dateOfBirth.value)
    ensures Keeps(r, from, AddDays(from, days), days) <==>
              Celebrated(r.dateOfBirth.value, from, days) || AroundLeapDay(from, days)
  {
    if days >= 365 {
      LongLeapWindow(from, days, r.dateOfBirth.value);
    } else {
      ShortLeapWindow(from, days, r);
    }
  }

  lemma LongLeapWindow(from: Date, days: nat, b: Date)
    requires ValidDate(from) && days >= 365 && LeapDay(b)
    ensures Celebrated(b, from, days) || AroundLeapDay(from, days)
  {
    if LeapDay(from) {
      assert InWindow(Date(from.year, 1, 29), from, days);
    } else if MonthDay(from) <= 228 {
      var d, e := Date(from.year, 1, 28), Date(from.year, 2, 1);
      OrderByMonthDay(from, d);
      OrderByMonthDay(from, e);
      SameYearGap(from, d);
      SameYearGap(from, e);
      assert InWindow(d, from, days) && InWindow(e, from, days);
    } else {
      var march := Date(from.year, 2, 1);
      var d, e := Date(from.year + 1, 1, 28), Date(from.year + 1, 2, 1);
      OrderByMonthDay(march, from);
      OrderByMonthDay(from, d);
      OrderByMonthDay(from, e);
      OrderByMonthDay(d, e);
      YearApart(march);
      MarchToMarch(from.year);
      if IsLeap(from.year + 1) {
        assert InWindow(Date(from.year + 1, 1, 29), from, days) by {
          OrderByMonthDay(from, Date(from.year + 1, 1, 29));
          OrderByMonthDay(Date(from.year + 1, 1, 29), e);
          DayNumberOrder(Date(from.year + 1, 1, 29), e);
        }
      } else {
        assert InWindow(d, from, days) && InWindow(e, from, days);
      }
    }
  }

  lemma MarchToMarch(y: int)
    ensures DayNumber(Date(y + 1, 2, 1)) == DayNumber(Date(y, 2, 1)) + YearLength(y + 1)
  {
    YearSteps(y);
    SameMonthStart(y, 2);
    SameMonthStart(y + 1, 2);
  }

  lemma ShortLeapWindow(from: Date, days: nat, r: Row)
    requires ValidDate(from) && days < 365 && r.dateOfBirth.Some? && LeapDay(r.dateOfBirth.value)
    ensures Keeps(r, from, AddDays(from, days), days) <==>
              Celebrated(r.dateOfBirth.value, from, days) || AroundLeapDay(from, days)
  {
    var b, to := r.dateOfBirth.value, AddDays(from, days);
    ShortWindow(from, to, days);
    forall y | InWindow(Date(y, b.month, b.day), from, days) ensures Keeps(r, from, to, days) {
      ShortWindowKeeps(from, to, days, b, y);
    }
    forall y | InWindow(Date(y, 1, 28), from, days) && InWindow(Date(y, 2, 1), from, days)
      ensures Keeps(r, from, to, days)
    {
      ShortWindowKeeps(from, to, days, Date(y, 1, 28), y);
      ShortWindowKeeps(from, to, days, Date(y, 2, 1), y);
    }
    if Keeps(r, from, to, days) {
      var y := if MonthDay(from) <= 229 then from.year else to.year;
      ShortWindowKeeps(from, to, days, Date(y, 1, 28), y);
      ShortWindowKeeps(from, to, days, Date(y, 2, 1), y);
      if IsLeap(y) {
        ShortWindowKeeps(from, to, days, b, y);
        assert InWindow(Date(y, b.month, b.day), from, days);
      } else {
        assert InWindow(Date(y, 1, 28), from, days) && InWindow(Date(y, 2, 1), from, days);
      }
    }
  }

  /** So it is kept between 28 February and 1 March of any common year, which has no such day. */
  lemma LeapDayKeptWithoutLeapDay(y: int, r: Row)
    requires !IsLeap(y) && r.dateOfBirth.Some? && LeapDay(r.dateOfBirth.value)
    ensures ValidDate(Date(y, 1, 28)) && AddDays(Date(y, 1, 28), 1) == Date(y, 2, 1)
    ensures Keeps(r, Date(y, 1, 28), Date(y, 2, 1), 1) && !Celebrated(r.dateOfBirth.value, Date(y, 1, 28), 1)
  {
    var from, march := Date(y, 1, 28), Date(y, 2, 1);
    MonthStarts(y);
    var to := AddDays(from, 1);
    assert DayNumber(march) == DayNumber(from) + 1;
    SameDay(to, march);
    forall z ensures !InWindow(Date(z, 1, 29), from, 1) {
      if ValidDate(Date(z, 1, 29)) {
        ShortWindowKeeps(from, to, 1, Date(z, 1, 29), z);
      }
    }
  }

  lemma SameDay(a: Date, b: Date)
    requires ValidDate(a) && ValidDate(b) && DayNumber(a) == DayNumber(b)
    ensures a == b
  {
    DayNumberOrder(a, b);
    DayNumberOrder(b, a);
  }

  /** The filter keeps exactly those rows, each as often as it occurs. */
  lemma {:induction false} FilterKeeps(rows: seq<Row>, from: Date, to: Date, days: int, r: Row)
    ensures multiset(FilterBirthdaysInRange(rows, from, to, days))[r] ==
              if Keeps(r, from, to, days) then multiset(rows)[r] else 0
  {
    if rows != [] {
      FilterKeeps(rows[1..], from, to, days, r);
      assert rows == [rows[0]] + rows[1..];
    }
  }
}
