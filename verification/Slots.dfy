/** The twelve months a schedule covers and their weekly slots (api/src/lib/demoSeed.ts).
    The code picks Thursdays although its names say Wednesday. */
module Slots {
  import opened Wrappers
  import opened Calendar

  datatype YearMonth = YearMonth(year: int, month: int)

  datatype Slot = Slot(date: Date, month: int, indexInMonth: nat, isFirst: bool, blackout: bool)

  const THURSDAY := 4

  /** July and August, and 20 December to 7 January. */
  predicate IsBlackedOut(d: Date) {
    d.month == 6 || d.month == 7 || (d.month == 11 && d.day >= 20) || (d.month == 0 && d.day <= 7)
  }

  // ----- the Thursdays of one month ---------------------------------------

  function ThursdaysFrom(y: int, m: int, day: nat): seq<Date>
    requires 0 <= m < 12 && day >= 1
    decreases 32 - day
  {
    if day > DaysInMonth(y, m) then []
    else (if Weekday(Date(y, m, day)) == THURSDAY then [Date(y, m, day)] else []) + ThursdaysFrom(y, m, day + 1)
  }

  method WednesdaysInMonth(y: int, m: int) returns (result: seq<Date>)
    requires 0 <= m < 12
    ensures result == ThursdaysFrom(y, m, 1)
  {
    result := [];
    var cursor := Date(y, m, 1);
    ghost var day := 1;
    while cursor.month == m
      invariant 1 <= day <= DaysInMonth(y, m) + 1 && ValidDate(cursor)
      invariant day <= DaysInMonth(y, m) ==> cursor == Date(y, m, day)
      invariant day > DaysInMonth(y, m) ==> cursor.month != m
      invariant result + ThursdaysFrom(y, m, day) == ThursdaysFrom(y, m, 1)
      decreases DaysInMonth(y, m) + 1 - day
    {
      ThursdaysStep(y, m, day, result);
      if Weekday(cursor) == THURSDAY { result := result + [cursor]; }
      cursor := NextDay(cursor);
      day := day + 1;
    }
  }

  lemma ThursdaysStep(y: int, m: int, day: nat, done: seq<Date>)
    requires 0 <= m < 12 && 1 <= day <= DaysInMonth(y, m)
    ensures done + ThursdaysFrom(y, m, day)
              == (if Weekday(Date(y, m, day)) == THURSDAY then done + [Date(y, m, day)] else done) + ThursdaysFrom(y, m, day + 1)
  {
    var d, rest := Date(y, m, day), ThursdaysFrom(y, m, day + 1);
    assert done + ([d] + rest) == (done + [d]) + rest;
    assert [] + rest == rest;
    UnfoldThursdays(y, m, day);
  }

  lemma UnfoldThursdays(y: int, m: int, day: nat)
    requires 0 <= m < 12 && 1 <= day <= DaysInMonth(y, m)
    ensures Weekday(Date(y, m, day)) == THURSDAY ==>
              ThursdaysFrom(y, m, day) == [Date(y, m, day)] + ThursdaysFrom(y, m, day + 1)
    ensures Weekday(Date(y, m, day)) != THURSDAY ==> ThursdaysFrom(y, m, day) == [] + ThursdaysFrom(y, m, day + 1)
  {
  }

  function FirstThursday(y: int, m: int): (f: nat)
    requires 0 <= m < 12
    ensures 1 <= f <= 7
  {
    1 + (THURSDAY - Weekday(Date(y, m, 1))) % 7
  }

  function ThursdayCount(y: int, m: int): (n: nat)
    requires 0 <= m < 12
    ensures 4 <= n <= 5
    ensures FirstThursday(y, m) + 7 * (n - 1) <= DaysInMonth(y, m) < FirstThursday(y, m) + 7 * n
  {
    if FirstThursday(y, m) + 28 <= DaysInMonth(y, m) then 5 else 4
  }

  lemma ThursdayByDay(y: int, m: int, day: nat)
    requires 0 <= m < 12
    ensures Weekday(Date(y, m, day)) == THURSDAY <==> (day - FirstThursday(y, m)) % 7 == 0
  {
    var a := DayNumber(Date(y, m, 1));
    assert DayNumber(Date(y, m, day)) == a + (day - 1);
    WeekdayShift(a, day - 1, 1 + (THURSDAY - a % 7) % 7);
  }

  lemma WeekdayShift(a: int, n: int, f: int)
    requires f == 1 + (4 - a % 7) % 7
    ensures (a + n) % 7 == 4 <==> (n + 1 - f) % 7 == 0
  {
    var w := a % 7;
    assert f == if w <= 4 then 5 - w else 12 - w;
    var q := a / 7;
    assert a + n == (n + w) + 7 * q;
    AddWeeks(n + w, q);
    assert (n + w) % 7 == 4 <==> (n + w - 4) % 7 == 0;
    if w > 4 { AddWeeks(n + w - 4, -1); }
  }

  lemma AddWeeks(x: int, k: int)
    ensures (x + 7 * k) % 7 == x % 7
  {
  }

  /** The Thursdays of a month are its first one and every seventh day after it: four or five. */
  lemma {:induction false} ThursdaysShape(y: int, m: int, day: nat, k: nat)
    requires 0 <= m < 12 && 1 <= day
    requires k <= ThursdayCount(y, m)
    requires k == 0 || FirstThursday(y, m) + 7 * (k - 1) < day
    requires day <= FirstThursday(y, m) + 7 * k
    ensures |ThursdaysFrom(y, m, day)| == ThursdayCount(y, m) - k
    ensures forall i :: 0 <= i < ThursdayCount(y, m) - k ==>
              ThursdaysFrom(y, m, day)[i] == Date(y, m, FirstThursday(y, m) + 7 * (k + i))
    decreases 32 - day
  {
    var f := FirstThursday(y, m);
    ThursdayByDay(y, m, day);
    if day <= DaysInMonth(y, m) {
      if day == f + 7 * k {
        assert k < ThursdayCount(y, m);
        ThursdaysShape(y, m, day + 1, k + 1);
      } else {
        NoThursdayBetween(f, k, day);
        ThursdaysShape(y, m, day + 1, k);
      }
    }
  }

  lemma NoThursdayBetween(f: nat, k: nat, day: nat)
    requires 1 <= f <= 7 && 1 <= day
    requires (k == 0 || f + 7 * (k - 1) < day) && day < f + 7 * k
    ensures (day - f) % 7 != 0
  {
  }

  // ----- the slots of twelve months ---------------------------------------

  /** Month `i` after the seed month. */
  function MonthAfter(y: int, m: int, i: nat): YearMonth
    requires 0 <= m < 12
  {
    YearMonth(y + (m + i) / 12, (m + i) % 12)
  }

  method NextTwelveMonths(seedYear: int, seedMonth: int) returns (months: seq<YearMonth>)
    requires 0 <= seedMonth < 12
    ensures |months| == 12
    ensures forall i :: 0 <= i < 12 ==> months[i] == MonthAfter(seedYear, seedMonth, i)
  {
    months := [];
    var year, month := seedYear, seedMonth;
    for i := 0 to 12
      invariant |months| == i && 0 <= month < 12
      invariant YearMonth(year, month) == MonthAfter(seedYear, seedMonth, i)
      invariant forall j :: 0 <= j < i ==> months[j] == MonthAfter(seedYear, seedMonth, j)
    {
      months := months + [YearMonth(year, month)];
      month := month + 1;
      if month > 11 {
        month := 0;
        year := year + 1;
      }
    }
  }

  /** The slot the code builds for a date of its month. */
  function SlotOf(d: Date): Slot {
    Slot(d, d.month, if d.day >= 1 then (d.day + 6) / 7 else 0, 1 <= d.day <= 7, IsBlackedOut(d))
  }

  function MonthSlots(slots: seq<Slot>, month: int): seq<Slot> {
    if slots == [] then []
    else (if slots[0].month == month then [slots[0]] else []) + MonthSlots(slots[1..], month)
  }

  lemma {:induction false} MonthSlotsAppend(a: seq<Slot>, b: seq<Slot>, month: int)
    ensures MonthSlots(a + b, month) == MonthSlots(a, month) + MonthSlots(b, month)
  {
    if a == [] {
      assert a + b == b;
    } else {
      assert (a + b)[1..] == a[1..] + b;
      MonthSlotsAppend(a[1..], b, month);
    }
  }

  lemma {:induction false} MonthSlotsUniform(a: seq<Slot>, m: int, month: int)
    requires forall i :: 0 <= i < |a| ==> a[i].month == m
    ensures MonthSlots(a, month) == if m == month then a else []
  {
    if a != [] {
      MonthSlotsUniform(a[1..], m, month);
      assert a == [a[0]] + a[1..];
    }
  }

  lemma {:induction false} MonthSlotsMember(slots: seq<Slot>, month: int, s: Slot)
    ensures s in MonthSlots(slots, month) <==> s in slots && s.month == month
  {
    if slots != [] { MonthSlotsMember(slots[1..], month, s); }
  }

  /** A Thursday of one of the twelve months. */
  ghost predicate InYear(d: Date, seedYear: int, seedMonth: int)
    requires 0 <= seedMonth < 12
  {
    && ValidDate(d) && Weekday(d) == THURSDAY
    && exists i :: 0 <= i < 12 && YearMonth(d.year, d.month) == MonthAfter(seedYear, seedMonth, i)
  }

  /** Everything the passes need to know about the slots: each is the slot of its date, the dates ascend,
      and every month has four or five of them, a week apart from its first week to its last. */
  ghost predicate GoodSlots(slots: seq<Slot>) {
    && (forall i :: 0 <= i < |slots| ==> ValidDate(slots[i].date) && slots[i] == SlotOf(slots[i].date))
    && (forall i, j :: 0 <= i < j < |slots| ==> Earlier(slots[i].date, slots[j].date))
    && (forall m :: 0 <= m < 12 ==> MonthOk(slots, m))
  }

  ghost predicate MonthOk(slots: seq<Slot>, m: int)
    requires 0 <= m < 12
  {
    var ms := MonthSlots(slots, m);
    && 4 <= |ms| <= 5
    && 1 <= ms[0].date.day <= 7
    && (forall i :: 0 <= i < |ms| ==> ms[i].date.month == m && ms[i].date.day == ms[0].date.day + 7 * i && ms[i] in slots)
    && ms[|ms| - 1].date.day + 7 > DaysInMonth(ms[|ms| - 1].date.year, m)
    && (forall s :: s in slots && s.month == m ==> s in ms)
  }

  lemma ThursdayDates(y: int, m: int, dates: seq<Date>)
    requires 0 <= m < 12 && dates == ThursdaysFrom(y, m, 1)
    ensures |dates| == ThursdayCount(y, m)
    ensures forall i :: 0 <= i < |dates| ==> dates[i] == Date(y, m, FirstThursday(y, m) + 7 * i)
  {
    ThursdaysShape(y, m, 1, 0);
    forall i | 0 <= i < |dates| ensures dates[i] == Date(y, m, FirstThursday(y, m) + 7 * i) {
      assert dates[i] == Date(y, m, FirstThursday(y, m) + 7 * (0 + i));
    }
  }

  /** Each of the dates is a Thursday of the month, and there is no other. */
  lemma ThursdaysComplete(y: int, m: int, d: Date)
    requires 0 <= m < 12 && d.year == y && d.month == m && ValidDate(d)
    ensures Weekday(d) == THURSDAY <==> exists i :: 0 <= i < ThursdayCount(y, m) && d.day == FirstThursday(y, m) + 7 * i
  {
    var f := FirstThursday(y, m);
    ThursdayByDay(y, m, d.day);
    if (d.day - f) % 7 == 0 {
      var i := (d.day - f) / 7;
      assert d.day == f + 7 * i;
      assert 0 <= i < ThursdayCount(y, m);
    }
  }

  ghost predicate Dated(slots: seq<Slot>) {
    forall i :: 0 <= i < |slots| ==>
      ValidDate(slots[i].date) && slots[i] == SlotOf(slots[i].date) && Weekday(slots[i].date) == THURSDAY
  }

  ghost predicate Ascending(slots: seq<Slot>) {
    forall i, j :: 0 <= i < j < |slots| ==> Earlier(slots[i].date, slots[j].date)
  }

  /** Every slot belongs to one of the first `n` months. */
  ghost predicate Within(slots: seq<Slot>, y: int, m: int, n: nat)
    requires 0 <= m < 12
  {
    forall i :: 0 <= i < |slots| ==> WithinMonths(slots[i].date, y, m, n)
  }

  ghost predicate WithinMonths(d: Date, y: int, m: int, n: nat)
    requires 0 <= m < 12
  {
    exists k :: 0 <= k < n && OfMonth(d, y, m, k)
  }

  /** Every Thursday of the first `n` months has its slot. */
  ghost predicate Covers(slots: seq<Slot>, y: int, m: int, n: nat)
    requires 0 <= m < 12
  {
    forall d, k :: 0 <= k < n && ValidDate(d) && Weekday(d) == THURSDAY && OfMonth(d, y, m, k) ==> SlotOf(d) in slots
  }

  ghost predicate MonthsOk(slots: seq<Slot>, y: int, m: int, n: nat)
    requires 0 <= m < 12
  {
    forall k :: 0 <= k < n ==> MonthOk(slots, MonthAfter(y, m, k).month)
  }

  /** The slots of the first `n` months, as the building loop leaves them. */
  ghost predicate Built(slots: seq<Slot>, y: int, m: int, n: nat)
    requires 0 <= m < 12
  {
    Dated(slots) && Ascending(slots) && Within(slots, y, m, n) && Covers(slots, y, m, n) && MonthsOk(slots, y, m, n)
  }

  predicate OfMonth(d: Date, y: int, m: int, k: int)
    requires 0 <= m < 12
  {
    k >= 0 && YearMonth(d.year, d.month) == MonthAfter(y, m, k)
  }

  lemma MonthOrder(y: int, m: int, k: nat, l: nat, a: Date, b: Date)
    requires 0 <= m < 12 && k < l && OfMonth(a, y, m, k) && OfMonth(b, y, m, l)
    ensures Earlier(a, b)
    ensures l < 12 ==> a.month != b.month
  {
  }

  /** The slots built for one month. */
  ghost predicate MonthBlock(block: seq<Slot>, ym: YearMonth)
    requires 0 <= ym.month < 12
  {
    && 4 <= |block| <= 5
    && 1 <= block[0].date.day <= 7
    && (forall i :: 0 <= i < |block| ==>
          && ValidDate(block[i].date) && Weekday(block[i].date) == THURSDAY && block[i] == SlotOf(block[i].date)
          && block[i].date.year == ym.year && block[i].date.month == ym.month
          && block[i].date.day == block[0].date.day + 7 * i)
    && block[|block| - 1].date.day + 7 > DaysInMonth(ym.year, ym.month)
    && (forall d :: ValidDate(d) && Weekday(d) == THURSDAY && d.year == ym.year && d.month == ym.month ==> SlotOf(d) in block)
  }

  lemma AppendMonth(slots: seq<Slot>, block: seq<Slot>, y: int, m: int, n: nat)
    requires 0 <= m < 12 && n < 12 && Built(slots, y, m, n) && MonthBlock(block, MonthAfter(y, m, n))
    ensures Built(slots + block, y, m, n + 1)
  {
    AppendDated(slots, block, MonthAfter(y, m, n));
    hide Dated; hide Ascending; hide Covers; hide Within; hide MonthsOk; hide MonthBlock;
    AppendAscending(slots, block, y, m, n);
    AppendWithin(slots, block, y, m, n);
    NoSlotsYet(slots, y, m, n);
    AppendMonthsOk(slots, block, y, m, n);
    AppendCovers(slots, block, y, m, n);
  }

  lemma AppendDated(slots: seq<Slot>, block: seq<Slot>, ym: YearMonth)
    requires 0 <= ym.month < 12 && Dated(slots) && MonthBlock(block, ym)
    ensures Dated(slots + block)
  {
    hide DayNumber; hide SlotOf; hide ValidDate;
  }

  lemma AppendCovers(slots: seq<Slot>, block: seq<Slot>, y: int, m: int, n: nat)
    requires 0 <= m < 12 && Covers(slots, y, m, n) && MonthBlock(block, MonthAfter(y, m, n))
    ensures Covers(slots + block, y, m, n + 1)
  {
    forall d, k | 0 <= k < n + 1 && ValidDate(d) && Weekday(d) == THURSDAY && OfMonth(d, y, m, k)
      ensures SlotOf(d) in slots + block
    {
      if k < n { assert SlotOf(d) in slots; } else { assert SlotOf(d) in block; }
    }
  }

  lemma AppendAscending(slots: seq<Slot>, block: seq<Slot>, y: int, m: int, n: nat)
    requires 0 <= m < 12 && n < 12 && Ascending(slots) && Within(slots, y, m, n) && MonthBlock(block, MonthAfter(y, m, n))
    ensures Ascending(slots + block)
  {
    var all := slots + block;
    forall i, j | 0 <= i < j < |all| ensures Earlier(all[i].date, all[j].date) {
      if i < |slots| && |slots| <= j {
        assert WithinMonths(slots[i].date, y, m, n);
        var k :| 0 <= k < n && OfMonth(slots[i].date, y, m, k);
        assert all[j] == block[j - |slots|];
        MonthOrder(y, m, k, n, all[i].date, all[j].date);
      } else if |slots| <= i {
        assert all[i] == block[i - |slots|] && all[j] == block[j - |slots|];
      }
    }
  }

  lemma AppendWithin(slots: seq<Slot>, block: seq<Slot>, y: int, m: int, n: nat)
    requires 0 <= m < 12 && n < 12 && Within(slots, y, m, n) && MonthBlock(block, MonthAfter(y, m, n))
    ensures Within(slots + block, y, m, n + 1)
  {
    var all := slots + block;
    forall i | 0 <= i < |all| ensures WithinMonths(all[i].date, y, m, n + 1) {
      if i < |slots| {
        assert WithinMonths(slots[i].date, y, m, n);
      } else {
        assert all[i] == block[i - |slots|];
        assert OfMonth(all[i].date, y, m, n);
      }
    }
  }

  lemma MonthsDiffer(y: int, m: int, k: nat, l: nat)
    requires 0 <= m < 12 && k < l < 12
    ensures MonthAfter(y, m, k).month != MonthAfter(y, m, l).month
  {
  }

  lemma NoSlotsYet(slots: seq<Slot>, y: int, m: int, n: nat)
    requires 0 <= m < 12 && n < 12 && Dated(slots) && Within(slots, y, m, n)
    ensures MonthSlots(slots, MonthAfter(y, m, n).month) == []
  {
    var month := MonthAfter(y, m, n).month;
    forall s | s in slots ensures s.month != month {
      var i :| 0 <= i < |slots| && slots[i] == s;
      assert WithinMonths(slots[i].date, y, m, n);
      var j :| 0 <= j < n && OfMonth(slots[i].date, y, m, j);
      MonthsDiffer(y, m, j, n);
    }
    NoneOfMonth(slots, month);
  }

  lemma {:induction false} NoneOfMonth(slots: seq<Slot>, month: int)
    requires forall s :: s in slots ==> s.month != month
    ensures MonthSlots(slots, month) == []
  {
    if slots != [] { NoneOfMonth(slots[1..], month); }
  }

  /** Appending month `n` leaves the slots of the others alone and adds its own. */
  lemma MonthSlotsOfAppended(slots: seq<Slot>, block: seq<Slot>, month: int, own: int)
    requires forall i :: 0 <= i < |block| ==> block[i].month == own
    requires month == own ==> MonthSlots(slots, month) == []
    ensures MonthSlots(slots + block, month) == if month == own then block else MonthSlots(slots, month)
  {
    MonthSlotsAppend(slots, block, month);
    MonthSlotsUniform(block, own, month);
  }

  lemma KeepMonthOk(slots: seq<Slot>, all: seq<Slot>, month: int)
    requires 0 <= month < 12 && MonthOk(slots, month) && MonthSlots(all, month) == MonthSlots(slots, month)
    requires forall s :: s in slots ==> s in all
    ensures MonthOk(all, month)
  {
    forall s | s in all && s.month == month ensures s in MonthSlots(all, month) { MonthSlotsMember(all, month, s); }
  }

  lemma NewMonthOk(all: seq<Slot>, block: seq<Slot>, ym: YearMonth)
    requires 0 <= ym.month < 12 && MonthBlock(block, ym) && MonthSlots(all, ym.month) == block
    requires forall s :: s in block ==> s in all
    ensures MonthOk(all, ym.month)
  {
    forall s | s in all && s.month == ym.month ensures s in block { MonthSlotsMember(all, ym.month, s); }
  }

  lemma AppendKeepsMonth(slots: seq<Slot>, block: seq<Slot>, month: int, ym: YearMonth)
    requires 0 <= month < 12 && 0 <= ym.month < 12 && month != ym.month && MonthOk(slots, month) && MonthBlock(block, ym)
    ensures MonthOk(slots + block, month)
  {
    MonthSlotsOfAppended(slots, block, month, ym.month);
    KeepMonthOk(slots, slots + block, month);
  }

  lemma AppendNewMonth(slots: seq<Slot>, block: seq<Slot>, ym: YearMonth)
    requires 0 <= ym.month < 12 && MonthSlots(slots, ym.month) == [] && MonthBlock(block, ym)
    ensures MonthOk(slots + block, ym.month)
  {
    MonthSlotsOfAppended(slots, block, ym.month, ym.month);
    NewMonthOk(slots + block, block, ym);
  }

  lemma AppendMonthsOk(slots: seq<Slot>, block: seq<Slot>, y: int, m: int, n: nat)
    requires 0 <= m < 12 && n < 12 && MonthsOk(slots, y, m, n)
    requires MonthSlots(slots, MonthAfter(y, m, n).month) == [] && MonthBlock(block, MonthAfter(y, m, n))
    ensures MonthsOk(slots + block, y, m, n + 1)
  {
    forall k | 0 <= k < n + 1 ensures MonthOk(slots + block, MonthAfter(y, m, k).month) {
      if k < n {
        MonthsDiffer(y, m, k, n);
        AppendKeepsMonth(slots, block, MonthAfter(y, m, k).month, MonthAfter(y, m, n));
      } else {
        AppendNewMonth(slots, block, MonthAfter(y, m, n));
      }
    }
  }

  lemma EveryMonth(y: int, m: int, month: int) returns (k: nat)
    requires 0 <= m < 12 && 0 <= month < 12
    ensures k < 12 && MonthAfter(y, m, k).month == month
  {
    k := (month - m) % 12;
  }

  lemma BuiltIsGood(slots: seq<Slot>, y: int, m: int)
    requires 0 <= m < 12 && Built(slots, y, m, 12)
    ensures GoodSlots(slots)
  {
    forall month | 0 <= month < 12 ensures MonthOk(slots, month) {
      var k := EveryMonth(y, m, month);
      assert MonthOk(slots, MonthAfter(y, m, k).month);
    }
  }

  lemma BuiltIsTheYear(slots: seq<Slot>, y: int, m: int, d: Date)
    requires 0 <= m < 12 && Dated(slots) && Within(slots, y, m, 12) && Covers(slots, y, m, 12)
    ensures InYear(d, y, m) <==> SlotOf(d) in slots && ValidDate(d)
  {
    if InYear(d, y, m) {
      var k :| 0 <= k < 12 && YearMonth(d.year, d.month) == MonthAfter(y, m, k);
      assert OfMonth(d, y, m, k);
    }
    if SlotOf(d) in slots {
      var i :| 0 <= i < |slots| && slots[i] == SlotOf(d);
      assert WithinMonths(slots[i].date, y, m, 12);
      var k :| 0 <= k < 12 && OfMonth(slots[i].date, y, m, k);
    }
  }

  method MonthSlotsOf(ym: YearMonth) returns (block: seq<Slot>)
    requires 0 <= ym.month < 12
    ensures MonthBlock(block, ym)
  {
    var dates := WednesdaysInMonth(ym.year, ym.month);
    ThursdayDates(ym.year, ym.month, dates);
    block := [];
    for i := 0 to |dates|
      invariant |block| == i && forall j :: 0 <= j < i ==> block[j] == SlotOf(dates[j])
    {
      block := block + [Slot(dates[i], ym.month, i + 1, i == 0, IsBlackedOut(dates[i]))];
    }
    BlockOfThursdays(ym, dates, block);
  }

  lemma BlockOfThursdays(ym: YearMonth, dates: seq<Date>, block: seq<Slot>)
    requires 0 <= ym.month < 12 && |dates| == |block| == ThursdayCount(ym.year, ym.month)
    requires forall i :: 0 <= i < |dates| ==> dates[i] == Date(ym.year, ym.month, FirstThursday(ym.year, ym.month) + 7 * i)
    requires forall j :: 0 <= j < |block| ==> block[j] == SlotOf(dates[j])
    ensures MonthBlock(block, ym)
  {
    forall i | 0 <= i < |block| ensures Weekday(block[i].date) == THURSDAY {
      ThursdaysComplete(ym.year, ym.month, dates[i]);
    }
    forall d | ValidDate(d) && Weekday(d) == THURSDAY && d.year == ym.year && d.month == ym.month ensures SlotOf(d) in block {
      ThursdaysComplete(ym.year, ym.month, d);
      var i :| 0 <= i < ThursdayCount(ym.year, ym.month) && d.day == FirstThursday(ym.year, ym.month) + 7 * i;
      assert block[i] == SlotOf(d);
    }
  }

  /** The first lines of `buildDemoEventSchedule`: all slots of the twelve months. */
  method BuildSlots(seedYear: int, seedMonth: int) returns (order: seq<YearMonth>, slots: seq<Slot>)
    requires 0 <= seedMonth < 12
    ensures |order| == 12 && forall i :: 0 <= i < 12 ==> order[i] == MonthAfter(seedYear, seedMonth, i)
    ensures GoodSlots(slots)
    ensures forall d :: InYear(d, seedYear, seedMonth) <==> SlotOf(d) in slots && ValidDate(d)
  {
    order := NextTwelveMonths(seedYear, seedMonth);
    slots := [];
    for n := 0 to 12
      invariant Built(slots, seedYear, seedMonth, n)
    {
      var block := MonthSlotsOf(order[n]);
      AppendMonth(slots, block, seedYear, seedMonth, n);
      slots := slots + block;
    }
    BuiltIsGood(slots, seedYear, seedMonth);
    forall d ensures InYear(d, seedYear, seedMonth) <==> SlotOf(d) in slots && ValidDate(d) {
      BuiltIsTheYear(slots, seedYear, seedMonth, d);
    }
  }
}
