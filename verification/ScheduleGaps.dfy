/** What every demo schedule has to leave open (api/src/lib/demoSeed.ts): a ceremony no precursor can precede, and middle
    slots for three Instruktionen. */
module ScheduleGaps {
  import opened Wrappers
  import opened Calendar
  import opened Slots
  import opened Plans
  import opened CeremonyOrder
  import opened Schedule

  // ----- weeks on the calendar --------------------------------------------

  const AFTER_MARCH := [0, 0, 0, 31, 61, 92, 122, 153, 184, 214, 245, 275]

  /** From March on day numbers do not depend on the leap day. */
  lemma FromMarch(d: Date)
    requires 2 <= d.month < 12
    ensures DayNumber(d) == DayNumber(Date(d.year, 2, 1)) + AFTER_MARCH[d.month] + d.day - 1
  {
    MonthStarts(d.year);
  }

  /** Twelve weeks after a day of spring or summer it is still the same year. */
  lemma SameYear(d: Date, c: Date, w: int)
    requires ValidDate(d) && ValidDate(c) && 2 <= d.month <= 8 && 5 <= w <= 12 && WeeksApart(d, c, w)
    ensures c.year == d.year && d.month < c.month
    ensures AFTER_MARCH[c.month] + c.day - AFTER_MARCH[d.month] - d.day == 7 * w
  {
    var end := Date(d.year, 11, 31);
    FromMarch(d);
    FromMarch(end);
    DayNumberOrder(d, c);
    DayNumberOrder(end, c);
    hide DayNumber;
    FromMarch(c);
  }

  /** What lies 5 to 12 weeks after a day of May or June. */
  lemma AfterMayOrJune(d: Date, c: Date, w: int)
    requires ValidDate(d) && ValidDate(c) && (d.month == 4 || d.month == 5) && 5 <= w <= 12 && WeeksApart(d, c, w)
    ensures 5 <= c.month <= 8 && (c.month == 8 && c.day >= 15 ==> d.month == 5 && d.day >= 23)
  {
    SameYear(d, c, w);
  }

  lemma AfterApril(d: Date, c: Date, w: int)
    requires ValidDate(d) && ValidDate(c) && d.month == 3 && 5 <= w <= 12 && WeeksApart(d, c, w)
    ensures 4 <= c.month <= 6 && c.year == d.year
  {
    SameYear(d, c, w);
  }

  /** What lies 5 to 12 weeks before a day in the last weeks of September. */
  lemma BeforeSeptember(d: Date, c: Date, w: int)
    requires ValidDate(d) && ValidDate(c) && c.month == 8 && c.day >= 15 && 5 <= w <= 12 && WeeksApart(d, c, w)
    ensures 5 <= d.month <= 7 && (d.month == 5 ==> d.day >= 23)
  {
    var start, end := Date(c.year, 2, 1), Date(c.year, 11, 31);
    FromMarch(c);
    FromMarch(end);
    DayNumberOrder(d, start);
    DayNumberOrder(d, c);
    hide DayNumber;
    FromMarch(d);
  }

  lemma ItsMonth(y: int, m: int, d: Date, i: nat)
    requires 0 <= m < 12 && i < 12 && InYear(d, y, m) && MonthAfter(y, m, i).month == d.month
    ensures OfMonth(d, y, m, i)
  {
    var k :| 0 <= k < 12 && YearMonth(d.year, d.month) == MonthAfter(y, m, k);
    if k < i { MonthsDiffer(y, m, k, i); }
    if i < k { MonthsDiffer(y, m, i, k); }
  }

  lemma SomeMonth(y: int, m: int, d: Date) returns (i: nat)
    requires 0 <= m < 12 && InYear(d, y, m)
    ensures i < 12 && OfMonth(d, y, m, i)
  {
    i :| 0 <= i < 12 && YearMonth(d.year, d.month) == MonthAfter(y, m, i);
  }

  /** No date of the year lies five weeks before one of the first month. */
  lemma NothingBefore(y: int, m: int, d: Date, c: Date, w: int)
    requires 0 <= m < 12 && InYear(d, y, m) && InYear(c, y, m) && c.month == m && 5 <= w <= 12
    ensures !WeeksApart(d, c, w)
  {
    var i := SomeMonth(y, m, d);
    ItsMonth(y, m, c, 0);
    CloseTogether(y, m, d, c, i, 0);
  }

  /** Nor five weeks after one of the last month. */
  lemma NothingAfter(y: int, m: int, d: Date, c: Date, w: int)
    requires 0 <= m < 12 && InYear(d, y, m) && InYear(c, y, m) && d.month == (m + 11) % 12 && 5 <= w <= 12
    ensures !WeeksApart(d, c, w)
  {
    var j := SomeMonth(y, m, c);
    ItsMonth(y, m, d, 11);
    CloseTogether(y, m, d, c, 11, j);
  }

  lemma CloseTogether(y: int, m: int, d: Date, c: Date, i: nat, j: nat)
    requires 0 <= m < 12 && ValidDate(d) && ValidDate(c) && OfMonth(d, y, m, i) && OfMonth(c, y, m, j) && j <= i
    ensures DayNumber(c) - DayNumber(d) <= 30
  {
    if j < i {
      MonthOrder(y, m, j, i, c, d);
      DayNumberOrder(c, d);
    } else {
      assert c.year == d.year && c.month == d.month;
    }
  }

  // ----- what the guarantee leaves free -----------------------------------

  /** Every second slot outside July, August and December is free; the fourth slot of a five-slot June that starts on
      the second is taken, and so is December's second if its third is blacked out; a taken third April slot is a
      Beförderung. */
  ghost predicate Guarded(slots: seq<Slot>, g: Plan) {
    && (forall s :: s in slots && 8 <= s.date.day <= 14 && s.month != 6 && s.month != 7 && s.month != 11 ==> s.date !in g)
    && (forall s :: s in slots && ((s.month == 5 && s.date.day == 23) || (s.month == 11 && 13 <= s.date.day <= 14)) ==>
          s.date in g && g[s.date] == Brudermahl)
    && (forall s :: s in slots && s.month == 3 && 15 <= s.date.day <= 21 && s.date in g ==> g[s.date].Befoerderung?)
  }

  /** The plan before the guarantee. */
  ghost predicate Unguarded(slots: seq<Slot>, e: Plan) {
    && OnSlots(slots, e) && FixedTitles(e) && CeremonyDays(e)
    && forall d :: d in e ==> d.day >= 15 && (IsFixed(e[d]) || IsCeremony(e[d]) || e[d].Erhebung?)
  }

  /** What the guarantee adds. */
  ghost predicate AddsGuarantee(slots: seq<Slot>, e: Plan, g: Plan) {
    && Extends(e, g)
    && (forall m :: 0 <= m < 12 && m != 6 && m != 7 ==> HasTaI(g, m))
    && (forall d :: d in g && d !in e ==>
          && g[d] == Brudermahl && !HasAufnahme(e, d.month)
          && TaICandidate(MonthSlots(slots, d.month), e) == Some(SlotOf(d)))
  }

  /** Titles in the third week, and in the fourth. */
  lemma ThirdWeek(slots: seq<Slot>, e: Plan, d: Date)
    requires Unguarded(slots, e) && d in e && 15 <= d.day <= 21
    ensures e[d].Befoerderung? || d.month == 4 || d.month == 7
    ensures e[d].Befoerderung? ==> d.month in Eligible()
  {
  }

  lemma FourthWeek(slots: seq<Slot>, e: Plan, d: Date)
    requires Unguarded(slots, e) && d in e && 22 <= d.day <= 28
    ensures e[d].Aufnahme? || (d.month == 5 && d.day >= 24)
    ensures e[d].Aufnahme? ==> d.month in Eligible() && InLastWeek(d) && d.month != 11
  {
  }

  lemma FirstHalf(slots: seq<Slot>, e: Plan, d: Date)
    requires Unguarded(slots, e) && d.day <= 14
    ensures d !in e
  {
  }

  /** A month's slots, as far as the guarantee looks at them. */
  lemma SlotDays(slots: seq<Slot>, month: int)
    requires GoodSlots(slots) && 0 <= month < 12
    ensures var ms := MonthSlots(slots, month);
            && 4 <= |ms| <= 5 && forall i :: 0 <= i < |ms| ==>
                 && ms[i] in slots && ms[i] == SlotOf(ms[i].date) && ms[i].date.month == month
                 && ms[i].date.day == ms[0].date.day + 7 * i && 7 * i + 1 <= ms[i].date.day <= 7 * i + 7
  {
    MonthFacts(slots, month);
    forall i | 0 <= i < |MonthSlots(slots, month)| ensures MonthSlots(slots, month)[i] == SlotOf(MonthSlots(slots, month)[i].date) {
      NthSlot(slots, month, i);
    }
    hide GoodSlots; hide SlotOf;
  }

  /** A second slot is used by the guarantee only in December. */
  lemma SecondStaysFree(slots: seq<Slot>, e: Plan, g: Plan, s: Slot)
    requires GoodSlots(slots) && Unguarded(slots, e) && AddsGuarantee(slots, e, g)
    requires s in slots && 8 <= s.date.day <= 14 && s.month != 6 && s.month != 7 && s.month != 11
    ensures s.date !in g
  {
    SlotFacts(slots, s);
    SlotMonth(s);
    FirstHalf(slots, e, s.date);
    SlotInWeek(slots, s, 1);
    SlotDays(slots, s.month);
    hide GoodSlots; hide MonthSlots; hide MonthOk; hide Unguarded; hide HasTaI;
    var ms := MonthSlots(slots, s.month);
    SecondIsLastChoice(slots, e, ms, s);
    hide TaICandidate; hide SlotOf;
  }

  /** A month without Aufnahme has its third or its fourth slot free. */
  lemma SecondIsLastChoice(slots: seq<Slot>, e: Plan, ms: seq<Slot>, s: Slot)
    requires Unguarded(slots, e) && 4 <= |ms| <= 5 && ms[1] == s && s.month != 6 && s.month != 7 && s.month != 11
    requires forall i :: 0 <= i < |ms| ==>
               && ms[i] == SlotOf(ms[i].date) && ms[i].date.month == s.month && 7 * i + 1 <= ms[i].date.day <= 7 * i + 7
    ensures TaICandidate(ms, e) == Some(s) ==> HasAufnahme(e, s.month)
  {
    assert !ms[2].blackout && !ms[3].blackout && ms[2] != s && ms[3] != s;
    hide SlotOf; hide Unguarded;
    if ms[3].date in e { FourthWeek(slots, e, ms[3].date); }
    if ms[2].date in e { ThirdWeek(slots, e, ms[2].date); }
  }

  lemma BrudermahlOf(slots: seq<Slot>, e: Plan, g: Plan, month: int) returns (d: Date)
    requires Unguarded(slots, e) && AddsGuarantee(slots, e, g) && 0 <= month < 12 && (month == 5 || month == 11)
    ensures d in g && d.month == month && g[d] == Brudermahl && TaICandidate(MonthSlots(slots, month), e) == Some(SlotOf(d))
  {
    hide TaICandidate; hide MonthSlots; hide SlotOf;
    assert HasTaI(g, month);
    d :| d in g && d.month == month && IsTaI(g[d]);
    if d in e { LateAufnahme(slots, e, d); }
  }

  lemma LateAufnahme(slots: seq<Slot>, e: Plan, d: Date)
    requires Unguarded(slots, e) && d in e && (d.month == 5 || d.month == 11)
    ensures !e[d].Aufnahme?
  {
  }

  lemma JuneFourthTaken(slots: seq<Slot>, e: Plan, g: Plan, s: Slot)
    requires GoodSlots(slots) && Unguarded(slots, e) && AddsGuarantee(slots, e, g)
    requires s in slots && s.month == 5 && s.date.day == 23
    ensures s.date in g && g[s.date] == Brudermahl
  {
    SlotFacts(slots, s);
    SlotMonth(s);
    SlotInWeek(slots, s, 3);
    if s.date in e { FourthWeek(slots, e, s.date); }
    var d := BrudermahlOf(slots, e, g, 5);
    hide GoodSlots; hide MonthSlots; hide Unguarded; hide AddsGuarantee;
    assert Free(e, s);
    assert SlotOf(d) == s;
  }

  lemma DecemberSecondTaken(slots: seq<Slot>, e: Plan, g: Plan, s: Slot)
    requires GoodSlots(slots) && Unguarded(slots, e) && AddsGuarantee(slots, e, g)
    requires s in slots && s.month == 11 && 13 <= s.date.day <= 14
    ensures s.date in g && g[s.date] == Brudermahl
  {
    SlotFacts(slots, s);
    SlotMonth(s);
    SlotInWeek(slots, s, 1);
    SlotDays(slots, 11);
    FirstHalf(slots, e, s.date);
    var d := BrudermahlOf(slots, e, g, 11);
    hide GoodSlots; hide MonthSlots; hide Unguarded; hide AddsGuarantee;
    var ms := MonthSlots(slots, 11);
    assert Free(e, s) && !Free(e, ms[2]) && !Free(e, ms[3]);
    assert SlotOf(d) == s;
  }

  lemma AprilThird(slots: seq<Slot>, e: Plan, g: Plan, s: Slot)
    requires GoodSlots(slots) && Unguarded(slots, e) && AddsGuarantee(slots, e, g)
    requires s in slots && s.month == 3 && 15 <= s.date.day <= 21 && s.date in g
    ensures g[s.date].Befoerderung?
  {
    SlotFacts(slots, s);
    SlotMonth(s);
    SlotInWeek(slots, s, 2);
    SlotDays(slots, 3);
    hide GoodSlots; hide MonthSlots; hide MonthOk;
    var ms := MonthSlots(slots, 3);
    if s.date in e {
      ThirdWeek(slots, e, s.date);
    } else {
      assert TaICandidate(ms, e) == Some(s) && !HasAufnahme(e, 3);
      assert ms[3].date in e;
      FourthWeek(slots, e, ms[3].date);
      assert false;
    }
  }

  lemma GuaranteeLeaves(slots: seq<Slot>, e: Plan, g: Plan)
    requires GoodSlots(slots) && Unguarded(slots, e) && AddsGuarantee(slots, e, g)
    ensures Guarded(slots, g)
  {
    hide GoodSlots; hide Unguarded; hide AddsGuarantee;
    forall s | s in slots && 8 <= s.date.day <= 14 && s.month != 6 && s.month != 7 && s.month != 11 ensures s.date !in g {
      SecondStaysFree(slots, e, g, s);
    }
    forall s | s in slots && ((s.month == 5 && s.date.day == 23) || (s.month == 11 && 13 <= s.date.day <= 14))
      ensures s.date in g && g[s.date] == Brudermahl
    {
      if s.month == 5 { JuneFourthTaken(slots, e, g, s); } else { DecemberSecondTaken(slots, e, g, s); }
    }
    forall s | s in slots && s.month == 3 && 15 <= s.date.day <= 21 && s.date in g ensures g[s.date].Befoerderung? {
      AprilThird(slots, e, g, s);
    }
  }

  // ----- where no precursor can stand -------------------------------------

  /** The slots and the order of months of one seed. */
  ghost predicate TheYear(slots: seq<Slot>, months: seq<int>, y: int, m: int)
    requires 0 <= m < 12
  {
    && GoodSlots(slots) && |months| == 12 && (forall i :: 0 <= i < 12 ==> months[i] == MonthAfter(y, m, i).month)
    && forall d :: InYear(d, y, m) <==> SlotOf(d) in slots && ValidDate(d)
  }

  lemma YearMeans(slots: seq<Slot>, months: seq<int>, y: int, m: int)
    requires 0 <= m < 12 && TheYear(slots, months, y, m)
    ensures GoodSlots(slots)
  {
    hide GoodSlots; hide InYear;
  }

  /** The plan once the precursors are placed: what the guarantee left, and precursors. */
  ghost predicate WithPrecursors(slots: seq<Slot>, g: Plan, q: Plan, at: map<Date, Date>) {
    && OnSlots(slots, q) && FixedTitles(q) && CeremonyDays(q)
    && Guarded(slots, g) && Extends(g, q)
    && (forall d :: d in g ==> !IsPrecursor(g[d])) && (forall d :: d in q && d !in g ==> IsPrecursor(q[d]))
    && CeremoniesServed(slots, q, at)
  }

  lemma CeremonyOf(slots: seq<Slot>, q: Plan, at: map<Date, Date>, d: Date) returns (c: Date, w: int)
    requires CeremoniesServed(slots, q, at) && d in q && IsPrecursor(q[d])
    ensures c in at && at[c] == d && c in q && NeedsPrecursor(q[c]) && 5 <= w <= 12 && WeeksApart(d, c, w)
  {
    hide CloserTaken; hide WeeksApart; hide NeedsPrecursor; hide IsPrecursor; hide OneToOne; hide Prepares;
    assert d in at.Values;
    c :| c in at && at[c] == d;
    assert CeremonyServed(slots, q, at, c);
    w :| 5 <= w <= 12 && WeeksApart(at[c], c, w) && CloserTaken(slots, q, c, w);
  }

  /** When ceremonies are held. */
  lemma CeremonySeason(slots: seq<Slot>, q: Plan, c: Date)
    requires OnSlots(slots, q) && FixedTitles(q) && CeremonyDays(q) && c in q && NeedsPrecursor(q[c])
    ensures ValidDate(c) && c.day >= 15 && c.month != 5 && c.month != 6 && c.month != 7
    ensures c.month == 4 ==> InLastWeek(c)
    ensures c.month == 11 ==> q[c].Befoerderung?
  {
  }

  /** Late June is taken before the precursors come. */
  lemma LateJune(slots: seq<Slot>, g: Plan, q: Plan, at: map<Date, Date>, d: Date)
    requires WithPrecursors(slots, g, q, at) && d in q && d.month == 5 && d.day >= 23
    ensures !IsPrecursor(q[d])
  {
    hide CeremoniesServed; hide CeremonyDays;
    if d.day == 23 { assert SlotOf(d) in slots && SlotOf(d).date == d; } else { assert IsJohannisfestDay(d); }
  }

  /** The ceremonies after a date of May or June come too late for it. */
  lemma NoneInMayAndJune(slots: seq<Slot>, g: Plan, q: Plan, at: map<Date, Date>, d: Date)
    requires WithPrecursors(slots, g, q, at) && d in q && (d.month == 4 || d.month == 5)
    ensures !IsPrecursor(q[d])
  {
    if IsPrecursor(q[d]) {
      var c, w := CeremonyOf(slots, q, at, d);
      CeremonySeason(slots, q, c);
      hide WeeksApart; hide CeremoniesServed; hide CeremonyDays; hide Guarded;
      AfterMayOrJune(d, c, w);
      LateJune(slots, g, q, at, d);
    }
  }

  lemma NoneInTheLastMonth(slots: seq<Slot>, months: seq<int>, y: int, m: int, g: Plan, q: Plan, at: map<Date, Date>, d: Date)
    requires 0 <= m < 12 && TheYear(slots, months, y, m) && WithPrecursors(slots, g, q, at) && d in q && d.month == (m + 11) % 12
    ensures !IsPrecursor(q[d])
  {
    if IsPrecursor(q[d]) {
      var c, w := CeremonyOf(slots, q, at, d);
      assert InYear(d, y, m) && InYear(c, y, m);
      hide WeeksApart; hide InYear; hide TheYear; hide WithPrecursors;
      NothingAfter(y, m, d, c, w);
    }
  }

  // ----- where no Beförderung can be --------------------------------------

  ghost function MonthsWith(dates: set<Date>): set<int> { set d | d in dates :: d.month }

  lemma {:induction false} FewerMonths(dates: set<Date>)
    ensures |MonthsWith(dates)| <= |dates|
    decreases |dates|
  {
    if dates != {} {
      var d :| d in dates;
      FewerMonths(dates - {d});
      assert MonthsWith(dates) <= MonthsWith(dates - {d}) + {d.month};
      SubsetSize(MonthsWith(dates), MonthsWith(dates - {d}) + {d.month});
    }
  }

  lemma BeforeByPosition(months: seq<int>, y: int, m: int, i: nat, j: nat)
    requires 0 <= m < 12 && |months| == 12 && i < j < 12 && forall k :: 0 <= k < 12 ==> months[k] == MonthAfter(y, m, k).month
    ensures Before(months, (m + i) % 12, (m + j) % 12)
  {
    assert months[i] == (m + i) % 12 && months[j] == (m + j) % 12;
  }

  /** Five sure months before it leave no Beförderung for a sixth. */
  lemma NoSixth(slots: seq<Slot>, months: seq<int>, p: Plan, sure: set<int>, d: Date)
    requires BefInOrder(slots, months, p) && |Befoerderungen(p)| == 5 && |sure| == 5 && d.month !in sure
    requires forall k :: k in sure ==> SurelyUsable(slots, k) && Before(months, k, d.month)
    ensures d in p ==> !p[d].Befoerderung?
  {
    if d in p && p[d].Befoerderung? {
      hide SurelyUsable; hide Before;
      var all := MonthsWith(Befoerderungen(p));
      assert d.month in all by { assert d in Befoerderungen(p); }
      forall k | k in sure ensures k in all { Sixth(slots, months, p, k, d); }
      assert |sure + {d.month}| == 6;
      SubsetSize(sure + {d.month}, all);
      FewerMonths(Befoerderungen(p));
    }
  }

  lemma Sixth(slots: seq<Slot>, months: seq<int>, p: Plan, k: int, d: Date)
    requires BefInOrder(slots, months, p) && d in p && p[d].Befoerderung? && SurelyUsable(slots, k) && Before(months, k, d.month)
    ensures k in MonthsWith(Befoerderungen(p))
  {
    assert HasBefoerderung(p, k);
    var e :| e in p && e.month == k && p[e].Befoerderung?;
    assert e in Befoerderungen(p);
  }

  lemma AlwaysSure(slots: seq<Slot>)
    ensures forall k :: 0 <= k <= 3 || 8 <= k <= 10 ==> SurelyUsable(slots, k)
  {
  }

  /** Seeds from June to September have none in April. */
  lemma NoneInApril(slots: seq<Slot>, months: seq<int>, y: int, m: int, p: Plan, d: Date)
    requires 5 <= m <= 8 && TheYear(slots, months, y, m) && BefInOrder(slots, months, p) && |Befoerderungen(p)| == 5 && d.month == 3
    ensures d in p ==> !p[d].Befoerderung?
  {
    hide GoodSlots; hide InYear; hide Before; hide BefInOrder; hide Befoerderungen; hide SurelyUsable;
    AlwaysSure(slots);
    BeforeByPosition(months, y, m, 8 - m, 15 - m);
    BeforeByPosition(months, y, m, 9 - m, 15 - m);
    BeforeByPosition(months, y, m, 10 - m, 15 - m);
    BeforeByPosition(months, y, m, 12 - m, 15 - m);
    BeforeByPosition(months, y, m, 13 - m, 15 - m);
    hide TheYear;
    assert |{8, 9, 10, 0, 1}| == 5;
    NoSixth(slots, months, p, {8, 9, 10, 0, 1}, d);
  }

  /** A January seed has none in December. */
  lemma NoneInDecember(slots: seq<Slot>, months: seq<int>, y: int, p: Plan, d: Date)
    requires TheYear(slots, months, y, 0) && BefInOrder(slots, months, p) && |Befoerderungen(p)| == 5 && d.month == 11
    ensures d in p ==> !p[d].Befoerderung?
  {
    hide GoodSlots; hide InYear; hide Before; hide BefInOrder; hide Befoerderungen; hide SurelyUsable;
    AlwaysSure(slots);
    BeforeByPosition(months, y, 0, 0, 11);
    BeforeByPosition(months, y, 0, 1, 11);
    BeforeByPosition(months, y, 0, 2, 11);
    BeforeByPosition(months, y, 0, 3, 11);
    BeforeByPosition(months, y, 0, 8, 11);
    hide TheYear;
    assert |{0, 1, 2, 3, 8}| == 5;
    NoSixth(slots, months, p, {0, 1, 2, 3, 8}, d);
  }

  lemma AfterNovember(y: int, d: Date, c: Date, w: int)
    requires InYear(d, y, 0) && InYear(c, y, 0) && d.month == 10 && 5 <= w <= 12 && WeeksApart(d, c, w)
    ensures c.month == 11
  {
    ItsMonth(y, 0, d, 10);
    var j := SomeMonth(y, 0, c);
    if j <= 10 { CloseTogether(y, 0, d, c, 10, j); }
  }

  /** So a January seed has no precursor in November. */
  lemma NoneInNovember(slots: seq<Slot>, months: seq<int>, y: int, g: Plan, q: Plan, at: map<Date, Date>, d: Date)
    requires TheYear(slots, months, y, 0) && WithPrecursors(slots, g, q, at) && d in q && d.month == 10
    requires BefInOrder(slots, months, q) && |Befoerderungen(q)| == 5
    ensures !IsPrecursor(q[d])
  {
    if IsPrecursor(q[d]) {
      var c, w := CeremonyOf(slots, q, at, d);
      assert InYear(d, y, 0) && InYear(c, y, 0);
      CeremonySeason(slots, q, c);
      hide WeeksApart; hide InYear; hide WithPrecursors; hide BefInOrder;
      AfterNovember(y, d, c, w);
      NoneInDecember(slots, months, y, q, c);
    }
  }

  /** May has one ceremony at most, so April has one precursor at most. */
  lemma OneInApril(slots: seq<Slot>, months: seq<int>, y: int, m: int, g: Plan, q: Plan, at: map<Date, Date>, a: Date, b: Date)
    requires 0 <= m < 12 && TheYear(slots, months, y, m) && WithPrecursors(slots, g, q, at)
    requires a in q && b in q && a.month == 3 && b.month == 3 && IsPrecursor(q[a]) && IsPrecursor(q[b])
    ensures a == b
  {
    var c, w := CeremonyOf(slots, q, at, a);
    var e, v := CeremonyOf(slots, q, at, b);
    assert InYear(c, y, m) && InYear(e, y, m);
    assert ValidDate(a) && ValidDate(b);
    CeremonySeason(slots, q, c);
    CeremonySeason(slots, q, e);
    hide WithPrecursors; hide TheYear;
    AfterApril(a, c, w);
    AfterApril(b, e, v);
    hide WeeksApart;
    OneLastThursday(y, m, c, e);
  }

  lemma OneLastThursday(y: int, m: int, c: Date, e: Date)
    requires 0 <= m < 12 && InYear(c, y, m) && InYear(e, y, m) && c.month == e.month && InLastWeek(c) && InLastWeek(e)
    ensures c == e
  {
    var i := SomeMonth(y, m, c);
    ItsMonth(y, m, e, i);
    assert c.year == e.year && c.day <= DaysInMonth(c.year, c.month) && e.day <= DaysInMonth(c.year, c.month);
    SameMonthWeeks(c, e);
    hide InYear; hide OfMonth; hide DaysInMonth;
    SmallMultiple(c.day - e.day);
  }

  lemma SmallMultiple(x: int)
    requires x % 7 == 0 && -7 < x < 7
    ensures x == 0
  {
  }

  lemma SameMonthWeeks(t: Date, d: Date)
    requires t.year == d.year && 0 <= t.month == d.month < 12 && Weekday(t) == Weekday(d)
    ensures (t.day - d.day) % 7 == 0
  {
    assert DayNumber(t) - DayNumber(d) == t.day - d.day;
    hide DaysBeforeMonth; hide DaysBeforeYear;
  }

  // ----- room for three Instruktionen -------------------------------------

  /** Some middle slot of the month is free. */
  ghost predicate Room(slots: seq<Slot>, q: Plan, month: int) {
    exists s :: s in slots && s.date.month == month && InMiddle(slots, s.date) && Free(q, s)
  }

  lemma FreeUnlessPrecursor(slots: seq<Slot>, g: Plan, q: Plan, at: map<Date, Date>, s: Slot)
    requires WithPrecursors(slots, g, q, at) && s.date !in g && (s.date in q ==> !IsPrecursor(q[s.date])) && !s.blackout
    ensures Free(q, s)
  {
  }

  lemma MiddleOf(slots: seq<Slot>, month: int, i: nat) returns (s: Slot)
    requires GoodSlots(slots) && 0 <= month < 12 && month != 6 && month != 7 && 1 <= i <= 2 && (month == 11 ==> i == 1)
    ensures s in slots && s.date.month == month == s.month && InMiddle(slots, s.date) && !s.blackout && s == SlotOf(s.date)
    ensures 7 * i + 1 <= s.date.day <= 7 * i + 7
  {
    MonthSizes(slots, month);
    NthSlot(slots, month, i);
    s := MonthSlots(slots, month)[i];
    MiddleSlot(slots, s, i);
    hide GoodSlots; hide MonthSlots; hide InMiddle;
  }

  /** A month without precursors keeps its second slot. */
  lemma SecondRoom(slots: seq<Slot>, g: Plan, q: Plan, at: map<Date, Date>, month: int)
    requires GoodSlots(slots) && WithPrecursors(slots, g, q, at)
    requires 0 <= month < 12 && month != 6 && month != 7 && month != 11
    requires forall d :: d in q && d.month == month ==> !IsPrecursor(q[d])
    ensures Room(slots, q, month)
  {
    var s := MiddleOf(slots, month, 1);
    assert s.date !in g by { hide CeremoniesServed; }
    FreeUnlessPrecursor(slots, g, q, at, s);
    hide WithPrecursors; hide Free; hide InMiddle; hide GoodSlots;
  }

  lemma RoomInApril(slots: seq<Slot>, months: seq<int>, y: int, m: int, g: Plan, q: Plan, at: map<Date, Date>)
    requires 5 <= m <= 8 && TheYear(slots, months, y, m) && WithPrecursors(slots, g, q, at)
    requires BefInOrder(slots, months, q) && |Befoerderungen(q)| == 5
    ensures Room(slots, q, 3)
  {
    hide CeremoniesServed; hide InMiddle; hide BefInOrder; hide Befoerderungen; hide InYear; hide GoodSlots; hide CeremonyDays;
    var s := MiddleOf(slots, 3, 1);
    var t := MiddleOf(slots, 3, 2);
    NoneInApril(slots, months, y, m, q, t.date);
    assert s.date !in g && t.date !in g;
    if s.date in q && t.date in q && IsPrecursor(q[s.date]) && IsPrecursor(q[t.date]) {
      OneInApril(slots, months, y, m, g, q, at, s.date, t.date);
    }
    if s.date in q && IsPrecursor(q[s.date]) {
      FreeUnlessPrecursor(slots, g, q, at, t);
    } else {
      FreeUnlessPrecursor(slots, g, q, at, s);
    }
    hide WithPrecursors; hide Free;
  }

  /** May, June and one more month have room. */
  lemma ThreeRooms(slots: seq<Slot>, months: seq<int>, y: int, m: int, g: Plan, q: Plan, at: map<Date, Date>) returns (third: int)
    requires 0 <= m < 12 && TheYear(slots, months, y, m) && WithPrecursors(slots, g, q, at)
    requires BefInOrder(slots, months, q) && |Befoerderungen(q)| == 5
    ensures Room(slots, q, 4) && Room(slots, q, 5) && Room(slots, q, third) && third != 4 && third != 5
  {
    hide WithPrecursors; hide TheYear; hide BefInOrder; hide Befoerderungen; hide Room; hide IsPrecursor; hide GoodSlots; hide InYear;
    YearMeans(slots, months, y, m);
    forall d | d in q && (d.month == 4 || d.month == 5) ensures !IsPrecursor(q[d]) { NoneInMayAndJune(slots, g, q, at, d); }
    SecondRoom(slots, g, q, at, 4);
    SecondRoom(slots, g, q, at, 5);
    if m == 0 {
      third := 10;
      forall d | d in q && d.month == 10 ensures !IsPrecursor(q[d]) { NoneInNovember(slots, months, y, g, q, at, d); }
      SecondRoom(slots, g, q, at, 10);
    } else if 5 <= m <= 8 {
      third := 3;
      RoomInApril(slots, months, y, m, g, q, at);
    } else {
      third := m - 1;
      forall d | d in q && d.month == m - 1 ensures !IsPrecursor(q[d]) { NoneInTheLastMonth(slots, months, y, m, g, q, at, d); }
      SecondRoom(slots, g, q, at, m - 1);
    }
  }

  /** A month with room gets an Instruktion, or three others have theirs. */
  lemma RoomIsUsed(slots: seq<Slot>, months: seq<int>, q: Plan, r: Plan, month: int)
    requires Room(slots, q, month) && Extends(q, r) && forall d :: d in r && d !in q ==> r[d] == Instruktion
    requires forall s :: s in slots && InMiddle(slots, s.date) && Free(r, s) ==> LeftOver(months, r, s.date)
    ensures |Instruktionen(r)| == 3 || month in MonthsWith(Instruktionen(r))
  {
    hide InMiddle; hide Before;
    var s :| s in slots && s.date.month == month && InMiddle(slots, s.date) && Free(q, s);
    if s.date in r {
      assert s.date in Instruktionen(r);
    } else if |Instruktionen(r)| != 3 {
      assert LeftOver(months, r, s.date);
      var e :| e in r && r[e] == Instruktion && e.month == month && e.day < s.date.day;
      assert e in Instruktionen(r);
    }
  }

  lemma ThreeReached(slots: seq<Slot>, months: seq<int>, q: Plan, r: Plan, third: int)
    requires Room(slots, q, 4) && Room(slots, q, 5) && Room(slots, q, third) && third != 4 && third != 5
    requires Extends(q, r) && forall d :: d in r && d !in q ==> r[d] == Instruktion
    requires forall s :: s in slots && InMiddle(slots, s.date) && Free(r, s) ==> LeftOver(months, r, s.date)
    requires |Instruktionen(r)| <= 3
    ensures |Instruktionen(r)| == 3
  {
    RoomIsUsed(slots, months, q, r, 4);
    RoomIsUsed(slots, months, q, r, 5);
    RoomIsUsed(slots, months, q, r, third);
    hide Room; hide LeftOver; hide InMiddle; hide Instruktionen; hide MonthsWith;
    FewerMonths(Instruktionen(r));
    assert |{4, 5, third}| == 3;
    if |Instruktionen(r)| != 3 { SubsetSize({4, 5, third}, MonthsWith(Instruktionen(r))); }
  }

  // ----- the ceremony without a precursor ---------------------------------

  /** Nothing 5 to 12 weeks before the date prepares anything. */
  ghost predicate Unprepared(p: Plan, c: Date) {
    forall d, w :: d in p && 5 <= w <= 12 && WeeksApart(d, c, w) ==> !IsPrecursor(p[d])
  }

  lemma UnpreparedStays(q: Plan, r: Plan, c: Date)
    requires Unprepared(q, c) && Extends(q, r) && forall d :: d in r && d !in q ==> !IsPrecursor(r[d])
    ensures Unprepared(r, c)
  {
    hide WeeksApart; hide IsPrecursor;
  }

  /** The weeks before September's ceremonies are the summer break, and June ends full. */
  lemma SeptemberUnprepared(slots: seq<Slot>, g: Plan, q: Plan, at: map<Date, Date>, c: Date)
    requires WithPrecursors(slots, g, q, at) && c in q && NeedsPrecursor(q[c]) && c.month == 8
    ensures Unprepared(q, c)
  {
    CeremonySeason(slots, q, c);
    hide WeeksApart; hide CeremoniesServed; hide Guarded; hide CeremonyDays;
    forall d, w | d in q && 5 <= w <= 12 && WeeksApart(d, c, w) ensures !IsPrecursor(q[d]) {
      BeforeSeptember(d, c, w);
      if d.month == 5 { LateJune(slots, g, q, at, d); }
    }
  }

  lemma FirstMonthUnprepared(slots: seq<Slot>, months: seq<int>, y: int, m: int, q: Plan, c: Date)
    requires 0 <= m < 12 && TheYear(slots, months, y, m) && OnSlots(slots, q) && c in q && c.month == m
    ensures Unprepared(q, c)
  {
    hide WeeksApart; hide InYear; hide GoodSlots; hide IsPrecursor;
    forall d, w | d in q && 5 <= w <= 12 ensures !WeeksApart(d, c, w) {
      assert InYear(d, y, m) && InYear(c, y, m);
      NothingBefore(y, m, d, c, w);
    }
  }

  /** The third slot of a December that cannot have a Beförderung. */
  lemma LateThird(slots: seq<Slot>) returns (t: Date)
    requires GoodSlots(slots) && !SurelyUsable(slots, 11)
    ensures ValidDate(t) && SlotOf(t) in slots && t.month == 11 && 20 <= t.day <= 21
  {
    MonthSizes(slots, 11);
    NthSlot(slots, 11, 2);
    t := MonthSlots(slots, 11)[2].date;
    hide GoodSlots; hide MonthSlots;
  }

  /** A date of that December five weeks before the middle of January is its first or its second slot. */
  lemma DecemberBefore(y: int, t: Date, d: Date, c: Date, w: int)
    requires InYear(t, y, 11) && InYear(d, y, 11) && InYear(c, y, 11) && 5 <= w <= 12 && WeeksApart(d, c, w)
    requires t.month == 11 && 20 <= t.day <= 21 && c.month == 0 && 15 <= c.day <= 21
    ensures d.month == 11 && (d.day <= 7 || 13 <= d.day <= 14)
  {
    var i := SomeMonth(y, 11, d);
    ItsMonth(y, 11, c, 1);
    ItsMonth(y, 11, t, 0);
    if i >= 1 { CloseTogether(y, 11, d, c, i, 1); }
    AcrossNewYear(d, c);
    SameMonthWeeks(t, d);
    hide DayNumber; hide InYear;
  }

  lemma AcrossNewYear(d: Date, c: Date)
    requires d.month == 11 && c.month == 0 && c.year == d.year + 1
    ensures DayNumber(c) - DayNumber(d) == 31 - d.day + c.day
  {
    MonthStarts(d.year);
    YearSteps(d.year);
    hide DaysBeforeYear; hide YearLength;
  }

  lemma JanuaryUnprepared(slots: seq<Slot>, months: seq<int>, y: int, g: Plan, q: Plan, at: map<Date, Date>, c: Date)
    requires TheYear(slots, months, y, 11) && WithPrecursors(slots, g, q, at) && !SurelyUsable(slots, 11)
    requires c in q && q[c].Befoerderung? && c.month == 0
    ensures Unprepared(q, c)
  {
    var t := LateThird(slots);
    hide WeeksApart; hide InYear; hide GoodSlots; hide CeremoniesServed; hide SurelyUsable; hide Guarded; hide IsPrecursor;
    forall d, w | d in q && 5 <= w <= 12 && WeeksApart(d, c, w) ensures !IsPrecursor(q[d]) {
      assert InYear(d, y, 11) && InYear(c, y, 11) && InYear(t, y, 11);
      DecemberBefore(y, t, d, c, w);
      EarlyDecember(slots, g, q, at, d);
    }
  }

  lemma EarlyDecember(slots: seq<Slot>, g: Plan, q: Plan, at: map<Date, Date>, d: Date)
    requires WithPrecursors(slots, g, q, at) && d in q && d.month == 11 && (d.day <= 7 || 13 <= d.day <= 14)
    ensures !IsPrecursor(q[d])
  {
    hide CeremoniesServed; hide CeremonyDays; hide FixedTitles;
    assert SlotOf(d) in slots && SlotOf(d).date == d;
  }

  /** How many months after the seed month. */
  function Position(m: int, month: int): int { if month >= m then month - m else month + 12 - m }

  lemma {:induction false} Earliest(dates: set<Date>, m: int) returns (c: Date)
    requires dates != {}
    ensures c in dates && forall e :: e in dates ==> Position(m, c.month) <= Position(m, e.month)
    decreases |dates|
  {
    c :| c in dates;
    assert forall e :: e in dates ==> e == c || e in dates - {c};
    if dates - {c} != {} {
      var d := Earliest(dates - {c}, m);
      if Position(m, d.month) < Position(m, c.month) { c := d; }
    }
  }

  lemma Positions(m: int, month: int, i: nat)
    requires 0 <= m < 12 && 0 <= month < 12 && i < Position(m, month)
    ensures (m + Position(m, month)) % 12 == month && Position(m, (m + i) % 12) == i
  {
    WrapTwelve(m + Position(m, month));
    WrapTwelve(m + i);
  }

  /** A sure month before the first Beförderung would have one. */
  lemma NotSureBefore(slots: seq<Slot>, months: seq<int>, y: int, m: int, q: Plan, c: Date, i: nat)
    requires 0 <= m < 12 && TheYear(slots, months, y, m) && BefInOrder(slots, months, q)
    requires c in q && q[c].Befoerderung? && 0 <= c.month < 12 && i < Position(m, c.month)
    requires forall e :: e in Befoerderungen(q) ==> Position(m, c.month) <= Position(m, e.month)
    ensures !SurelyUsable(slots, (m + i) % 12)
  {
    hide GoodSlots; hide InYear; hide Before; hide SurelyUsable;
    hide BefInOrder; hide Befoerderungen;
    assert Position(m, c.month) < 12;
    BeforeByPosition(months, y, m, i, Position(m, c.month));
    hide TheYear;
    NoneThere(slots, months, m, q, c, i);
  }

  lemma NoneThere(slots: seq<Slot>, months: seq<int>, m: int, q: Plan, c: Date, i: nat)
    requires 0 <= m < 12 && BefInOrder(slots, months, q)
    requires c in q && q[c].Befoerderung? && 0 <= c.month < 12 && i < Position(m, c.month)
    requires Before(months, (m + i) % 12, (m + Position(m, c.month)) % 12)
    requires forall e :: e in Befoerderungen(q) ==> Position(m, c.month) <= Position(m, e.month)
    ensures !SurelyUsable(slots, (m + i) % 12)
  {
    hide Before; hide SurelyUsable; hide Position;
    var k := (m + i) % 12;
    Positions(m, c.month, i);
    assert forall e :: e in q && q[e].Befoerderung? ==> e in Befoerderungen(q);
    assert !HasBefoerderung(q, k);
  }

  /** The first Beförderung falls in the seed month, in September, or in the January after a December seed that has no
      room for one. */
  lemma FirstMonth(slots: seq<Slot>, months: seq<int>, y: int, m: int, q: Plan, c: Date)
    requires 0 <= m < 12 && TheYear(slots, months, y, m) && BefInOrder(slots, months, q)
    requires c in q && q[c].Befoerderung? && c.month in Eligible()
    requires forall e :: e in Befoerderungen(q) ==> Position(m, c.month) <= Position(m, e.month)
    ensures c.month == m || c.month == 8 || (c.month == 0 && m == 11 && !SurelyUsable(slots, 11))
  {
    var n := Position(m, c.month);
    if n > 0 {
      AlwaysSure(slots);
      hide TheYear; hide BefInOrder; hide SurelyUsable; hide Befoerderungen;
      NotSureBefore(slots, months, y, m, q, c, n - 1);
      assert (m + (n - 1)) % 12 == (c.month + 11) % 12;
      if n > 1 {
        NotSureBefore(slots, months, y, m, q, c, n - 2);
        assert (m + (n - 2)) % 12 == (c.month + 10) % 12;
      }
    }
  }

  /** No Beförderung comes before it. */
  ghost predicate FirstBefoerderung(p: Plan, c: Date) {
    c in p && p[c].Befoerderung? && forall e :: e in p && p[e].Befoerderung? && e != c ==> Earlier(c, e)
  }

  lemma FirstByDate(slots: seq<Slot>, months: seq<int>, y: int, m: int, q: Plan, c: Date)
    requires 0 <= m < 12 && TheYear(slots, months, y, m) && OnSlots(slots, q) && CeremonyCounts(q) && c in Befoerderungen(q)
    requires forall e :: e in Befoerderungen(q) ==> Position(m, c.month) <= Position(m, e.month)
    ensures FirstBefoerderung(q, c)
  {
    hide InYear; hide GoodSlots;
    forall e | e in q && q[e].Befoerderung? && e != c ensures Earlier(c, e) {
      assert e in Befoerderungen(q) && e.month != c.month && InYear(e, y, m) && InYear(c, y, m);
      EarlierByPosition(y, m, c, e);
    }
  }

  lemma EarlierByPosition(y: int, m: int, c: Date, e: Date)
    requires 0 <= m < 12 && InYear(c, y, m) && InYear(e, y, m) && c.month != e.month && Position(m, c.month) <= Position(m, e.month)
    ensures Earlier(c, e)
  {
    var i := SomeMonth(y, m, c);
    var j := SomeMonth(y, m, e);
    PositionIs(y, m, c, i);
    PositionIs(y, m, e, j);
    hide Position; hide InYear;
    MonthOrder(y, m, i, j, c, e);
  }

  lemma PositionIs(y: int, m: int, d: Date, i: nat)
    requires 0 <= m < 12 && i < 12 && OfMonth(d, y, m, i)
    ensures Position(m, d.month) == i
  {
    WrapTwelve(m + i);
  }

  lemma WrapTwelve(x: nat)
    requires x < 24
    ensures x % 12 == if x < 12 then x else x - 12
  {
  }

  /** In every schedule the first Beförderung is unprepared, and so is every ceremony of September. */
  lemma SomeUnprepared(slots: seq<Slot>, months: seq<int>, y: int, m: int, g: Plan, q: Plan, at: map<Date, Date>)
    requires 0 <= m < 12 && TheYear(slots, months, y, m) && WithPrecursors(slots, g, q, at)
    requires BefInOrder(slots, months, q) && CeremonyCounts(q)
    ensures exists c :: FirstBefoerderung(q, c) && Unprepared(q, c)
    ensures forall c :: c in q && NeedsPrecursor(q[c]) && c.month == 8 ==> Unprepared(q, c)
  {
    hide TheYear; hide BefInOrder; hide Unprepared; hide SurelyUsable; hide FirstBefoerderung; hide Guarded; hide CeremoniesServed;
    var c := Earliest(Befoerderungen(q), m);
    assert c in q && q[c].Befoerderung? && c.month in Eligible();
    FirstMonth(slots, months, y, m, q, c);
    FirstByDate(slots, months, y, m, q, c);
    hide Befoerderungen; hide OnSlots; hide CeremonyDays; hide FixedTitles;
    forall e | e in q && NeedsPrecursor(q[e]) && e.month == 8 ensures Unprepared(q, e) { SeptemberUnprepared(slots, g, q, at, e); }
    if c.month == m {
      FirstMonthUnprepared(slots, months, y, m, q, c);
    } else if c.month == 0 {
      JanuaryUnprepared(slots, months, y, g, q, at, c);
    }
    assert Unprepared(q, c);
  }
}
