/** The whole of `buildDemoEventSchedule` and what its comments and tests promise,
    for every seed year and month. */
module DemoSchedule {
  import opened Wrappers
  import opened Calendar
  import opened Slots
  import opened Plans
  import opened CeremonyOrder
  import opened Turns
  import opened Schedule
  import opened ScheduleGaps

  // ----- the promised properties of a plan --------------------------------

  /** A Thursday, by whole weeks from 1 January 1970, of the twelve months. */
  predicate ThursdayOf(d: Date, y: int, m: int) {
    ValidDate(d) && (DayNumber(d) - DayNumber(Date(1970, 0, 1))) % 7 == 0 && 12 * y + m <= 12 * d.year + d.month < 12 * y + m + 12
  }

  /** Outside July, the first and last weeks of August, and 20 December to 7 January. */
  predicate MayHaveEvent(d: Date) {
    d.month != 6 && (d.month == 7 ==> 15 <= d.day <= 21) && (d.month == 11 ==> d.day < 20) && (d.month == 0 ==> d.day > 7)
  }

  /** Events sit on exactly those Thursdays of the twelve months that may have one. */
  ghost predicate CoversTheYear(p: Plan, y: int, m: int)
    requires 0 <= m < 12
  {
    forall d :: d in p <==> ThursdayOf(d, y, m) && MayHaveEvent(d)
  }

  lemma YearByEpoch(d: Date, y: int, m: int)
    requires 0 <= m < 12
    ensures InYear(d, y, m) <==> ThursdayOf(d, y, m)
  {
    if ValidDate(d) {
      ThursdaysByEpoch(d);
      hide DayNumber;
      if 12 * y + m <= 12 * d.year + d.month < 12 * y + m + 12 {
        var i := 12 * d.year + d.month - 12 * y - m;
        assert YearMonth(d.year, d.month) == MonthAfter(y, m, i);
      }
    }
  }

  /** First slots, and only they, are Gästeabend; the three fixed events are where they belong. */
  ghost predicate FirstsAndFixed(p: Plan) {
    && (forall d :: d in p ==> (d.day <= 7 <==> p[d] == Gaesteabend))
    && FixedTitles(p)
  }

  ghost predicate TaIEveryMonth(p: Plan) {
    forall m :: 0 <= m < 12 && m != 6 && m != 7 ==> HasTaI(p, m)
  }

  /** Precursors lie 5 to 12 whole weeks before a ceremony they prepare, on no first and no blacked-out slot. */
  ghost predicate PrecursorsPlaced(p: Plan) {
    && PrecursorsOk(p)
    && forall d :: d in p && IsPrecursor(p[d]) ==> d.day > 7 && !IsBlackedOut(d)
  }

  /** Every date 5 to fewer than `weeks` weeks before `c`, but first and blacked-out ones, went to an early title. */
  ghost predicate CloserEarly(p: Plan, c: Date, weeks: nat) {
    forall d, v :: d in p && 5 <= v < weeks && WeeksApart(d, c, v) && d.day > 7 && !IsBlackedOut(d) ==> IsEarly(p[d])
  }

  /** The precursor `at[c]` of the ceremony at `c` stands 5 to 12 weeks before it, on the closest date it could get; a
      ceremony has none only if it could get no date at all. */
  ghost predicate PreparedOrFull(p: Plan, at: map<Date, Date>, c: Date)
    requires c in p
  {
    if c in at then
      at[c] in p && Prepares(p[at[c]], p[c]) && exists w :: 5 <= w <= 12 && WeeksApart(at[c], c, w) && CloserEarly(p, c, w)
    else CloserEarly(p, c, 13)
  }

  /** The precursors of the plan belong to its ceremonies, one to one. */
  ghost predicate PrecursorsMatch(p: Plan, at: map<Date, Date>) {
    && OneToOne(at)
    && (forall c :: c in at ==> c in p && NeedsPrecursor(p[c]))
    && (forall d :: d in p && IsPrecursor(p[d]) ==> d in at.Values)
    && (forall c :: c in p && NeedsPrecursor(p[c]) ==> PreparedOrFull(p, at, c))
  }

  ghost predicate CeremoniesPrepared(p: Plan) { exists at :: PrecursorsMatch(p, at) && InTurn(p, at) }

  ghost predicate ByDate(dates: seq<Date>) { forall i, j :: 0 <= i < j < |dates| ==> Earlier(dates[i], dates[j]) }

  /** By date, the Beförderungen are for four apprentices in turn and the Erhebungen for six fellow crafts, and the ballots
      before the Aufnahmen for ten seekers. */
  ghost predicate InTurn(p: Plan, at: map<Date, Date>) { exists t :: ListsInTurn(p, at, t) }

  ghost predicate ListsInTurn(p: Plan, at: map<Date, Date>, t: Lists) {
    && ByDate(t.bef) && ByDate(t.erh) && ByDate(t.auf)
    && BefoerderungTurns(p, t.bef) && ErhebungTurns(p, t.erh) && AufnahmeDates(p, t.auf) && BallotTurns(p, at, t.auf)
  }

  /** Neither within the first nor within the last week of its month. */
  predicate InMiddleWeeks(d: Date) { 0 <= d.month < 12 && d.day > 7 && d.day + 7 <= DaysInMonth(d.year, d.month) }

  /** Instruktionen take the earliest date they can: what is left in the middle of a month comes after its Instruktion,
      or after all three. */
  ghost predicate InstruktionenEarliest(p: Plan) {
    forall d :: d in p && IsFiller(p[d]) && InMiddleWeeks(d) ==>
      || (exists e :: e in p && p[e] == Instruktion && e.month == d.month && e.day < d.day)
      || (|Instruktionen(p)| == 3 && forall e :: e in p && p[e] == Instruktion ==> Earlier(e, d))
  }

  /** Precursors are not for every ceremony: the first Beförderung has none before it, nor has any ceremony of September. */
  ghost predicate SomeUnpreparable(p: Plan) {
    && (exists c :: FirstBefoerderung(p, c) && Unprepared(p, c))
    && (forall c :: c in p && NeedsPrecursor(p[c]) && c.month == 8 ==> Unprepared(p, c))
  }

  ghost predicate ScheduleOk(p: Plan, y: int, m: int)
    requires 0 <= m < 12
  {
    && CoversTheYear(p, y, m) && FirstsAndFixed(p) && CeremonyCounts(p) && TaIEveryMonth(p) && PrecursorsPlaced(p)
    && CeremoniesPrepared(p) && SomeUnpreparable(p)
    && |Instruktionen(p)| == 3 && OnePerMonth(Instruktionen(p)) && InstruktionenEarliest(p)
  }

  // ----- the event list ---------------------------------------------------

  ghost predicate AscendingEvents(events: seq<DemoEvent>) {
    forall i, j :: 0 <= i < j < |events| ==> StrictlyBefore(events[i].date, events[j].date)
  }

  predicate StrictlyBefore(a: Date, b: Date) {
    ValidDate(a) && ValidDate(b) && DayNumber(a) < DayNumber(b)
  }

  /** The plan an event list spells out. */
  function PlanOf(events: seq<DemoEvent>): Plan {
    if events == [] then map[] else PlanOf(events[..|events| - 1])[events[|events| - 1].date := events[|events| - 1].title]
  }

  /** The filter and map of the return statement. */
  function EventsOf(slots: seq<Slot>, p: Plan): seq<DemoEvent> {
    if slots == [] then []
    else
      var n := |slots| - 1;
      EventsOf(slots[..n], p) + if slots[n].date in p then [DemoEvent(slots[n].date, p[slots[n].date])] else []
  }

  ghost predicate HasDate(slots: seq<Slot>, d: Date) {
    exists i :: 0 <= i < |slots| && slots[i].date == d
  }

  lemma HasDateSnoc(slots: seq<Slot>, d: Date)
    requires slots != []
    ensures HasDate(slots, d) <==> HasDate(slots[..|slots| - 1], d) || d == slots[|slots| - 1].date
  {
    var n := |slots| - 1;
    if HasDate(slots[..n], d) {
      var i :| 0 <= i < n && slots[..n][i].date == d;
      assert slots[i].date == d;
    }
    if HasDate(slots, d) {
      var i :| 0 <= i < |slots| && slots[i].date == d;
      if i < n { assert slots[..n][i].date == d; }
    }
  }

  lemma {:induction false} ListedDates(events: seq<DemoEvent>)
    ensures forall k :: 0 <= k < |events| ==> events[k].date in PlanOf(events)
  {
    if events != [] {
      var n := |events| - 1;
      ListedDates(events[..n]);
      forall k | 0 <= k < |events| ensures events[k].date in PlanOf(events) {
        if k < n { assert events[..n][k] == events[k]; }
      }
    }
  }

  lemma AllOnThursdays(events: seq<DemoEvent>, y: int, m: int)
    requires 0 <= m < 12 && CoversTheYear(PlanOf(events), y, m)
    ensures forall k :: 0 <= k < |events| ==> ThursdayOf(events[k].date, y, m) && MayHaveEvent(events[k].date)
  {
    ListedDates(events);
    hide PlanOf; hide ThursdayOf; hide MayHaveEvent;
  }

  lemma PlanOfSnoc(slots: seq<Slot>, p: Plan)
    requires slots != []
    ensures var n := |slots| - 1; var q := PlanOf(EventsOf(slots[..n], p));
            PlanOf(EventsOf(slots, p)) == if slots[n].date in p then q[slots[n].date := p[slots[n].date]] else q
  {
    var n := |slots| - 1;
    var es0, es := EventsOf(slots[..n], p), EventsOf(slots, p);
    if slots[n].date in p {
      assert es[..|es| - 1] == es0;
    } else {
      assert es == es0;
    }
  }

  /** The list holds the plan's dates that have a slot, with their titles. */
  lemma {:induction false} EventsSpellPlan(slots: seq<Slot>, p: Plan)
    ensures forall d :: d in PlanOf(EventsOf(slots, p)) <==> d in p && HasDate(slots, d)
    ensures forall d :: d in PlanOf(EventsOf(slots, p)) ==> PlanOf(EventsOf(slots, p))[d] == p[d]
  {
    if slots != [] {
      hide HasDate; hide EventsOf; hide PlanOf;
      var n := |slots| - 1;
      EventsSpellPlan(slots[..n], p);
      PlanOfSnoc(slots, p);
      forall d ensures HasDate(slots, d) <==> HasDate(slots[..n], d) || d == slots[n].date { HasDateSnoc(slots, d); }
    }
  }

  lemma {:induction false} EventsHaveSlots(slots: seq<Slot>, p: Plan)
    ensures forall k :: 0 <= k < |EventsOf(slots, p)| ==> HasDate(slots, EventsOf(slots, p)[k].date)
  {
    if slots != [] {
      EventsHaveSlots(slots[..|slots| - 1], p);
      forall d ensures HasDate(slots, d) <==> HasDate(slots[..|slots| - 1], d) || d == slots[|slots| - 1].date { HasDateSnoc(slots, d); }
      hide HasDate;
    }
  }

  lemma {:induction false} EventsAscend(slots: seq<Slot>, p: Plan)
    requires forall i :: 0 <= i < |slots| ==> ValidDate(slots[i].date)
    requires forall i, j :: 0 <= i < j < |slots| ==> Earlier(slots[i].date, slots[j].date)
    ensures AscendingEvents(EventsOf(slots, p))
  {
    if slots != [] {
      var n := |slots| - 1;
      EventsAscend(slots[..n], p);
      EventsHaveSlots(slots[..n], p);
      var es0, es := EventsOf(slots[..n], p), EventsOf(slots, p);
      forall k | 0 <= k < |es0| ensures ValidDate(es0[k].date) && DayNumber(es0[k].date) < DayNumber(slots[n].date) {
        assert HasDate(slots[..n], es0[k].date);
        var i :| 0 <= i < n && slots[..n][i].date == es0[k].date;
        assert Earlier(slots[i].date, slots[n].date);
        DayNumberOrder(slots[i].date, slots[n].date);
      }
    }
  }

  /** Sorting by date leaves a strictly ascending list as it is: every ascending rearrangement is the list itself. */
  lemma {:induction false} SortingChangesNothing(events: seq<DemoEvent>, sorted: seq<DemoEvent>)
    requires AscendingEvents(events) && AscendingEvents(sorted) && multiset(sorted) == multiset(events)
    ensures sorted == events
  {
    assert |sorted| == |multiset(sorted)| == |events|;
    if events != [] {
      assert events[0] in multiset(sorted);
      assert sorted[0] in multiset(events);
      FirstIsFirst(events, sorted);
      TailSame(events, sorted);
      TailAscends(events);
      TailAscends(sorted);
      hide AscendingEvents;
      SortingChangesNothing(events[1..], sorted[1..]);
      assert events == [events[0]] + events[1..] && sorted == [sorted[0]] + sorted[1..];
    }
  }

  lemma TailAscends(events: seq<DemoEvent>)
    requires AscendingEvents(events) && events != []
    ensures AscendingEvents(events[1..])
  {
    var tail := events[1..];
    forall i, j | 0 <= i < j < |tail| ensures StrictlyBefore(tail[i].date, tail[j].date) {
      assert tail[i] == events[i + 1] && tail[j] == events[j + 1];
      assert StrictlyBefore(events[i + 1].date, events[j + 1].date);
    }
  }

  lemma TailSame(events: seq<DemoEvent>, sorted: seq<DemoEvent>)
    requires events != [] && sorted != [] && events[0] == sorted[0] && multiset(sorted) == multiset(events)
    ensures multiset(sorted[1..]) == multiset(events[1..])
  {
    assert events == [events[0]] + events[1..] && sorted == [sorted[0]] + sorted[1..];
    assert multiset(events[1..]) == multiset(events) - multiset{events[0]};
    assert multiset(sorted[1..]) == multiset(sorted) - multiset{sorted[0]};
  }

  lemma FirstIsFirst(events: seq<DemoEvent>, sorted: seq<DemoEvent>)
    requires AscendingEvents(events) && AscendingEvents(sorted) && events != [] && sorted != []
    requires events[0] in sorted && sorted[0] in events
    ensures events[0] == sorted[0]
  {
    var i :| 0 <= i < |sorted| && sorted[i] == events[0];
    var j :| 0 <= j < |events| && events[j] == sorted[0];
    hide DayNumber; hide ValidDate;
  }

  // ----- the fillers ------------------------------------------------------

  function FillerCount(events: seq<DemoEvent>): nat {
    if events == [] then 0
    else FillerCount(events[..|events| - 1]) + if IsFiller(events[|events| - 1].title) then 1 else 0
  }

  /** The fillers rotate: candlelight talk, gathering, lecture, with the speakers and the topics in their turn. */
  ghost predicate FillersRotate(events: seq<DemoEvent>) {
    forall i :: 0 <= i < |events| && IsFiller(events[i].title) ==> events[i].title == Turn(FillerCount(events[..i]))
  }

  function Turn(k: nat): Title {
    if k % 3 == 0 then Kerzengespraech else if k % 3 == 1 then Begegnung else Vortrag(k % 60, k % 10)
  }

  lemma FillersTakeTurns(k: nat)
    ensures FillerTitle(k) == Turn(k)
  {
  }

  /** The baseline filled exactly the slots it found free, in rotation. */
  ghost predicate FilledInOrder(slots: seq<Slot>, before: Plan, p: Plan) {
    forall i :: 0 <= i < |slots| ==>
      && (IsFilled(before, slots[i]) <==> slots[i].date in p && IsFiller(p[slots[i].date]))
      && (IsFilled(before, slots[i]) ==> p[slots[i].date] == FillerTitle(FillersBefore(slots, before, i)))
  }

  lemma {:induction false} FillersInList(slots: seq<Slot>, before: Plan, p: Plan, n: nat)
    requires n <= |slots| && FilledInOrder(slots, before, p)
    ensures FillerCount(EventsOf(slots[..n], p)) == FillersBefore(slots, before, n)
    ensures FillersRotate(EventsOf(slots[..n], p))
  {
    if n > 0 {
      FillersInList(slots, before, p, n - 1);
      var es0, es, s := EventsOf(slots[..n - 1], p), EventsOf(slots[..n], p), slots[n - 1];
      EventsSnoc(slots, p, n);
      NextFiller(slots, before, p, n);
      hide Turn; hide IsFiller; hide IsFilled; hide EventsOf; hide FillersBefore; hide FillersRotate; hide FillerCount; hide FilledInOrder;
      if s.date in p {
        var e := DemoEvent(s.date, p[s.date]);
        RotationSnoc(es0, e);
        assert es == es0 + [e];
      } else {
        assert es == es0;
      }
    }
  }

  lemma NextFiller(slots: seq<Slot>, before: Plan, p: Plan, n: nat)
    requires 0 < n <= |slots| && FilledInOrder(slots, before, p)
    ensures var s := slots[n - 1]; var k := FillersBefore(slots, before, n - 1);
            if s.date in p && IsFiller(p[s.date]) then p[s.date] == Turn(k) && FillersBefore(slots, before, n) == k + 1
            else FillersBefore(slots, before, n) == k
  {
    FillersTakeTurns(FillersBefore(slots, before, n - 1));
    assert IsFilled(before, slots[n - 1]) <==> slots[n - 1].date in p && IsFiller(p[slots[n - 1].date]);
    hide FillerTitle; hide Turn; hide IsFiller; hide IsFilled;
  }

  lemma EventsSnoc(slots: seq<Slot>, p: Plan, n: nat)
    requires 0 < n <= |slots|
    ensures var s := slots[n - 1];
            EventsOf(slots[..n], p) == EventsOf(slots[..n - 1], p) + if s.date in p then [DemoEvent(s.date, p[s.date])] else []
  {
    assert slots[..n][..n - 1] == slots[..n - 1];
  }

  lemma RotationSnoc(events: seq<DemoEvent>, e: DemoEvent)
    requires FillersRotate(events) && (IsFiller(e.title) ==> e.title == Turn(FillerCount(events)))
    ensures FillersRotate(events + [e])
    ensures FillerCount(events + [e]) == FillerCount(events) + if IsFiller(e.title) then 1 else 0
  {
    hide Turn; hide IsFiller;
    var all := events + [e];
    assert all[..|events|] == events;
    forall i | 0 <= i < |all| && IsFiller(all[i].title) ensures all[i].title == Turn(FillerCount(all[..i])) {
      if i < |events| { assert all[..i] == events[..i]; }
    }
    hide FillerCount;
  }

  lemma BaselineFills(slots: seq<Slot>, before: Plan, p: Plan, pending: seq<Pending>)
    requires GoodSlots(slots) && Ready(slots, p, pending) && Extends(before, p)
    requires forall d :: d in before ==> IsPlaced(before[d])
    requires forall d :: d in p && d !in before ==> IsBaseline(d, p[d])
    requires forall i :: 0 <= i < |slots| && IsFilled(before, slots[i]) ==>
               slots[i].date in p && p[slots[i].date] == FillerTitle(FillersBefore(slots, before, i))
    ensures FilledInOrder(slots, before, p)
  {
    hide MonthOk; hide FillersBefore; hide CeremonyCounts; hide PrecursorsOk;
    forall i | 0 <= i < |slots| ensures IsFilled(before, slots[i]) <==> slots[i].date in p && IsFiller(p[slots[i].date]) {
      var s := slots[i];
      if s.date in p && IsFiller(p[s.date]) { assert s.date !in before; }
    }
    hide Ready; hide GoodSlots;
  }

  // ----- from the passes to the promises ----------------------------------

  lemma PrecursorsAllMatch(slots: seq<Slot>, p: Plan, pending: seq<Pending>, at: map<Date, Date>)
    requires Ready(slots, p, pending) && CeremoniesServed(slots, p, at)
    ensures PrecursorsMatch(p, at)
  {
    hide CeremonyServed; hide PreparedOrFull; hide PrecursorsOk; hide PendingOk; hide HoldsFixed; hide CeremonyCounts;
    forall c | c in p && NeedsPrecursor(p[c]) ensures PreparedOrFull(p, at, c) { ServedIsPrepared(slots, p, at, c); }
  }

  lemma ServedIsPrepared(slots: seq<Slot>, p: Plan, at: map<Date, Date>, c: Date)
    requires OnSlots(slots, p) && c in p && CeremonyServed(slots, p, at, c)
    ensures PreparedOrFull(p, at, c)
  {
    hide OnSlots; hide CloserEarly; hide CloserTaken; hide WeeksApart;
    if c in at {
      var w :| 5 <= w <= 12 && WeeksApart(at[c], c, w) && CloserTaken(slots, p, c, w);
      TakenIsEarly(slots, p, c, w);
    } else {
      TakenIsEarly(slots, p, c, 13);
    }
  }

  lemma TakenIsEarly(slots: seq<Slot>, p: Plan, c: Date, weeks: nat)
    requires OnSlots(slots, p) && CloserTaken(slots, p, c, weeks)
    ensures CloserEarly(p, c, weeks)
  {
    hide WeeksApart; hide IsEarly; hide IsBlackedOut;
    forall d, v | d in p && 5 <= v < weeks && WeeksApart(d, c, v) && d.day > 7 && !IsBlackedOut(d) ensures IsEarly(p[d]) {
      var s := SlotOf(d);
      assert s in slots && s.date == d && WeeksApart(s.date, c, v);
    }
  }

  /** A filler in the middle of its month stands on a slot that no Instruktion wanted. */
  lemma FillersAreLeft(slots: seq<Slot>, months: seq<int>, before: Plan, p: Plan, pending: seq<Pending>, d: Date)
    requires GoodSlots(slots) && Ready(slots, p, pending) && Extends(before, p) && Instruktionen(p) == Instruktionen(before)
    requires forall e :: e in before ==> IsPlaced(before[e])
    requires forall s :: s in slots && InMiddle(slots, s.date) && Free(before, s) ==> LeftOver(months, before, s.date)
    requires d in p && IsFiller(p[d]) && InMiddleWeeks(d)
    ensures LeftOver(months, p, d)
  {
    hide GoodSlots; hide LeftOver; hide HoldsFixed; hide CeremonyCounts; hide PrecursorsOk; hide PendingOk; hide InMiddle;
    var s := SlotOf(d);
    assert s in slots && s.date == d && !s.blackout && d !in before;
    MiddleWeeks(slots, d);
    assert LeftOver(months, before, d);
    LeftStays(months, before, p, d);
  }

  lemma MiddleWeeks(slots: seq<Slot>, d: Date)
    requires GoodSlots(slots) && ValidDate(d) && SlotOf(d) in slots && InMiddleWeeks(d)
    ensures InMiddle(slots, d)
  {
    hide GoodSlots;
    SlotFacts(slots, SlotOf(d));
    hide MonthOk; hide MonthSlots;
    var ms := MonthSlots(slots, d.month);
    var k :| 0 <= k < |ms| && ms[k] == SlotOf(d);
    NthSlot(slots, d.month, k);
  }

  lemma LeftStays(months: seq<int>, before: Plan, p: Plan, d: Date)
    requires LeftOver(months, before, d) && Extends(before, p) && Instruktionen(p) == Instruktionen(before)
    ensures LeftOver(months, p, d)
  {
    hide Before;
    if e :| e in before && before[e] == Instruktion && e.month == d.month && e.day < d.day {
      assert e in p && p[e] == Instruktion;
    } else {
      forall e | e in p && p[e] == Instruktion ensures Before(months, e.month, d.month) { assert e in Instruktionen(p); }
    }
  }

  /** Months in their order are dates in their order. */
  lemma MonthsAreOrdered(y: int, m: int, months: seq<int>, e: Date, d: Date)
    requires 0 <= m < 12 && |months| == 12 && forall i :: 0 <= i < 12 ==> months[i] == MonthAfter(y, m, i).month
    requires ThursdayOf(e, y, m) && ThursdayOf(d, y, m) && Before(months, e.month, d.month)
    ensures Earlier(e, d)
  {
    YearByEpoch(e, y, m);
    YearByEpoch(d, y, m);
    hide ThursdayOf; hide InYear;
    var i, j :| 0 <= i < j < |months| && months[i] == e.month && months[j] == d.month;
    ItsMonth(y, m, e, i);
    ItsMonth(y, m, d, j);
    MonthOrder(y, m, i, j, e, d);
  }

  lemma EarliestInTheYear(y: int, m: int, months: seq<int>, p: Plan)
    requires 0 <= m < 12 && |months| == 12 && forall i :: 0 <= i < 12 ==> months[i] == MonthAfter(y, m, i).month
    requires CoversTheYear(p, y, m)
    requires forall d :: d in p && IsFiller(p[d]) && InMiddleWeeks(d) ==> LeftOver(months, p, d)
    ensures InstruktionenEarliest(p)
  {
    hide IsFiller; hide InMiddleWeeks; hide Before; hide ThursdayOf; hide MayHaveEvent;
    forall d | d in p && IsFiller(p[d]) && InMiddleWeeks(d)
      ensures || (exists e :: e in p && p[e] == Instruktion && e.month == d.month && e.day < d.day)
              || (|Instruktionen(p)| == 3 && forall e :: e in p && p[e] == Instruktion ==> Earlier(e, d))
    {
      assert LeftOver(months, p, d);
      forall e | e in p && p[e] == Instruktion && Before(months, e.month, d.month) ensures Earlier(e, d) {
        MonthsAreOrdered(y, m, months, e, d);
      }
    }
  }

  lemma PassesGiveSchedule(slots: seq<Slot>, p: Plan, pending: seq<Pending>, y: int, m: int)
    requires 0 <= m < 12 && Ready(slots, p, pending)
    requires forall d :: InYear(d, y, m) <==> SlotOf(d) in slots && ValidDate(d)
    requires forall s :: s in slots && !s.blackout ==> s.date in p
    requires forall d :: d in p && p[d] == Gaesteabend ==> d.day <= 7
    ensures CoversTheYear(p, y, m) && FirstsAndFixed(p) && CeremonyCounts(p) && PrecursorsPlaced(p)
  {
    hide InYear; hide CeremonyCounts; hide PrecursorsOk; hide PendingOk; hide FixedTitles; hide CoversTheYear;
    AllCovered(slots, p, y, m);
    forall d | d in p ensures d.day <= 7 <==> p[d] == Gaesteabend { }
    forall d | d in p && IsPrecursor(p[d]) ensures d.day > 7 && !IsBlackedOut(d) { }
    hide OnSlots; hide HoldsFixed;
  }

  lemma AllCovered(slots: seq<Slot>, p: Plan, y: int, m: int)
    requires 0 <= m < 12 && OnSlots(slots, p) && HoldsFixed(slots, p)
    requires forall d :: InYear(d, y, m) <==> SlotOf(d) in slots && ValidDate(d)
    requires forall s :: s in slots && !s.blackout ==> s.date in p
    ensures CoversTheYear(p, y, m)
  {
    hide InYear; hide ThursdayOf;
    forall d ensures d in p <==> ThursdayOf(d, y, m) && MayHaveEvent(d) {
      YearByEpoch(d, y, m);
      if InYear(d, y, m) && !IsBlackedOut(d) { assert SlotOf(d) in slots && !SlotOf(d).blackout; }
    }
  }

  /** Titles that appear before the baseline pass. */
  predicate IsPlaced(t: Title) {
    IsFixed(t) || IsCeremony(t) || t.Erhebung? || t.Brudermahl? || IsPrecursor(t) || t.Instruktion?
  }

  /** Fixed dates, ceremonies and the monthly guarantee: the passes that must not lose a race. */
  method RunFirstPasses(b: ScheduleBuilder) returns (ghost t: Lists)
    requires b.Valid() && b.plan == map[] && b.takenMonths == {} && b.pending == []
    modifies b
    ensures Ready(b.slots, b.plan, b.pending) && Awaited(b.plan, b.pending)
    ensures TaIEveryMonth(b.plan)
    ensures forall d :: d in b.plan ==> IsEarly(b.plan[d]) && !IsPrecursor(b.plan[d])
    ensures CeremonyDays(b.plan) && BefInOrder(b.slots, b.months, b.plan) && Guarded(b.slots, b.plan)
    ensures Rotation(b.months, b.plan, t) && KugelungTurns(b.pending, t.auf)
  {
    hide CeremonyTurns; hide KugelungTurns; hide ErhebungList; hide Rotation;
    hide Ready; hide GoodSlots; hide FixedPlan; hide AllMonths; hide TaICandidate; hide HasAufnahme; hide HasTaI; hide Awaited;
    hide CeremonyDays; hide BefInOrder; hide Guarded;
    b.AssignFixedDates();
    ghost var bef, auf := b.PlaceCeremonies();
    ghost var c, waiting := b.plan, b.pending;
    ghost var erh := b.PlaceErhebungen();
    ghost var e := b.plan;
    t := Lists(bef, erh, auf);
    FirstRotation(b.months, c, e, waiting, b.pending, t);
    ErhebungenKeepOrder(b.slots, b.months, c, e, b.pending);
    b.GuaranteeTaI();
    AwaitedStays(e, b.plan, b.pending);
    GuaranteeKeepsOrder(b.slots, b.months, e, b.plan);
    RotationKept(b.months, e, b.plan, t);
  }

  lemma FirstRotation(months: seq<int>, c: Plan, e: Plan, waiting: seq<Pending>, pending: seq<Pending>, t: Lists)
    requires CeremonyTurns(months, c, t.bef, t.auf) && ErhebungList(months, e, t.erh) && KugelungTurns(waiting, t.auf)
    requires Extends(c, e) && waiting <= pending && forall d :: d in e && d !in c ==> e[d].Erhebung?
    ensures Rotation(months, e, t) && KugelungTurns(pending, t.auf)
  {
    CeremonyTurnsKept(months, c, e, t.bef, t.auf);
    hide CeremonyTurns; hide ErhebungList;
    forall i | 0 <= i < |t.auf| ensures WaitsWith(pending, t.auf[i], Kugelung(i % 10)) {
      var k :| 0 <= k < |waiting| && waiting[k].ceremony.date == t.auf[i] && waiting[k].title == Kugelung(i % 10);
      assert pending[k] == waiting[k];
    }
  }

  lemma ErhebungenKeepOrder(slots: seq<Slot>, months: seq<int>, c: Plan, e: Plan, pending: seq<Pending>)
    requires Extends(c, e) && CeremonyDays(c) && BefInOrder(slots, months, c) && Ready(slots, e, pending)
    requires forall d :: d in c ==> d.day >= 15 && (IsFixed(c[d]) || IsCeremony(c[d]))
    requires forall d :: d in e && d !in c ==> e[d].Erhebung? && d.day >= 29
    ensures Unguarded(slots, e) && BefInOrder(slots, months, e)
  {
    hide CeremonyDays; hide BefInOrder; hide OnSlots; hide FixedTitles; hide CeremonyCounts; hide PrecursorsOk; hide PendingOk;
    DaysKept(c, e);
    OrderKept(slots, months, c, e);
  }

  lemma GuaranteeKeepsOrder(slots: seq<Slot>, months: seq<int>, e: Plan, g: Plan)
    requires GoodSlots(slots) && Unguarded(slots, e) && BefInOrder(slots, months, e) && AddsGuarantee(slots, e, g)
    ensures CeremonyDays(g) && BefInOrder(slots, months, g) && Guarded(slots, g)
  {
    hide CeremonyDays; hide BefInOrder; hide Guarded; hide GoodSlots; hide TaICandidate; hide HasAufnahme; hide OnSlots; hide HasTaI;
    DaysKept(e, g);
    OrderKept(slots, months, e, g);
    GuaranteeLeaves(slots, e, g);
  }

  /** Precursors and Instruktionen take what the first passes left. */
  method RunMiddlePasses(b: ScheduleBuilder, ghost y: int, ghost m: int) returns (ghost at: map<Date, Date>, ghost t: Lists)
    requires b.Valid() && b.plan == map[] && b.takenMonths == {} && b.pending == []
    requires 0 <= m < 12 && TheYear(b.slots, b.months, y, m)
    modifies b
    ensures Ready(b.slots, b.plan, b.pending)
    ensures TaIEveryMonth(b.plan) && CeremoniesServed(b.slots, b.plan, at) && SomeUnpreparable(b.plan)
    ensures Rotation(b.months, b.plan, t) && BallotTurns(b.plan, at, t.auf)
    ensures |Instruktionen(b.plan)| == 3 && OnePerMonth(Instruktionen(b.plan))
    ensures forall d :: d in b.plan ==> IsPlaced(b.plan[d])
    ensures forall s :: s in b.slots && InMiddle(b.slots, s.date) && Free(b.plan, s) ==> LeftOver(b.months, b.plan, s.date)
  {
    hide Ready; hide GoodSlots; hide AllMonths; hide InMiddle; hide OnePerMonth; hide HasTaI; hide TaIEveryMonth; hide Instruktionen;
    hide CeremoniesServed; hide LeftOver; hide Awaited; hide CeremonyDays; hide BefInOrder; hide Guarded; hide TheYear; hide Room;
    hide SomeUnpreparable; hide Rotation; hide KugelungTurns; hide BallotTurns; hide Titled;
    t := RunFirstPasses(b);
    ghost var guaranteed := b.plan;
    DistinctWaits(guaranteed, b.pending);
    at := b.PlacePrecursors();
    ghost var prepared := b.plan;
    assert forall d :: d in prepared ==> IsPlaced(prepared[d]) && prepared[d] != Instruktion;
    ghost var third := AfterPrecursors(b.slots, b.months, y, m, guaranteed, prepared, b.pending, at);
    BallotsInTurn(prepared, b.pending, at, t.auf);
    b.PlaceInstruktionen();
    TurnsKept(b.months, guaranteed, prepared, b.plan, at, t);
    ThreeReached(b.slots, b.months, prepared, b.plan, third);
    GuaranteeKept(guaranteed, b.plan);
    CeremoniesStayServed(b.slots, prepared, b.plan, at);
    UnpreparableKept(prepared, b.plan);
  }

  lemma DistinctWaits(p: Plan, pending: seq<Pending>)
    requires Awaited(p, pending)
    ensures forall i, j :: 0 <= i < j < |pending| ==> pending[i].ceremony.date != pending[j].ceremony.date
  {
  }

  lemma TurnsKept(months: seq<int>, g: Plan, prepared: Plan, q: Plan, at: map<Date, Date>, t: Lists)
    requires Rotation(months, g, t) && BallotTurns(prepared, at, t.auf) && Extends(g, prepared) && Extends(prepared, q)
    requires forall d :: d in prepared && d !in g ==> IsPrecursor(prepared[d])
    requires forall d :: d in q && d !in prepared ==> q[d] == Instruktion
    ensures Rotation(months, q, t) && BallotTurns(q, at, t.auf)
  {
    RotationKept(months, g, prepared, t);
    RotationKept(months, prepared, q, t);
    hide Rotation;
  }

  /** All passes, with the baseline as the last. */
  method RunPasses(b: ScheduleBuilder, ghost y: int, ghost m: int)
      returns (ghost at: map<Date, Date>, ghost before: Plan, ghost t: Lists)
    requires b.Valid() && b.plan == map[] && b.takenMonths == {} && b.pending == []
    requires 0 <= m < 12 && TheYear(b.slots, b.months, y, m)
    modifies b
    ensures Ready(b.slots, b.plan, b.pending)
    ensures TaIEveryMonth(b.plan)
    ensures PrecursorsMatch(b.plan, at) && SomeUnpreparable(b.plan)
    ensures Rotation(b.months, b.plan, t) && BallotTurns(b.plan, at, t.auf)
    ensures |Instruktionen(b.plan)| == 3 && OnePerMonth(Instruktionen(b.plan))
    ensures forall d :: d in b.plan && IsFiller(b.plan[d]) && InMiddleWeeks(d) ==> LeftOver(b.months, b.plan, d)
    ensures FilledInOrder(b.slots, before, b.plan)
    ensures forall s :: s in b.slots && !s.blackout ==> s.date in b.plan
    ensures forall d :: d in b.plan && b.plan[d] == Gaesteabend ==> d.day <= 7
  {
    hide Ready; hide GoodSlots; hide AllMonths; hide InMiddle; hide OnePerMonth; hide HasTaI; hide TaIEveryMonth; hide Instruktionen;
    hide CeremoniesServed; hide PrecursorsMatch; hide LeftOver; hide FilledInOrder; hide FillersBefore; hide InMiddleWeeks; hide TheYear;
    hide SomeUnpreparable; hide Rotation; hide BallotTurns;
    at, t := RunMiddlePasses(b, y, m);
    before := b.plan;
    b.FillBaseline();
    BaselineKeepsTurns(b.months, before, b.plan, at, t);
    BaselineAddsNoInstruktion(before, b.plan);
    GuaranteeKept(before, b.plan);
    MatchKept(b.slots, before, b.plan, b.pending, at);
    BaselineFills(b.slots, before, b.plan, b.pending);
    forall d | d in b.plan && IsFiller(b.plan[d]) && InMiddleWeeks(d) ensures LeftOver(b.months, b.plan, d) {
      FillersAreLeft(b.slots, b.months, before, b.plan, b.pending, d);
    }
  }

  /** What holds once the precursors stand: room for three Instruktionen, and ceremonies that nothing prepares. */
  lemma AfterPrecursors(slots: seq<Slot>, months: seq<int>, y: int, m: int, g: Plan, q: Plan, pending: seq<Pending>, at: map<Date, Date>)
    returns (third: int)
    requires 0 <= m < 12 && TheYear(slots, months, y, m) && Ready(slots, q, pending) && CeremoniesServed(slots, q, at)
    requires CeremonyDays(g) && BefInOrder(slots, months, g) && Guarded(slots, g) && Extends(g, q)
    requires forall d :: d in g ==> !IsPrecursor(g[d])
    requires forall d :: d in q && d !in g ==> IsPrecursor(q[d])
    ensures Room(slots, q, 4) && Room(slots, q, 5) && Room(slots, q, third) && third != 4 && third != 5
    ensures SomeUnpreparable(q)
  {
    hide TheYear; hide CeremoniesServed; hide CeremonyDays; hide BefInOrder; hide Guarded; hide Room; hide Unprepared; hide FirstBefoerderung; hide OnSlots;
    hide FixedTitles; hide PrecursorsOk; hide PendingOk; hide Befoerderungen; hide Aufnahmen; hide IsEarly;
    DaysKept(g, q);
    OrderKept(slots, months, g, q);
    assert WithPrecursors(slots, g, q, at);
    third := ThreeRooms(slots, months, y, m, g, q, at);
    SomeUnprepared(slots, months, y, m, g, q, at);
  }

  lemma BaselineKeepsTurns(months: seq<int>, before: Plan, p: Plan, at: map<Date, Date>, t: Lists)
    requires Rotation(months, before, t) && BallotTurns(before, at, t.auf) && Extends(before, p)
    requires forall d :: d in p && d !in before ==> IsBaseline(d, p[d])
    ensures Rotation(months, p, t) && BallotTurns(p, at, t.auf)
  {
    RotationKept(months, before, p, t);
    hide Rotation;
  }

  /** Dates in the order of their months are in the order of the year. */
  lemma ListByDate(y: int, m: int, months: seq<int>, p: Plan, dates: seq<Date>)
    requires 0 <= m < 12 && |months| == 12 && forall i :: 0 <= i < 12 ==> months[i] == MonthAfter(y, m, i).month
    requires CoversTheYear(p, y, m) && ByMonths(months, dates) && forall d :: d in dates ==> d in p
    ensures ByDate(dates)
  {
    hide Before; hide ThursdayOf; hide MayHaveEvent;
    forall i, j | 0 <= i < j < |dates| ensures Earlier(dates[i], dates[j]) { MonthsAreOrdered(y, m, months, dates[i], dates[j]); }
  }

  lemma RotationByDate(y: int, m: int, months: seq<int>, p: Plan, at: map<Date, Date>, t: Lists)
    requires 0 <= m < 12 && |months| == 12 && forall i :: 0 <= i < 12 ==> months[i] == MonthAfter(y, m, i).month
    requires CoversTheYear(p, y, m) && Rotation(months, p, t) && BallotTurns(p, at, t.auf)
    ensures InTurn(p, at)
  {
    hide CoversTheYear; hide ByMonths; hide ByDate; hide BallotTurns;
    ListByDate(y, m, months, p, t.bef);
    ListByDate(y, m, months, p, t.erh);
    ListByDate(y, m, months, p, t.auf);
    assert ListsInTurn(p, at, t);
  }

  lemma BaselineTitles(before: Plan, p: Plan)
    requires forall d :: d in p && d !in before ==> IsBaseline(d, p[d])
    ensures forall d :: d in p && d !in before ==> !NeedsPrecursor(p[d]) && !IsPrecursor(p[d])
  {
  }

  lemma MatchKept(slots: seq<Slot>, before: Plan, p: Plan, pending: seq<Pending>, at: map<Date, Date>)
    requires CeremoniesServed(slots, before, at) && Extends(before, p) && Ready(slots, p, pending)
    requires forall d :: d in p && d !in before ==> IsBaseline(d, p[d])
    requires SomeUnpreparable(before)
    ensures PrecursorsMatch(p, at) && SomeUnpreparable(p)
  {
    hide CeremoniesServed; hide PrecursorsMatch; hide Ready; hide SomeUnpreparable;
    BaselineTitles(before, p);
    UnpreparableKept(before, p);
    CeremoniesStayServed(slots, before, p, at);
    PrecursorsAllMatch(slots, p, pending, at);
  }

  lemma UnpreparableKept(q: Plan, p: Plan)
    requires SomeUnpreparable(q) && Extends(q, p)
    requires forall d :: d in p && d !in q ==> !NeedsPrecursor(p[d]) && !IsPrecursor(p[d])
    ensures SomeUnpreparable(p)
  {
    hide Unprepared; hide IsPrecursor;
    forall c | Unprepared(q, c) ensures Unprepared(p, c) { UnpreparedStays(q, p, c); }
    var c :| FirstBefoerderung(q, c) && Unprepared(q, c);
    assert FirstBefoerderung(p, c);
  }

  lemma GuaranteeKept(p: Plan, q: Plan)
    requires Extends(p, q) && TaIEveryMonth(p)
    ensures TaIEveryMonth(q)
  {
    forall m | 0 <= m < 12 && m != 6 && m != 7 ensures HasTaI(q, m) {
      ExtendKeepsTaI(p, q, m);
    }
  }

  lemma BaselineAddsNoInstruktion(p: Plan, q: Plan)
    requires Extends(p, q) && forall d :: d in q && d !in p ==> IsBaseline(d, q[d])
    ensures Instruktionen(q) == Instruktionen(p)
  {
  }

  /** For every seed year and month: the events ascend strictly by date, and the plan they spell out
      keeps every promise. */
  method BuildDemoEventSchedule(seedYear: int, seedMonth: int) returns (events: seq<DemoEvent>)
    requires 0 <= seedMonth < 12
    ensures AscendingEvents(events)
    ensures forall k :: 0 <= k < |events| ==> ThursdayOf(events[k].date, seedYear, seedMonth) && MayHaveEvent(events[k].date)
    ensures ScheduleOk(PlanOf(events), seedYear, seedMonth)
    ensures FillersRotate(events)
  {
    hide InTurn; hide Rotation; hide BallotTurns; hide PrecursorsMatch; hide InstruktionenEarliest; hide SomeUnpreparable; hide FilledInOrder; hide LeftOver; hide FillersRotate; hide InMiddleWeeks;
    hide ThursdayOf; hide MayHaveEvent; hide Ready; hide GoodSlots; hide AllMonths; hide CoversTheYear; hide FirstsAndFixed; hide CeremonyCounts; hide TaIEveryMonth;
    hide PrecursorsPlaced; hide OnePerMonth; hide AscendingEvents; hide InYear; hide HasDate; hide EventsOf; hide PlanOf; hide Instruktionen;
    var order, slots := BuildSlots(seedYear, seedMonth);
    var months := seq(12, i requires 0 <= i < 12 => order[i].month);
    TwelveMonths(seedYear, seedMonth, months);
    var b := new ScheduleBuilder(slots, months);
    ghost var at, before, t := RunPasses(b, seedYear, seedMonth);
    PassesGiveSchedule(slots, b.plan, b.pending, seedYear, seedMonth);
    RotationByDate(seedYear, seedMonth, months, b.plan, at, t);
    EarliestInTheYear(seedYear, seedMonth, months, b.plan);
    events := EventsOf(slots, b.plan);
    assert slots[..|slots|] == slots;
    FillersInList(slots, before, b.plan, |slots|);
    SlotsAscend(slots);
    EventsAscend(slots, b.plan);
    EventsSpellPlan(slots, b.plan);
    AllDatesAreSlots(slots, b.plan, b.pending);
    assert PlanOf(events) == b.plan;
    AllOnThursdays(events, seedYear, seedMonth);
  }

  lemma SlotsAscend(slots: seq<Slot>)
    requires GoodSlots(slots)
    ensures forall i :: 0 <= i < |slots| ==> ValidDate(slots[i].date)
    ensures forall i, j :: 0 <= i < j < |slots| ==> Earlier(slots[i].date, slots[j].date)
  {
  }

  lemma AllDatesAreSlots(slots: seq<Slot>, p: Plan, pending: seq<Pending>)
    requires Ready(slots, p, pending)
    ensures forall d :: d in p ==> HasDate(slots, d)
  {
    forall d | d in p ensures HasDate(slots, d) {
      assert SlotOf(d) in slots;
      var i :| 0 <= i < |slots| && slots[i] == SlotOf(d);
      assert slots[i].date == d;
    }
  }

  lemma TwelveMonths(y: int, m: int, months: seq<int>)
    requires 0 <= m < 12 && |months| == 12
    requires forall i :: 0 <= i < 12 ==> months[i] == MonthAfter(y, m, i).month
    ensures AllMonths(months)
  {
    forall i, j | 0 <= i < j < |months| ensures months[i] != months[j] { MonthsDiffer(y, m, i, j); }
    forall k | 0 <= k < 12 ensures k in months {
      var i := EveryMonth(y, m, k);
      assert months[i] == k;
    }
  }
}
