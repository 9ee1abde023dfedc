/** Whose turn it is: the ceremonies of each kind, in the order of their months, take the names in rotation
    (api/src/lib/demoSeed.ts). */
module Turns {
  import opened Wrappers
  import opened Calendar
  import opened Slots
  import opened Plans
  import opened CeremonyOrder

  ghost predicate ByMonths(months: seq<int>, dates: seq<Date>) {
    forall i, j :: 0 <= i < j < |dates| ==> Before(months, dates[i].month, dates[j].month)
  }

  /** These are the dates of the Beförderungen, four apprentices taking turns. */
  ghost predicate BefoerderungTurns(p: Plan, dates: seq<Date>) {
    && (forall d :: d in dates <==> d in p && p[d].Befoerderung?)
    && forall i :: 0 <= i < |dates| ==> dates[i] in p && p[dates[i]] == Befoerderung(i % 4)
  }

  /** These are the dates of the Erhebungen, six fellow crafts taking turns. */
  ghost predicate ErhebungTurns(p: Plan, dates: seq<Date>) {
    && (forall d :: d in dates <==> d in p && p[d].Erhebung?)
    && forall i :: 0 <= i < |dates| ==> dates[i] in p && p[dates[i]] == Erhebung(i % 6)
  }

  ghost predicate AufnahmeDates(p: Plan, dates: seq<Date>) {
    forall d :: d in dates <==> d in p && p[d].Aufnahme?
  }

  /** The two ceremony lists, in the order of the months. */
  ghost predicate CeremonyTurns(months: seq<int>, p: Plan, bef: seq<Date>, auf: seq<Date>) {
    ByMonths(months, bef) && ByMonths(months, auf) && BefoerderungTurns(p, bef) && AufnahmeDates(p, auf)
  }

  /** The dates of the ceremonies, by kind. */
  datatype Lists = Lists(bef: seq<Date>, erh: seq<Date>, auf: seq<Date>)

  ghost predicate Rotation(months: seq<int>, p: Plan, t: Lists) {
    CeremonyTurns(months, p, t.bef, t.auf) && ErhebungList(months, p, t.erh)
  }

  ghost predicate ErhebungList(months: seq<int>, p: Plan, erh: seq<Date>) {
    ByMonths(months, erh) && ErhebungTurns(p, erh)
  }

  lemma RotationKept(months: seq<int>, p: Plan, q: Plan, t: Lists)
    requires Rotation(months, p, t) && Extends(p, q) && forall d :: d in q && d !in p ==> !IsCeremony(q[d]) && !q[d].Erhebung?
    ensures Rotation(months, q, t)
  {
    CeremonyTurnsKept(months, p, q, t.bef, t.auf);
    ErhebungListKept(months, p, q, t.erh);
  }

  /** The list of Erhebungen so far, all in the first `i` months. */
  ghost predicate ErhebungenUpTo(months: seq<int>, i: nat, p: Plan, erh: seq<Date>)
    requires i <= |months|
  {
    ErhebungList(months, p, erh) && forall d :: d in erh ==> d.month in months[..i]
  }

  lemma NoErhebungYet(months: seq<int>, p: Plan)
    requires forall d :: d in p ==> !p[d].Erhebung?
    ensures ErhebungenUpTo(months, 0, p, [])
  {
  }

  lemma UpToAll(months: seq<int>, p: Plan, erh: seq<Date>)
    requires ErhebungenUpTo(months, |months|, p, erh)
    ensures ErhebungList(months, p, erh)
  {
  }

  /** The next month may add one, for the next in turn. */
  lemma ErhebungNext(months: seq<int>, i: nat, p: Plan, erh: seq<Date>, d: Date)
    requires i < |months| && ErhebungenUpTo(months, i, p, erh)
    ensures ErhebungenUpTo(months, i + 1, p, erh)
    ensures d !in p && d.month == months[i] ==> ErhebungenUpTo(months, i + 1, p[d := Erhebung(|erh| % 6)], erh + [d])
  {
    assert months[..i + 1] == months[..i] + [months[i]];
    if d !in p && d.month == months[i] {
      forall e | e in erh ensures Before(months, e.month, d.month) {
        var k :| 0 <= k < i && months[..i][k] == e.month;
        assert months[k] == e.month;
      }
    }
    hide Before;
  }

  lemma CeremonyTurnsKept(months: seq<int>, p: Plan, q: Plan, bef: seq<Date>, auf: seq<Date>)
    requires CeremonyTurns(months, p, bef, auf) && Extends(p, q) && forall d :: d in q && d !in p ==> !IsCeremony(q[d])
    ensures CeremonyTurns(months, q, bef, auf)
  {
    hide ByMonths;
  }

  lemma ErhebungListKept(months: seq<int>, p: Plan, q: Plan, erh: seq<Date>)
    requires ErhebungList(months, p, erh) && Extends(p, q) && forall d :: d in q && d !in p ==> !q[d].Erhebung?
    ensures ErhebungList(months, q, erh)
  {
    hide ByMonths;
  }

  function Dates(picked: seq<Slot>): seq<Date> { seq(|picked|, i requires 0 <= i < |picked| => picked[i].date) }

  ghost predicate SlotsByMonths(months: seq<int>, u: seq<Slot>) {
    && (forall i :: 0 <= i < |u| ==> u[i].month in months)
    && (forall i, j :: 0 <= i < j < |u| ==> Before(months, u[i].month, u[j].month))
  }

  /** Picking goes through the months in their order. */
  lemma {:induction false} UsableByMonths(rule: PickRule, slots: seq<Slot>, p: Plan, taken: set<int>, months: seq<int>)
    requires GoodSlots(slots) && forall i, j :: 0 <= i < j < |months| ==> months[i] != months[j]
    ensures SlotsByMonths(months, UsableSlots(rule, slots, p, taken, months))
  {
    hide GoodSlots; hide PickSlot; hide MonthSlots; hide Usable; hide Before;
    if months != [] {
      var n := |months| - 1;
      UsableByMonths(rule, slots, p, taken, months[..n]);
      var u0, u := UsableSlots(rule, slots, p, taken, months[..n]), UsableSlots(rule, slots, p, taken, months);
      assert forall i :: 0 <= i < |u0| ==> u[i] == u0[i];
      if Wanted(rule, slots, p, taken, months[n]) { WantedMonth(rule, slots, p, taken, months[n]); }
      hide SlotsByMonths;
      OneMoreMonth(months, u0, u);
    }
  }

  lemma OneMoreMonth(months: seq<int>, u0: seq<Slot>, u: seq<Slot>)
    requires months != [] && |u0| <= |u| <= |u0| + 1 && forall i :: 0 <= i < |u0| ==> u[i] == u0[i]
    requires |u| > |u0| ==> u[|u0|].month == months[|months| - 1]
    requires SlotsByMonths(months[..|months| - 1], u0)
    ensures SlotsByMonths(months, u)
  {
    assert months == months[..|months| - 1] + [months[|months| - 1]];
    hide Before;
    forall i, j | 0 <= i < j < |u| ensures Before(months, u[i].month, u[j].month) {
      if j < |u0| {
        BeforeInMore(months, u0[i].month, u0[j].month);
      } else {
        BeforeLast(months, u0[i].month);
      }
    }
  }

  lemma WantedMonth(rule: PickRule, slots: seq<Slot>, p: Plan, taken: set<int>, month: int)
    requires GoodSlots(slots) && Wanted(rule, slots, p, taken, month)
    ensures PickSlot(rule, MonthSlots(slots, month), p).Some? && PickSlot(rule, MonthSlots(slots, month), p).value.month == month
  {
    PickedSlot(rule, slots, p, month);
  }

  lemma BeforeInMore(months: seq<int>, a: int, b: int)
    requires months != [] && Before(months[..|months| - 1], a, b)
    ensures Before(months, a, b)
  {
    var i, j :| 0 <= i < j < |months| - 1 && months[..|months| - 1][i] == a && months[..|months| - 1][j] == b;
    assert months[i] == a && months[j] == b;
  }

  lemma BeforeLast(months: seq<int>, a: int)
    requires months != [] && a in months[..|months| - 1]
    ensures Before(months, a, months[|months| - 1])
  {
    var i :| 0 <= i < |months| - 1 && months[..|months| - 1][i] == a;
    assert months[i] == a;
  }

  lemma PickedByMonths(rule: PickRule, slots: seq<Slot>, p: Plan, taken: set<int>, months: seq<int>, picked: seq<Slot>)
    requires GoodSlots(slots) && AllMonths(months) && Picks(rule, slots, p, taken, picked)
    requires picked <= UsableSlots(rule, slots, p, taken, months)
    ensures ByMonths(months, Dates(picked))
  {
    UsableByMonths(rule, slots, p, taken, months);
    PickedMonths(rule, slots, p, taken, picked);
    hide GoodSlots; hide AllMonths; hide Picks; hide UsableSlots; hide Before;
  }

  /** The picked slots are the ceremonies of the plan, in their turns. */
  lemma PickedInTurn(slots: seq<Slot>, months: seq<int>, p0: Plan, bef: seq<Slot>, auf: seq<Slot>, p: Plan)
    requires GoodSlots(slots) && AllMonths(months) && Ceremonies(slots, p0, bef, auf, p) && CarryTitles(p, bef, ThirdOrFifth)
    requires bef <= UsableSlots(ThirdOrFifth, slots, p0, {}, months) && CarryTitles(p, auf, Last)
    requires auf <= UsableSlots(Last, slots, AddCeremonies(p0, bef, ThirdOrFifth), MonthsOf(bef), months)
    ensures CeremonyTurns(months, p, Dates(bef), Dates(auf))
  {
    hide GoodSlots; hide AllMonths; hide Picks; hide UsableSlots; hide AddCeremonies; hide MonthsOf; hide FixedPlan; hide CarryTitles;
    PickedByMonths(ThirdOrFifth, slots, p0, {}, months, bef);
    PickedByMonths(Last, slots, AddCeremonies(p0, bef, ThirdOrFifth), MonthsOf(bef), months, auf);
    OnlyPicked(slots, p0, bef, auf, p);
    hide Ceremonies; hide ByMonths; hide DatesOf;
    TitlesInTurn(p, bef, auf);
  }

  lemma TitlesInTurn(p: Plan, bef: seq<Slot>, auf: seq<Slot>)
    requires CarryTitles(p, bef, ThirdOrFifth) && CarryTitles(p, auf, Last)
    requires forall d :: d in p ==> (p[d].Befoerderung? <==> d in DatesOf(bef)) && (p[d].Aufnahme? <==> d in DatesOf(auf))
    ensures BefoerderungTurns(p, Dates(bef)) && AufnahmeDates(p, Dates(auf))
  {
    ListedDates(bef);
    ListedDates(auf);
    hide DatesOf;
  }

  lemma ListedDates(picked: seq<Slot>)
    ensures forall d :: d in Dates(picked) <==> d in DatesOf(picked)
  {
    forall d | d in DatesOf(picked) ensures d in Dates(picked) {
      var i :| 0 <= i < |picked| && picked[i].date == d;
      assert Dates(picked)[i] == d;
    }
  }
}
