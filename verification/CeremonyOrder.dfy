/** On which days the ceremonies of the schedule fall (api/src/lib/demoSeed.ts), and that Beförderungen take the first
    months that can have one. */
module CeremonyOrder {
  import opened Wrappers
  import opened Calendar
  import opened Slots
  import opened Plans

  ghost predicate Before(months: seq<int>, a: int, b: int) {
    exists i, j :: 0 <= i < j < |months| && months[i] == a && months[j] == b
  }

  predicate InLastWeek(d: Date) { 0 <= d.month < 12 && d.day + 7 > DaysInMonth(d.year, d.month) }

  predicate RuleDay(rule: PickRule, d: Date) {
    if rule == Last then InLastWeek(d) else 15 <= d.day <= 21 || (d.month == 4 && d.day >= 29)
  }

  /** Beförderungen on third slots, in May on the fifth; Aufnahmen on last slots, Erhebungen on fifth ones. */
  ghost predicate CeremonyDays(p: Plan) {
    forall d :: d in p ==>
      && (p[d].Befoerderung? ==> d.month in Eligible() && RuleDay(ThirdOrFifth, d))
      && (p[d].Aufnahme? ==> d.month in Eligible() && RuleDay(Last, d))
      && (p[d].Erhebung? ==> d.day >= 29)
  }

  /** A month that can always have a Beförderung; December only if its third slot comes before the winter break. */
  ghost predicate SurelyUsable(slots: seq<Slot>, k: int) {
    k in Eligible() && k != 4 && (k == 11 ==> exists s :: s in slots && s.month == 11 && 15 <= s.date.day <= 19)
  }

  ghost predicate HasBefoerderung(p: Plan, k: int) { exists d :: d in p && d.month == k && p[d].Befoerderung? }

  /** No month that could have had a Beförderung is passed over. */
  ghost predicate BefInOrder(slots: seq<Slot>, months: seq<int>, p: Plan) {
    forall d, k :: d in p && p[d].Befoerderung? && SurelyUsable(slots, k) && Before(months, k, d.month) ==> HasBefoerderung(p, k)
  }

  lemma DaysKept(p: Plan, q: Plan)
    requires CeremonyDays(p) && Extends(p, q)
    requires forall d :: d in q && d !in p ==> !IsCeremony(q[d]) && (q[d].Erhebung? ==> d.day >= 29)
    ensures CeremonyDays(q)
  {
    hide RuleDay;
  }

  lemma OrderKept(slots: seq<Slot>, months: seq<int>, p: Plan, q: Plan)
    requires BefInOrder(slots, months, p) && Extends(p, q) && forall d :: d in q && d !in p ==> !q[d].Befoerderung?
    ensures BefInOrder(slots, months, q)
  {
    hide SurelyUsable; hide Before;
    forall d, k | d in q && q[d].Befoerderung? && SurelyUsable(slots, k) && Before(months, k, d.month) ensures HasBefoerderung(q, k) {
      assert d in p && HasBefoerderung(p, k);
      var e :| e in p && e.month == k && p[e].Befoerderung?;
      assert e in q && q[e].Befoerderung?;
    }
  }

  // ----- the days ---------------------------------------------------------

  lemma PickedDay(rule: PickRule, slots: seq<Slot>, p: Plan, month: int)
    requires GoodSlots(slots) && month in Eligible() && Usable(rule, slots, p, month)
    requires rule == ThirdOrFifth ==> FixedPlan(slots, p)
    ensures RuleDay(rule, PickSlot(rule, MonthSlots(slots, month), p).value.date)
  {
    assert MonthOk(slots, month);
    hide GoodSlots;
    if rule == ThirdOrFifth {
      var third := MonthSlots(slots, month)[2];
      assert third.date in p ==> IsFixedDay(third.date);
      hide FixedPlan;
    }
  }

  lemma PickedDays(rule: PickRule, slots: seq<Slot>, p: Plan, taken: set<int>, picked: seq<Slot>)
    requires GoodSlots(slots) && Picks(rule, slots, p, taken, picked) && (rule == ThirdOrFifth ==> FixedPlan(slots, p))
    ensures forall d :: d in DatesOf(picked) ==> d.month in Eligible() && RuleDay(rule, d)
  {
    hide GoodSlots; hide FixedPlan; hide RuleDay; hide PickSlot; hide MonthSlots; hide Usable;
    forall i | 0 <= i < |picked| ensures picked[i].date.month in Eligible() && RuleDay(rule, picked[i].date) {
      assert Wanted(rule, slots, p, taken, picked[i].month);
      PickedSlot(rule, slots, p, picked[i].month);
      PickedDay(rule, slots, p, picked[i].month);
    }
  }

  lemma CeremoniesOnDays(slots: seq<Slot>, p0: Plan, bef: seq<Slot>, auf: seq<Slot>, p: Plan)
    requires GoodSlots(slots) && Ceremonies(slots, p0, bef, auf, p)
    ensures CeremonyDays(p)
  {
    hide GoodSlots; hide RuleDay; hide DatesOf; hide MonthsOf; hide AddCeremonies; hide Picks;
    PickedDays(ThirdOrFifth, slots, p0, {}, bef);
    PickedDays(Last, slots, AddCeremonies(p0, bef, ThirdOrFifth), MonthsOf(bef), auf);
    OnlyPicked(slots, p0, bef, auf, p);
    hide Ceremonies;
  }

  /** The plan holds the fixed events and the picked ceremonies. */
  lemma OnlyPicked(slots: seq<Slot>, p0: Plan, bef: seq<Slot>, auf: seq<Slot>, p: Plan)
    requires GoodSlots(slots) && Ceremonies(slots, p0, bef, auf, p)
    ensures forall d :: d in p ==> (p[d].Befoerderung? <==> d in DatesOf(bef)) && (p[d].Aufnahme? <==> d in DatesOf(auf)) && !p[d].Erhebung?
    ensures forall d :: d in DatesOf(bef) ==> d in p
  {
    hide GoodSlots; hide Picks; hide FixedPlan; hide AddCeremonies; hide DatesOf; hide MonthsOf; hide Composed;
    CeremoniesCompose(slots, p0, bef, auf, p);
    ComposedOnly(slots, p0, DatesOf(bef), DatesOf(auf), p);
  }

  lemma ComposedOnly(slots: seq<Slot>, p0: Plan, bef: set<Date>, auf: set<Date>, p: Plan)
    requires FixedPlan(slots, p0) && Composed(slots, p0, bef, auf, p)
    ensures forall d :: d in p ==> (p[d].Befoerderung? <==> d in bef) && (p[d].Aufnahme? <==> d in auf) && !p[d].Erhebung?
    ensures forall d :: d in bef ==> d in p
  {
    assert forall d :: d in p0 ==> IsFixed(p0[d]);
    hide FixedPlan; hide CeremonyDay;
  }

  // ----- the order --------------------------------------------------------

  lemma {:induction false} UsablePrefix(rule: PickRule, slots: seq<Slot>, p: Plan, taken: set<int>, months: seq<int>, i: nat)
    requires i <= |months|
    ensures UsableSlots(rule, slots, p, taken, months[..i]) <= UsableSlots(rule, slots, p, taken, months)
  {
    if i < |months| {
      var n := |months| - 1;
      UsablePrefix(rule, slots, p, taken, months[..n], i);
      assert months[..n][..i] == months[..i];
    } else {
      assert months[..i] == months;
    }
  }

  lemma SurelyWanted(slots: seq<Slot>, p: Plan, k: int)
    requires GoodSlots(slots) && FixedPlan(slots, p) && SurelyUsable(slots, k)
    ensures Wanted(ThirdOrFifth, slots, p, {}, k)
  {
    if k != 11 {
      BefoerderungUsable(slots, p, k);
    } else {
      var s :| s in slots && s.month == 11 && 15 <= s.date.day <= 19;
      ThirdInDecember(slots, s);
      assert s.date !in p;
      hide GoodSlots; hide FixedPlan;
    }
  }

  lemma ThirdInDecember(slots: seq<Slot>, s: Slot)
    requires GoodSlots(slots) && s in slots && s.month == 11 && 15 <= s.date.day <= 19
    ensures |MonthSlots(slots, 11)| > 2 && MonthSlots(slots, 11)[2] == s && s == SlotOf(s.date) && s.date.month == 11 && !s.blackout
  {
    assert MonthOk(slots, 11);
    var i :| 0 <= i < |slots| && slots[i] == s;
    hide GoodSlots;
    var ms := MonthSlots(slots, 11);
    var j :| 0 <= j < |ms| && ms[j] == s;
    assert j == 2;
  }

  /** A wanted month before a picked one is picked. */
  lemma WantedIsPicked(slots: seq<Slot>, p: Plan, months: seq<int>, picked: seq<Slot>, i: nat, k: int)
    requires GoodSlots(slots) && AllMonths(months) && i < |picked|
    requires picked <= UsableSlots(ThirdOrFifth, slots, p, {}, months)
    requires Wanted(ThirdOrFifth, slots, p, {}, k) && Before(months, k, picked[i].month)
    ensures k in MonthsOf(picked)
  {
    hide GoodSlots; hide PickSlot; hide MonthSlots; hide Usable;
    var a, b :| 0 <= a < b < |months| && months[a] == k && months[b] == picked[i].month;
    var u, v := UsableSlots(ThirdOrFifth, slots, p, {}, months), UsableSlots(ThirdOrFifth, slots, p, {}, months[..b]);
    UsableSlotsPicks(ThirdOrFifth, slots, p, {}, months[..b]);
    UsablePrefix(ThirdOrFifth, slots, p, {}, months, b);
    hide UsableSlots; hide Wanted; hide Picks; hide AllMonths;
    assert k in months[..b] && months[b] !in months[..b] by { MonthsOnce(months, a, b); }
    assert forall j :: 0 <= j < |v| ==> v[j].month in MonthsOf(v);
    assert forall j :: 0 <= j < |v| && j < |picked| ==> picked[j] == v[j];
    assert k in MonthsOf(v);
    var j :| 0 <= j < |v| && v[j].month == k;
    assert v[j] == u[j] == picked[j];
  }

  lemma MonthsOnce(months: seq<int>, a: nat, b: nat)
    requires AllMonths(months) && a < b < |months|
    ensures months[a] in months[..b] && months[b] !in months[..b]
  {
    assert months[..b][a] == months[a];
  }

  /** The first five usable months, and no others, have a Beförderung. */
  lemma BefoerderungenInOrder(slots: seq<Slot>, months: seq<int>, p0: Plan, bef: seq<Slot>, auf: seq<Slot>, p: Plan)
    requires GoodSlots(slots) && AllMonths(months) && Ceremonies(slots, p0, bef, auf, p)
    requires bef <= UsableSlots(ThirdOrFifth, slots, p0, {}, months)
    ensures BefInOrder(slots, months, p)
  {
    hide GoodSlots; hide FixedPlan; hide SurelyUsable; hide Before; hide AllMonths; hide UsableSlots; hide AddCeremonies; hide DatesOf;
    hide Picks; hide MonthsOf; hide Wanted;
    OnlyPicked(slots, p0, bef, auf, p);
    PickedMonths(ThirdOrFifth, slots, p0, {}, bef);
    hide Ceremonies;
    forall d, k | d in p && p[d].Befoerderung? && SurelyUsable(slots, k) && Before(months, k, d.month) ensures HasBefoerderung(p, k) {
      var i := IndexOf(bef, d);
      SurelyWanted(slots, p0, k);
      WantedIsPicked(slots, p0, months, bef, i, k);
      var j := MonthIndex(bef, k);
      assert bef[j].date in p && p[bef[j].date].Befoerderung?;
    }
  }

  lemma PickedMonths(rule: PickRule, slots: seq<Slot>, p: Plan, taken: set<int>, picked: seq<Slot>)
    requires GoodSlots(slots) && Picks(rule, slots, p, taken, picked)
    ensures forall i :: 0 <= i < |picked| ==> picked[i].month == picked[i].date.month && picked[i].date in DatesOf(picked)
  {
    hide GoodSlots; hide PickSlot; hide MonthSlots; hide Usable;
    forall i | 0 <= i < |picked| ensures picked[i].month == picked[i].date.month && picked[i].date in DatesOf(picked) {
      assert Wanted(rule, slots, p, taken, picked[i].month);
      PickedSlot(rule, slots, p, picked[i].month);
    }
  }

  lemma IndexOf(picked: seq<Slot>, d: Date) returns (i: nat)
    requires d in DatesOf(picked)
    ensures i < |picked| && picked[i].date == d
  {
    i :| 0 <= i < |picked| && picked[i].date == d;
  }

  lemma MonthIndex(picked: seq<Slot>, m: int) returns (i: nat)
    requires m in MonthsOf(picked)
    ensures i < |picked| && picked[i].month == m
  {
    i :| 0 <= i < |picked| && picked[i].month == m;
  }
}
