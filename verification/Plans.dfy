/** The plan a schedule pass extends: which slot dates are taken, by what, and the facts every
    later pass keeps. */
module Plans {
  import opened Wrappers
  import opened Calendar
  import opened Slots

  /** A title, with the index of the initials or topic it is built from. */
  datatype Title =
    | Sommerfest | Johannisfest | Mitgliederversammlung
    | Befoerderung(who: nat) | Aufnahme | Erhebung(who: nat) | Brudermahl
    | Gesellenvortrag(who: nat) | Kugelung(who: nat) | Meistervortrag(who: nat)
    | Instruktion | Gaesteabend
    | Kerzengespraech | Begegnung | Vortrag(who: nat, topic: nat)

  type Plan = map<Date, Title>

  const APPRENTICES := 4
  const SEEKERS := 10
  const FELLOWCRAFTS := 6
  const BROTHERS := 60
  const TOPICS := 10

  predicate IsCeremony(t: Title) { t.Befoerderung? || t.Aufnahme? }
  predicate IsFixed(t: Title) { t.Sommerfest? || t.Johannisfest? || t.Mitgliederversammlung? }
  predicate IsPrecursor(t: Title) { t.Gesellenvortrag? || t.Kugelung? || t.Meistervortrag? }
  predicate IsTaI(t: Title) { t.Brudermahl? || t.Aufnahme? }

  /** `precursor` is a lecture or ballot that prepares `ceremony`. */
  predicate Prepares(precursor: Title, ceremony: Title) {
    || (precursor.Gesellenvortrag? && ceremony == Befoerderung(precursor.who))
    || (precursor.Kugelung? && ceremony == Aufnahme)
    || (precursor.Meistervortrag? && ceremony == Erhebung(precursor.who))
  }

  predicate Extends(p: Plan, q: Plan) {
    forall d :: d in p ==> d in q && q[d] == p[d]
  }

  // ----- fixed dates ------------------------------------------------------

  predicate IsSommerfestDay(d: Date) { d.month == 7 && 15 <= d.day <= 21 }
  predicate IsMitgliederversammlungDay(d: Date) { d.month == 4 && 15 <= d.day <= 21 }
  predicate IsJohannisfestDay(d: Date) { d.month == 5 && d.day + 7 > 30 }

  predicate IsFixedDay(d: Date) { IsSommerfestDay(d) || IsMitgliederversammlungDay(d) || IsJohannisfestDay(d) }

  /** The plan after the first three assignments. */
  ghost predicate FixedPlan(slots: seq<Slot>, p: Plan) {
    && (forall d :: d in p <==> ValidDate(d) && SlotOf(d) in slots && IsFixedDay(d))
    && FixedTitles(p)
    && (forall d :: d in p ==> IsFixed(p[d]))
  }

  ghost predicate FixedTitles(p: Plan) {
    forall d :: d in p ==>
      && (p[d] == Sommerfest <==> IsSommerfestDay(d))
      && (p[d] == Mitgliederversammlung <==> IsMitgliederversammlungDay(d))
      && (p[d] == Johannisfest <==> IsJohannisfestDay(d))
  }

  // ----- what every pass after the ceremonies keeps -----------------------

  ghost function Befoerderungen(p: Plan): set<Date> { set d | d in p && p[d].Befoerderung? }
  ghost function Aufnahmen(p: Plan): set<Date> { set d | d in p && p[d].Aufnahme? }

  /** Five Beförderungen and three Aufnahmen, in eight different months. */
  ghost predicate CeremonyCounts(p: Plan) {
    && |Befoerderungen(p)| == 5 && |Aufnahmen(p)| == 3
    && forall c, d :: c in p && d in p && c != d && IsCeremony(p[c]) && IsCeremony(p[d]) ==> c.month != d.month
  }

  ghost predicate OnSlots(slots: seq<Slot>, p: Plan) {
    forall d :: d in p ==>
      && ValidDate(d) && SlotOf(d) in slots
      && (IsBlackedOut(d) ==> p[d] == Sommerfest)
      && (d.day <= 7 ==> p[d] == Gaesteabend)
  }

  /** Which fixed dates there are and that nothing else sits on them. */
  ghost predicate HoldsFixed(slots: seq<Slot>, p: Plan) {
    && FixedTitles(p)
    && forall d :: (ValidDate(d) && SlotOf(d) in slots && IsFixedDay(d)) ==> d in p
  }

  ghost predicate Core(slots: seq<Slot>, p: Plan) {
    OnSlots(slots, p) && HoldsFixed(slots, p) && CeremonyCounts(p)
  }

  ghost predicate HasTaI(p: Plan, month: int) {
    exists d :: d in p && d.month == month && IsTaI(p[d])
  }

  /** Every precursor in the plan lies 5 to 12 whole weeks before a ceremony it prepares. */
  ghost predicate PrecursorsOk(p: Plan) {
    forall d :: d in p && IsPrecursor(p[d]) ==> Prepared(p, d)
  }

  ghost predicate Prepared(p: Plan, d: Date)
    requires d in p
  {
    exists c :: c in p && Prepares(p[d], p[c]) && WeeksBefore(d, c)
  }

  predicate WeeksBefore(d: Date, c: Date) {
    0 <= d.month < 12 && 0 <= c.month < 12
    && exists w :: 5 <= w <= 12 && DayNumber(c) - DayNumber(d) == 7 * w
  }

  /** A free slot may take any title that is neither a fixed one nor a ceremony. */
  predicate MayTake(p: Plan, s: Slot, t: Title) {
    s.date !in p && !s.blackout && !IsCeremony(t) && !IsFixed(t) && (s.isFirst ==> t == Gaesteabend)
  }

  lemma AssignKeepsCore(slots: seq<Slot>, p: Plan, s: Slot, t: Title)
    requires GoodSlots(slots) && Core(slots, p) && s in slots && MayTake(p, s, t)
    ensures Core(slots, p[s.date := t]) && Extends(p, p[s.date := t])
  {
    var q := p[s.date := t];
    assert Befoerderungen(q) == Befoerderungen(p);
    assert Aufnahmen(q) == Aufnahmen(p);
  }

  lemma ExtendKeepsTaI(p: Plan, q: Plan, month: int)
    requires Extends(p, q) && HasTaI(p, month)
    ensures HasTaI(q, month)
  {
    var d :| d in p && d.month == month && IsTaI(p[d]);
    assert d in q && q[d] == p[d];
  }

  /** A plan keeps its precursors prepared when it grows by a title that is no precursor
      or by one that is prepared itself. */
  lemma AssignKeepsPrecursors(p: Plan, d: Date, t: Title)
    requires PrecursorsOk(p) && d !in p
    requires IsPrecursor(t) ==> exists c :: c in p && Prepares(t, p[c]) && WeeksBefore(d, c)
    ensures PrecursorsOk(p[d := t])
  {
    var q := p[d := t];
    forall e | e in q && IsPrecursor(q[e]) ensures Prepared(q, e) {
      if e == d {
        var c :| c in p && Prepares(t, p[c]) && WeeksBefore(d, c);
        assert c in q && Prepares(q[e], q[c]) && WeeksBefore(e, c);
      } else {
        assert Prepared(p, e);
        var c :| c in p && Prepares(p[e], p[c]) && WeeksBefore(e, c);
        assert c in q && Prepares(q[e], q[c]) && WeeksBefore(e, c);
      }
    }
  }

  // ----- ceremonies -------------------------------------------------------

  datatype PickRule = ThirdOrFifth | Last

  function Eligible(): set<int> { {0, 1, 2, 3, 4, 8, 9, 10, 11} }

  /** The slot a rule asks for: the third unless unusable, then the fifth; or the last. */
  function PickSlot(rule: PickRule, ms: seq<Slot>, p: Plan): Option<Slot> {
    if rule == Last then (if |ms| == 0 then None else Some(ms[|ms| - 1]))
    else if |ms| > 2 && !ms[2].blackout && ms[2].date !in p then Some(ms[2])
    else if |ms| > 4 then Some(ms[4])
    else None
  }

  predicate Usable(rule: PickRule, slots: seq<Slot>, p: Plan, month: int) {
    var s := PickSlot(rule, MonthSlots(slots, month), p);
    s.Some? && !s.value.blackout && s.value.date !in p
  }

  predicate Wanted(rule: PickRule, slots: seq<Slot>, p: Plan, taken: set<int>, month: int) {
    month in Eligible() && month !in taken && Usable(rule, slots, p, month)
  }

  /** The slots of the wanted months, in month order. */
  function UsableSlots(rule: PickRule, slots: seq<Slot>, p: Plan, taken: set<int>, months: seq<int>): seq<Slot> {
    if months == [] then []
    else
      var n := |months| - 1;
      UsableSlots(rule, slots, p, taken, months[..n])
      + if Wanted(rule, slots, p, taken, months[n]) then [PickSlot(rule, MonthSlots(slots, months[n]), p).value] else []
  }

  function CeremonyTitle(rule: PickRule, i: nat): Title {
    if rule == ThirdOrFifth then Befoerderung(i % APPRENTICES) else Aufnahme
  }

  function PrecursorTitle(rule: PickRule, i: nat): Title {
    if rule == ThirdOrFifth then Gesellenvortrag(i % APPRENTICES) else Kugelung(i % SEEKERS)
  }

  /** Slots picked by one call: distinct wanted months, each with the slot the rule asks for. */
  ghost predicate Picks(rule: PickRule, slots: seq<Slot>, p: Plan, taken: set<int>, picked: seq<Slot>) {
    && (forall i :: 0 <= i < |picked| ==>
          && Wanted(rule, slots, p, taken, picked[i].month)
          && picked[i] == PickSlot(rule, MonthSlots(slots, picked[i].month), p).value)
    && (forall i, j :: 0 <= i < j < |picked| ==> picked[i].month != picked[j].month)
  }

  ghost function MonthsOf(picked: seq<Slot>): set<int> { set i | 0 <= i < |picked| :: picked[i].month }

  lemma PickedSlot(rule: PickRule, slots: seq<Slot>, p: Plan, month: int)
    requires GoodSlots(slots) && 0 <= month < 12 && Usable(rule, slots, p, month)
    ensures var s := PickSlot(rule, MonthSlots(slots, month), p).value;
            && s in slots && s == SlotOf(s.date) && ValidDate(s.date) && s.month == s.date.month == month
            && s.date.day >= 15 && (rule == Last ==> s.date.day >= 22) && !IsBlackedOut(s.date) && s.date !in p
  {
    assert MonthOk(slots, month);
    var ms := MonthSlots(slots, month);
    var s := PickSlot(rule, ms, p).value;
    var k := if s == ms[2] then 2 else if s == ms[|ms| - 1] then |ms| - 1 else 4;
    assert s == ms[k] && ms[k] in slots;
    var i :| 0 <= i < |slots| && slots[i] == s;
  }

  lemma {:induction false} UsableSlotsPicks(rule: PickRule, slots: seq<Slot>, p: Plan, taken: set<int>, months: seq<int>)
    requires GoodSlots(slots)
    requires forall i, j :: 0 <= i < j < |months| ==> months[i] != months[j]
    ensures var u := UsableSlots(rule, slots, p, taken, months);
            && Picks(rule, slots, p, taken, u)
            && (forall m :: m in MonthsOf(u) <==> m in months && Wanted(rule, slots, p, taken, m))
  {
    if months != [] {
      var n := |months| - 1;
      UsableSlotsPicks(rule, slots, p, taken, months[..n]);
      var u0 := UsableSlots(rule, slots, p, taken, months[..n]);
      var u := UsableSlots(rule, slots, p, taken, months);
      assert months == months[..n] + [months[n]];
      assert months[n] !in months[..n];
      if Wanted(rule, slots, p, taken, months[n]) {
        PickedSlot(rule, slots, p, months[n]);
        assert u[..|u0|] == u0 && u == u0 + [u[|u0|]];
        MonthsOfSnoc(u);
        assert forall i :: 0 <= i < |u0| ==> u[i] == u0[i] && u0[i].month in MonthsOf(u0);
      } else {
        assert u == u0;
      }
    }
  }

  lemma MonthsOfSnoc(picked: seq<Slot>)
    requires picked != []
    ensures MonthsOf(picked) == MonthsOf(picked[..|picked| - 1]) + {picked[|picked| - 1].month}
  {
    var n := |picked| - 1;
    var init := picked[..n];
    forall m | m in MonthsOf(picked) ensures m in MonthsOf(init) + {picked[n].month} {
      var i :| 0 <= i < |picked| && picked[i].month == m;
      if i < n { assert init[i].month == m; }
    }
    forall m | m in MonthsOf(init) ensures m in MonthsOf(picked) {
      var i :| 0 <= i < |init| && init[i].month == m;
      assert picked[i].month == m;
    }
    assert picked[n].month in MonthsOf(picked);
  }

  lemma {:induction false} MonthsOfSize(picked: seq<Slot>)
    requires forall i, j :: 0 <= i < j < |picked| ==> picked[i].month != picked[j].month
    ensures |MonthsOf(picked)| == |picked|
  {
    if picked != [] {
      var n := |picked| - 1;
      MonthsOfSnoc(picked);
      MonthsOfSize(picked[..n]);
      assert picked[n].month !in MonthsOf(picked[..n]);
    }
  }

  lemma UsableSlotsSize(rule: PickRule, slots: seq<Slot>, p: Plan, taken: set<int>, months: seq<int>)
    requires GoodSlots(slots) && forall i, j :: 0 <= i < j < |months| ==> months[i] != months[j]
    ensures |MonthsOf(UsableSlots(rule, slots, p, taken, months))| == |UsableSlots(rule, slots, p, taken, months)|
  {
    UsableSlotsPicks(rule, slots, p, taken, months);
    MonthsOfSize(UsableSlots(rule, slots, p, taken, months));
  }

  /** With only the fixed dates assigned, just May and December can lack a usable third or fifth slot. */
  lemma BefoerderungUsable(slots: seq<Slot>, p: Plan, month: int)
    requires GoodSlots(slots) && FixedPlan(slots, p) && month in Eligible() && month != 4 && month != 11
    ensures Usable(ThirdOrFifth, slots, p, month)
  {
    assert MonthOk(slots, month);
    var third := MonthSlots(slots, month)[2];
    assert 15 <= third.date.day <= 21;
  }

  /** A month no ceremony has taken has a usable last slot, unless it is December. */
  lemma AufnahmeUsable(slots: seq<Slot>, p: Plan, taken: set<int>, month: int)
    requires GoodSlots(slots) && month in Eligible() && month != 11 && month !in taken
    requires forall d :: d in p ==> IsMitgliederversammlungDay(d) || d.month !in Eligible() || d.month in taken
    ensures Usable(Last, slots, p, month)
  {
    assert MonthOk(slots, month);
    var ms := MonthSlots(slots, month);
    var last := ms[|ms| - 1];
    assert last.date.day >= 22;
  }

  ghost predicate AllMonths(months: seq<int>) {
    && (forall i, j :: 0 <= i < j < |months| ==> months[i] != months[j])
    && (forall m :: 0 <= m < 12 <==> m in months)
  }

  lemma MissedMonths(wanted: set<int>, missed: set<int>)
    requires wanted + missed >= Eligible()
    ensures |wanted| + |missed| >= 9
  {
    var all := wanted + missed;
    assert |all| <= |wanted| + |missed| by {
      assert all == wanted + (missed - wanted);
      assert |missed - wanted| <= |missed| by { SubsetSize(missed - wanted, missed); }
    }
    SubsetSize(Eligible(), all);
    assert |Eligible()| == 9;
  }

  lemma SubsetSize<T>(a: set<T>, b: set<T>)
    requires a <= b
    ensures |a| <= |b|
  {
    assert b == a + (b - a);
  }

  /** Pigeonhole over the nine eligible months: at least seven usable for a Beförderung. */
  lemma EnoughBefoerderungen(slots: seq<Slot>, p: Plan, months: seq<int>)
    requires GoodSlots(slots) && FixedPlan(slots, p) && AllMonths(months)
    ensures |UsableSlots(ThirdOrFifth, slots, p, {}, months)| >= 7
  {
    hide GoodSlots; hide FixedPlan; hide Usable; hide Picks;
    UsableSlotsPicks(ThirdOrFifth, slots, p, {}, months);
    UsableSlotsSize(ThirdOrFifth, slots, p, {}, months);
    var u := UsableSlots(ThirdOrFifth, slots, p, {}, months);
    forall m | m in Eligible() ensures m in MonthsOf(u) + {4, 11} {
      if m != 4 && m != 11 { BefoerderungUsable(slots, p, m); }
    }
    MissedMonths(MonthsOf(u), {4, 11});
  }

  /** Pigeonhole again: five months gone and December out leave at least three. */
  lemma EnoughAufnahmen(slots: seq<Slot>, p: Plan, taken: set<int>, months: seq<int>)
    requires GoodSlots(slots) && AllMonths(months) && |taken| == 5
    requires forall d :: d in p ==> IsMitgliederversammlungDay(d) || d.month !in Eligible() || d.month in taken
    ensures |UsableSlots(Last, slots, p, taken, months)| >= 3
  {
    hide GoodSlots; hide Usable; hide Picks;
    UsableSlotsPicks(Last, slots, p, taken, months);
    UsableSlotsSize(Last, slots, p, taken, months);
    var u := UsableSlots(Last, slots, p, taken, months);
    forall m | m in Eligible() ensures m in MonthsOf(u) + (taken + {11}) {
      if m !in taken && m != 11 { AufnahmeUsable(slots, p, taken, m); }
    }
    assert |taken + {11}| <= 6 by {
      assert taken + {11} == taken + ({11} - taken);
      SubsetSize({11} - taken, {11});
    }
    MissedMonths(MonthsOf(u), taken + {11});
  }

  /** The plan once the first `n` picked slots carry their ceremony. */
  function AddCeremonies(p: Plan, picked: seq<Slot>, rule: PickRule): Plan {
    if picked == [] then p
    else
      var n := |picked| - 1;
      AddCeremonies(p, picked[..n], rule)[picked[n].date := CeremonyTitle(rule, n)]
  }

  ghost function DatesOf(picked: seq<Slot>): set<Date> { set i | 0 <= i < |picked| :: picked[i].date }

  lemma DatesOfSnoc(picked: seq<Slot>)
    requires picked != []
    ensures DatesOf(picked) == DatesOf(picked[..|picked| - 1]) + {picked[|picked| - 1].date}
  {
    var n := |picked| - 1;
    var init := picked[..n];
    forall d | d in DatesOf(picked) ensures d in DatesOf(init) + {picked[n].date} {
      var i :| 0 <= i < |picked| && picked[i].date == d;
      if i < n { assert init[i].date == d; }
    }
    forall d | d in DatesOf(init) ensures d in DatesOf(picked) {
      var i :| 0 <= i < |init| && init[i].date == d;
      assert picked[i].date == d;
    }
    assert picked[n].date in DatesOf(picked);
  }

  ghost predicate DistinctDates(picked: seq<Slot>) {
    forall i, j :: 0 <= i < j < |picked| ==> picked[i].date != picked[j].date
  }

  ghost predicate CarryTitles(q: Plan, picked: seq<Slot>, rule: PickRule) {
    forall i :: 0 <= i < |picked| ==> picked[i].date in q && q[picked[i].date] == CeremonyTitle(rule, i)
  }

  lemma CarryOneMore(q: Plan, picked: seq<Slot>, rule: PickRule)
    requires picked != [] && CarryTitles(q, picked[..|picked| - 1], rule) && picked[|picked| - 1].date !in q
    ensures CarryTitles(q[picked[|picked| - 1].date := CeremonyTitle(rule, |picked| - 1)], picked, rule)
  {
    var n := |picked| - 1;
    forall i | 0 <= i < n ensures picked[i].date in q && q[picked[i].date] == CeremonyTitle(rule, i) {
      assert picked[..n][i] == picked[i];
    }
  }

  lemma {:induction false} AddedCeremonies(p: Plan, picked: seq<Slot>, rule: PickRule)
    requires DatesOf(picked) !! p.Keys && DistinctDates(picked)
    ensures Extends(p, AddCeremonies(p, picked, rule))
    ensures AddCeremonies(p, picked, rule).Keys == p.Keys + DatesOf(picked)
    ensures CarryTitles(AddCeremonies(p, picked, rule), picked, rule)
  {
    if picked != [] {
      var n := |picked| - 1;
      DatesOfSnoc(picked);
      LastDateIsNew(picked);
      hide DatesOf; hide DistinctDates; hide CeremonyTitle; hide CarryTitles;
      AddedCeremonies(p, picked[..n], rule);
      CarryOneMore(AddCeremonies(p, picked[..n], rule), picked, rule);
    }
  }

  lemma LastDateIsNew(picked: seq<Slot>)
    requires picked != [] && DistinctDates(picked)
    ensures DistinctDates(picked[..|picked| - 1])
    ensures picked[|picked| - 1].date !in DatesOf(picked[..|picked| - 1])
  {
  }

  lemma {:induction false} DatesOfSize(picked: seq<Slot>)
    requires DistinctDates(picked)
    ensures |DatesOf(picked)| == |picked|
  {
    if picked != [] {
      var n := |picked| - 1;
      DatesOfSnoc(picked);
      LastDateIsNew(picked);
      DatesOfSize(picked[..n]);
    }
  }

  /** From the fixed plan and the two picks to the facts every later pass keeps. */
  ghost predicate Ceremonies(slots: seq<Slot>, fixedPlan: Plan, bef: seq<Slot>, auf: seq<Slot>, p: Plan) {
    && FixedPlan(slots, fixedPlan)
    && |bef| == 5 && Picks(ThirdOrFifth, slots, fixedPlan, {}, bef)
    && var p1 := AddCeremonies(fixedPlan, bef, ThirdOrFifth);
       && |auf| == 3 && Picks(Last, slots, p1, MonthsOf(bef), auf)
       && p == AddCeremonies(p1, auf, Last)
  }

  lemma PicksFacts(rule: PickRule, slots: seq<Slot>, p: Plan, taken: set<int>, picked: seq<Slot>)
    requires GoodSlots(slots) && Picks(rule, slots, p, taken, picked)
    requires forall d :: (ValidDate(d) && SlotOf(d) in slots && IsFixedDay(d)) ==> d in p
    ensures DistinctDates(picked) && DatesOf(picked) !! p.Keys
    ensures forall d :: d in DatesOf(picked) ==>
              && ValidDate(d) && SlotOf(d) in slots && d.day >= 15 && !IsBlackedOut(d) && !IsFixedDay(d)
              && d.month in Eligible() && d.month !in taken && d.month in MonthsOf(picked)
    ensures forall c, d :: c in DatesOf(picked) && d in DatesOf(picked) && c != d ==> c.month != d.month
  {
    forall i | 0 <= i < |picked|
      ensures var d := picked[i].date;
              && d !in p && ValidDate(d) && SlotOf(d) in slots && d.day >= 15 && !IsBlackedOut(d)
              && d.month == picked[i].month && d.month in Eligible() && d.month !in taken && d.month in MonthsOf(picked)
    {
      assert Wanted(rule, slots, p, taken, picked[i].month);
      PickedSlot(rule, slots, p, picked[i].month);
    }
  }

  /** Exactly the picked dates carry the ceremony. */
  lemma CeremonyDates(p: Plan, picked: seq<Slot>, rule: PickRule)
    requires DatesOf(picked) !! p.Keys && DistinctDates(picked)
    ensures var q := AddCeremonies(p, picked, rule);
            && Extends(p, q) && q.Keys == p.Keys + DatesOf(picked)
            && (forall d :: d in DatesOf(picked) ==> if rule == Last then q[d].Aufnahme? else q[d].Befoerderung?)
  {
    AddedCeremonies(p, picked, rule);
  }

  ghost predicate CeremonyDay(slots: seq<Slot>, d: Date) {
    ValidDate(d) && SlotOf(d) in slots && d.day >= 15 && !IsBlackedOut(d) && !IsFixedDay(d)
  }

  /** The plan consists of the fixed dates and two disjoint sets of ceremony days. */
  ghost predicate Composed(slots: seq<Slot>, p0: Plan, bef: set<Date>, auf: set<Date>, p: Plan) {
    && Extends(p0, p) && p.Keys == p0.Keys + bef + auf
    && (forall d :: d in bef ==> CeremonyDay(slots, d) && p[d].Befoerderung?)
    && (forall d :: d in auf ==> CeremonyDay(slots, d) && p[d].Aufnahme?)
  }

  /** What one call of the picker and the assignments after it add to a plan. */
  ghost predicate AddsCeremonies(slots: seq<Slot>, p: Plan, taken: set<int>, dates: set<Date>, months: set<int>, rule: PickRule, q: Plan) {
    && Extends(p, q) && q.Keys == p.Keys + dates
    && (forall d :: d in dates ==>
          && CeremonyDay(slots, d) && d.month in months && d.month !in taken
          && (if rule == Last then q[d].Aufnahme? else q[d].Befoerderung?))
    && (forall c, d :: c in dates && d in dates && c != d ==> c.month != d.month)
  }

  ghost predicate FixedTaken(slots: seq<Slot>, p: Plan) {
    forall d :: (ValidDate(d) && SlotOf(d) in slots && IsFixedDay(d)) ==> d in p
  }

  lemma PicksAdd(slots: seq<Slot>, p: Plan, taken: set<int>, picked: seq<Slot>, rule: PickRule)
    requires GoodSlots(slots) && FixedTaken(slots, p) && Picks(rule, slots, p, taken, picked)
    ensures AddsCeremonies(slots, p, taken, DatesOf(picked), MonthsOf(picked), rule, AddCeremonies(p, picked, rule))
    ensures |DatesOf(picked)| == |picked|
    ensures FixedTaken(slots, AddCeremonies(p, picked, rule))
  {
    PicksFacts(rule, slots, p, taken, picked);
    CeremonyDates(p, picked, rule);
    DatesOfSize(picked);
  }

  lemma AddsCompose(slots: seq<Slot>, p0: Plan, p1: Plan, p: Plan, bef: set<Date>, auf: set<Date>, m1: set<int>, m2: set<int>)
    requires AddsCeremonies(slots, p0, {}, bef, m1, ThirdOrFifth, p1)
    requires AddsCeremonies(slots, p1, m1, auf, m2, Last, p)
    ensures Composed(slots, p0, bef, auf, p)
    ensures forall c, d :: c in bef && d in auf ==> c.month != d.month
  {
  }

  lemma CeremoniesCompose(slots: seq<Slot>, p0: Plan, bef: seq<Slot>, auf: seq<Slot>, p: Plan)
    requires GoodSlots(slots) && Ceremonies(slots, p0, bef, auf, p)
    ensures Composed(slots, p0, DatesOf(bef), DatesOf(auf), p)
    ensures |DatesOf(bef)| == 5 && |DatesOf(auf)| == 3
    ensures forall c, d :: c in DatesOf(bef) && d in DatesOf(bef) && c != d ==> c.month != d.month
    ensures forall c, d :: c in DatesOf(auf) && d in DatesOf(auf) && c != d ==> c.month != d.month
    ensures forall c, d :: c in DatesOf(bef) && d in DatesOf(auf) ==> c.month != d.month
  {
    var p1 := AddCeremonies(p0, bef, ThirdOrFifth);
    PicksAdd(slots, p0, {}, bef, ThirdOrFifth);
    PicksAdd(slots, p1, MonthsOf(bef), auf, Last);
    AddsCompose(slots, p0, p1, p, DatesOf(bef), DatesOf(auf), MonthsOf(bef), MonthsOf(auf));
  }

  lemma ComposedOnSlots(slots: seq<Slot>, p0: Plan, bef: set<Date>, auf: set<Date>, p: Plan)
    requires FixedPlan(slots, p0) && Composed(slots, p0, bef, auf, p)
    ensures OnSlots(slots, p)
    ensures forall d :: d in p ==> d.day >= 15 && !IsPrecursor(p[d]) && !p[d].Brudermahl?
  {
    forall d | d in p
      ensures ValidDate(d) && SlotOf(d) in slots && d.day >= 15 && (IsBlackedOut(d) ==> p[d] == Sommerfest)
      ensures !IsPrecursor(p[d]) && !p[d].Brudermahl?
    {
      assert d in p0 || CeremonyDay(slots, d);
    }
  }

  lemma ComposedHoldsFixed(slots: seq<Slot>, p0: Plan, bef: set<Date>, auf: set<Date>, p: Plan)
    requires FixedPlan(slots, p0) && Composed(slots, p0, bef, auf, p)
    ensures HoldsFixed(slots, p)
  {
    forall d | d in p
      ensures p[d] == Sommerfest <==> IsSommerfestDay(d)
      ensures p[d] == Mitgliederversammlung <==> IsMitgliederversammlungDay(d)
      ensures p[d] == Johannisfest <==> IsJohannisfestDay(d)
    {
      assert (d in p0 && p[d] == p0[d]) || CeremonyDay(slots, d);
    }
  }

  lemma ComposedCounts(slots: seq<Slot>, p0: Plan, bef: set<Date>, auf: set<Date>, p: Plan)
    requires FixedPlan(slots, p0) && Composed(slots, p0, bef, auf, p)
    ensures Befoerderungen(p) == bef && Aufnahmen(p) == auf
  {
    assert forall d :: d in p0 ==> IsFixed(p[d]);
  }

  /** After both picks the plan has the promised counts, sits on third or later slots and keeps the fixed dates. */
  lemma CeremoniesGiveCore(slots: seq<Slot>, p0: Plan, bef: seq<Slot>, auf: seq<Slot>, p: Plan)
    requires GoodSlots(slots) && Ceremonies(slots, p0, bef, auf, p)
    ensures Core(slots, p) && Extends(p0, p)
    ensures forall d :: d in p ==> d.day >= 15 && !IsPrecursor(p[d]) && !p[d].Brudermahl?
  {
    CeremoniesCompose(slots, p0, bef, auf, p);
    ComposedOnSlots(slots, p0, DatesOf(bef), DatesOf(auf), p);
    ComposedHoldsFixed(slots, p0, DatesOf(bef), DatesOf(auf), p);
    ComposedCounts(slots, p0, DatesOf(bef), DatesOf(auf), p);
    CountsFromSets(p, DatesOf(bef), DatesOf(auf));
  }

  lemma CountsFromSets(p: Plan, bef: set<Date>, auf: set<Date>)
    requires Befoerderungen(p) == bef && Aufnahmen(p) == auf && |bef| == 5 && |auf| == 3
    requires forall c, d :: c in bef && d in bef && c != d ==> c.month != d.month
    requires forall c, d :: c in auf && d in auf && c != d ==> c.month != d.month
    requires forall c, d :: c in bef && d in auf ==> c.month != d.month
    ensures CeremonyCounts(p)
  {
    forall c, d | c in p && d in p && c != d && IsCeremony(p[c]) && IsCeremony(p[d]) ensures c.month != d.month {
      assert c in bef || c in auf;
      assert d in bef || d in auf;
    }
  }
}
