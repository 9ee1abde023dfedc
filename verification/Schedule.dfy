/** `buildDemoEventSchedule` (api/src/lib/demoSeed.ts): the passes over the write-once plan, in order. */
module Schedule {
  import opened Wrappers
  import opened Calendar
  import opened Slots
  import opened Plans
  import opened CeremonyOrder
  import opened Turns

  datatype Pending = Pending(ceremony: Slot, title: Title)

  datatype DemoEvent = DemoEvent(date: Date, title: Title)

  /** Every waiting precursor prepares the ceremony its slot already carries. */
  ghost predicate PendingOk(p: Plan, pending: seq<Pending>) {
    forall i :: 0 <= i < |pending| ==>
      && pending[i].ceremony.date in p && ValidDate(pending[i].ceremony.date)
      && IsPrecursor(pending[i].title) && Prepares(pending[i].title, p[pending[i].ceremony.date])
  }

  ghost predicate Ready(slots: seq<Slot>, p: Plan, pending: seq<Pending>) {
    Core(slots, p) && PrecursorsOk(p) && PendingOk(p, pending)
  }

  lemma AssignKeepsReady(slots: seq<Slot>, p: Plan, pending: seq<Pending>, s: Slot, t: Title)
    requires GoodSlots(slots) && Ready(slots, p, pending) && s in slots && MayTake(p, s, t) && !IsPrecursor(t)
    ensures Ready(slots, p[s.date := t], pending) && Extends(p, p[s.date := t])
  {
    AssignKeepsCore(slots, p, s, t);
    AssignKeepsPrecursors(p, s.date, t);
  }

  lemma WaitingKeepsReady(slots: seq<Slot>, p: Plan, pending: seq<Pending>, x: Pending)
    requires Ready(slots, p, pending) && x.ceremony.date in p && ValidDate(x.ceremony.date)
    requires x.title.Meistervortrag? && p[x.ceremony.date] == Erhebung(x.title.who)
    ensures Ready(slots, p, pending + [x])
  {
    hide Core; hide PrecursorsOk;
  }

  predicate NeedsPrecursor(t: Title) { IsCeremony(t) || t.Erhebung? }

  /** Titles placed before the Instruktionen. */
  predicate IsEarly(t: Title) { IsFixed(t) || NeedsPrecursor(t) || t.Brudermahl? || IsPrecursor(t) }

  /** One precursor waits for every ceremony, and for no date two. */
  ghost predicate Awaited(p: Plan, pending: seq<Pending>) {
    && (forall d :: d in p && NeedsPrecursor(p[d]) ==> Waits(pending, |pending|, d))
    && (forall i, j :: 0 <= i < j < |pending| ==> pending[i].ceremony.date != pending[j].ceremony.date)
  }

  /** The ceremony at `d` is among the first `n` waiting ones. */
  ghost predicate Waits(pending: seq<Pending>, n: nat, d: Date)
    requires n <= |pending|
  {
    exists i :: 0 <= i < n && pending[i].ceremony.date == d
  }

  lemma AwaitedStays(p: Plan, q: Plan, pending: seq<Pending>)
    requires Awaited(p, pending) && Extends(p, q)
    requires forall d :: d in q && d !in p ==> !NeedsPrecursor(q[d])
    ensures Awaited(q, pending)
  {
  }

  lemma OneMoreAwaited(p: Plan, pending: seq<Pending>, d: Date, t: Title, x: Pending)
    requires PendingOk(p, pending) && Awaited(p, pending) && d !in p && x.ceremony.date == d
    ensures Awaited(p[d := t], pending + [x])
  {
    var more := pending + [x];
    forall e | e in p[d := t] && NeedsPrecursor(p[d := t][e]) ensures Waits(more, |more|, e) {
      if e == d {
        assert more[|pending|].ceremony.date == d;
      } else {
        assert Waits(pending, |pending|, e);
        var i :| 0 <= i < |pending| && pending[i].ceremony.date == e;
        assert more[i].ceremony.date == e;
      }
    }
  }

  /** `d` lies that many whole weeks before `c`. */
  predicate WeeksApart(d: Date, c: Date, weeks: int) {
    0 <= d.month < 12 && 0 <= c.month < 12 && DayNumber(c) - DayNumber(d) == 7 * weeks
  }

  /** No slot 5 to fewer than `weeks` weeks before `c` is left for anything later. */
  ghost predicate CloserTaken(slots: seq<Slot>, p: Plan, c: Date, weeks: nat) {
    forall s, v {:trigger s in slots, WeeksApart(s.date, c, v)} ::
      s in slots && 5 <= v < weeks && WeeksApart(s.date, c, v) && !s.blackout && !s.isFirst ==> s.date in p && IsEarly(p[s.date])
  }

  /** The precursor `at[c]` of the ceremony at `c` stands 5 to 12 weeks before it, with nothing free closer by;
      a ceremony without one had no free slot there at all. */
  ghost predicate CeremonyServed(slots: seq<Slot>, p: Plan, at: map<Date, Date>, c: Date)
    requires c in p
  {
    if c in at then
      at[c] in p && Prepares(p[at[c]], p[c]) && exists w :: 5 <= w <= 12 && WeeksApart(at[c], c, w) && CloserTaken(slots, p, c, w)
    else CloserTaken(slots, p, c, 13)
  }

  /** Different ceremonies, different precursors. */
  ghost predicate OneToOne(at: map<Date, Date>) {
    forall c, e :: c in at && e in at && c != e ==> at[c] != at[e]
  }

  /** `at` sends ceremonies of the first `n` waiting precursors to taken dates, one to one. */
  ghost predicate Paired(p: Plan, pending: seq<Pending>, at: map<Date, Date>, n: nat)
    requires n <= |pending|
  {
    OneToOne(at) && forall c :: c in at ==> c in p && at[c] in p && Waits(pending, n, c)
  }

  /** The plan has no other precursors. */
  ghost predicate NoneElse(p: Plan, at: map<Date, Date>) {
    forall d :: d in p && IsPrecursor(p[d]) ==> d in at.Values
  }

  ghost predicate FirstServed(slots: seq<Slot>, p: Plan, pending: seq<Pending>, at: map<Date, Date>, n: nat)
    requires n <= |pending| && PendingOk(p, pending)
  {
    forall i :: 0 <= i < n ==> CeremonyServed(slots, p, at, pending[i].ceremony.date)
  }

  /** The ceremonies of the first `n` waiting precursors are served. */
  ghost predicate ServedSoFar(slots: seq<Slot>, p: Plan, pending: seq<Pending>, at: map<Date, Date>, n: nat)
    requires n <= |pending| && PendingOk(p, pending)
  {
    Paired(p, pending, at, n) && NoneElse(p, at) && FirstServed(slots, p, pending, at, n)
  }

  /** Each precursor placed has the title that waited for its ceremony. */
  ghost predicate Titled(p: Plan, pending: seq<Pending>, at: map<Date, Date>) {
    forall c :: c in at ==> at[c] in p && WaitsWith(pending, c, p[at[c]])
  }

  ghost predicate WaitsWith(pending: seq<Pending>, c: Date, t: Title) {
    exists i :: 0 <= i < |pending| && pending[i].ceremony.date == c && pending[i].title == t
  }

  lemma NothingTitled(p: Plan, pending: seq<Pending>)
    ensures Titled(p, pending, map[])
  {
  }

  lemma OneMoreTitled(p: Plan, pending: seq<Pending>, at: map<Date, Date>, i: nat, d: Date)
    requires Titled(p, pending, at) && i < |pending| && d !in p
    ensures Titled(p[d := pending[i].title], pending, at[pending[i].ceremony.date := d])
  {
    assert WaitsWith(pending, pending[i].ceremony.date, pending[i].title);
    hide WaitsWith;
  }

  /** The ballots wait for their Aufnahmen in turn, ten seekers. */
  ghost predicate KugelungTurns(pending: seq<Pending>, auf: seq<Date>) {
    forall i :: 0 <= i < |auf| ==> WaitsWith(pending, auf[i], Kugelung(i % 10))
  }

  /** A placed ballot is that of the seeker whose turn its Aufnahme is. */
  ghost predicate BallotTurns(p: Plan, at: map<Date, Date>, auf: seq<Date>) {
    forall i :: 0 <= i < |auf| && auf[i] in at ==> at[auf[i]] in p && p[at[auf[i]]] == Kugelung(i % 10)
  }

  lemma BallotsInTurn(p: Plan, pending: seq<Pending>, at: map<Date, Date>, auf: seq<Date>)
    requires Titled(p, pending, at) && KugelungTurns(pending, auf)
    requires forall i, j :: 0 <= i < j < |pending| ==> pending[i].ceremony.date != pending[j].ceremony.date
    ensures BallotTurns(p, at, auf)
  {
    forall i | 0 <= i < |auf| && auf[i] in at ensures at[auf[i]] in p && p[at[auf[i]]] == Kugelung(i % 10) {
      assert WaitsWith(pending, auf[i], p[at[auf[i]]]) && WaitsWith(pending, auf[i], Kugelung(i % 10));
    }
  }

  lemma KugelungenWait(pending: seq<Pending>, bef: seq<Slot>, auf: seq<Slot>)
    requires pending == CeremonyPendings(bef, ThirdOrFifth) + CeremonyPendings(auf, Last)
    ensures KugelungTurns(pending, Dates(auf))
  {
    forall i | 0 <= i < |auf| ensures WaitsWith(pending, Dates(auf)[i], Kugelung(i % 10)) {
      assert pending[|bef| + i] == Pending(auf[i], Kugelung(i % 10));
    }
  }

  lemma CeremoniesInTurn(slots: seq<Slot>, months: seq<int>, p0: Plan, bef: seq<Slot>, auf: seq<Slot>, p: Plan, pending: seq<Pending>)
    requires GoodSlots(slots) && AllMonths(months) && Ceremonies(slots, p0, bef, auf, p)
    requires bef <= UsableSlots(ThirdOrFifth, slots, p0, {}, months)
    requires auf <= UsableSlots(Last, slots, AddCeremonies(p0, bef, ThirdOrFifth), MonthsOf(bef), months)
    requires pending == CeremonyPendings(bef, ThirdOrFifth) + CeremonyPendings(auf, Last)
    ensures CeremonyTurns(months, p, Dates(bef), Dates(auf)) && KugelungTurns(pending, Dates(auf))
  {
    hide GoodSlots; hide AllMonths; hide Ceremonies; hide UsableSlots; hide AddCeremonies; hide MonthsOf; hide CarryTitles;
    hide CeremonyTurns; hide KugelungTurns;
    CeremonyTitlesPlaced(slots, p0, bef, auf, p);
    PickedInTurn(slots, months, p0, bef, auf, p);
    KugelungenWait(pending, bef, auf);
  }

  /** The same for the ceremonies of a plan. */
  ghost predicate CeremoniesServed(slots: seq<Slot>, p: Plan, at: map<Date, Date>) {
    && OneToOne(at)
    && (forall c :: c in at ==> c in p && NeedsPrecursor(p[c]))
    && NoneElse(p, at)
    && (forall c :: c in p && NeedsPrecursor(p[c]) ==> CeremonyServed(slots, p, at, c))
  }

  lemma CloserStays(slots: seq<Slot>, p: Plan, q: Plan, c: Date, weeks: nat)
    requires Extends(p, q) && CloserTaken(slots, p, c, weeks)
    ensures CloserTaken(slots, q, c, weeks)
  {
    hide WeeksApart;
  }

  lemma ServedStays(slots: seq<Slot>, p: Plan, q: Plan, at: map<Date, Date>, bt: map<Date, Date>, c: Date)
    requires Extends(p, q) && c in p && CeremonyServed(slots, p, at, c) && (c in at <==> c in bt) && (c in at ==> at[c] == bt[c])
    ensures CeremonyServed(slots, q, bt, c)
  {
    hide WeeksApart; hide CloserTaken;
    if c in at {
      var w :| 5 <= w <= 12 && WeeksApart(at[c], c, w) && CloserTaken(slots, p, c, w);
      CloserStays(slots, p, q, c, w);
    } else {
      CloserStays(slots, p, q, c, 13);
    }
  }

  lemma NoneFreeMeans(slots: seq<Slot>, p: Plan, ceremony: Slot, weeks: nat)
    requires 0 <= ceremony.date.month < 12 && forall v :: 5 <= v < weeks ==> NoneFree(slots, p, ceremony, v)
    requires forall d :: d in p ==> IsEarly(p[d])
    ensures CloserTaken(slots, p, ceremony.date, weeks)
  {
    hide DayNumber; hide IsEarly;
    forall s, v | s in slots && 5 <= v < weeks && WeeksApart(s.date, ceremony.date, v) && !s.blackout && !s.isFirst
      ensures s.date in p && IsEarly(p[s.date])
    {
      assert NoneFree(slots, p, ceremony, v);
      assert !FreeWeeksBefore(slots, p, ceremony, v, s);
    }
  }

  /** Nothing placed yet. */
  lemma NothingServed(slots: seq<Slot>, p: Plan, pending: seq<Pending>)
    requires PendingOk(p, pending) && forall d :: d in p ==> !IsPrecursor(p[d])
    ensures ServedSoFar(slots, p, pending, map[], 0)
  {
  }

  lemma ServeOne(slots: seq<Slot>, p: Plan, pending: seq<Pending>, at: map<Date, Date>, i: nat, s: Slot, w: nat)
    requires PendingOk(p, pending) && Awaited(p, pending) && i < |pending| && ServedSoFar(slots, p, pending, at, i)
    requires forall d :: d in p ==> IsEarly(p[d])
    requires 0 <= s.date.month < 12 && 5 <= w <= 12 && FreeWeeksBefore(slots, p, pending[i].ceremony, w, s)
    requires forall v :: 5 <= v < w ==> NoneFree(slots, p, pending[i].ceremony, v)
    ensures PendingOk(p[s.date := pending[i].title], pending)
    ensures ServedSoFar(slots, p[s.date := pending[i].title], pending, at[pending[i].ceremony.date := s.date], i + 1)
  {
    assert Extends(p, p[s.date := pending[i].title]) && s.date !in p;
    hide CeremonyServed; hide IsEarly; hide IsPrecursor; hide Prepares; hide NoneFree; hide DayNumber; hide Paired; hide NoneElse;
    hide FirstServed; hide Awaited;
    NotYetServed(p, pending, at, i);
    ServeThis(slots, p, pending[i], s, w, at);
    hide FreeWeeksBefore;
    FirstStayServed(slots, p, pending, at, i, s.date);
    AtGrows(p, at, pending[i].ceremony.date, s.date, pending[i].title, pending, i);
    ValuesGrow(p, at, pending[i].ceremony.date, s.date, pending[i].title);
  }

  lemma FirstStayServed(slots: seq<Slot>, p: Plan, pending: seq<Pending>, at: map<Date, Date>, i: nat, d: Date)
    requires PendingOk(p, pending) && i < |pending| && FirstServed(slots, p, pending, at, i) && d !in p
    requires PendingOk(p[d := pending[i].title], pending) && forall j :: 0 <= j < i ==> pending[j].ceremony.date != pending[i].ceremony.date
    requires CeremonyServed(slots, p[d := pending[i].title], at[pending[i].ceremony.date := d], pending[i].ceremony.date)
    ensures FirstServed(slots, p[d := pending[i].title], pending, at[pending[i].ceremony.date := d], i + 1)
  {
    hide CeremonyServed; hide IsPrecursor; hide Prepares; hide ValidDate;
    var q, bt := p[d := pending[i].title], at[pending[i].ceremony.date := d];
    forall j | 0 <= j < i ensures CeremonyServed(slots, q, bt, pending[j].ceremony.date) {
      ServedStays(slots, p, q, at, bt, pending[j].ceremony.date);
    }
  }

  lemma NotYetServed(p: Plan, pending: seq<Pending>, at: map<Date, Date>, i: nat)
    requires PendingOk(p, pending) && Awaited(p, pending) && i < |pending| && Paired(p, pending, at, i)
    ensures pending[i].ceremony.date !in at && pending[i].ceremony.date in p && 0 <= pending[i].ceremony.date.month < 12
    ensures forall j :: 0 <= j < i ==> pending[j].ceremony.date != pending[i].ceremony.date
  {
    hide OneToOne;
  }

  lemma ServeThis(slots: seq<Slot>, p: Plan, x: Pending, s: Slot, w: nat, at: map<Date, Date>)
    requires x.ceremony.date in p && Prepares(x.title, p[x.ceremony.date]) && forall d :: d in p ==> IsEarly(p[d])
    requires 0 <= s.date.month < 12 && 0 <= x.ceremony.date.month < 12 && 5 <= w <= 12
    requires FreeWeeksBefore(slots, p, x.ceremony, w, s) && forall v :: 5 <= v < w ==> NoneFree(slots, p, x.ceremony, v)
    ensures CeremonyServed(slots, p[s.date := x.title], at[x.ceremony.date := s.date], x.ceremony.date)
  {
    var q, c := p[s.date := x.title], x.ceremony.date;
    NoneFreeMeans(slots, p, x.ceremony, w);
    CloserStays(slots, p, q, c, w);
    assert WeeksApart(s.date, c, w);
    hide WeeksApart; hide CloserTaken; hide NoneFree; hide DayNumber; hide IsEarly; hide Prepares;
  }

  lemma ValuesGrow(p: Plan, at: map<Date, Date>, c: Date, s: Date, t: Title)
    requires c !in at && NoneElse(p, at)
    ensures NoneElse(p[s := t], at[c := s])
  {
    hide IsPrecursor;
    var q, bt := p[s := t], at[c := s];
    forall d | d in q && IsPrecursor(q[d]) ensures d in bt.Values {
      if d == s {
        assert bt[c] == d;
      } else {
        var x :| x in at && at[x] == d;
        assert x in bt && bt[x] == d;
      }
    }
  }

  lemma AtGrows(p: Plan, at: map<Date, Date>, c: Date, d: Date, t: Title, pending: seq<Pending>, i: nat)
    requires i < |pending| && pending[i].ceremony.date == c && Paired(p, pending, at, i) && d !in p && c in p && c !in at
    ensures Paired(p[d := t], pending, at[c := d], i + 1)
  {
    var bt := at[c := d];
    forall x | x in bt ensures Waits(pending, i + 1, x) {
      if x != c { WaitsLonger(pending, i, x); } else { assert pending[i].ceremony.date == x; }
    }
    hide Waits;
  }

  lemma ServeNone(slots: seq<Slot>, p: Plan, pending: seq<Pending>, at: map<Date, Date>, i: nat)
    requires PendingOk(p, pending) && Awaited(p, pending) && i < |pending| && ServedSoFar(slots, p, pending, at, i)
    requires forall d :: d in p ==> IsEarly(p[d])
    requires 0 <= pending[i].ceremony.date.month < 12 && forall v :: 5 <= v <= 12 ==> NoneFree(slots, p, pending[i].ceremony, v)
    ensures ServedSoFar(slots, p, pending, at, i + 1)
  {
    hide CeremonyServed; hide NoneFree; hide IsEarly; hide PendingOk; hide Awaited; hide NoneElse;
    NotYetServed(p, pending, at, i);
    UnservedOne(slots, p, pending[i].ceremony, at);
    assert Paired(p, pending, at, i + 1) by {
      hide OneToOne; hide FirstServed; hide Waits;
      forall x | x in at ensures Waits(pending, i + 1, x) { WaitsLonger(pending, i, x); }
    }
    hide Paired;
  }

  lemma UnservedOne(slots: seq<Slot>, p: Plan, ceremony: Slot, at: map<Date, Date>)
    requires ceremony.date in p && ceremony.date !in at && forall d :: d in p ==> IsEarly(p[d])
    requires 0 <= ceremony.date.month < 12 && forall v :: 5 <= v <= 12 ==> NoneFree(slots, p, ceremony, v)
    ensures CeremonyServed(slots, p, at, ceremony.date)
  {
    hide NoneFree; hide IsEarly;
    NoneFreeMeans(slots, p, ceremony, 13);
  }

  lemma WaitsLonger(pending: seq<Pending>, i: nat, x: Date)
    requires i < |pending| && Waits(pending, i, x)
    ensures Waits(pending, i + 1, x)
  {
  }

  lemma AllServed(slots: seq<Slot>, p: Plan, pending: seq<Pending>, at: map<Date, Date>)
    requires PendingOk(p, pending) && Awaited(p, pending) && ServedSoFar(slots, p, pending, at, |pending|)
    ensures CeremoniesServed(slots, p, at)
  {
    hide CeremonyServed;
    forall c | c in p && NeedsPrecursor(p[c]) ensures CeremonyServed(slots, p, at, c) {
      assert Waits(pending, |pending|, c);
      var i :| 0 <= i < |pending| && pending[i].ceremony.date == c;
      assert CeremonyServed(slots, p, at, pending[i].ceremony.date);
    }
  }

  /** Later passes that add no ceremony and no precursor change nothing of this. */
  lemma CeremoniesStayServed(slots: seq<Slot>, p: Plan, q: Plan, at: map<Date, Date>)
    requires CeremoniesServed(slots, p, at) && Extends(p, q)
    requires forall d :: d in q && d !in p ==> !NeedsPrecursor(q[d]) && !IsPrecursor(q[d])
    ensures CeremoniesServed(slots, q, at)
  {
    hide CeremonyServed; hide NeedsPrecursor; hide IsPrecursor;
    forall c | c in q && NeedsPrecursor(q[c]) ensures CeremonyServed(slots, q, at, c) {
      assert c in p;
      ServedStays(slots, p, q, at, at, c);
    }
  }

  predicate Free(p: Plan, s: Slot) { !s.blackout && s.date !in p }

  /** The guarantee's preference: fourth, third, second, then fifth slot. */
  function TaICandidate(ms: seq<Slot>, p: Plan): Option<Slot> {
    if |ms| > 3 && Free(p, ms[3]) then Some(ms[3])
    else if |ms| > 2 && Free(p, ms[2]) then Some(ms[2])
    else if |ms| > 1 && Free(p, ms[1]) then Some(ms[1])
    else if |ms| > 4 && Free(p, ms[4]) then Some(ms[4])
    else None
  }

  ghost predicate HasAufnahme(p: Plan, month: int) {
    exists d :: d in p && d.month == month && p[d].Aufnahme?
  }

  /** The guarantee has handled the months in `seen`. */
  ghost predicate Guaranteed(slots: seq<Slot>, p: Plan, q: Plan, seen: seq<int>) {
    && Extends(p, q)
    && (forall d :: d in q && d !in p ==>
          && q[d] == Brudermahl && !HasAufnahme(p, d.month) && d.month in seen
          && TaICandidate(MonthSlots(slots, d.month), p) == Some(SlotOf(d)))
    && (forall m :: m in seen && m != 6 && m != 7 ==> HasTaI(q, m))
  }

  lemma NothingGuaranteed(slots: seq<Slot>, p: Plan)
    ensures Guaranteed(slots, p, p, [])
  {
  }

  lemma GuaranteedOne(slots: seq<Slot>, p: Plan, q: Plan, seen: seq<int>, d: Date)
    requires Guaranteed(slots, p, q, seen) && d !in q && d.month !in seen && !HasAufnahme(p, d.month)
    requires TaICandidate(MonthSlots(slots, d.month), p) == Some(SlotOf(d))
    ensures Guaranteed(slots, p, q[d := Brudermahl], seen + [d.month])
  {
    var r := q[d := Brudermahl];
    hide TaICandidate; hide MonthSlots; hide SlotOf; hide HasAufnahme;
    forall m | m in seen && m != 6 && m != 7 ensures HasTaI(r, m) { ExtendKeepsTaI(q, r, m); }
    assert HasTaI(r, d.month) by { assert d in r && IsTaI(r[d]); }
    hide HasTaI;
  }

  lemma GuaranteedSkip(slots: seq<Slot>, p: Plan, q: Plan, seen: seq<int>, month: int)
    requires Guaranteed(slots, p, q, seen) && (month == 6 || month == 7 || HasAufnahme(q, month))
    ensures Guaranteed(slots, p, q, seen + [month])
  {
    hide TaICandidate; hide MonthSlots; hide SlotOf;
    if HasAufnahme(q, month) {
      var d :| d in q && d.month == month && q[d].Aufnahme?;
      assert HasTaI(q, month);
    }
    hide HasAufnahme; hide HasTaI;
  }

  lemma GuaranteedMeans(slots: seq<Slot>, p: Plan, q: Plan, months: seq<int>)
    requires Guaranteed(slots, p, q, months) && AllMonths(months)
    ensures Extends(p, q) && forall m :: 0 <= m < 12 && m != 6 && m != 7 ==> HasTaI(q, m)
    ensures forall d :: d in q && d !in p ==>
              && q[d] == Brudermahl && !HasAufnahme(p, d.month)
              && TaICandidate(MonthSlots(slots, d.month), p) == Some(SlotOf(d))
  {
    hide TaICandidate; hide MonthSlots; hide SlotOf; hide HasAufnahme; hide HasTaI;
  }

  /** A slot the precursor search may take, `weeks` weeks before the ceremony. */
  predicate FreeWeeksBefore(slots: seq<Slot>, p: Plan, ceremony: Slot, weeks: nat, s: Slot)
    requires 0 <= s.date.month < 12 && 0 <= ceremony.date.month < 12
  {
    s in slots && DayNumber(s.date) == DayNumber(ceremony.date) - 7 * weeks && Free(p, s) && !s.isFirst
  }

  ghost predicate NoneFree(slots: seq<Slot>, p: Plan, ceremony: Slot, weeks: nat)
    requires 0 <= ceremony.date.month < 12
  {
    forall s :: s in slots && 0 <= s.date.month < 12 ==> !FreeWeeksBefore(slots, p, ceremony, weeks, s)
  }

  lemma MonthFacts(slots: seq<Slot>, m: int)
    requires GoodSlots(slots) && 0 <= m < 12
    ensures MonthOk(slots, m)
  {
  }

  lemma SlotFacts(slots: seq<Slot>, s: Slot)
    requires GoodSlots(slots) && s in slots
    ensures ValidDate(s.date) && s == SlotOf(s.date) && 0 <= s.month < 12
    ensures s in MonthSlots(slots, s.month) && MonthOk(slots, s.month)
  {
    var i :| 0 <= i < |slots| && slots[i] == s;
    assert MonthOk(slots, s.month);
  }

  lemma MonthSizes(slots: seq<Slot>, m: int)
    requires GoodSlots(slots) && 0 <= m < 12
    ensures 4 <= |MonthSlots(slots, m)| <= 5
  {
    MonthFacts(slots, m);
  }

  lemma NthSlot(slots: seq<Slot>, m: int, i: nat)
    requires GoodSlots(slots) && 0 <= m < 12 && i < |MonthSlots(slots, m)|
    ensures var ms := MonthSlots(slots, m);
            && ms[i] in slots && ms[i] == SlotOf(ms[i].date) && ValidDate(ms[i].date) && ms[i].date.month == m
            && 7 * i + 1 <= ms[i].date.day <= 7 * i + 7
            && (i == |ms| - 1 ==> ms[i].date.day + 7 > DaysInMonth(ms[i].date.year, m))
  {
    hide GoodSlots;
    MonthFacts(slots, m);
    var ms := MonthSlots(slots, m);
    SlotFacts(slots, ms[i]);
    SlotFacts(slots, ms[0]);
    if m == 1 { assert DaysInMonth(ms[i].date.year, m) <= 29; }
  }

  /** A slot's week fixes its place in the month. */
  lemma SlotInWeek(slots: seq<Slot>, s: Slot, i: nat)
    requires GoodSlots(slots) && s in slots
    requires 7 * i + 1 <= s.date.day <= 7 * i + 7
    ensures i < |MonthSlots(slots, s.month)| && MonthSlots(slots, s.month)[i] == s
  {
    hide GoodSlots;
    SlotFacts(slots, s);
    var ms := MonthSlots(slots, s.month);
    var j :| 0 <= j < |ms| && ms[j] == s;
  }

  class ScheduleBuilder {
    const slots: seq<Slot>
    const months: seq<int>
    var plan: Plan
    var takenMonths: set<int>
    var pending: seq<Pending>

    ghost predicate Valid() {
      GoodSlots(slots) && AllMonths(months)
    }

    lemma ValidMeans()
      requires Valid()
      ensures GoodSlots(slots) && AllMonths(months)
    {
    }

    constructor (slots: seq<Slot>, months: seq<int>)
      requires GoodSlots(slots) && AllMonths(months)
      ensures Valid() && this.slots == slots && this.months == months
      ensures plan == map[] && takenMonths == {} && pending == []
    {
      this.slots, this.months := slots, months;
      plan, takenMonths, pending := map[], {}, [];
    }

    /** Write-once: a missing slot or a taken date is skipped. */
    method Assign(slot: Option<Slot>, title: Title)
      modifies this`plan
      ensures plan == if slot.Some? && slot.value.date !in old(plan)
                          then old(plan)[slot.value.date := title] else old(plan)
    {
      if slot.None? { return; }
      if slot.value.date in plan { return; }
      plan := plan[slot.value.date := title];
    }

    method AssignFixedDates()
      requires Valid() && plan == map[]
      modifies this`plan
      ensures FixedPlan(slots, plan)
    {
      hide GoodSlots; hide FixedPlan; hide MonthOk;
      FixedSlots(slots);
      var august := MonthSlots(slots, 7);
      Assign(Some(august[if 2 < |august| - 1 then 2 else |august| - 1]), Sommerfest);
      var june := MonthSlots(slots, 5);
      Assign(Some(june[|june| - 1]), Johannisfest);
      var may := MonthSlots(slots, 4);
      Assign(Some(may[2]), Mitgliederversammlung);
      FixedPlanBuilt(slots, plan);
    }

    /** Scans the months in order for `count` usable ones that are eligible and not taken yet. */
    method PickCeremonyMonths(count: nat, rule: PickRule) returns (picked: seq<Slot>)
      requires Valid()
      modifies this`takenMonths
      ensures var u := UsableSlots(rule, slots, plan, old(takenMonths), months);
              picked == if |u| <= count then u else u[..count]
      ensures takenMonths == old(takenMonths) + MonthsOf(picked)
    {
      hide Valid; hide GoodSlots; hide AllMonths; hide UsableSlots; hide PickSlot; hide MonthSlots; hide Eligible; hide MonthsOf;
      picked := [];
      ghost var taken := takenMonths;
      var i := 0;
      ValidMeans();
      PickStart(rule, slots, plan, taken, months);
      while i < |months| && |picked| < count
        invariant 0 <= i <= |months| && |picked| <= count
        invariant picked == UsableSlots(rule, slots, plan, taken, months[..i])
        invariant takenMonths == taken + MonthsOf(picked)
      {
        var month := months[i];
        PickStep(rule, slots, plan, taken, months, i);
        if month in Eligible() && month !in takenMonths {
          var slot := PickSlot(rule, MonthSlots(slots, month), plan);
          if slot.Some? && !slot.value.blackout && slot.value.date !in plan {
            takenMonths := takenMonths + {month};
            picked := picked + [slot.value];
          }
        }
        i := i + 1;
      }
      UsablePrefix(rule, slots, plan, taken, months, i);
      assert i == |months| ==> months[..i] == months;
    }

    method AssignCeremonies(picked: seq<Slot>, rule: PickRule)
      requires DatesOf(picked) !! plan.Keys && DistinctDates(picked)
      modifies this`plan, this`pending
      ensures plan == AddCeremonies(old(plan), picked, rule)
      ensures pending == old(pending) + CeremonyPendings(picked, rule)
    {
      ghost var p, q := plan, pending;
      for i := 0 to |picked|
        invariant plan == AddCeremonies(p, picked[..i], rule)
        invariant pending == q + CeremonyPendings(picked, rule)[..i]
      {
        PrefixFree(p, picked, rule, i);
        assert picked[..i + 1][..i] == picked[..i];
        Assign(Some(picked[i]), CeremonyTitle(rule, i));
        pending := pending + [Pending(picked[i], PrecursorTitle(rule, i))];
      }
      assert picked[..|picked|] == picked;
      assert CeremonyPendings(picked, rule)[..|picked|] == CeremonyPendings(picked, rule);
    }

    /** Picks the first `count` usable months and assigns their ceremonies. */
    method PlaceCeremoniesOf(count: nat, rule: PickRule) returns (picked: seq<Slot>)
      requires Valid() && FixedTaken(slots, plan)
      requires |UsableSlots(rule, slots, plan, takenMonths, months)| >= count
      modifies this
      ensures |picked| == count && picked == UsableSlots(rule, slots, old(plan), old(takenMonths), months)[..count]
      ensures Picks(rule, slots, old(plan), old(takenMonths), picked)
      ensures plan == AddCeremonies(old(plan), picked, rule)
      ensures takenMonths == old(takenMonths) + MonthsOf(picked)
      ensures pending == old(pending) + CeremonyPendings(picked, rule)
    {
      hide GoodSlots; hide Picks;
      UsableSlotsPicks(rule, slots, plan, takenMonths, months);
      ghost var u := UsableSlots(rule, slots, plan, takenMonths, months);
      ghost var taken := takenMonths;
      picked := PickCeremonyMonths(count, rule);
      assert picked == u[..count];
      PicksTake(rule, slots, plan, taken, u, picked);
      PicksFacts(rule, slots, plan, taken, picked);
      AssignCeremonies(picked, rule);
    }

    /** Five Beförderungen on third (or fifth) slots, then three Aufnahmen on last slots. */
    method PlaceCeremonies() returns (ghost befs: seq<Date>, ghost aufs: seq<Date>)
      requires Valid() && FixedPlan(slots, plan) && takenMonths == {} && pending == []
      modifies this
      ensures Ready(slots, plan, pending) && Extends(old(plan), plan)
      ensures Awaited(plan, pending) && |pending| == 8
      ensures CeremonyDays(plan) && BefInOrder(slots, months, plan)
      ensures CeremonyTurns(months, plan, befs, aufs) && KugelungTurns(pending, aufs)
      ensures forall d :: d in plan ==> d.day >= 15 && (IsFixed(plan[d]) || IsCeremony(plan[d]))
    {
      hide GoodSlots; hide Picks; hide FixedPlan; hide FixedTaken; hide Core; hide AddCeremonies; hide UsableSlots; hide AddsCeremonies; hide Ready; hide CeremonyDays; hide BefInOrder;
      hide Awaited; hide AllMonths; hide CeremonyTurns; hide KugelungTurns;
      ghost var p0 := plan;
      FixedPlanTaken(slots, p0);
      EnoughBefoerderungen(slots, p0, months);
      var bef := PlaceCeremoniesOf(5, ThirdOrFifth);
      PicksAdd(slots, p0, {}, bef, ThirdOrFifth);
      ghost var p1 := plan;
      PicksSize(ThirdOrFifth, slots, p0, {}, bef);
      MonthsTaken(slots, p0, bef, p1);
      EnoughAufnahmen(slots, p1, takenMonths, months);
      var auf := PlaceCeremoniesOf(3, Last);
      assert Ceremonies(slots, p0, bef, auf, plan);
      CeremoniesReady(slots, p0, bef, auf, plan, pending);
      CeremoniesAwaited(slots, p0, bef, auf, plan, pending);
      CeremoniesOnDays(slots, p0, bef, auf, plan);
      BefoerderungenInOrder(slots, months, p0, bef, auf, plan);
      CeremoniesInTurn(slots, months, p0, bef, auf, plan, pending);
      befs, aufs := Dates(bef), Dates(auf);
    }

    /** An Erhebung on the fifth slot of every month that has a free one. */
    method PlaceErhebungen() returns (ghost erh: seq<Date>)
      requires Valid() && Ready(slots, plan, pending) && Awaited(plan, pending) && forall d :: d in plan ==> !plan[d].Erhebung?
      modifies this`plan, this`pending
      ensures Ready(slots, plan, pending) && Extends(old(plan), plan)
      ensures Awaited(plan, pending) && old(pending) <= pending
      ensures forall d :: d in plan && d !in old(plan) ==> plan[d].Erhebung? && d.day >= 29
      ensures ErhebungList(months, plan, erh)
      ensures forall m :: 0 <= m < 12 && |MonthSlots(slots, m)| == 5 ==>
                MonthSlots(slots, m)[4].blackout || MonthSlots(slots, m)[4].date in plan
    {
      hide GoodSlots; hide Ready; hide MonthOk; hide Prepares; hide Awaited; hide ErhebungenUpTo;
      var fellowCraftCounter := 0;
      erh := [];
      NoErhebungYet(months, plan);
      for i := 0 to |months|
        invariant ErhebungenUpTo(months, i, plan, erh) && fellowCraftCounter == |erh|
        invariant Ready(slots, plan, pending) && Extends(old(plan), plan)
        invariant Awaited(plan, pending) && old(pending) <= pending
        invariant forall d :: d in plan && d !in old(plan) ==> plan[d].Erhebung? && d.day >= 29
        invariant forall j :: 0 <= j < i && |MonthSlots(slots, months[j])| == 5 ==>
                    MonthSlots(slots, months[j])[4].blackout || MonthSlots(slots, months[j])[4].date in plan
      {
        var ms := MonthSlots(slots, months[i]);
        assert months[i] in months;
        MonthSizes(slots, months[i]);
        ErhebungNext(months, i, plan, erh, if |ms| >= 5 then ms[4].date else Date(0, 0, 0));
        if |ms| >= 5 && !ms[4].blackout && ms[4].date !in plan {
          var fifth := ms[4];
          NthSlot(slots, months[i], 4);
          var who := fellowCraftCounter % FELLOWCRAFTS;
          fellowCraftCounter := fellowCraftCounter + 1;
          AssignKeepsReady(slots, plan, pending, fifth, Erhebung(who));
          ErhebungAwaited(slots, plan, pending, fifth, who);
          Assign(Some(fifth), Erhebung(who));
          erh := erh + [fifth.date];
          WaitingKeepsReady(slots, plan, pending, Pending(fifth, Meistervortrag(who)));
          pending := pending + [Pending(fifth, Meistervortrag(who))];
        }
      }
      UpToAll(months, plan, erh);
      forall m | 0 <= m < 12 && |MonthSlots(slots, m)| == 5
        ensures MonthSlots(slots, m)[4].blackout || MonthSlots(slots, m)[4].date in plan
      {
        assert m in months;
        var j :| 0 <= j < |months| && months[j] == m;
      }
    }

    /** At least one TA I event in every month but July and August.  Nothing before this pass can take or black
        out a month's second slot, so a month without Aufnahme always finds a candidate. */
    method GuaranteeTaI()
      requires Valid() && Ready(slots, plan, pending)
      requires forall d :: d in plan ==> d.day >= 15
      modifies this`plan
      ensures Ready(slots, plan, pending) && Extends(old(plan), plan)
      ensures forall m :: 0 <= m < 12 && m != 6 && m != 7 ==> HasTaI(plan, m)
      ensures forall d :: d in plan && d !in old(plan) ==>
                && plan[d] == Brudermahl && !HasAufnahme(old(plan), d.month)
                && TaICandidate(MonthSlots(slots, d.month), old(plan)) == Some(SlotOf(d))
    {
      hide Ready; hide Valid; hide Guaranteed; hide MonthSlots; hide TaICandidate; hide HasAufnahme; hide HasTaI; hide Extends;
      hide AllMonths; hide GoodSlots;
      ghost var p := plan;
      ValidMeans();
      NothingGuaranteed(slots, p);
      for i := 0 to |months|
        invariant Ready(slots, plan, pending) && Guaranteed(slots, p, plan, months[..i])
      {
        MonthAt(months, i);
        GuaranteeMonth(months[i], p, months[..i]);
      }
      assert months[..|months|] == months;
      GuaranteedMeans(slots, p, plan, months);
    }

    /** One round of the guarantee. */
    method GuaranteeMonth(month: int, ghost p: Plan, ghost seen: seq<int>)
      requires Valid() && Ready(slots, plan, pending) && 0 <= month < 12 && month !in seen
      requires Guaranteed(slots, p, plan, seen) && forall d :: d in p ==> d.day >= 15
      modifies this`plan
      ensures Ready(slots, plan, pending) && Guaranteed(slots, p, plan, seen + [month])
    {
      hide Core; hide PrecursorsOk; hide PendingOk; hide MonthOk; hide TaICandidate; hide MonthSlots;
      if month != 6 && month != 7 {
        SameInMonth(p, plan, month);
        var hasAufnahme := AlreadyHasAufnahme(month);
        if !hasAufnahme {
          var ms := MonthSlots(slots, month);
          var candidate := TaICandidate(ms, plan);
          CandidateExists(slots, p, plan, month);
          AssignKeepsReady(slots, plan, pending, candidate.value, Brudermahl);
          GuaranteedOne(slots, p, plan, seen, candidate.value.date);
          hide Guaranteed; hide Ready; hide GoodSlots;
          Assign(candidate, Brudermahl);
        } else {
          GuaranteedSkip(slots, p, plan, seen, month);
        }
      } else {
        GuaranteedSkip(slots, p, plan, seen, month);
      }
    }

    method AlreadyHasAufnahme(month: int) returns (b: bool)
      requires Valid() && 0 <= month < 12 && Core(slots, plan)
      ensures b <==> HasAufnahme(plan, month)
    {
      var ms := MonthSlots(slots, month);
      assert MonthOk(slots, month);
      b := exists s :: s in ms && s.date in plan && plan[s.date].Aufnahme?;
      if d :| d in plan && d.month == month && plan[d].Aufnahme? {
        assert SlotOf(d) in ms;
      }
    }

    method FindSlot(day: int) returns (r: Option<Slot>)
      requires Valid()
      ensures r.Some? ==> r.value in slots && ValidDate(r.value.date) && DayNumber(r.value.date) == day
      ensures r.None? ==> forall s :: s in slots && 0 <= s.date.month < 12 ==> DayNumber(s.date) != day
    {
      for i := 0 to |slots|
        invariant forall j :: 0 <= j < i ==> DayNumber(slots[j].date) != day
      {
        if DayNumber(slots[i].date) == day { return Some(slots[i]); }
      }
      return None;
    }

    /** The closest free slot 5 to 12 weeks before the ceremony, never a month's first. */
    method PlacePrecursor(ceremony: Slot) returns (r: Option<Slot>)
      requires Valid() && ValidDate(ceremony.date)
      ensures r.Some? ==>
                && r.value in slots && ValidDate(r.value.date)
                && exists w :: 5 <= w <= 12 && FreeWeeksBefore(slots, plan, ceremony, w, r.value)
                               && forall v :: 5 <= v < w ==> NoneFree(slots, plan, ceremony, v)
      ensures r.None? ==> forall v :: 5 <= v <= 12 ==> NoneFree(slots, plan, ceremony, v)
    {
      for weeks := 5 to 13
        invariant forall v :: 5 <= v < weeks ==> NoneFree(slots, plan, ceremony, v)
      {
        var candidate := FindSlot(DayNumber(ceremony.date) - 7 * weeks);
        if candidate.Some? && !candidate.value.blackout && !candidate.value.isFirst && candidate.value.date !in plan {
          assert FreeWeeksBefore(slots, plan, ceremony, weeks, candidate.value);
          return candidate;
        }
        OneSlotPerDay(slots, plan, ceremony, weeks, candidate);
      }
      return None;
    }

    /** The waiting precursors, placed after the guarantee has taken what it needs. */
    method PlacePrecursors() returns (ghost at: map<Date, Date>)
      requires Valid() && Ready(slots, plan, pending) && Awaited(plan, pending)
      requires forall d :: d in plan ==> IsEarly(plan[d]) && !IsPrecursor(plan[d])
      modifies this`plan
      ensures Ready(slots, plan, pending) && Extends(old(plan), plan)
      ensures forall d :: d in plan && d !in old(plan) ==> IsPrecursor(plan[d])
      ensures CeremoniesServed(slots, plan, at) && Titled(plan, pending, at)
    {
      hide Titled; hide Core; hide PrecursorsOk; hide MonthOk; hide ServedSoFar; hide Awaited; hide IsEarly; hide IsPrecursor; hide Prepares;
      hide CeremoniesServed; hide DayNumber; hide NoneFree;
      at := map[];
      NothingServed(slots, plan, pending);
      NothingTitled(plan, pending);
      for i := 0 to |pending|
        invariant Ready(slots, plan, pending) && Extends(old(plan), plan) && Awaited(plan, pending)
        invariant forall d :: d in plan && d !in old(plan) ==> IsPrecursor(plan[d])
        invariant forall d :: d in plan ==> IsEarly(plan[d])
        invariant ServedSoFar(slots, plan, pending, at, i) && Titled(plan, pending, at)
      {
        var slot := PlacePrecursor(pending[i].ceremony);
        if slot.Some? {
          SlotFacts(slots, slot.value);
          ghost var w :| 5 <= w <= 12 && FreeWeeksBefore(slots, plan, pending[i].ceremony, w, slot.value)
                         && forall v :: 5 <= v < w ==> NoneFree(slots, plan, pending[i].ceremony, v);
          PrecursorKeepsReady(slots, plan, pending, i, slot.value, w);
          ServeOne(slots, plan, pending, at, i, slot.value, w);
          PrecursorIsEarly(plan, slot.value.date, pending[i].title, pending);
          OneMoreTitled(plan, pending, at, i, slot.value.date);
          at := at[pending[i].ceremony.date := slot.value.date];
        } else {
          ServeNone(slots, plan, pending, at, i);
        }
        Assign(slot, pending[i].title);
      }
      AllServed(slots, plan, pending, at);
    }

    /** An Instruktion on the first free slot of the month that is neither its first nor its last. */
    method PlaceInstruktion(month: int) returns (placed: bool, ghost at: nat)
      requires Valid() && Ready(slots, plan, pending) && 0 <= month < 12
      modifies this`plan
      ensures Ready(slots, plan, pending) && Extends(old(plan), plan)
      ensures placed ==> FirstFreeMiddle(slots, old(plan), month, at)
                         && plan == old(plan)[MonthSlots(slots, month)[at].date := Instruktion]
      ensures !placed ==> plan == old(plan)
                          && forall k :: 1 <= k < |MonthSlots(slots, month)| - 1 ==> !Free(plan, MonthSlots(slots, month)[k])
    {
      hide GoodSlots; hide Core; hide PrecursorsOk; hide PendingOk; hide InMiddle; hide MonthOk;
      MonthSizes(slots, month);
      var ms := MonthSlots(slots, month);
      var candidate, k := FirstFree(ms[1..|ms| - 1]);
      if candidate.Some? {
        NthSlot(slots, month, k + 1);
        MiddleSlot(slots, candidate.value, k + 1);
        forall j | 1 <= j < k + 1 ensures !Free(plan, ms[j]) { assert ms[1..|ms| - 1][j - 1] == ms[j]; }
        AssignKeepsReady(slots, plan, pending, candidate.value, Instruktion);
        Assign(candidate, Instruktion);
        placed, at := true, k + 1;
      } else {
        placed, at := false, 0;
        forall k | 1 <= k < |ms| - 1 ensures !Free(plan, ms[k]) { assert ms[1..|ms| - 1][k - 1] == ms[k]; }
      }
    }

    /** Up to three Instruktionen, one a month, never on a first or last slot, in the earliest months that have room and
        on the first free slot there. */
    method PlaceInstruktionen()
      requires Valid() && Ready(slots, plan, pending)
      requires forall d :: d in plan ==> plan[d] != Instruktion
      modifies this`plan
      ensures Ready(slots, plan, pending) && Extends(old(plan), plan)
      ensures forall d :: d in plan && d !in old(plan) ==> plan[d] == Instruktion && InMiddle(slots, d)
      ensures |Instruktionen(plan)| <= 3 && OnePerMonth(Instruktionen(plan))
      ensures forall s :: s in slots && InMiddle(slots, s.date) && Free(plan, s) ==> LeftOver(months, plan, s.date)
    {
      hide Ready; hide Valid; hide GoodSlots; hide AllMonths; hide Progress; hide InMiddle; hide MonthSlots; hide Free; hide LeftOver; hide Extends;
      hide Instruktionen; hide OnePerMonth; hide FirstFreeMiddle;
      ghost var p := plan;
      var instruktionCount := 0;
      var usedMonths: set<int> := {};
      var i := 0;
      ValidMeans();
      NoProgress(slots, p, months);
      while i < |months| && instruktionCount < 3
        invariant 0 <= i <= |months| && 0 <= instruktionCount <= 3
        invariant Ready(slots, plan, pending) && Progress(slots, p, plan, usedMonths, instruktionCount, months, i)
      {
        var month := months[i];
        MonthAt(months, i);
        if month in usedMonths {
          Skipped(slots, p, plan, usedMonths, instruktionCount, months, i);
        } else {
          ghost var before := plan;
          var placed, at := PlaceInstruktion(month);
          if placed {
            PlacedOne(slots, p, before, usedMonths, instruktionCount, months, i, at);
            usedMonths := usedMonths + {month};
            instruktionCount := instruktionCount + 1;
          } else {
            FoundNone(slots, p, plan, usedMonths, instruktionCount, months, i);
          }
        }
        i := i + 1;
      }
      ProgressMeans(slots, p, plan, usedMonths, instruktionCount, months, i);
    }

    method FirstFree(ms: seq<Slot>) returns (r: Option<Slot>, ghost k: nat)
      ensures r.Some? ==> k < |ms| && r.value == ms[k] && Free(plan, ms[k]) && forall j :: 0 <= j < k ==> !Free(plan, ms[j])
      ensures r.None? ==> forall j :: 0 <= j < |ms| ==> !Free(plan, ms[j])
    {
      k := 0;
      for i := 0 to |ms|
        invariant forall j :: 0 <= j < i ==> !Free(plan, ms[j])
      {
        if !ms[i].blackout && ms[i].date !in plan { return Some(ms[i]), i; }
      }
      return None, 0;
    }

    /** Gästeabend on the first slots, fillers on everything else that is left. */
    method FillBaseline()
      requires Valid() && Ready(slots, plan, pending)
      modifies this`plan
      ensures Ready(slots, plan, pending) && Extends(old(plan), plan)
      ensures forall d :: d in plan && d !in old(plan) ==> IsBaseline(d, plan[d])
      ensures forall s :: s in slots && !s.blackout ==> s.date in plan
      ensures forall i :: 0 <= i < |slots| && IsFilled(old(plan), slots[i]) ==>
                slots[i].date in plan && plan[slots[i].date] == FillerTitle(FillersBefore(slots, old(plan), i))
    {
      hide Ready; hide GoodSlots; hide Filling; hide FillersBefore;
      NothingFilled(slots, plan, pending);
      var fillerCounter := 0;
      for i := 0 to |slots|
        invariant fillerCounter == FillersBefore(slots, old(plan), i)
        invariant Ready(slots, plan, pending) && Filling(slots, old(plan), plan, i)
      {
        var slot := slots[i];
        FillKeepsReady(slots, old(plan), plan, pending, i);
        FillOne(slots, old(plan), plan, i);
        if !slot.blackout && slot.date !in plan {
          var title := Gaesteabend;
          if !slot.isFirst {
            title := FillerTitle(fillerCounter);
            fillerCounter := fillerCounter + 1;
          }
          plan := plan[slot.date := title];
        }
      }
      FillingMeans(slots, old(plan), plan);
    }
  }

  /** The baseline has handled the first `n` slots. */
  ghost predicate Filling(slots: seq<Slot>, p: Plan, q: Plan, n: nat)
    requires n <= |slots|
  {
    && Extends(p, q) && (forall d :: d in q && d !in p ==> IsBaseline(d, q[d]))
    && (forall j :: n <= j < |slots| ==> (slots[j].date in q <==> slots[j].date in p))
    && (forall j :: 0 <= j < n && !slots[j].blackout ==> slots[j].date in q)
    && (forall j :: 0 <= j < n && IsFilled(p, slots[j]) ==>
          slots[j].date in q && q[slots[j].date] == FillerTitle(FillersBefore(slots, p, j)))
  }

  lemma NothingFilled(slots: seq<Slot>, p: Plan, pending: seq<Pending>)
    ensures Filling(slots, p, p, 0) && FillersBefore(slots, p, 0) == 0
  {
  }

  lemma FillKeepsReady(slots: seq<Slot>, p: Plan, q: Plan, pending: seq<Pending>, i: nat)
    requires GoodSlots(slots) && i < |slots| && Ready(slots, q, pending)
    ensures var s := slots[i];
            var r := if s.blackout || s.date in q then q
                     else q[s.date := if s.isFirst then Gaesteabend else FillerTitle(FillersBefore(slots, p, i))];
            Ready(slots, r, pending)
  {
    var s := slots[i];
    if !s.blackout && s.date !in q {
      AssignKeepsReady(slots, q, pending, s, if s.isFirst then Gaesteabend else FillerTitle(FillersBefore(slots, p, i)));
    }
    hide Ready; hide GoodSlots;
  }

  lemma FillOne(slots: seq<Slot>, p: Plan, q: Plan, i: nat)
    requires GoodSlots(slots) && i < |slots| && Filling(slots, p, q, i)
    ensures var s := slots[i]; var n := FillersBefore(slots, p, i);
            && FillersBefore(slots, p, i + 1) == n + (if !s.blackout && s.date !in q && !s.isFirst then 1 else 0)
            && var r := if s.blackout || s.date in q then q else q[s.date := if s.isFirst then Gaesteabend else FillerTitle(n)];
               Filling(slots, p, r, i + 1)
  {
    var s := slots[i];
    SlotFacts(slots, s);
    DatesDiffer(slots, i);
    assert s.date.day >= 1;
    assert s.date in q <==> s.date in p;
    hide GoodSlots; hide Filling; hide MonthOk; hide MonthSlots; hide SlotOf;
    FillMore(slots, p, q, i);
  }

  lemma FillMore(slots: seq<Slot>, p: Plan, q: Plan, i: nat)
    requires i < |slots| && slots[i] == SlotOf(slots[i].date) && slots[i].date.day >= 1 && Filling(slots, p, q, i)
    requires forall j :: 0 <= j < |slots| && j != i ==> slots[j].date != slots[i].date
    ensures var s := slots[i];
            var r := if s.blackout || s.date in q then q
                     else q[s.date := if s.isFirst then Gaesteabend else FillerTitle(FillersBefore(slots, p, i))];
            Filling(slots, p, r, i + 1)
  {
    hide FillersBefore; hide IsBlackedOut;
    var s := slots[i];
    if !s.blackout && s.date !in q {
      var t := if s.isFirst then Gaesteabend else FillerTitle(FillersBefore(slots, p, i));
      assert IsBaseline(s.date, t);
      hide IsBaseline; hide FillerTitle; hide SlotOf;
    }
  }

  lemma FillingMeans(slots: seq<Slot>, p: Plan, q: Plan)
    requires Filling(slots, p, q, |slots|)
    ensures Extends(p, q) && forall d :: d in q && d !in p ==> IsBaseline(d, q[d])
    ensures forall s :: s in slots && !s.blackout ==> s.date in q
    ensures forall i :: 0 <= i < |slots| && IsFilled(p, slots[i]) ==>
              slots[i].date in q && q[slots[i].date] == FillerTitle(FillersBefore(slots, p, i))
  {
  }

  /** The baseline gives this slot a filler. */
  predicate IsFilled(p: Plan, s: Slot) { !s.blackout && s.date !in p && !s.isFirst }

  /** How many fillers come before slot `i`. */
  function FillersBefore(slots: seq<Slot>, p: Plan, i: nat): nat
    requires i <= |slots|
  {
    if i == 0 then 0 else FillersBefore(slots, p, i - 1) + if IsFilled(p, slots[i - 1]) then 1 else 0
  }

  lemma DatesDiffer(slots: seq<Slot>, i: nat)
    requires GoodSlots(slots) && i < |slots|
    ensures forall j :: 0 <= j < |slots| && j != i ==> slots[j].date != slots[i].date
  {
    forall j | 0 <= j < |slots| && j != i ensures slots[j].date != slots[i].date {
      var a, b := if j < i then j else i, if j < i then i else j;
      assert Earlier(slots[a].date, slots[b].date);
    }
  }

  function FillerTitle(n: nat): Title {
    if n % 3 == 0 then Kerzengespraech else if n % 3 == 1 then Begegnung else Vortrag(n % BROTHERS, n % TOPICS)
  }

  predicate IsFiller(t: Title) { t.Kerzengespraech? || t.Begegnung? || t.Vortrag? }

  predicate IsBaseline(d: Date, t: Title) { if d.day <= 7 then t == Gaesteabend else IsFiller(t) }

  ghost function Instruktionen(p: Plan): set<Date> { set d | d in p && p[d].Instruktion? }

  /** Neither the first nor the last slot of its month. */
  ghost predicate InMiddle(slots: seq<Slot>, d: Date) {
    var ms := MonthSlots(slots, d.month);
    exists k :: 1 <= k < |ms| - 1 && ms[k] == SlotOf(d)
  }

  /** `q` is `p` with `n` Instruktionen, one in each of the `used` months. */
  ghost predicate Added(slots: seq<Slot>, p: Plan, q: Plan, used: set<int>, n: nat) {
    && Extends(p, q)
    && (forall d :: d in q && d !in p ==> q[d] == Instruktion && InMiddle(slots, d))
    && |Instruktionen(q)| == n
    && (forall d :: d in Instruktionen(q) ==> d.month in used)
    && OnePerMonth(Instruktionen(q))
  }

  ghost predicate OnePerMonth(dates: set<Date>) {
    forall c, d :: c in dates && d in dates && c != d ==> c.month != d.month
  }

  /** The slot is the first of the month's middle ones that is free. */
  ghost predicate FirstFreeMiddle(slots: seq<Slot>, p: Plan, month: int, k: nat) {
    var ms := MonthSlots(slots, month);
    && 1 <= k < |ms| - 1 && Free(p, ms[k]) && ms[k].date.month == month && InMiddle(slots, ms[k].date)
    && forall j :: 1 <= j < k ==> !Free(p, ms[j])
  }

  /** Every middle slot of the month that was free in `p` has an Instruktion on it or before it. */
  ghost predicate FirstTaken(slots: seq<Slot>, p: Plan, q: Plan, month: int) {
    var ms := MonthSlots(slots, month);
    forall k :: 1 <= k < |ms| - 1 && Free(p, ms[k]) ==> TakenUpTo(q, ms, k)
  }

  ghost predicate TakenUpTo(q: Plan, ms: seq<Slot>, k: nat)
    requires k < |ms|
  {
    exists j :: 0 <= j <= k && ms[j].date in q && q[ms[j].date] == Instruktion
  }

  /** A middle date without Instruktion: its month has an earlier one, or all three stand in earlier months. */
  ghost predicate LeftOver(months: seq<int>, p: Plan, d: Date) {
    || (exists e :: e in p && p[e] == Instruktion && e.month == d.month && e.day < d.day)
    || (|Instruktionen(p)| == 3 && forall e :: e in p && p[e] == Instruktion ==> Before(months, e.month, d.month))
  }

  /** The pass has handled the first `i` months and put an Instruktion into each of the used ones. */
  ghost predicate Progress(slots: seq<Slot>, p: Plan, q: Plan, used: set<int>, n: nat, months: seq<int>, i: nat)
    requires i <= |months|
  {
    && Added(slots, p, q, used, n)
    && (forall j :: 0 <= j < i ==> FirstTaken(slots, p, q, months[j]))
    && (forall m :: m in used ==> m in months[..i])
  }

  lemma NoProgress(slots: seq<Slot>, p: Plan, months: seq<int>)
    requires forall d :: d in p ==> p[d] != Instruktion
    ensures Progress(slots, p, p, {}, 0, months, 0)
  {
    NothingAdded(slots, p);
  }

  lemma Skipped(slots: seq<Slot>, p: Plan, q: Plan, used: set<int>, n: nat, months: seq<int>, i: nat)
    requires i < |months| && Progress(slots, p, q, used, n, months, i) && months[i] in used
    ensures Progress(slots, p, q, used, n, months, i + 1)
  {
    hide Added; hide FirstTaken;
    assert months[..i + 1] == months[..i] + [months[i]];
  }

  /** Where nothing was added yet, free now is free before. */
  lemma StillFree(slots: seq<Slot>, p: Plan, q: Plan, used: set<int>, n: nat, month: int)
    requires GoodSlots(slots) && Added(slots, p, q, used, n) && 0 <= month < 12 && month !in used
    ensures forall s :: s in MonthSlots(slots, month) ==> (Free(p, s) <==> Free(q, s))
  {
    forall s | s in MonthSlots(slots, month) ensures Free(p, s) <==> Free(q, s) {
      MonthHasItsSlots(slots, month, s);
      assert s.date in Instruktionen(q) ==> s.date.month in used;
    }
  }

  lemma MonthHasItsSlots(slots: seq<Slot>, month: int, s: Slot)
    requires GoodSlots(slots) && 0 <= month < 12 && s in MonthSlots(slots, month)
    ensures s.date.month == month
  {
    MonthFacts(slots, month);
    var i :| 0 <= i < |MonthSlots(slots, month)| && MonthSlots(slots, month)[i] == s;
    NthSlot(slots, month, i);
  }

  lemma FoundNone(slots: seq<Slot>, p: Plan, q: Plan, used: set<int>, n: nat, months: seq<int>, i: nat)
    requires GoodSlots(slots) && i < |months| && 0 <= months[i] < 12 && months[i] !in used
    requires Progress(slots, p, q, used, n, months, i)
    requires forall k :: 1 <= k < |MonthSlots(slots, months[i])| - 1 ==> !Free(q, MonthSlots(slots, months[i])[k])
    ensures Progress(slots, p, q, used, n, months, i + 1)
  {
    hide Added; hide FirstTaken; hide GoodSlots; hide MonthSlots; hide Free;
    NoneTaken(slots, p, q, used, n, months[i]);
    assert months[..i + 1] == months[..i] + [months[i]];
  }

  lemma NoneTaken(slots: seq<Slot>, p: Plan, q: Plan, used: set<int>, n: nat, month: int)
    requires GoodSlots(slots) && 0 <= month < 12 && month !in used && Added(slots, p, q, used, n)
    requires forall k :: 1 <= k < |MonthSlots(slots, month)| - 1 ==> !Free(q, MonthSlots(slots, month)[k])
    ensures FirstTaken(slots, p, q, month)
  {
    hide Added; hide GoodSlots; hide MonthSlots; hide Free;
    StillFree(slots, p, q, used, n, month);
  }

  lemma TakenStays(slots: seq<Slot>, p: Plan, q: Plan, r: Plan, month: int)
    requires Extends(q, r) && FirstTaken(slots, p, q, month)
    ensures FirstTaken(slots, p, r, month)
  {
    hide Free; hide MonthSlots;
    var ms := MonthSlots(slots, month);
    forall k | 1 <= k < |ms| - 1 && Free(p, ms[k]) ensures TakenUpTo(r, ms, k) {
      assert TakenUpTo(q, ms, k);
      var j :| 0 <= j <= k && ms[j].date in q && q[ms[j].date] == Instruktion;
      assert ms[j].date in r && r[ms[j].date] == Instruktion;
    }
  }

  lemma PlacedOne(slots: seq<Slot>, p: Plan, q: Plan, used: set<int>, n: nat, months: seq<int>, i: nat, k: nat)
    requires GoodSlots(slots) && i < |months| && 0 <= months[i] < 12 && months[i] !in used
    requires Progress(slots, p, q, used, n, months, i) && FirstFreeMiddle(slots, q, months[i], k)
    ensures Progress(slots, p, q[MonthSlots(slots, months[i])[k].date := Instruktion], used + {months[i]}, n + 1, months, i + 1)
  {
    hide Added; hide FirstTaken; hide GoodSlots; hide MonthSlots; hide Extends;
    PlacedHere(slots, p, q, used, n, months[i], k);
    var r := q[MonthSlots(slots, months[i])[k].date := Instruktion];
    hide FirstFreeMiddle;
    forall j | 0 <= j < i ensures FirstTaken(slots, p, r, months[j]) { TakenStays(slots, p, q, r, months[j]); }
    assert months[..i + 1] == months[..i] + [months[i]];
  }

  lemma PlacedHere(slots: seq<Slot>, p: Plan, q: Plan, used: set<int>, n: nat, month: int, k: nat)
    requires GoodSlots(slots) && 0 <= month < 12 && month !in used
    requires Added(slots, p, q, used, n) && FirstFreeMiddle(slots, q, month, k)
    ensures var r := q[MonthSlots(slots, month)[k].date := Instruktion];
            Added(slots, p, r, used + {month}, n + 1) && FirstTaken(slots, p, r, month) && Extends(q, r)
  {
    hide GoodSlots; hide MonthSlots; hide InMiddle; hide Added; hide FirstTaken;
    AddOne(slots, p, q, used, n, MonthSlots(slots, month)[k].date);
    StillFree(slots, p, q, used, n, month);
    hide Free;
    FirstNowTaken(slots, p, q[MonthSlots(slots, month)[k].date := Instruktion], month, k);
  }

  lemma FirstNowTaken(slots: seq<Slot>, p: Plan, r: Plan, month: int, k: nat)
    requires var ms := MonthSlots(slots, month);
             && k < |ms| && ms[k].date in r && r[ms[k].date] == Instruktion && forall j :: 1 <= j < k ==> !Free(p, ms[j])
    ensures FirstTaken(slots, p, r, month)
  {
    hide Free; hide MonthSlots;
    var ms := MonthSlots(slots, month);
    forall j | 1 <= j < |ms| - 1 && Free(p, ms[j]) ensures TakenUpTo(r, ms, j) { assert k <= j; }
  }

  lemma ProgressMeans(slots: seq<Slot>, p: Plan, q: Plan, used: set<int>, n: nat, months: seq<int>, i: nat)
    requires GoodSlots(slots) && i <= |months| && Progress(slots, p, q, used, n, months, i) && AllMonths(months)
    requires n <= 3 && (i == |months| || n == 3)
    ensures Extends(p, q) && |Instruktionen(q)| == n && OnePerMonth(Instruktionen(q))
    ensures forall d :: d in q && d !in p ==> q[d] == Instruktion && InMiddle(slots, d)
    ensures forall s :: s in slots && InMiddle(slots, s.date) && Free(q, s) ==> LeftOver(months, q, s.date)
  {
    AddedMeans(slots, p, q, used, n);
    hide GoodSlots; hide InMiddle; hide Free; hide LeftOver; hide Added; hide MonthOk; hide AllMonths; hide FirstTaken;
    forall s | s in slots && InMiddle(slots, s.date) && Free(q, s) ensures LeftOver(months, q, s.date) {
      SlotFacts(slots, s);
      EveryMonthSeen(months, s.month);
      var j :| 0 <= j < |months| && months[j] == s.month;
      if j < i {
        assert FirstTaken(slots, p, q, months[j]);
        LeftAfterOne(slots, p, q, s);
      } else {
        LeftAfterThree(slots, p, q, used, months, i, j, s.date);
      }
    }
  }

  lemma LeftAfterOne(slots: seq<Slot>, p: Plan, q: Plan, s: Slot)
    requires GoodSlots(slots) && Extends(p, q) && s in slots && InMiddle(slots, s.date) && Free(q, s)
    requires FirstTaken(slots, p, q, s.month)
    ensures exists e :: e in q && q[e] == Instruktion && e.month == s.date.month && e.day < s.date.day
  {
    hide GoodSlots; hide MonthSlots;
    var k := MiddleIndex(slots, s);
    var ms := MonthSlots(slots, s.month);
    assert Free(p, ms[k]) && TakenUpTo(q, ms, k) by { hide InMiddle; }
    hide FirstTaken; hide InMiddle; hide Extends;
    var j :| 0 <= j <= k && ms[j].date in q && q[ms[j].date] == Instruktion;
    SlotsOrdered(slots, s.month, j, k);
  }

  lemma MiddleIndex(slots: seq<Slot>, s: Slot) returns (k: nat)
    requires GoodSlots(slots) && s in slots && InMiddle(slots, s.date)
    ensures 0 <= s.month < 12 && s.month == s.date.month
    ensures 1 <= k < |MonthSlots(slots, s.month)| - 1 && MonthSlots(slots, s.month)[k] == s
  {
    SlotFacts(slots, s);
    SlotMonth(s);
    hide GoodSlots; hide MonthSlots; hide MonthOk;
    k :| 1 <= k < |MonthSlots(slots, s.month)| - 1 && MonthSlots(slots, s.month)[k] == SlotOf(s.date);
  }

  lemma SlotMonth(s: Slot)
    requires s == SlotOf(s.date)
    ensures s.month == s.date.month
  {
  }

  lemma SlotsOrdered(slots: seq<Slot>, m: int, j: nat, k: nat)
    requires GoodSlots(slots) && 0 <= m < 12 && j <= k < |MonthSlots(slots, m)|
    ensures var ms := MonthSlots(slots, m);
            ms[j].date.month == m && ms[k].date.month == m && (j < k ==> ms[j].date.day < ms[k].date.day)
  {
    NthSlot(slots, m, j);
    NthSlot(slots, m, k);
    hide GoodSlots; hide MonthSlots;
  }

  lemma LeftAfterThree(slots: seq<Slot>, p: Plan, q: Plan, used: set<int>, months: seq<int>, i: nat, j: nat, d: Date)
    requires i <= j < |months| && months[j] == d.month && Added(slots, p, q, used, 3) && forall m :: m in used ==> m in months[..i]
    ensures LeftOver(months, q, d)
  {
    hide InMiddle; hide OnePerMonth;
    forall e | e in q && q[e] == Instruktion ensures Before(months, e.month, d.month) {
      assert e in Instruktionen(q);
      var h :| 0 <= h < i && months[..i][h] == e.month;
      assert months[h] == e.month;
    }
  }

  lemma EveryMonthSeen(months: seq<int>, m: int)
    requires AllMonths(months) && 0 <= m < 12
    ensures exists j :: 0 <= j < |months| && months[j] == m
  {
    assert m in months;
  }

  lemma NothingAdded(slots: seq<Slot>, p: Plan)
    requires forall d :: d in p ==> p[d] != Instruktion
    ensures Added(slots, p, p, {}, 0)
  {
    assert Instruktionen(p) == {};
  }

  lemma AddOne(slots: seq<Slot>, p: Plan, q: Plan, used: set<int>, n: nat, d: Date)
    requires Added(slots, p, q, used, n) && d !in q && d.month !in used && InMiddle(slots, d)
    ensures Added(slots, p, q[d := Instruktion], used + {d.month}, n + 1)
  {
    hide InMiddle;
    var r := q[d := Instruktion];
    assert Instruktionen(r) == Instruktionen(q) + {d};
    assert d !in Instruktionen(q);
    assert OnePerMonth(Instruktionen(r)) by {
      assert OnePerMonth(Instruktionen(q));
    }
  }

  lemma AddedMeans(slots: seq<Slot>, p: Plan, q: Plan, used: set<int>, n: nat)
    requires Added(slots, p, q, used, n)
    ensures Extends(p, q) && |Instruktionen(q)| == n && OnePerMonth(Instruktionen(q))
    ensures forall d :: d in q && d !in p ==> q[d] == Instruktion && InMiddle(slots, d)
  {
  }

  lemma MiddleSlot(slots: seq<Slot>, s: Slot, k: nat)
    requires 1 <= k < |MonthSlots(slots, s.date.month)| - 1 && MonthSlots(slots, s.date.month)[k] == s == SlotOf(s.date)
    ensures InMiddle(slots, s.date)
  {
  }

  // ----- the small facts the passes rest on -------------------------------

  predicate FixedOnly(d: Date, t: Title) {
    && (t == Sommerfest <==> IsSommerfestDay(d))
    && (t == Mitgliederversammlung <==> IsMitgliederversammlungDay(d))
    && (t == Johannisfest <==> IsJohannisfestDay(d))
    && IsFixed(t)
  }

  /** Where the three fixed events go. */
  lemma FixedSlots(slots: seq<Slot>)
    requires GoodSlots(slots)
    ensures |MonthSlots(slots, 7)| > 3 && |MonthSlots(slots, 5)| > 3 && |MonthSlots(slots, 4)| > 3
    ensures var s := MonthSlots(slots, 7)[2];
            ValidDate(s.date) && SlotOf(s.date) == s && s in slots && FixedOnly(s.date, Sommerfest)
    ensures var s := MonthSlots(slots, 5)[|MonthSlots(slots, 5)| - 1];
            ValidDate(s.date) && SlotOf(s.date) == s && s in slots && FixedOnly(s.date, Johannisfest)
    ensures var s := MonthSlots(slots, 4)[2];
            ValidDate(s.date) && SlotOf(s.date) == s && s in slots && FixedOnly(s.date, Mitgliederversammlung)
  {
    hide GoodSlots; hide MonthOk; hide SlotOf; hide MonthSlots;
    MonthSizes(slots, 7);
    MonthSizes(slots, 5);
    MonthSizes(slots, 4);
    NthSlot(slots, 7, 2);
    NthSlot(slots, 5, |MonthSlots(slots, 5)| - 1);
    NthSlot(slots, 4, 2);
  }

  lemma FixedPlanBuilt(slots: seq<Slot>, p: Plan)
    requires GoodSlots(slots) && |MonthSlots(slots, 7)| > 2 && |MonthSlots(slots, 5)| > 0 && |MonthSlots(slots, 4)| > 2
    requires p == map[MonthSlots(slots, 7)[2].date := Sommerfest][MonthSlots(slots, 5)[|MonthSlots(slots, 5)| - 1].date := Johannisfest][MonthSlots(slots, 4)[2].date := Mitgliederversammlung]
    ensures FixedPlan(slots, p)
  {
    hide GoodSlots; hide MonthOk;
    FixedSlots(slots);
    forall d | d in p ensures ValidDate(d) && SlotOf(d) in slots && IsFixedDay(d) && FixedOnly(d, p[d]) { }
    forall d | ValidDate(d) && SlotOf(d) in slots && IsFixedDay(d) ensures d in p {
      FixedDayTaken(slots, d);
      assert SlotOf(d).date == d;
    }
  }

  lemma FixedDayTaken(slots: seq<Slot>, d: Date)
    requires GoodSlots(slots) && ValidDate(d) && SlotOf(d) in slots && IsFixedDay(d)
    ensures var ms := MonthSlots(slots, d.month);
            && |ms| > 2 && SlotOf(d) == if d.month == 5 then ms[|ms| - 1] else ms[2]
  {
    hide GoodSlots;
    SlotFacts(slots, SlotOf(d));
    var ms := MonthSlots(slots, d.month);
    if d.month == 5 {
      var j :| 0 <= j < |ms| && ms[j] == SlotOf(d);
      if j < |ms| - 1 { assert ms[j + 1].date.day == d.day + 7; SlotFacts(slots, ms[j + 1]); assert false; }
    } else {
      SlotInWeek(slots, SlotOf(d), 2);
    }
  }

  lemma FixedPlanTaken(slots: seq<Slot>, p: Plan)
    requires FixedPlan(slots, p)
    ensures FixedTaken(slots, p)
  {
  }

  lemma MonthAt(months: seq<int>, i: nat)
    requires AllMonths(months) && i < |months|
    ensures 0 <= months[i] < 12 && months[i] !in months[..i] && months[..i + 1] == months[..i] + [months[i]]
    ensures months[..i + 1][..i] == months[..i] && months[..i + 1][i] == months[i]
  {
    assert months[i] in months;
  }

  lemma PickStart(rule: PickRule, slots: seq<Slot>, p: Plan, taken: set<int>, months: seq<int>)
    ensures UsableSlots(rule, slots, p, taken, months[..0]) == [] && taken + MonthsOf([]) == taken
  {
  }

  /** One round of the pick: what the code tests is whether the month is wanted, and picking it extends the list. */
  lemma PickStep(rule: PickRule, slots: seq<Slot>, p: Plan, taken: set<int>, months: seq<int>, i: nat)
    requires GoodSlots(slots) && AllMonths(months) && i < |months|
    ensures var u := UsableSlots(rule, slots, p, taken, months[..i]); var slot := PickSlot(rule, MonthSlots(slots, months[i]), p);
            var wanted := months[i] in Eligible() && months[i] !in taken + MonthsOf(u)
                          && slot.Some? && !slot.value.blackout && slot.value.date !in p;
            && UsableSlots(rule, slots, p, taken, months[..i + 1]) == (if wanted then u + [slot.value] else u)
            && (wanted ==> taken + MonthsOf(u + [slot.value]) == taken + MonthsOf(u) + {months[i]})
  {
    var u, slot := UsableSlots(rule, slots, p, taken, months[..i]), PickSlot(rule, MonthSlots(slots, months[i]), p);
    MonthAt(months, i);
    DistinctPrefix(months, i);
    UsableSlotsPicks(rule, slots, p, taken, months[..i]);
    if Wanted(rule, slots, p, taken, months[i]) {
      PickedSlot(rule, slots, p, months[i]);
      MonthsOfSnoc(u + [slot.value]);
      assert (u + [slot.value])[..|u|] == u;
    }
    hide GoodSlots; hide AllMonths; hide Picks; hide PickSlot; hide MonthSlots; hide MonthsOf; hide Eligible;
  }

  lemma DistinctPrefix(months: seq<int>, n: nat)
    requires AllMonths(months) && n <= |months|
    ensures forall i, j :: 0 <= i < j < |months[..n]| ==> months[..n][i] != months[..n][j]
  {
  }

  function CeremonyPendings(picked: seq<Slot>, rule: PickRule): seq<Pending> {
    seq(|picked|, i requires 0 <= i < |picked| => Pending(picked[i], PrecursorTitle(rule, i)))
  }

  lemma PrefixFree(p: Plan, picked: seq<Slot>, rule: PickRule, i: nat)
    requires i < |picked| && DatesOf(picked) !! p.Keys && DistinctDates(picked)
    ensures picked[i].date !in AddCeremonies(p, picked[..i], rule)
  {
    var init := picked[..i];
    forall d | d in DatesOf(init) ensures d in DatesOf(picked) && d != picked[i].date {
      var j :| 0 <= j < |init| && init[j].date == d;
      assert picked[j].date == d;
    }
    assert picked[i].date in DatesOf(picked);
    AddedCeremonies(p, init, rule);
  }

  lemma PicksSize(rule: PickRule, slots: seq<Slot>, p: Plan, taken: set<int>, picked: seq<Slot>)
    requires Picks(rule, slots, p, taken, picked)
    ensures |MonthsOf(picked)| == |picked|
  {
    MonthsOfSize(picked);
  }

  lemma PicksTake(rule: PickRule, slots: seq<Slot>, p: Plan, taken: set<int>, u: seq<Slot>, picked: seq<Slot>)
    requires Picks(rule, slots, p, taken, u) && picked <= u
    ensures Picks(rule, slots, p, taken, picked)
  {
    forall i | 0 <= i < |picked|
      ensures Wanted(rule, slots, p, taken, picked[i].month)
      ensures picked[i] == PickSlot(rule, MonthSlots(slots, picked[i].month), p).value
    {
      assert picked[i] == u[i];
      assert Wanted(rule, slots, p, taken, u[i].month);
    }
  }

  /** After the Beförderungen only taken months, May's reserved slot and ineligible months are occupied. */
  lemma MonthsTaken(slots: seq<Slot>, p0: Plan, bef: seq<Slot>, p1: Plan)
    requires FixedPlan(slots, p0) && AddsCeremonies(slots, p0, {}, DatesOf(bef), MonthsOf(bef), ThirdOrFifth, p1)
    ensures forall d :: d in p1 ==> IsMitgliederversammlungDay(d) || d.month !in Eligible() || d.month in MonthsOf(bef)
  {
  }

  lemma CeremoniesReady(slots: seq<Slot>, p0: Plan, bef: seq<Slot>, auf: seq<Slot>, p: Plan, pending: seq<Pending>)
    requires GoodSlots(slots) && Ceremonies(slots, p0, bef, auf, p)
    requires pending == CeremonyPendings(bef, ThirdOrFifth) + CeremonyPendings(auf, Last)
    ensures Ready(slots, p, pending) && Extends(p0, p)
    ensures forall d :: d in p ==> d.day >= 15 && (IsFixed(p[d]) || IsCeremony(p[d]))
  {
    hide GoodSlots; hide Ceremonies; hide Core; hide TitlesAt;
    CeremoniesGiveCore(slots, p0, bef, auf, p);
    CeremonyTitlesPlaced(slots, p0, bef, auf, p);
    PendingsOk(ThirdOrFifth, bef, p);
    PendingsOk(Last, auf, p);
    PendingOkAppend(p, CeremonyPendings(bef, ThirdOrFifth), CeremonyPendings(auf, Last));
  }

  lemma ErhebungAwaited(slots: seq<Slot>, p: Plan, pending: seq<Pending>, s: Slot, who: nat)
    requires Ready(slots, p, pending) && Awaited(p, pending) && s.date !in p
    ensures Awaited(p[s.date := Erhebung(who)], pending + [Pending(s, Meistervortrag(who))])
  {
    hide Core; hide PrecursorsOk; hide Awaited;
    OneMoreAwaited(p, pending, s.date, Erhebung(who), Pending(s, Meistervortrag(who)));
  }

  lemma PrecursorIsEarly(p: Plan, d: Date, t: Title, pending: seq<Pending>)
    requires IsPrecursor(t) && d !in p && Awaited(p, pending)
    ensures IsEarly(t) && Awaited(p[d := t], pending)
  {
    AwaitedStays(p, p[d := t], pending);
  }

  lemma CeremoniesAwaited(slots: seq<Slot>, p0: Plan, bef: seq<Slot>, auf: seq<Slot>, p: Plan, pending: seq<Pending>)
    requires GoodSlots(slots) && Ceremonies(slots, p0, bef, auf, p)
    requires pending == CeremonyPendings(bef, ThirdOrFifth) + CeremonyPendings(auf, Last)
    ensures Awaited(p, pending) && |pending| == 8
  {
    var p1 := AddCeremonies(p0, bef, ThirdOrFifth);
    assert |bef| == 5 && |auf| == 3 && forall d :: d in p0 ==> IsFixed(p0[d]);
    CeremoniesCompose(slots, p0, bef, auf, p);
    FixedPlanTaken(slots, p0);
    PicksAdd(slots, p0, {}, bef, ThirdOrFifth);
    PicksFacts(ThirdOrFifth, slots, p0, {}, bef);
    PicksFacts(Last, slots, p1, MonthsOf(bef), auf);
    hide GoodSlots; hide Ceremonies; hide FixedPlan; hide Picks; hide AddCeremonies; hide AddsCeremonies; hide CeremonyDay;
    DatesAwaited(p0, bef, auf, p, pending);
  }

  lemma DatesAwaited(p0: Plan, bef: seq<Slot>, auf: seq<Slot>, p: Plan, pending: seq<Pending>)
    requires |bef| == 5 && |auf| == 3 && Extends(p0, p) && p.Keys == p0.Keys + DatesOf(bef) + DatesOf(auf)
    requires (forall d :: d in p0 ==> IsFixed(p0[d])) && DistinctDates(bef) && DistinctDates(auf)
    requires forall c, d :: c in DatesOf(bef) && d in DatesOf(auf) ==> c.month != d.month
    requires pending == CeremonyPendings(bef, ThirdOrFifth) + CeremonyPendings(auf, Last)
    ensures Awaited(p, pending)
  {
    forall d | d in p && NeedsPrecursor(p[d]) ensures Waits(pending, |pending|, d) {
      assert d in DatesOf(bef) || d in DatesOf(auf);
      if d in DatesOf(bef) {
        var i :| 0 <= i < |bef| && bef[i].date == d;
        assert pending[i].ceremony.date == d;
      } else {
        var i :| 0 <= i < |auf| && auf[i].date == d;
        assert pending[5 + i].ceremony.date == d;
      }
    }
    forall i, j | 0 <= i < j < |pending| ensures pending[i].ceremony.date != pending[j].ceremony.date {
      if i < 5 { assert bef[i].date in DatesOf(bef); }
      if j >= 5 { assert auf[j - 5].date in DatesOf(auf); }
    }
  }

  lemma PendingsOk(rule: PickRule, picked: seq<Slot>, p: Plan)
    requires TitlesAt(rule, picked, p)
    ensures PendingOk(p, CeremonyPendings(picked, rule))
  {
  }

  lemma PendingOkAppend(p: Plan, a: seq<Pending>, b: seq<Pending>)
    requires PendingOk(p, a) && PendingOk(p, b)
    ensures PendingOk(p, a + b)
  {
  }

  lemma CeremonyTitlesPlaced(slots: seq<Slot>, p0: Plan, bef: seq<Slot>, auf: seq<Slot>, p: Plan)
    requires GoodSlots(slots) && Ceremonies(slots, p0, bef, auf, p)
    ensures TitlesAt(ThirdOrFifth, bef, p) && TitlesAt(Last, auf, p)
    ensures forall d :: d in p ==> IsFixed(p[d]) || IsCeremony(p[d])
  {
    hide GoodSlots; hide Picks; hide TitlesAt;
    var p1 := AddCeremonies(p0, bef, ThirdOrFifth);
    FixedPlanTaken(slots, p0);
    TitlesPlaced(slots, p0, {}, bef, ThirdOrFifth);
    TitlesPlaced(slots, p1, MonthsOf(bef), auf, Last);
    TitlesKept(ThirdOrFifth, bef, p1, p);
    CeremoniesCompose(slots, p0, bef, auf, p);
  }

  ghost predicate TitlesAt(rule: PickRule, picked: seq<Slot>, p: Plan) {
    CarryTitles(p, picked, rule) && forall i :: 0 <= i < |picked| ==> ValidDate(picked[i].date)
  }

  lemma TitlesPlaced(slots: seq<Slot>, p: Plan, taken: set<int>, picked: seq<Slot>, rule: PickRule)
    requires GoodSlots(slots) && FixedTaken(slots, p) && Picks(rule, slots, p, taken, picked)
    ensures TitlesAt(rule, picked, AddCeremonies(p, picked, rule)) && Extends(p, AddCeremonies(p, picked, rule))
    ensures FixedTaken(slots, AddCeremonies(p, picked, rule))
  {
    hide GoodSlots; hide Picks; hide AddsCeremonies; hide FixedTaken; hide AddCeremonies; hide CarryTitles; hide DistinctDates;
    hide DatesOf; hide MonthsOf; hide ValidDate; hide Extends;
    PicksAdd(slots, p, taken, picked, rule);
    DatesValid(slots, p, taken, picked, rule);
    AddedCeremonies(p, picked, rule);
  }

  lemma DatesValid(slots: seq<Slot>, p: Plan, taken: set<int>, picked: seq<Slot>, rule: PickRule)
    requires GoodSlots(slots) && FixedTaken(slots, p) && Picks(rule, slots, p, taken, picked)
    ensures DistinctDates(picked) && DatesOf(picked) !! p.Keys
    ensures forall i :: 0 <= i < |picked| ==> ValidDate(picked[i].date)
  {
    hide GoodSlots; hide Picks;
    PicksFacts(rule, slots, p, taken, picked);
    assert forall i :: 0 <= i < |picked| ==> picked[i].date in DatesOf(picked);
  }

  lemma TitlesKept(rule: PickRule, picked: seq<Slot>, p: Plan, q: Plan)
    requires TitlesAt(rule, picked, p) && Extends(p, q)
    ensures TitlesAt(rule, picked, q)
  {
  }

  /** Additions in other months leave this month's candidate and Aufnahme as they were. */
  lemma SameInMonth(p: Plan, q: Plan, month: int)
    requires Extends(p, q) && forall d :: d in q && d !in p ==> d.month != month
    ensures HasAufnahme(p, month) <==> HasAufnahme(q, month)
    ensures forall d: Date :: (d.month == month ==> (d in p <==> d in q))
  {
    if HasAufnahme(p, month) {
      var d :| d in p && d.month == month && p[d].Aufnahme?;
      assert d in q && q[d] == p[d];
    }
  }

  lemma CandidateExists(slots: seq<Slot>, p: Plan, q: Plan, month: int)
    requires GoodSlots(slots) && 0 <= month < 12 && month != 6 && month != 7
    requires forall d :: d in p ==> d.day >= 15
    requires forall d: Date :: (d.month == month ==> (d in p <==> d in q))
    ensures var c := TaICandidate(MonthSlots(slots, month), q);
            && c.Some? && c == TaICandidate(MonthSlots(slots, month), p)
            && c.value in slots && c.value == SlotOf(c.value.date) && c.value.date.month == month
            && c.value.date !in q && !c.value.blackout && !c.value.isFirst
  {
    hide GoodSlots;
    MonthFacts(slots, month);
    var ms := MonthSlots(slots, month);
    SlotFacts(slots, ms[1]);
    assert Free(p, ms[1]);
    forall i | 0 <= i < |ms| ensures Free(p, ms[i]) <==> Free(q, ms[i]) { assert ms[i].date.month == month; }
    var k := CandidateIndex(ms, q);
    SlotFacts(slots, ms[k]);
  }

  lemma CandidateIndex(ms: seq<Slot>, p: Plan) returns (k: nat)
    requires 4 <= |ms| <= 5 && Free(p, ms[1])
    ensures 1 <= k < |ms| && TaICandidate(ms, p) == Some(ms[k]) && Free(p, ms[k])
  {
    k := if Free(p, ms[3]) then 3 else if Free(p, ms[2]) then 2 else 1;
  }

  lemma OneSlotPerDay(slots: seq<Slot>, p: Plan, ceremony: Slot, weeks: nat, found: Option<Slot>)
    requires GoodSlots(slots) && ValidDate(ceremony.date)
    requires found.Some? ==> found.value in slots && ValidDate(found.value.date)
                             && DayNumber(found.value.date) == DayNumber(ceremony.date) - 7 * weeks
    requires found.Some? ==> !Free(p, found.value) || found.value.isFirst
    requires found.None? ==> forall s :: s in slots && 0 <= s.date.month < 12 ==> DayNumber(s.date) != DayNumber(ceremony.date) - 7 * weeks
    ensures NoneFree(slots, p, ceremony, weeks)
  {
    forall s | s in slots && 0 <= s.date.month < 12 ensures !FreeWeeksBefore(slots, p, ceremony, weeks, s) {
      if found.Some? && FreeWeeksBefore(slots, p, ceremony, weeks, s) {
        SlotFacts(slots, s);
        SlotFacts(slots, found.value);
        DayNumberOrder(s.date, found.value.date);
      }
    }
  }

  lemma PrecursorKeepsReady(slots: seq<Slot>, p: Plan, pending: seq<Pending>, i: nat, s: Slot, w: nat)
    requires GoodSlots(slots) && Ready(slots, p, pending) && i < |pending| && 5 <= w <= 12
    requires ValidDate(s.date) && FreeWeeksBefore(slots, p, pending[i].ceremony, w, s)
    ensures Ready(slots, p[s.date := pending[i].title], pending) && Extends(p, p[s.date := pending[i].title])
  {
    var c := pending[i].ceremony.date;
    AssignKeepsCore(slots, p, s, pending[i].title);
    assert DayNumber(c) - DayNumber(s.date) == 7 * w;
    assert WeeksBefore(s.date, c);
    AssignKeepsPrecursors(p, s.date, pending[i].title);
  }
}
