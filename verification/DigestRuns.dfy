/** The nightly digest as a run over its awaits (api/src/lib/eventRegistrationDigest.ts, `sendEventRegistrationDigest`):
    reads, mark statements and the send are atomic steps; registrations, deletions and crashes may happen between any two. */
module DigestRuns {
  import opened Wrappers

  /** The two participant tables have their own key spaces. */
  datatype Kind = Internal | External

  datatype Id = Id(kind: Kind, n: nat)

  datatype Event = Event(kind: Kind, n: int)

  datatype Row = Row(event: Option<Event>, notified: bool)

  /** What one of the two concurrent collectors has read so far. */
  datatype Side = Unread | Pending(rows: map<Id, Option<Event>>) | Split(valid: set<Id>, stray: set<Id>)

  datatype Phase =
    | Idle
    | Collecting(sides: map<Kind, Side>)
    | MarkingStray(kind: Kind, valid: set<Id>, stray: set<Id>)
    | Sending(valid: set<Id>)
    | MarkingSent(kind: Kind, valid: set<Id>)

  /** `mails`, `strays` and `lost` are history: the rows each successful mail named, the rows marked as stray, and
      whether a crash ever fell between a send and its last mark. */
  datatype State = State(rows: map<Id, Row>, used: set<Id>, live: set<Event>, phase: Phase,
                         mails: seq<set<Id>>, strays: set<Id>, lost: bool)

  datatype Step =
    | Register(id: Id, event: Option<Event>)
    | Unregister(id: Id)
    | SetLive(live: set<Event>)
    | Start
    | ReadPending(kind: Kind)
    | ReadEvents(kind: Kind)
    | BeginMarking
    | MarkStray
    | Send
    | SkipSend        // nothing to report, nobody to report to, or the send failed
    | MarkSent
    | Crash

  predicate IsPending(s: State, id: Id) { id in s.rows && !s.rows[id].notified }

  predicate Enabled(s: State, e: Step) {
    match e
    case Register(id, _) => id !in s.used
    case Unregister(id) => id in s.rows
    case SetLive(_) => true
    case Start => s.phase == Idle
    case ReadPending(k) => s.phase.Collecting? && k in s.phase.sides && s.phase.sides[k] == Unread
    case ReadEvents(k) => s.phase.Collecting? && k in s.phase.sides && s.phase.sides[k].Pending?
    case BeginMarking =>
      && s.phase.Collecting? && Internal in s.phase.sides && External in s.phase.sides
      && s.phase.sides[Internal].Split? && s.phase.sides[External].Split?
    case MarkStray => s.phase.MarkingStray?
    case Send => s.phase.Sending? && s.phase.valid != {}
    case SkipSend => s.phase.Sending?
    case MarkSent => s.phase.MarkingSent?
    case Crash => true
  }

  function OfKind(ids: set<Id>, k: Kind): set<Id> { set id | id in ids && id.kind == k }

  function MarkRows(rows: map<Id, Row>, ids: set<Id>): map<Id, Row> {
    map id | id in rows :: if id in ids then rows[id].(notified := true) else rows[id]
  }

  function ValidOf(pending: map<Id, Option<Event>>, live: set<Event>): set<Id> {
    set id | id in pending && pending[id].Some? && pending[id].value in live
  }

  function Apply(s: State, e: Step): State
    requires Enabled(s, e)
  {
    match e
    case Register(id, ev) => s.(rows := s.rows[id := Row(ev, false)], used := s.used + {id})
    case Unregister(id) => s.(rows := s.rows - {id})
    case SetLive(live) => s.(live := live)
    case Start => s.(phase := Collecting(map[Internal := Unread, External := Unread]))
    case ReadPending(k) =>
      var found := map id | id in s.rows && id.kind == k && !s.rows[id].notified :: s.rows[id].event;
      s.(phase := Collecting(s.phase.sides[k := Pending(found)]))
    case ReadEvents(k) =>
      var found := s.phase.sides[k].rows;
      var valid := ValidOf(found, s.live);
      s.(phase := Collecting(s.phase.sides[k := Split(valid, found.Keys - valid)]))
    case BeginMarking =>
      var i, x := s.phase.sides[Internal], s.phase.sides[External];
      s.(phase := MarkingStray(Internal, i.valid + x.valid, i.stray + x.stray))
    case MarkStray =>
      var ids := OfKind(s.phase.stray, s.phase.kind);
      s.(rows := MarkRows(s.rows, ids), strays := s.strays + ids,
         phase := if s.phase.kind == Internal then MarkingStray(External, s.phase.valid, s.phase.stray) else Sending(s.phase.valid))
    case Send => s.(mails := s.mails + [s.phase.valid], phase := MarkingSent(Internal, s.phase.valid))
    case SkipSend => s.(phase := Idle)
    case MarkSent =>
      s.(rows := MarkRows(s.rows, OfKind(s.phase.valid, s.phase.kind)),
         phase := if s.phase.kind == Internal then MarkingSent(External, s.phase.valid) else Idle)
    case Crash => s.(phase := Idle, lost := s.lost || s.phase.MarkingSent?)
  }

  ghost predicate ValidRun(s: State, es: seq<Step>)
    decreases |es|
  {
    es == [] || (Enabled(s, es[0]) && ValidRun(Apply(s, es[0]), es[1..]))
  }

  ghost function Run(s: State, es: seq<Step>): State
    requires ValidRun(s, es)
    decreases |es|
  {
    if es == [] then s else Run(Apply(s, es[0]), es[1..])
  }

  predicate Initial(s: State) {
    s.rows == map[] && s.used == {} && s.phase == Idle && s.mails == [] && s.strays == {} && !s.lost
  }

  /** In how many successful mails a row was named. */
  function MailCount(mails: seq<set<Id>>, id: Id): nat {
    if mails == [] then 0
    else MailCount(mails[..|mails| - 1], id) + if id in mails[|mails| - 1] then 1 else 0
  }

  // ----- the invariant ----------------------------------------------------

  /** The ids a run holds in memory as read pending; they all still are, unless the row is gone. */
  predicate Held(p: Phase, id: Id) {
    match p
    case Idle => false
    case Collecting(sides) =>
      id.kind in sides && (match sides[id.kind]
                           case Unread => false
                           case Pending(rows) => id in rows
                           case Split(valid, stray) => id in valid || id in stray)
    case MarkingStray(k, valid, stray) => id in valid || (id in stray && (k == Internal || id.kind == External))
    case Sending(valid) => id in valid
    case MarkingSent(k, valid) => id in valid && (k == Internal || id.kind == External)
  }

  /** Mailed in this run but not marked yet. */
  predicate InFlight(p: Phase, id: Id) {
    p.MarkingSent? && id in p.valid && (p.kind == Internal || id.kind == External)
  }

  ghost predicate PhaseOk(p: Phase) {
    && (p.Collecting? ==> forall k :: k in p.sides ==> SideOk(k, p.sides[k]))
    && (p.MarkingStray? ==> p.valid !! p.stray)
  }

  ghost predicate SideOk(k: Kind, side: Side) {
    match side
    case Unread => true
    case Pending(rows) => forall id :: id in rows ==> id.kind == k
    case Split(valid, stray) => valid !! stray && forall id :: id in valid + stray ==> id.kind == k
  }

  ghost predicate Inv(s: State) {
    && PhaseOk(s.phase)
    && (forall id :: id in s.rows ==> id in s.used)
    && (forall id :: Held(s.phase, id) ==> id in s.used && (id in s.rows ==> !s.rows[id].notified))
    && (forall id :: id !in s.used ==> MailCount(s.mails, id) == 0 && id !in s.strays)
    && (forall id :: id in s.rows && s.rows[id].notified && id !in s.strays ==> MailCount(s.mails, id) >= 1)
    && (forall id :: InFlight(s.phase, id) ==> MailCount(s.mails, id) >= 1)
    && (!s.lost ==> OnceOk(s))
  }

  /** Without a crash between send and mark. */
  ghost predicate OnceOk(s: State) {
    && (forall id :: MailCount(s.mails, id) <= 1)
    && (forall id :: (IsPending(s, id) || Held(s.phase, id)) && !InFlight(s.phase, id) ==> MailCount(s.mails, id) == 0)
    && (forall id :: id in s.strays ==> MailCount(s.mails, id) == 0 && !IsPending(s, id) && !Held(s.phase, id))
  }

  lemma MailCountSnoc(mails: seq<set<Id>>, m: set<Id>, id: Id)
    ensures MailCount(mails + [m], id) == MailCount(mails, id) + if id in m then 1 else 0
  {
    assert (mails + [m])[..|mails|] == mails;
  }

  lemma InitialInv(s: State)
    requires Initial(s)
    ensures Inv(s)
  {
  }

  /** What the two collectors found is apart, across the two key spaces as well. */
  lemma KindsApart(i: Side, x: Side)
    requires i.Split? && x.Split? && SideOk(Internal, i) && SideOk(External, x)
    ensures (i.valid + x.valid) !! (i.stray + x.stray)
  {
    forall id | id in i.valid + x.valid ensures id !in i.stray + x.stray {
      if id in i.valid { assert id.kind == Internal; } else { assert id.kind == External; }
    }
  }

  /** Steps of the outside world and of the collectors: no mark, no mail. */
  lemma QuietStep(s: State, e: Step)
    requires Inv(s) && Enabled(s, e)
    requires !e.MarkStray? && !e.Send? && !e.MarkSent?
    ensures Inv(Apply(s, e))
  {
    var t := Apply(s, e);
    if e.BeginMarking? { KindsApart(s.phase.sides[Internal], s.phase.sides[External]); }
    forall id | Held(t.phase, id) ensures Held(s.phase, id) || IsPending(s, id) { }
    assert forall id :: InFlight(t.phase, id) ==> InFlight(s.phase, id);
  }

  lemma MarkStrayStep(s: State)
    requires Inv(s) && Enabled(s, MarkStray)
    ensures Inv(Apply(s, MarkStray))
  {
    var t := Apply(s, MarkStray);
    assert forall id :: Held(t.phase, id) ==> Held(s.phase, id) && id !in OfKind(s.phase.stray, s.phase.kind);
  }

  lemma SendStep(s: State)
    requires Inv(s) && Enabled(s, Send)
    ensures Inv(Apply(s, Send))
  {
    var t := Apply(s, Send);
    forall id ensures MailCount(t.mails, id) == MailCount(s.mails, id) + if id in s.phase.valid then 1 else 0 {
      MailCountSnoc(s.mails, s.phase.valid, id);
    }
  }

  lemma MarkSentStep(s: State)
    requires Inv(s) && Enabled(s, MarkSent)
    ensures Inv(Apply(s, MarkSent))
  {
    var t := Apply(s, MarkSent);
    assert forall id :: Held(t.phase, id) ==> Held(s.phase, id) && id !in OfKind(s.phase.valid, s.phase.kind);
    assert forall id :: id in OfKind(s.phase.valid, s.phase.kind) ==> InFlight(s.phase, id);
  }

  lemma StepPreservesInv(s: State, e: Step)
    requires Inv(s) && Enabled(s, e)
    ensures Inv(Apply(s, e))
  {
    match e
    case MarkStray => MarkStrayStep(s);
    case Send => SendStep(s);
    case MarkSent => MarkSentStep(s);
    case _ => QuietStep(s, e);
  }

  lemma {:induction false} RunPreservesInv(s: State, es: seq<Step>)
    requires Inv(s) && ValidRun(s, es)
    ensures Inv(Run(s, es))
    decreases |es|
  {
    if es != [] {
      StepPreservesInv(s, es[0]);
      RunPreservesInv(Apply(s, es[0]), es[1..]);
    }
  }

  // ----- the promises -----------------------------------------------------

  lemma OneMailAtMost(s: State, e: Step)
    requires Enabled(s, e) && {} !in s.mails
    ensures {} !in Apply(s, e).mails
  {
    assert Apply(s, e).mails == s.mails || (e == Send && Apply(s, e).mails == s.mails + [s.phase.valid]);
  }

  /** No mail goes out for nothing. */
  lemma {:induction false} NoEmptyMail(s: State, es: seq<Step>)
    requires {} !in s.mails && ValidRun(s, es)
    ensures {} !in Run(s, es).mails
    decreases |es|
  {
    if es != [] {
      OneMailAtMost(s, es[0]);
      hide Apply; hide Enabled;
      NoEmptyMail(Apply(s, es[0]), es[1..]);
    }
  }

  /** In every run, crashes included: a row that was not marked as a stray is marked only after a successful mail named it. */
  lemma MarkedOnlyAfterMail(s: State, es: seq<Step>, id: Id)
    requires Initial(s) && ValidRun(s, es)
    ensures var t := Run(s, es);
            id in t.rows && t.rows[id].notified && id !in t.strays ==> MailCount(t.mails, id) >= 1
  {
    InitialInv(s);
    RunPreservesInv(s, es);
  }

  /** In a run without a crash between send and mark: no row is ever in two mails, a marked row was in exactly one
      unless it was a stray, and a stray or, between runs, a still pending row was in none. */
  lemma ExactlyOneMail(s: State, es: seq<Step>, id: Id)
    requires Initial(s) && ValidRun(s, es) && !Run(s, es).lost
    ensures var t := Run(s, es);
            && MailCount(t.mails, id) <= 1
            && (id in t.rows && t.rows[id].notified && id !in t.strays ==> MailCount(t.mails, id) == 1)
            && (id in t.strays ==> MailCount(t.mails, id) == 0)
            && (IsPending(t, id) && t.phase == Idle ==> MailCount(t.mails, id) == 0)
  {
    InitialInv(s);
    RunPreservesInv(s, es);
  }

  /** The condition is needed: a crash right after the send leaves the row pending, and the next run mails it again. */
  lemma CrashAfterSendMailsTwice(s: State, id: Id, ev: Event)
    requires Initial(s) && id.kind == Internal && ev in s.live
    ensures var es := [Register(id, Some(ev))] + OneRun() + [Crash] + OneRun();
            ValidRun(s, es) && MailCount(Run(s, es).mails, id) == 2 && Run(s, es).lost
  {
    var s1 := Apply(s, Register(id, Some(ev)));
    TwoRunsMail(s1, id, ev);
    hide OneRun; hide Run; hide ValidRun; hide MailCount;
    RunCons(s, Register(id, Some(ev)), OneRun() + ([Crash] + OneRun()));
    assert [Register(id, Some(ev))] + OneRun() + [Crash] + OneRun() == [Register(id, Some(ev))] + (OneRun() + ([Crash] + OneRun()));
  }

  lemma TwoRunsMail(s: State, id: Id, ev: Event)
    requires s.phase == Idle && s.rows == map[id := Row(Some(ev), false)] && id.kind == Internal && ev in s.live && s.mails == []
    ensures var es := OneRun() + ([Crash] + OneRun());
            ValidRun(s, es) && MailCount(Run(s, es).mails, id) == 2 && Run(s, es).lost
  {
    hide OneRun;
    OneRunMails(s, id, ev);
    var sent := Run(s, OneRun());
    var crashed := Apply(sent, Crash);
    OneRunMails(crashed, id, ev);
    hide Run; hide ValidRun;
    RunCons(sent, Crash, OneRun());
    RunAppend(s, OneRun(), [Crash] + OneRun());
    hide Apply; hide Enabled;
    MailCountSnoc([], {id}, id);
    MailCountSnoc([{id}], {id}, id);
    assert Run(crashed, OneRun()).mails == [{id}] + [{id}] && [{id}] == [] + [{id}];
  }

  /** A run up to and including its send. */
  function OneRun(): seq<Step> {
    [Start, ReadPending(Internal), ReadEvents(Internal), ReadPending(External), ReadEvents(External), BeginMarking, MarkStray, MarkStray, Send]
  }

  lemma RunCons(s: State, e: Step, es: seq<Step>)
    requires Enabled(s, e) && ValidRun(Apply(s, e), es)
    ensures ValidRun(s, [e] + es) && Run(s, [e] + es) == Run(Apply(s, e), es)
  {
    assert ([e] + es)[1..] == es;
  }

  lemma {:induction false} RunAppend(s: State, a: seq<Step>, b: seq<Step>)
    requires ValidRun(s, a) && ValidRun(Run(s, a), b)
    ensures ValidRun(s, a + b) && Run(s, a + b) == Run(Run(s, a), b)
    decreases |a|
  {
    if a == [] {
      assert a + b == b;
    } else {
      RunAppend(Apply(s, a[0]), a[1..], b);
      assert (a + b)[1..] == a[1..] + b;
    }
  }

  ghost predicate Leads(s: State, e: Step, t: State) {
    Enabled(s, e) && Apply(s, e) == t
  }

  /** The collectors over one pending internal row. */
  lemma CollectInternal(s: State, id: Id, ev: Event)
    requires s.phase == Idle && s.rows == map[id := Row(Some(ev), false)] && id.kind == Internal && ev in s.live
    ensures var sides := map[Internal := Unread, External := Unread];
            && Leads(s, Start, s.(phase := Collecting(sides)))
            && Leads(s.(phase := Collecting(sides)), ReadPending(Internal), s.(phase := Collecting(sides[Internal := Pending(map[id := Some(ev)])])))
            && Leads(s.(phase := Collecting(sides[Internal := Pending(map[id := Some(ev)])])), ReadEvents(Internal),
                     s.(phase := Collecting(sides[Internal := Split({id}, {})])))
  {
    var sides := map[Internal := Unread, External := Unread];
    var found := map k | k in s.rows && k.kind == Internal && !s.rows[k].notified :: s.rows[k].event;
    assert found == map[id := Some(ev)];
    OneFound(id, ev, s.live);
    assert sides[Internal := Pending(found)][Internal := Split({id}, {})] == sides[Internal := Split({id}, {})];
  }

  lemma CollectExternal(s: State, id: Id, ev: Event)
    requires s.phase == Idle && s.rows == map[id := Row(Some(ev), false)] && id.kind == Internal && ev in s.live
    ensures var sides := map[Internal := Split({id}, {}), External := Unread];
            var none: map<Id, Option<Event>> := map[];
            && Leads(s.(phase := Collecting(sides)), ReadPending(External), s.(phase := Collecting(sides[External := Pending(none)])))
            && Leads(s.(phase := Collecting(sides[External := Pending(none)])), ReadEvents(External),
                     s.(phase := Collecting(sides[External := Split({}, {})])))
            && Leads(s.(phase := Collecting(sides[External := Split({}, {})])), BeginMarking, s.(phase := MarkingStray(Internal, {id}, {})))
  {
    var sides := map[Internal := Split({id}, {}), External := Unread];
    var none: map<Id, Option<Event>> := map[];
    var found := map k | k in s.rows && k.kind == External && !s.rows[k].notified :: s.rows[k].event;
    assert found == none;
    assert ValidOf(none, s.live) == {};
    assert none.Keys - {} == {};
    assert sides[External := Pending(none)][External := Split({}, {})] == sides[External := Split({}, {})];
    var empty: set<Id> := {};
    assert {id} + empty == {id} && empty + empty == empty;
  }

  ghost predicate RunsTo(s: State, es: seq<Step>, t: State) {
    ValidRun(s, es) && Run(s, es) == t
  }

  lemma LeadsCons(s: State, e: Step, m: State, es: seq<Step>, t: State)
    requires Leads(s, e, m) && RunsTo(m, es, t)
    ensures RunsTo(s, [e] + es, t)
  {
    RunCons(s, e, es);
  }

  lemma SecondCollector(s: State, id: Id, ev: Event, t: State)
    requires s.phase == Idle && s.rows == map[id := Row(Some(ev), false)] && id.kind == Internal && ev in s.live
    requires RunsTo(s.(phase := MarkingStray(Internal, {id}, {})), [MarkStray, MarkStray, Send], t)
    ensures RunsTo(s.(phase := Collecting(map[Internal := Split({id}, {}), External := Unread])),
                   [ReadPending(External)] + ([ReadEvents(External)] + ([BeginMarking] + [MarkStray, MarkStray, Send])), t)
  {
    var none: map<Id, Option<Event>> := map[];
    var split := map[Internal := Split({id}, {}), External := Unread];
    CollectExternal(s, id, ev);
    hide RunsTo; hide Leads;
    var es := [MarkStray, MarkStray, Send];
    var marked := s.(phase := Collecting(split[External := Split({}, {})]));
    var pending := s.(phase := Collecting(split[External := Pending(none)]));
    LeadsCons(marked, BeginMarking, s.(phase := MarkingStray(Internal, {id}, {})), es, t);
    LeadsCons(pending, ReadEvents(External), marked, [BeginMarking] + es, t);
    LeadsCons(s.(phase := Collecting(split)), ReadPending(External), pending, [ReadEvents(External)] + ([BeginMarking] + es), t);
  }

  lemma FirstCollector(s: State, id: Id, ev: Event, es: seq<Step>, t: State)
    requires s.phase == Idle && s.rows == map[id := Row(Some(ev), false)] && id.kind == Internal && ev in s.live
    requires RunsTo(s.(phase := Collecting(map[Internal := Split({id}, {}), External := Unread])), es, t)
    ensures RunsTo(s, [Start] + ([ReadPending(Internal)] + ([ReadEvents(Internal)] + es)), t)
  {
    var unread := map[Internal := Unread, External := Unread];
    var split := map[Internal := Split({id}, {}), External := Unread];
    CollectInternal(s, id, ev);
    assert unread[Internal := Split({id}, {})] == split;
    hide RunsTo; hide Leads;
    var pending := s.(phase := Collecting(unread[Internal := Pending(map[id := Some(ev)])]));
    LeadsCons(pending, ReadEvents(Internal), s.(phase := Collecting(split)), es, t);
    LeadsCons(s.(phase := Collecting(unread)), ReadPending(Internal), pending, [ReadEvents(Internal)] + es, t);
    LeadsCons(s, Start, s.(phase := Collecting(unread)), [ReadPending(Internal)] + ([ReadEvents(Internal)] + es), t);
  }

  /** With one pending internal row whose event is live, a run mails exactly that row. */
  lemma OneRunMails(s: State, id: Id, ev: Event)
    requires s.phase == Idle && s.rows == map[id := Row(Some(ev), false)] && id.kind == Internal && ev in s.live
    ensures ValidRun(s, OneRun())
    ensures Run(s, OneRun()) == s.(phase := MarkingSent(Internal, {id}), mails := s.mails + [{id}])
  {
    hide ValidRun; hide Run; hide OneRun; hide Enabled; hide Apply;
    var t := s.(phase := MarkingSent(Internal, {id}), mails := s.mails + [{id}]);
    OneRunTail(s, s.(phase := MarkingStray(Internal, {id}, {})), id);
    SecondCollector(s, id, ev, t);
    var es := [ReadPending(External)] + ([ReadEvents(External)] + ([BeginMarking] + [MarkStray, MarkStray, Send]));
    FirstCollector(s, id, ev, es, t);
    OneRunSplit();
  }

  lemma OneRunSplit()
    ensures OneRun() == [Start] + ([ReadPending(Internal)] + ([ReadEvents(Internal)] +
              ([ReadPending(External)] + ([ReadEvents(External)] + ([BeginMarking] + [MarkStray, MarkStray, Send])))))
  {
  }

  lemma OneFound(id: Id, ev: Event, live: set<Event>)
    requires ev in live
    ensures ValidOf(map[id := Some(ev)], live) == {id} && map[id := Some(ev)].Keys - {id} == {}
  {
    var found := map[id := Some(ev)];
    assert found[id] == Some(ev);
    forall k ensures k in ValidOf(found, live) <==> k == id { }
  }

  lemma OneRunTail(s: State, s6: State, id: Id)
    requires s6 == s.(phase := MarkingStray(Internal, {id}, {}))
    ensures ValidRun(s6, [MarkStray, MarkStray, Send])
    ensures Run(s6, [MarkStray, MarkStray, Send]) == s.(phase := MarkingSent(Internal, {id}), mails := s.mails + [{id}])
  {
    assert OfKind({}, Internal) == {} && OfKind({}, External) == {};
    assert MarkRows(s.rows, {}) == s.rows;
    assert s.strays + {} == s.strays;
    var s7 := s.(phase := MarkingStray(External, {id}, {}));
    assert Apply(s6, MarkStray) == s7;
    var s8 := s.(phase := Sending({id}));
    assert Apply(s7, MarkStray) == s8;
    var s9 := s.(phase := MarkingSent(Internal, {id}), mails := s.mails + [{id}]);
    assert Apply(s8, Send) == s9;
    assert Run(s9, []) == s9;
    RunCons(s8, Send, []);
    RunCons(s7, MarkStray, [Send] + []);
    RunCons(s6, MarkStray, [MarkStray] + ([Send] + []));
    assert [MarkStray, MarkStray, Send] == [MarkStray] + ([MarkStray] + ([Send] + []));
  }

  lemma ArrivalUnmarked(s: State, e: Step, id: Id)
    requires Enabled(s, e) && IsPending(s, id) && !Held(s.phase, id) && e != Unregister(id) && id in s.used
    ensures IsPending(Apply(s, e), id)
  {
  }

  lemma ArrivalUnmailed(s: State, e: Step, id: Id)
    requires Enabled(s, e) && !Held(s.phase, id)
    ensures MailCount(Apply(s, e).mails, id) == MailCount(s.mails, id)
  {
    if e.Send? { MailCountSnoc(s.mails, s.phase.valid, id); }
    hide MailCount;
  }

  lemma ArrivalUnheld(s: State, e: Step, id: Id)
    requires PhaseOk(s.phase) && Enabled(s, e) && !Held(s.phase, id) && !e.ReadPending?
    ensures !Held(Apply(s, e).phase, id)
  {
  }

  /** A row the run does not hold - one that arrived after its table was read - is neither marked nor mailed by
      any step of the run. */
  lemma LaterArrivalsStayPending(s: State, e: Step, id: Id)
    requires Inv(s) && Enabled(s, e) && IsPending(s, id) && !Held(s.phase, id) && e != Unregister(id)
    ensures IsPending(Apply(s, e), id)
    ensures MailCount(Apply(s, e).mails, id) == MailCount(s.mails, id)
    ensures !e.ReadPending? ==> !Held(Apply(s, e).phase, id)
  {
    assert id in s.used && PhaseOk(s.phase);
    hide Inv; hide PhaseOk; hide Apply; hide Enabled; hide Held; hide MailCount;
    ArrivalUnmarked(s, e, id);
    ArrivalUnmailed(s, e, id);
    if !e.ReadPending? { ArrivalUnheld(s, e, id); }
  }

  /** The present run, if any, has already read this table. */
  predicate AlreadyRead(p: Phase, k: Kind) {
    p.Collecting? ==> k in p.sides && p.sides[k] != Unread
  }

  lemma ReadOnce(s: State, e: Step, k: Kind)
    requires Enabled(s, e) && AlreadyRead(s.phase, k) && e != Start
    ensures AlreadyRead(Apply(s, e).phase, k) && e != ReadPending(k)
  {
  }

  lemma NotTakenLater(s: State, e: Step, id: Id)
    requires Enabled(s, e) && AlreadyRead(s.phase, id.kind) && !Held(s.phase, id) && e == ReadPending(if id.kind == Internal then External else Internal)
    ensures !Held(Apply(s, e).phase, id)
  {
  }

  /** A row that arrives after its table was read is still pending and unmailed when the next run starts, whatever
      else happens until then. */
  lemma {:induction false} ArrivalsWaitForTheNextRun(s: State, es: seq<Step>, id: Id)
    requires Inv(s) && ValidRun(s, es) && IsPending(s, id) && !Held(s.phase, id) && AlreadyRead(s.phase, id.kind)
    requires Start !in es && Unregister(id) !in es
    ensures IsPending(Run(s, es), id) && MailCount(Run(s, es).mails, id) == MailCount(s.mails, id)
    decreases |es|
  {
    if es != [] {
      assert es[0] in es;
      StepPreservesInv(s, es[0]);
      ReadOnce(s, es[0], id.kind);
      LaterArrivalsStayPending(s, es[0], id);
      if es[0].ReadPending? { NotTakenLater(s, es[0], id); }
      hide Inv; hide Apply; hide Enabled; hide Held; hide AlreadyRead;
      ArrivalsWaitForTheNextRun(Apply(s, es[0]), es[1..], id);
    }
  }

  /** At the end of a collector the ids it read are split without loss or overlap, by whether the event is live. */
  lemma CollectorPartitions(s: State, k: Kind)
    requires Inv(s) && Enabled(s, ReadEvents(k))
    ensures var found := s.phase.sides[k].rows; var split := Apply(s, ReadEvents(k)).phase.sides[k];
            && split.valid + split.stray == found.Keys && split.valid !! split.stray
            && (forall id :: id in found ==> (id in split.valid <==> found[id].Some? && found[id].value in s.live))
  {
  }
}
