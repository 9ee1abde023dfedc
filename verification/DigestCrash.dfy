/** Which crashes of the nightly digest mail a row twice (api/src/lib/eventRegistrationDigest.ts). */
module DigestCrash {
  import opened Wrappers
  import opened DigestRuns

  /** A held id that was found valid, not stray. */
  predicate ValidHeld(p: Phase, id: Id) {
    Held(p, id)
    && match p
       case Collecting(sides) => sides[id.kind].Split? && id in sides[id.kind].valid
       case MarkingStray(_, valid, _) => id in valid
       case _ => true
  }

  /** The collectors read each row's own event, and what they found valid has one. */
  ghost predicate EventsKnown(s: State) {
    && (forall id :: ValidHeld(s.phase, id) && id in s.rows ==> s.rows[id].event.Some?)
    && (s.phase.Collecting? ==>
          forall id :: Held(s.phase, id) && s.phase.sides[id.kind].Pending? && id in s.rows ==>
            s.phase.sides[id.kind].rows[id] == s.rows[id].event)
  }

  /** Rows keep their event, and no id is used twice. */
  lemma EventStays(s: State, e: Step, id: Id)
    requires Inv(s) && Enabled(s, e) && id in s.used && id in Apply(s, e).rows
    ensures id in s.rows && Apply(s, e).rows[id].event == s.rows[id].event
  {
  }

  lemma StepKeepsEvents(s: State, e: Step)
    requires Inv(s) && Enabled(s, e) && EventsKnown(s)
    ensures EventsKnown(Apply(s, e))
  {
    var t := Apply(s, e);
    forall id | id in s.used && id in t.rows ensures id in s.rows && t.rows[id].event == s.rows[id].event { EventStays(s, e, id); }
    if e.ReadEvents? {
      ReadEventsKeeps(s, e.kind);
    } else if e.BeginMarking? {
      var i, x := s.phase.sides[Internal], s.phase.sides[External];
      assert forall id :: ValidHeld(t.phase, id) ==> ValidHeld(s.phase, id);
    } else {
      OtherStepsKeep(s, e);
    }
  }

  lemma ReadEventsKeeps(s: State, k: Kind)
    requires Inv(s) && Enabled(s, ReadEvents(k)) && EventsKnown(s)
    ensures EventsKnown(Apply(s, ReadEvents(k)))
  {
    var t := Apply(s, ReadEvents(k));
    forall id | ValidHeld(t.phase, id) && id in t.rows ensures t.rows[id].event.Some? {
      if id.kind == k { assert Held(s.phase, id); } else { assert ValidHeld(s.phase, id); }
    }
  }

  lemma OtherStepsKeep(s: State, e: Step)
    requires Inv(s) && Enabled(s, e) && EventsKnown(s) && !e.ReadEvents? && !e.BeginMarking?
    requires forall id :: id in s.used && id in Apply(s, e).rows ==> id in s.rows && Apply(s, e).rows[id].event == s.rows[id].event
    ensures EventsKnown(Apply(s, e))
  {
    var t := Apply(s, e);
    forall id | ValidHeld(t.phase, id) ensures ValidHeld(s.phase, id) { }
    if t.phase.Collecting? {
      forall id | Held(t.phase, id) && t.phase.sides[id.kind].Pending? && id in t.rows
        ensures t.phase.sides[id.kind].rows[id] == t.rows[id].event
      {
        if !(e == ReadPending(id.kind)) { assert Held(s.phase, id); }
      }
    }
  }

  lemma {:induction false} RunKeepsEvents(s: State, es: seq<Step>)
    requires Inv(s) && EventsKnown(s) && ValidRun(s, es)
    ensures EventsKnown(Run(s, es))
    decreases |es|
  {
    if es != [] {
      StepPreservesInv(s, es[0]);
      StepKeepsEvents(s, es[0]);
      hide Inv; hide EventsKnown; hide Apply; hide Enabled;
      RunKeepsEvents(Apply(s, es[0]), es[1..]);
    }
  }

  // ----- a run that nothing disturbs names every pending row --------------

  /** The row is waiting and its event is live. */
  predicate Due(s: State, id: Id) {
    IsPending(s, id) && s.rows[id].event.Some? && s.rows[id].event.value in s.live
  }

  lemma CollectsDue(s: State, k: Kind, id: Id) returns (t: State)
    requires s.phase.Collecting? && k in s.phase.sides && s.phase.sides[k] == Unread && Due(s, id)
    ensures RunsTo(s, [ReadPending(k), ReadEvents(k)], t)
    ensures t == s.(phase := t.phase) && t.phase.Collecting? && forall j :: j in s.phase.sides ==> j in t.phase.sides
    ensures t.phase.sides[k].Split? && (id.kind == k ==> id in t.phase.sides[k].valid)
    ensures forall j :: j in s.phase.sides && j != k ==> t.phase.sides[j] == s.phase.sides[j]
  {
    var m := Apply(s, ReadPending(k));
    t := Apply(m, ReadEvents(k));
    assert Run(t, []) == t;
    RunCons(m, ReadEvents(k), []);
    RunCons(s, ReadPending(k), [ReadEvents(k)] + []);
    assert [ReadPending(k)] + ([ReadEvents(k)] + []) == [ReadPending(k), ReadEvents(k)];
  }

  lemma MarksThenSends(s: State, id: Id) returns (t: State)
    requires s.phase.MarkingStray? && s.phase.kind == Internal && id in s.phase.valid
    ensures RunsTo(s, [MarkStray, MarkStray, Send], t)
    ensures MailCount(t.mails, id) == MailCount(s.mails, id) + 1
  {
    var s1 := Apply(s, MarkStray);
    var s2 := Apply(s1, MarkStray);
    assert s2.phase == Sending(s.phase.valid) && s.phase.valid != {};
    t := Apply(s2, Send);
    MailCountSnoc(s.mails, s.phase.valid, id);
    assert Run(t, []) == t;
    hide MarkRows; hide MailCount;
    RunCons(s2, Send, []);
    RunCons(s1, MarkStray, [Send] + []);
    RunCons(s, MarkStray, [MarkStray] + ([Send] + []));
    assert [MarkStray] + ([MarkStray] + ([Send] + [])) == [MarkStray, MarkStray, Send];
  }

  lemma BeginsWith(s: State, id: Id) returns (t: State)
    requires s.phase.Collecting? && Internal in s.phase.sides && External in s.phase.sides
    requires s.phase.sides[Internal].Split? && s.phase.sides[External].Split?
    requires id in s.phase.sides[if id.kind == Internal then Internal else External].valid
    ensures RunsTo(s, [BeginMarking] + [MarkStray, MarkStray, Send], t)
    ensures MailCount(t.mails, id) == MailCount(s.mails, id) + 1
  {
    var m := Apply(s, BeginMarking);
    assert id in m.phase.valid && m.mails == s.mails;
    t := MarksThenSends(m, id);
    hide Apply; hide MailCount;
    RunCons(s, BeginMarking, [MarkStray, MarkStray, Send]);
  }

  lemma CollectsBoth(s: State, id: Id) returns (m: State)
    requires s.phase == Idle && Due(s, id)
    ensures RunsTo(s, [Start] + ([ReadPending(Internal), ReadEvents(Internal)] + [ReadPending(External), ReadEvents(External)]), m)
    ensures m.mails == s.mails && m.phase.Collecting? && Internal in m.phase.sides && External in m.phase.sides
    ensures m.phase.sides[Internal].Split? && m.phase.sides[External].Split?
    ensures id in m.phase.sides[if id.kind == Internal then Internal else External].valid
  {
    var s1 := Apply(s, Start);
    var s2 := CollectsDue(s1, Internal, id);
    m := CollectsDue(s2, External, id);
    hide Apply; hide Enabled; hide Due;
    RunAppend(s1, [ReadPending(Internal), ReadEvents(Internal)], [ReadPending(External), ReadEvents(External)]);
    RunCons(s, Start, [ReadPending(Internal), ReadEvents(Internal)] + [ReadPending(External), ReadEvents(External)]);
  }

  /** An undisturbed run up to its send names every row that is due. */
  lemma OneRunNames(s: State, id: Id) returns (t: State)
    requires s.phase == Idle && Due(s, id)
    ensures RunsTo(s, OneRun(), t) && MailCount(t.mails, id) == MailCount(s.mails, id) + 1
  {
    var m := CollectsBoth(s, id);
    t := BeginsWith(m, id);
    hide Apply; hide Enabled; hide MailCount; hide Due;
    var head := [Start] + ([ReadPending(Internal), ReadEvents(Internal)] + [ReadPending(External), ReadEvents(External)]);
    RunAppend(s, head, [BeginMarking] + [MarkStray, MarkStray, Send]);
    assert OneRun() == head + ([BeginMarking] + [MarkStray, MarkStray, Send]);
  }

  // ----- without a further crash nothing is mailed a second time ----------

  function Found(s: State): State { s.(lost := false) }

  lemma LostDoesNotMatter(s: State, e: Step)
    requires Enabled(s, e) && e != Crash
    ensures Enabled(Found(s), e) && Apply(Found(s), e) == Found(Apply(s, e)) && !Apply(Found(s), e).lost
  {
  }

  lemma {:induction false} SameRunFound(s: State, es: seq<Step>)
    requires ValidRun(s, es) && Crash !in es
    ensures ValidRun(Found(s), es) && Run(Found(s), es) == Found(Run(s, es))
    decreases |es|
  {
    if es != [] {
      assert es[0] in es;
      LostDoesNotMatter(s, es[0]);
      hide Apply; hide Enabled;
      SameRunFound(Apply(s, es[0]), es[1..]);
    }
  }

  /** Some crash-free continuation names a row in a second mail. */
  ghost predicate CanMailTwice(t: State) {
    exists es, id :: ValidRun(t, es) && Crash !in es && MailCount(Run(t, es).mails, id) >= 2
  }

  ghost predicate UnmarkedMailed(s: State) {
    exists id :: id in s.rows && InFlight(s.phase, id)
  }

  lemma HarmlessCrash(s: State)
    requires Inv(s) && !s.lost && !UnmarkedMailed(s)
    ensures !CanMailTwice(Apply(s, Crash))
  {
    var t := Apply(s, Crash);
    forall id | IsPending(t, id) ensures !InFlight(s.phase, id) { }
    assert Inv(Found(t));
    hide Inv; hide Apply; hide Enabled;
    forall es, id | ValidRun(t, es) && Crash !in es ensures MailCount(Run(t, es).mails, id) <= 1 {
      SameRunFound(t, es);
      RunPreservesInv(Found(t), es);
      FoundOnce(Run(Found(t), es), id);
    }
  }

  lemma FoundOnce(s: State, id: Id)
    requires Inv(s) && !s.lost
    ensures MailCount(s.mails, id) <= 1
  {
  }

  lemma HarmfulCrash(s: State, id: Id)
    requires Inv(s) && EventsKnown(s) && id in s.rows && InFlight(s.phase, id)
    ensures CanMailTwice(Apply(s, Crash))
  {
    var t := Apply(s, Crash);
    assert Held(s.phase, id) && ValidHeld(s.phase, id);
    var ev := s.rows[id].event.value;
    var u := Apply(t, SetLive(s.live + {ev}));
    assert MailCount(u.mails, id) >= 1 && Due(u, id) && u.phase == Idle;
    hide Inv; hide EventsKnown; hide MailCount; hide Due;
    var v := OneRunNames(u, id);
    RunCons(t, SetLive(s.live + {ev}), OneRun());
    var es := [SetLive(s.live + {ev})] + OneRun();
    assert Crash !in OneRun();
    assert ValidRun(t, es) && Crash !in es && MailCount(Run(t, es).mails, id) >= 2;
  }

  /** A crash between send and last mark can lead to a second mail if and only if some row it mailed still exists
      unmarked. */
  lemma CrashMailsTwiceIff(s0: State, run: seq<Step>)
    requires Initial(s0) && ValidRun(s0, run) && !Run(s0, run).lost && Run(s0, run).phase.MarkingSent?
    ensures CanMailTwice(Apply(Run(s0, run), Crash)) <==> UnmarkedMailed(Run(s0, run))
  {
    var s := Run(s0, run);
    InitialInv(s0);
    assert EventsKnown(s0);
    RunPreservesInv(s0, run);
    RunKeepsEvents(s0, run);
    hide Inv; hide EventsKnown; hide Apply; hide Enabled; hide CanMailTwice;
    if id :| id in s.rows && InFlight(s.phase, id) { HarmfulCrash(s, id); } else { HarmlessCrash(s); }
  }
}
