/** One nightly digest that nothing interrupts (api/src/lib/eventRegistrationDigest.ts, `sendEventRegistrationDigest`),
    as the steps of the interleaved machine. */
module DigestJob {
  import opened Wrappers
  import opened DigestRuns
  import DigestCollect

  predicate IsLive(s: State, id: Id) {
    id in s.rows && s.rows[id].event.Some? && s.rows[id].event.value in s.live
  }

  /** The pending rows whose event is live. */
  function ToMail(s: State): set<Id> { set id | id in s.rows && !s.rows[id].notified && IsLive(s, id) }

  class Job {
    var s: State
    ghost var start: State
    ghost var done: seq<Step>

    ghost predicate Valid()
      reads this
    {
      Initial(start) && ValidRun(start, done) && Run(start, done) == s
    }

    constructor (s: State)
      requires Initial(s)
      ensures Valid() && this.s == s
    {
      this.s, start, done := s, s, [];
    }

    method Do(e: Step)
      requires Valid() && Enabled(s, e)
      modifies this
      ensures Valid() && s == Apply(old(s), e)
    {
      hide Apply; hide Enabled;
      RunAppend(start, done, [e]);
      assert [e][1..] == [];
      s := Apply(s, e);
      done := done + [e];
    }

    /** One collector: the pending rows of its table, split by whether their event is live. */
    method Collect(k: Kind)
      requires Valid() && s.phase.Collecting? && k in s.phase.sides && s.phase.sides[k] == Unread
      modifies this
      ensures Valid() && s == old(s).(phase := s.phase)
      ensures s.phase.Collecting? && s.phase.sides.Keys == old(s).phase.sides.Keys
      ensures s.phase.sides[k].Split?
      ensures s.phase.sides[k].valid == OfKind(ToMail(old(s)), k)
      ensures forall id :: id in s.phase.sides[k].stray <==>
                id in old(s).rows && id.kind == k && !old(s).rows[id].notified && !IsLive(old(s), id)
      ensures forall j :: j in old(s).phase.sides && j != k ==> s.phase.sides[j] == old(s).phase.sides[j]
    {
      Do(ReadPending(k));
      Do(ReadEvents(k));
    }

    /** Both collectors. */
    method CollectBoth()
      requires Valid() && s.phase == Idle
      modifies this
      ensures Valid() && s == old(s).(phase := s.phase)
      ensures s.phase.MarkingStray? && s.phase.kind == Internal && s.phase.valid == ToMail(old(s))
      ensures forall id :: id in s.phase.stray <==> id in old(s).rows && !old(s).rows[id].notified && !IsLive(old(s), id)
    {
      Do(Start);
      Collect(Internal);
      Collect(External);
      ghost var before := s;
      Do(BeginMarking);
      assert s.phase.valid == OfKind(ToMail(before), Internal) + OfKind(ToMail(before), External);
    }

    method MarkStrays()
      requires Valid() && s.phase.MarkingStray? && s.phase.kind == Internal
      modifies this
      ensures Valid() && s.phase == Sending(old(s).phase.valid) && s.mails == old(s).mails && s.lost == old(s).lost
      ensures s.rows == MarkRows(old(s).rows, old(s).phase.stray)
    {
      Do(MarkStray);
      Do(MarkStray);
      MarkedBoth(old(s).rows, old(s).phase.stray);
    }

    method MarkMailed()
      requires Valid() && s.phase.MarkingSent? && s.phase.kind == Internal
      modifies this
      ensures Valid() && s.phase == Idle && s.mails == old(s).mails && s.lost == old(s).lost
      ensures s.rows == MarkRows(old(s).rows, old(s).phase.valid)
    {
      Do(MarkSent);
      Do(MarkSent);
      MarkedBoth(old(s).rows, old(s).phase.valid);
    }

    method Mail()
      requires Valid() && s.phase.Sending? && s.phase.valid != {}
      modifies this
      ensures Valid() && s.phase == MarkingSent(Internal, old(s).phase.valid) && s.rows == old(s).rows && s.lost == old(s).lost
      ensures s.mails == old(s).mails + [old(s).phase.valid]
    {
      Do(Send);
    }

    method GiveUp()
      requires Valid() && s.phase.Sending?
      modifies this
      ensures Valid() && s == old(s).(phase := Idle)
    {
      Do(SkipSend);
    }

    /** A whole run: strays are marked, one mail names every other pending row if there is any and a recipient, and
        those rows are marked exactly if that mail went out. */
    method SendEventRegistrationDigest(hasRecipients: bool, mailOk: bool) returns (sent: bool)
      requires Valid() && s.phase == Idle
      modifies this
      ensures Valid() && s.phase == Idle && s.lost == old(s).lost
      ensures sent <==> ToMail(old(s)) != {} && hasRecipients && mailOk
      ensures s.mails == if sent then old(s).mails + [ToMail(old(s))] else old(s).mails
      ensures s.rows.Keys == old(s).rows.Keys
      ensures forall id :: id in s.rows ==>
                s.rows[id].event == old(s).rows[id].event
                && (s.rows[id].notified <==> old(s).rows[id].notified || !IsLive(old(s), id) || sent)
    {
      hide Apply; hide Valid; hide Enabled;
      CollectBoth();
      MarkStrays();
      var valid := s.phase.valid;
      sent := valid != {} && hasRecipients && mailOk;
      if !sent {
        GiveUp();
        return;
      }
      Mail();
      MarkMailed();
    }
  }

  /** The live events of one table, by the ids the collector sees. */
  function LocalEvents(live: set<Event>, k: Kind): set<int> { set e | e in live && e.kind == k :: e.n }

  /** The rows a query returned, in any order, are what the machine holds as read. */
  ghost predicate Lists(pending: seq<DigestCollect.Participant>, found: map<Id, Option<Event>>, k: Kind) {
    && (forall i :: 0 <= i < |pending| ==>
          && Id(k, pending[i].id) in found
          && found[Id(k, pending[i].id)] == if pending[i].event.Some? then Some(Event(k, pending[i].event.value)) else None)
    && (forall id :: id in found ==> exists i :: 0 <= i < |pending| && id == Id(k, pending[i].id))
  }

  lemma LocallyLive(p: DigestCollect.Participant, live: set<Event>, k: Kind)
    ensures DigestCollect.IsValid(p, LocalEvents(live, k)) <==> p.event.Some? && Event(k, p.event.value) in live
  {
    if p.event.Some? && Event(k, p.event.value) in live { assert Event(k, p.event.value).n in LocalEvents(live, k); }
  }

  /** The collector's two lists are the two sets of the machine's read step. */
  lemma CollectIsReadEvents(s: State, k: Kind, pending: seq<DigestCollect.Participant>, n: nat)
    requires Enabled(s, ReadEvents(k)) && Lists(pending, s.phase.sides[k].rows, k)
    ensures var split := Apply(s, ReadEvents(k)).phase.sides[k]; var live := LocalEvents(s.live, k);
            && (n in DigestCollect.ValidIds(pending, live) <==> Id(k, n) in split.valid)
            && (n in DigestCollect.StrayIds(pending, live) <==> Id(k, n) in split.stray)
  {
    var live, found := LocalEvents(s.live, k), s.phase.sides[k].rows;
    DigestCollect.ListsByEvent(pending, live, n);
    forall i | 0 <= i < |pending|
      ensures DigestCollect.IsValid(pending[i], live) <==> pending[i].event.Some? && Event(k, pending[i].event.value) in s.live
    {
      LocallyLive(pending[i], s.live, k);
    }
    if Id(k, n) in found {
      var i :| 0 <= i < |pending| && Id(k, n) == Id(k, pending[i].id);
      assert DigestCollect.NamesRow(pending, live, n, DigestCollect.IsValid(pending[i], live));
    }
  }

  /** The two tables together. */
  lemma MarkedBoth(rows: map<Id, Row>, ids: set<Id>)
    ensures MarkRows(MarkRows(rows, OfKind(ids, Internal)), OfKind(ids, External)) == MarkRows(rows, ids)
  {
  }
}
