/** Collecting the pending registrations of one table for the nightly digest
    (api/src/lib/eventRegistrationDigest.ts, `collectInternal` and `collectExternal`). */
module DigestCollect {
  import opened Wrappers

  datatype Participant = Participant(id: nat, event: Option<int>)

  /** A mail line; a participant line prints a name, so it stands for the row it was printed from. */
  datatype Line = EventLine(event: int) | ParticipantLine(id: nat) | Blank

  datatype Collected = Collected(lines: seq<Line>, eventCount: nat, validIds: seq<nat>, strayIds: seq<nat>)

  /** The row's event is known and not deleted. */
  predicate IsValid(p: Participant, live: set<int>) {
    p.event.Some? && p.event.value in live
  }

  function ValidIds(pending: seq<Participant>, live: set<int>): seq<nat> {
    if pending == [] then []
    else
      var n := |pending| - 1;
      ValidIds(pending[..n], live) + if IsValid(pending[n], live) then [pending[n].id] else []
  }

  function StrayIds(pending: seq<Participant>, live: set<int>): seq<nat> {
    if pending == [] then []
    else
      var n := |pending| - 1;
      StrayIds(pending[..n], live) + if IsValid(pending[n], live) then [] else [pending[n].id]
  }

  function Ids(ps: seq<Participant>): seq<nat> { seq(|ps|, i requires 0 <= i < |ps| => ps[i].id) }

  /** The map's values in insertion order, flattened. */
  function Flat(order: seq<int>, buckets: map<int, seq<Participant>>): seq<nat>
    requires forall e :: e in order ==> e in buckets
  {
    if order == [] then []
    else
      var n := |order| - 1;
      var e := order[n];
      assert e in order;
      Flat(order[..n], buckets) + Ids(buckets[e])
  }

  /** The rows a mail body names. */
  function Named(lines: seq<Line>): seq<nat> {
    if lines == [] then []
    else
      var n := |lines| - 1;
      Named(lines[..n]) + if lines[n].ParticipantLine? then [lines[n].id] else []
  }

  lemma NamedSnoc(lines: seq<Line>, l: Line)
    ensures Named(lines + [l]) == Named(lines) + if l.ParticipantLine? then [l.id] else []
  {
    assert (lines + [l])[..|lines|] == lines;
  }

  lemma IdsSnoc(ps: seq<Participant>, p: Participant)
    ensures Ids(ps + [p]) == Ids(ps) + [p.id]
  {
  }

  // ----- what the mail should say -----------------------------------------

  /** The rows of one event, in their order. */
  function RowsOf(pending: seq<Participant>, e: int): seq<Participant> {
    if pending == [] then []
    else
      var n := |pending| - 1;
      RowsOf(pending[..n], e) + if pending[n].event == Some(e) then [pending[n]] else []
  }

  /** The live events that occur, each once, as they first appear. */
  function LiveEvents(pending: seq<Participant>, live: set<int>): seq<int> {
    if pending == [] then []
    else
      var n := |pending| - 1;
      var seen := LiveEvents(pending[..n], live);
      seen + if pending[n].event.Some? && pending[n].event.value in live && pending[n].event.value !in seen
             then [pending[n].event.value] else []
  }

  function RowLines(ps: seq<Participant>): seq<Line> { seq(|ps|, i requires 0 <= i < |ps| => ParticipantLine(ps[i].id)) }

  /** Each event with its own rows below it. */
  function MailBody(order: seq<int>, pending: seq<Participant>): seq<Line> {
    if order == [] then []
    else
      var n := |order| - 1;
      MailBody(order[..n], pending) + [EventLine(order[n])] + (RowLines(RowsOf(pending, order[n])) + [Blank])
  }

  /** The event a line stands under: that of the last event line before it. */
  function Heading(lines: seq<Line>, k: nat): Option<int>
    requires k <= |lines|
  {
    if k == 0 then None
    else if lines[k - 1].EventLine? then Some(lines[k - 1].event)
    else Heading(lines, k - 1)
  }

  /** The participant line names a row of a live event and stands under that event. */
  predicate UnderItsEvent(pending: seq<Participant>, live: set<int>, lines: seq<Line>, k: nat)
    requires k < |lines| && lines[k].ParticipantLine?
  {
    exists p :: p in pending && p.id == lines[k].id && p.event.Some? && p.event.value in live && Heading(lines, k) == p.event
  }

  /** Where an event first occurs, the length if it does not. */
  function FirstAt(pending: seq<Participant>, e: int): nat {
    if pending == [] then 0
    else if pending[0].event == Some(e) then 0
    else 1 + FirstAt(pending[1..], e)
  }

  lemma {:induction false} FirstAtIs(pending: seq<Participant>, e: int)
    ensures FirstAt(pending, e) <= |pending|
    ensures forall i :: 0 <= i < FirstAt(pending, e) ==> pending[i].event != Some(e)
    ensures FirstAt(pending, e) < |pending| ==> pending[FirstAt(pending, e)].event == Some(e)
  {
    if pending != [] {
      FirstAtIs(pending[1..], e);
    }
  }

  predicate Occurs(pending: seq<Participant>, e: int) { exists p :: p in pending && p.event == Some(e) }

  lemma OccursSnoc(pending: seq<Participant>, e: int)
    requires pending != []
    ensures Occurs(pending, e) <==> Occurs(pending[..|pending| - 1], e) || pending[|pending| - 1].event == Some(e)
  {
    assert pending == pending[..|pending| - 1] + [pending[|pending| - 1]];
  }

  /** The list holds exactly the live events that occur, each once. */
  lemma {:induction false} LiveEventsAre(pending: seq<Participant>, live: set<int>)
    ensures forall e :: e in LiveEvents(pending, live) <==> e in live && Occurs(pending, e)
    ensures forall i, j :: 0 <= i < j < |LiveEvents(pending, live)| ==> LiveEvents(pending, live)[i] != LiveEvents(pending, live)[j]
  {
    if pending != [] {
      LiveEventsAre(pending[..|pending| - 1], live);
      forall e { OccursSnoc(pending, e); }
      hide Occurs;
    }
  }

  lemma FirstAtPrefix(pending: seq<Participant>, e: int)
    requires pending != []
    ensures var n := |pending| - 1;
            if Occurs(pending[..n], e) then FirstAt(pending, e) == FirstAt(pending[..n], e) < n else n <= FirstAt(pending, e)
  {
    hide FirstAt;
    var n := |pending| - 1;
    if Occurs(pending[..n], e) {
      FirstAtIs(pending[..n], e);
      var k := FirstAt(pending[..n], e);
      assert k < n && pending[..n][k] == pending[k];
      assert forall i :: 0 <= i < k ==> pending[i] == pending[..n][i];
      IsFirstAt(pending, e, k);
    } else {
      FirstAtIs(pending, e);
      assert forall i :: 0 <= i < n ==> pending[i] in pending[..n];
    }
  }

  lemma {:induction false} IsFirstAt(pending: seq<Participant>, e: int, k: nat)
    requires k < |pending| && pending[k].event == Some(e) && forall i :: 0 <= i < k ==> pending[i].event != Some(e)
    ensures FirstAt(pending, e) == k
  {
    if k > 0 { IsFirstAt(pending[1..], e, k - 1); }
  }

  /** They stand in the order of their first appearance. */
  lemma {:induction false} LiveEventsByAppearance(pending: seq<Participant>, live: set<int>, i: nat, j: nat)
    requires i < j < |LiveEvents(pending, live)|
    ensures FirstAt(pending, LiveEvents(pending, live)[i]) < FirstAt(pending, LiveEvents(pending, live)[j])
  {
    var n := |pending| - 1;
    var seen, all := LiveEvents(pending[..n], live), LiveEvents(pending, live);
    LiveEventsAre(pending[..n], live);
    FirstAtPrefix(pending, all[i]);
    FirstAtPrefix(pending, all[j]);
    hide Occurs; hide FirstAt;
    if j < |seen| {
      LiveEventsByAppearance(pending[..n], live, i, j);
    } else {
      assert all[j] in live && all[j] !in seen;
    }
    assert all[i] in seen;
  }

  ghost predicate Grouping(order: seq<int>, buckets: map<int, seq<Participant>>) {
    && (forall e :: e in order <==> e in buckets)
    && (forall i, j :: 0 <= i < j < |order| ==> order[i] != order[j])
    && (forall e :: e in buckets ==> buckets[e] != [])
  }

  lemma {:induction false} FlatSame(order: seq<int>, a: map<int, seq<Participant>>, b: map<int, seq<Participant>>)
    requires forall e :: e in order ==> e in a && e in b && a[e] == b[e]
    ensures Flat(order, a) == Flat(order, b)
  {
    if order != [] { FlatSame(order[..|order| - 1], a, b); }
  }

  /** Pushing into an existing bucket adds the row once. */
  lemma {:induction false} FlatPush(order: seq<int>, buckets: map<int, seq<Participant>>, e: int, p: Participant)
    requires forall x :: x in order ==> x in buckets
    requires forall i, j :: 0 <= i < j < |order| ==> order[i] != order[j]
    requires e in order
    ensures multiset(Flat(order, buckets[e := buckets[e] + [p]])) == multiset(Flat(order, buckets)) + multiset{p.id}
  {
    var n := |order| - 1;
    var pushed := buckets[e := buckets[e] + [p]];
    var last := order[n];
    assert last in order;
    if last == e {
      assert e !in order[..n];
      FlatSame(order[..n], buckets, pushed);
      IdsSnoc(buckets[e], p);
      assert Flat(order, pushed) == Flat(order, buckets) + [p.id];
    } else {
      assert e in order[..n];
      FlatPush(order[..n], buckets, e, p);
      assert Flat(order, pushed) == Flat(order[..n], pushed) + Ids(buckets[last]);
      assert Flat(order, buckets) == Flat(order[..n], buckets) + Ids(buckets[last]);
    }
  }

  lemma FlatNew(order: seq<int>, buckets: map<int, seq<Participant>>, e: int, p: Participant)
    requires forall x :: x in order ==> x in buckets
    requires e !in order
    ensures Flat(order + [e], buckets[e := [p]]) == Flat(order, buckets) + [p.id]
  {
    assert (order + [e])[..|order|] == order;
    FlatSame(order, buckets, buckets[e := [p]]);
  }

  lemma GroupingMeans(order: seq<int>, buckets: map<int, seq<Participant>>)
    requires Grouping(order, buckets)
    ensures forall e :: e in order <==> e in buckets
    ensures forall i, j :: 0 <= i < j < |order| ==> order[i] != order[j]
  {
  }

  lemma GroupingPush(order: seq<int>, buckets: map<int, seq<Participant>>, e: int, p: Participant)
    requires Grouping(order, buckets) && e in buckets
    ensures Grouping(order, buckets[e := buckets[e] + [p]])
  {
  }

  lemma GroupingNew(order: seq<int>, buckets: map<int, seq<Participant>>, e: int, p: Participant)
    requires Grouping(order, buckets) && e !in buckets
    ensures Grouping(order + [e], buckets[e := [p]])
  {
  }

  lemma IdsUpTo(pending: seq<Participant>, live: set<int>, i: nat)
    requires i < |pending|
    ensures ValidIds(pending[..i + 1], live) == ValidIds(pending[..i], live) + if IsValid(pending[i], live) then [pending[i].id] else []
    ensures StrayIds(pending[..i + 1], live) == StrayIds(pending[..i], live) + if IsValid(pending[i], live) then [] else [pending[i].id]
  {
    assert pending[..i + 1][..i] == pending[..i];
  }

  lemma GroupsUpTo(pending: seq<Participant>, live: set<int>, i: nat)
    requires i < |pending|
    ensures forall e :: RowsOf(pending[..i + 1], e) == RowsOf(pending[..i], e) + if pending[i].event == Some(e) then [pending[i]] else []
    ensures var seen := LiveEvents(pending[..i], live); var e := pending[i].event;
            LiveEvents(pending[..i + 1], live) ==
              seen + if e.Some? && e.value in live && e.value !in seen then [e.value] else []
  {
    assert pending[..i + 1][..i] == pending[..i];
  }

  /** The order is that of the live events, and each bucket holds its event's rows. */
  ghost predicate OwnRows(order: seq<int>, buckets: map<int, seq<Participant>>, pending: seq<Participant>, live: set<int>) {
    order == LiveEvents(pending, live) && forall e :: e in order ==> e in buckets && buckets[e] == RowsOf(pending, e)
  }

  lemma RowsPushed(order: seq<int>, buckets: map<int, seq<Participant>>, pending: seq<Participant>, live: set<int>, i: nat)
    requires i < |pending| && OwnRows(order, buckets, pending[..i], live) && forall e :: e in buckets ==> e in order
    ensures var p := pending[i];
            if !IsValid(p, live) then OwnRows(order, buckets, pending[..i + 1], live)
            else if p.event.value in buckets then
              OwnRows(order, buckets[p.event.value := buckets[p.event.value] + [p]], pending[..i + 1], live)
            else OwnRows(order + [p.event.value], buckets[p.event.value := [p]], pending[..i + 1], live)
  {
    var p := pending[i];
    GroupsUpTo(pending, live, i);
    if p.event.Some? && p.event.value !in live { NotLive(pending[..i], live, p.event.value); }
    if IsValid(p, live) && p.event.value !in buckets { NoRowsYet(pending[..i], live, p.event.value); }
    hide LiveEvents; hide RowsOf;
  }

  lemma {:induction false} NotLive(pending: seq<Participant>, live: set<int>, e: int)
    requires e !in live
    ensures e !in LiveEvents(pending, live)
  {
    if pending != [] { NotLive(pending[..|pending| - 1], live, e); }
  }

  lemma {:induction false} NoRowsYet(pending: seq<Participant>, live: set<int>, e: int)
    requires e in live && e !in LiveEvents(pending, live)
    ensures RowsOf(pending, e) == []
  {
    if pending != [] { NoRowsYet(pending[..|pending| - 1], live, e); }
  }

  /** First loop: strays in order, the rest grouped by event in order of first appearance. */
  method Group(pending: seq<Participant>, live: set<int>)
      returns (order: seq<int>, buckets: map<int, seq<Participant>>, strayIds: seq<nat>)
    ensures Grouping(order, buckets)
    ensures OwnRows(order, buckets, pending, live)
    ensures strayIds == StrayIds(pending, live)
    ensures multiset(Flat(order, buckets)) == multiset(ValidIds(pending, live))
  {
    order, buckets, strayIds := [], map[], [];
    for i := 0 to |pending|
      invariant Grouping(order, buckets)
      invariant OwnRows(order, buckets, pending[..i], live)
      invariant strayIds == StrayIds(pending[..i], live)
      invariant multiset(Flat(order, buckets)) == multiset(ValidIds(pending[..i], live))
    {
      var p := pending[i];
      IdsUpTo(pending, live, i);
      GroupingMeans(order, buckets);
      RowsPushed(order, buckets, pending, live, i);
      hide Flat; hide ValidIds; hide StrayIds; hide Grouping; hide OwnRows;
      if p.event.None? || p.event.value !in live {
        strayIds := strayIds + [p.id];
      } else {
        var e := p.event.value;
        if e in buckets {
          FlatPush(order, buckets, e, p);
          GroupingPush(order, buckets, e, p);
          buckets := buckets[e := buckets[e] + [p]];
        } else {
          FlatNew(order, buckets, e, p);
          GroupingNew(order, buckets, e, p);
          order := order + [e];
          buckets := buckets[e := [p]];
        }
      }
    }
    assert pending[..|pending|] == pending;
  }

  lemma BodySnoc(order: seq<int>, buckets: map<int, seq<Participant>>, pending: seq<Participant>, i: nat)
    requires i < |order| && forall e :: e in order ==> e in buckets
    ensures MailBody(order[..i + 1], pending) ==
              MailBody(order[..i], pending) + [EventLine(order[i])] + RowLines(RowsOf(pending, order[i])) + [Blank]
    ensures Flat(order[..i + 1], buckets) == Flat(order[..i], buckets) + Ids(buckets[order[i]])
  {
    assert order[..i + 1][..i] == order[..i];
  }

  /** The first `i` events are printed. */
  ghost predicate Printed(order: seq<int>, buckets: map<int, seq<Participant>>, pending: seq<Participant>, i: nat,
                          lines: seq<Line>, ids: seq<nat>)
    requires i <= |order| && forall e :: e in order ==> e in buckets
  {
    lines == MailBody(order[..i], pending) && ids == Flat(order[..i], buckets) && Named(lines) == ids
  }

  /** Then the header and the first `j` rows of the next event. */
  ghost predicate RowsPrinted(order: seq<int>, buckets: map<int, seq<Participant>>, pending: seq<Participant>, i: nat, j: nat,
                              lines: seq<Line>, ids: seq<nat>)
    requires i < |order| && (forall e :: e in order ==> e in buckets) && order[i] in buckets && j <= |buckets[order[i]]|
  {
    var rows := buckets[order[i]][..j];
    && lines == MailBody(order[..i], pending) + [EventLine(order[i])] + RowLines(rows)
    && ids == Flat(order[..i], buckets) + Ids(rows) && Named(lines) == ids
  }

  lemma HeaderPrinted(order: seq<int>, buckets: map<int, seq<Participant>>, pending: seq<Participant>, i: nat,
                      lines: seq<Line>, ids: seq<nat>)
    requires i < |order| && (forall e :: e in order ==> e in buckets) && order[i] in buckets && Printed(order, buckets, pending, i, lines, ids)
    ensures RowsPrinted(order, buckets, pending, i, 0, lines + [EventLine(order[i])], ids)
  {
    NamedSnoc(lines, EventLine(order[i]));
    hide MailBody; hide Flat; hide Named;
  }

  lemma RowPrinted(order: seq<int>, buckets: map<int, seq<Participant>>, pending: seq<Participant>, i: nat, j: nat,
                   lines: seq<Line>, ids: seq<nat>)
    requires i < |order| && (forall e :: e in order ==> e in buckets) && order[i] in buckets && j < |buckets[order[i]]|
    requires RowsPrinted(order, buckets, pending, i, j, lines, ids)
    ensures var id := buckets[order[i]][j].id;
            RowsPrinted(order, buckets, pending, i, j + 1, lines + [ParticipantLine(id)], ids + [id])
  {
    NamedSnoc(lines, ParticipantLine(buckets[order[i]][j].id));
    hide MailBody; hide Flat; hide Named;
  }

  lemma EventPrinted(order: seq<int>, buckets: map<int, seq<Participant>>, pending: seq<Participant>, i: nat,
                     lines: seq<Line>, ids: seq<nat>)
    requires i < |order| && (forall e :: e in order ==> e in buckets) && order[i] in buckets && buckets[order[i]] == RowsOf(pending, order[i])
    requires RowsPrinted(order, buckets, pending, i, |buckets[order[i]]|, lines, ids)
    ensures Printed(order, buckets, pending, i + 1, lines + [Blank], ids)
  {
    NamedSnoc(lines, Blank);
    BodySnoc(order, buckets, pending, i);
    assert buckets[order[i]][..|buckets[order[i]]|] == buckets[order[i]];
    hide MailBody; hide Flat; hide Named; hide RowLines; hide Ids;
  }

  /** Second loop: one header per event, one line per participant. */
  method Print(order: seq<int>, buckets: map<int, seq<Participant>>, ghost pending: seq<Participant>)
      returns (lines: seq<Line>, validIds: seq<nat>)
    requires Grouping(order, buckets) && forall e :: e in order ==> buckets[e] == RowsOf(pending, e)
    ensures validIds == Flat(order, buckets) && Named(lines) == validIds
    ensures lines == MailBody(order, pending)
  {
    lines, validIds := [], [];
    for i := 0 to |order|
      invariant Printed(order, buckets, pending, i, lines, validIds)
    {
      hide Printed; hide RowsPrinted; hide RowsOf;
      HeaderPrinted(order, buckets, pending, i, lines, validIds);
      lines := lines + [EventLine(order[i])];
      var participants := buckets[order[i]];
      for j := 0 to |participants|
        invariant RowsPrinted(order, buckets, pending, i, j, lines, validIds)
      {
        RowPrinted(order, buckets, pending, i, j, lines, validIds);
        lines := lines + [ParticipantLine(participants[j].id)];
        validIds := validIds + [participants[j].id];
      }
      EventPrinted(order, buckets, pending, i, lines, validIds);
      lines := lines + [Blank];
    }
    assert order[..|order|] == order;
  }

  lemma HeadingSnoc(above: seq<Line>, more: seq<Line>, k: nat)
    requires k <= |more| && forall i :: 0 <= i < k ==> !more[i].EventLine?
    ensures Heading(above + more, |above| + k) == Heading(above, |above|)
    decreases k
  {
    if k == 0 {
      HeadingPrefix(above, more, |above|);
    } else {
      assert (above + more)[|above| + k - 1] == more[k - 1];
      HeadingSnoc(above, more, k - 1);
    }
  }

  lemma {:induction false} HeadingPrefix(above: seq<Line>, more: seq<Line>, k: nat)
    requires k <= |above|
    ensures Heading(above + more, k) == Heading(above, k)
  {
    if k > 0 { HeadingPrefix(above, more, k - 1); }
  }

  lemma {:induction false} RowsOfEvent(pending: seq<Participant>, e: int)
    ensures forall p :: p in RowsOf(pending, e) <==> p in pending && p.event == Some(e)
  {
    if pending != [] {
      RowsOfEvent(pending[..|pending| - 1], e);
      assert pending == pending[..|pending| - 1] + [pending[|pending| - 1]];
    }
  }

  /** In the body every participant line stands under the event of the row it names. */
  lemma {:induction false} LinesUnderTheirEvents(order: seq<int>, pending: seq<Participant>, live: set<int>, k: nat)
    requires (forall e :: e in order ==> e in live) && k < |MailBody(order, pending)| && MailBody(order, pending)[k].ParticipantLine?
    ensures UnderItsEvent(pending, live, MailBody(order, pending), k)
  {
    var n := |order| - 1;
    var above := MailBody(order[..n], pending);
    var rows := RowsOf(pending, order[n]);
    var block := [EventLine(order[n])] + RowLines(rows) + [Blank];
    var lines := above + block;
    assert MailBody(order, pending) == lines;
    hide MailBody; hide RowsOf;
    if k < |above| {
      LinesUnderTheirEvents(order[..n], pending, live, k);
      HeadingPrefix(above, block, k);
    } else {
      var j := k - |above| - 1;
      assert lines[k] == block[j + 1] && block[1..] == RowLines(rows) + [Blank];
      RowsOfEvent(pending, order[n]);
      assert rows[j] in pending && rows[j].event == Some(order[n]) && rows[j].id == lines[k].id;
      assert lines == (above + [EventLine(order[n])]) + block[1..];
      HeadingSnoc(above + [EventLine(order[n])], block[1..], j);
    }
  }

  /** The event lines, in their order. */
  function Headings(lines: seq<Line>): seq<int> {
    if lines == [] then []
    else
      var n := |lines| - 1;
      Headings(lines[..n]) + if lines[n].EventLine? then [lines[n].event] else []
  }

  lemma {:induction false} HeadingsAppend(lines: seq<Line>, more: seq<Line>)
    ensures Headings(lines + more) == Headings(lines) + Headings(more)
  {
    if more == [] {
      assert lines + more == lines;
    } else {
      var n := |more| - 1;
      HeadingsAppend(lines, more[..n]);
      assert (lines + more)[..|lines| + n] == lines + more[..n];
    }
  }

  lemma {:induction false} NoHeadings(lines: seq<Line>)
    requires forall i :: 0 <= i < |lines| ==> !lines[i].EventLine?
    ensures Headings(lines) == []
  {
    if lines != [] { NoHeadings(lines[..|lines| - 1]); }
  }

  lemma {:induction false} BodyHeadings(order: seq<int>, pending: seq<Participant>)
    ensures Headings(MailBody(order, pending)) == order
  {
    if order != [] {
      var n := |order| - 1;
      BodyHeadings(order[..n], pending);
      var rows := RowLines(RowsOf(pending, order[n])) + [Blank];
      var above := MailBody(order[..n], pending);
      assert MailBody(order, pending) == above + [EventLine(order[n])] + rows;
      hide MailBody; hide Headings; hide RowsOf;
      BlockHeadings(above, order[n], rows);
    }
  }

  lemma BlockHeadings(above: seq<Line>, e: int, rows: seq<Line>)
    requires forall i :: 0 <= i < |rows| ==> !rows[i].EventLine?
    ensures Headings(above + [EventLine(e)] + rows) == Headings(above) + [e]
  {
    NoHeadings(rows);
    HeadingsAppend(above + [EventLine(e)], rows);
    assert (above + [EventLine(e)])[..|above|] == above;
  }

  /** Valid and stray ids partition the pending rows, a row is valid exactly if its event is live, and the
      body names every valid row once and no other. */
  method Collect(pending: seq<Participant>, live: set<int>) returns (r: Collected)
    ensures r.strayIds == StrayIds(pending, live)
    ensures multiset(r.validIds) == multiset(ValidIds(pending, live))
    ensures Named(r.lines) == r.validIds
    ensures Headings(r.lines) == LiveEvents(pending, live) && r.eventCount == |LiveEvents(pending, live)|
    ensures forall k :: 0 <= k < |r.lines| && r.lines[k].ParticipantLine? ==> UnderItsEvent(pending, live, r.lines, k)
    ensures r.eventCount == 0 <==> r.validIds == []
  {
    var order, buckets, strayIds := Group(pending, live);
    if |order| == 0 {
      return Collected([], 0, [], strayIds);
    }
    var lines, validIds := Print(order, buckets, pending);
    FlatNotEmpty(order, buckets);
    BodyHeadings(order, pending);
    LiveEventsAre(pending, live);
    forall k | 0 <= k < |lines| && lines[k].ParticipantLine? ensures UnderItsEvent(pending, live, lines, k) {
      LinesUnderTheirEvents(order, pending, live, k);
    }
    return Collected(lines, |order|, validIds, strayIds);
  }

  lemma FlatNotEmpty(order: seq<int>, buckets: map<int, seq<Participant>>)
    requires Grouping(order, buckets) && order != []
    ensures Flat(order, buckets) != []
  {
    var e := order[|order| - 1];
    assert e in order;
    assert |Ids(buckets[e])| > 0;
  }

  /** The two lists split the pending rows: no row is lost, none is counted twice. */
  lemma {:induction false} ValidAndStrayPartition(pending: seq<Participant>, live: set<int>)
    ensures multiset(ValidIds(pending, live)) + multiset(StrayIds(pending, live)) == multiset(Ids(pending))
  {
    if pending != [] {
      var n := |pending| - 1;
      ValidAndStrayPartition(pending[..n], live);
      IdsSnoc(pending[..n], pending[n]);
      assert pending == pending[..n] + [pending[n]];
    }
  }

  ghost predicate NamesRow(pending: seq<Participant>, live: set<int>, id: nat, valid: bool) {
    exists i :: 0 <= i < |pending| && pending[i].id == id && IsValid(pending[i], live) == valid
  }

  lemma NamesRowSnoc(pending: seq<Participant>, live: set<int>, id: nat, valid: bool)
    requires pending != []
    ensures var n := |pending| - 1;
            NamesRow(pending, live, id, valid) <==>
              NamesRow(pending[..n], live, id, valid) || (pending[n].id == id && IsValid(pending[n], live) == valid)
  {
    var n := |pending| - 1;
    if NamesRow(pending[..n], live, id, valid) {
      var i :| 0 <= i < n && pending[..n][i].id == id && IsValid(pending[..n][i], live) == valid;
      assert pending[i].id == id && IsValid(pending[i], live) == valid;
    }
    if NamesRow(pending, live, id, valid) {
      var i :| 0 <= i < |pending| && pending[i].id == id && IsValid(pending[i], live) == valid;
      if i < n { assert pending[..n][i].id == id && IsValid(pending[..n][i], live) == valid; }
    }
  }

  /** Which list a row is in depends on its event alone. */
  lemma {:induction false} ListsByEvent(pending: seq<Participant>, live: set<int>, id: nat)
    ensures id in ValidIds(pending, live) <==> NamesRow(pending, live, id, true)
    ensures id in StrayIds(pending, live) <==> NamesRow(pending, live, id, false)
  {
    if pending != [] {
      ListsByEvent(pending[..|pending| - 1], live, id);
      NamesRowSnoc(pending, live, id, true);
      NamesRowSnoc(pending, live, id, false);
      hide NamesRow;
    }
  }
}
