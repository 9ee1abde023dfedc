/** Import of one ICS feed into `external_events` (api/src/lib/externalEventIcsSync.ts). */
module IcsSync {
  import opened Wrappers

  datatype EventData = EventData(title: string, location: string, description: Option<string>, date: int, time: int)

  /** One parsed feed entry. */
  datatype IcsEvent = IcsEvent(uid: string, data: EventData)

  /** A table row; `deleted`, `source` and `uid` are nullable columns. */
  datatype Row = Row(source: Option<int>, uid: Option<string>, data: EventData, host: Option<string>,
                     createdBy: int, deleted: Option<bool>)

  datatype Table = Table(rows: map<nat, Row>, nextId: nat)

  predicate Matches(r: Row, source: int, uid: string) {
    r.source == Some(source) && r.uid == Some(uid)
  }

  /** The primary key and the unique index on (ics_source_id, ics_uid); nulls never collide. */
  ghost predicate Valid(t: Table) {
    && (forall id :: id in t.rows ==> id < t.nextId)
    && (forall a, b :: a in t.rows && b in t.rows && a != b && t.rows[a].source.Some? && t.rows[a].uid.Some? ==>
          !Matches(t.rows[b], t.rows[a].source.value, t.rows[a].uid.value))
  }

  predicate Has(t: Table, source: int, uid: string) {
    exists id :: id in t.rows && Matches(t.rows[id], source, uid)
  }

  function NewRow(source: int, createdBy: int, e: IcsEvent): Row {
    Row(Some(source), Some(e.uid), e.data, None, createdBy, Some(false))
  }

  /** One pass of the loop: overwrite the row of this uid, or insert one. */
  ghost function Upsert(t: Table, source: int, createdBy: int, e: IcsEvent): Table {
    if Has(t, source, e.uid) then
      var id :| id in t.rows && Matches(t.rows[id], source, e.uid);
      t.(rows := t.rows[id := t.rows[id].(data := e.data, deleted := Some(false))])
    else
      Table(t.rows[t.nextId := NewRow(source, createdBy, e)], t.nextId + 1)
  }

  /** The table after the loop has handled `feed`. */
  ghost function Upserts(t: Table, source: int, createdBy: int, feed: seq<IcsEvent>): Table {
    if feed == [] then t
    else Upsert(Upserts(t, source, createdBy, feed[..|feed| - 1]), source, createdBy, feed[|feed| - 1])
  }

  function Uids(feed: seq<IcsEvent>): set<string> { set i | 0 <= i < |feed| :: feed[i].uid }

  /** The data of the last entry with this uid. */
  function LastData(feed: seq<IcsEvent>, uid: string): EventData
    requires uid in Uids(feed)
  {
    var n := |feed| - 1;
    if feed[n].uid == uid then feed[n].data else (UidsSnoc(feed); LastData(feed[..n], uid))
  }

  /** What the query for stale rows selects.  An empty feed drops the uid condition altogether;
      otherwise `NOT IN` never matches a null uid. */
  predicate IsStale(r: Row, source: int, seen: set<string>) {
    && r.source == Some(source) && r.deleted == Some(false)
    && (seen == {} || (r.uid.Some? && r.uid.value !in seen))
  }

  ghost function RemoveStale(t: Table, source: int, seen: set<string>): Table {
    t.(rows := map id | id in t.rows :: if IsStale(t.rows[id], source, seen) then t.rows[id].(deleted := Some(true)) else t.rows[id])
  }

  ghost function Synced(t: Table, source: int, createdBy: int, feed: seq<IcsEvent>): Table {
    RemoveStale(Upserts(t, source, createdBy, feed), source, Uids(feed))
  }

  function StaleIds(t: Table, source: int, seen: set<string>): set<nat> {
    set id | id in t.rows && IsStale(t.rows[id], source, seen)
  }

  class ExternalEvents {
    var table: Table

    method FindFirst(source: int, uid: string) returns (r: Option<nat>)
      ensures r.Some? ==> r.value in table.rows && Matches(table.rows[r.value], source, uid)
      ensures r.None? ==> !Has(table, source, uid)
    {
      if id :| id in table.rows && Matches(table.rows[id], source, uid) {
        return Some(id);
      }
      return None;
    }

    method SyncSource(source: int, createdBy: int, feed: seq<IcsEvent>) returns (created: nat, updated: nat, removed: nat)
      requires Valid(table)
      modifies this
      ensures Valid(table)
      ensures table == Synced(old(table), source, createdBy, feed)
      ensures created + updated == |feed|
      ensures created == table.nextId - old(table.nextId)
      ensures removed == |StaleIds(Upserts(old(table), source, createdBy, feed), source, Uids(feed))|
    {
      created, updated := 0, 0;
      ghost var t := table;
      var seen: set<string> := {};
      assert Uids(feed[..0]) == {};
      hide Uids; hide Valid; hide Effect;
      for i := 0 to |feed|
        invariant Valid(table) && table == Upserts(t, source, createdBy, feed[..i])
        invariant seen == Uids(feed[..i])
        invariant created + updated == i && created == table.nextId - t.nextId
      {
        assert feed[..i + 1][..i] == feed[..i];
        UidsSnoc(feed[..i + 1]);
        UpsertFacts(table, source, createdBy, feed[i]);
        seen := seen + {feed[i].uid};
        var existing := FindFirst(source, feed[i].uid);
        match existing
        case Some(id) =>
          table := table.(rows := table.rows[id := table.rows[id].(data := feed[i].data, deleted := Some(false))]);
          updated := updated + 1;
        case None =>
          table := Table(table.rows[table.nextId := NewRow(source, createdBy, feed[i])], table.nextId + 1);
          created := created + 1;
      }
      assert feed[..|feed|] == feed;
      var stale := StaleIds(table, source, seen);
      removed := |stale|;
      RemoveStaleValid(table, source, seen);
      if removed > 0 {
        table := table.(rows := map id | id in table.rows :: if id in stale then table.rows[id].(deleted := Some(true)) else table.rows[id]);
      } else {
        NothingStale(table, source, seen);
      }
    }
  }

  // ----- one upsert -------------------------------------------------------

  lemma UidsSnoc(feed: seq<IcsEvent>)
    requires feed != []
    ensures Uids(feed) == Uids(feed[..|feed| - 1]) + {feed[|feed| - 1].uid}
  {
    var n := |feed| - 1;
    forall u | u in Uids(feed) ensures u in Uids(feed[..n]) + {feed[n].uid} {
      var i :| 0 <= i < |feed| && feed[i].uid == u;
      if i < n { assert feed[..n][i].uid == u; }
    }
    forall u | u in Uids(feed[..n]) ensures u in Uids(feed) {
      var i :| 0 <= i < n && feed[..n][i].uid == u;
      assert feed[i].uid == u;
    }
    assert feed[n].uid in Uids(feed);
  }

  predicate SameIdentity(a: Row, b: Row) {
    a.source == b.source && a.uid == b.uid && a.host == b.host && a.createdBy == b.createdBy
  }

  predicate IsNew(r: Row, createdBy: int) { r.host == None && r.createdBy == createdBy }

  /** The row of the uid carries the data; every other row is untouched. */
  ghost predicate Effect(t: Table, u: Table, source: int, createdBy: int, e: IcsEvent) {
    && Has(u, source, e.uid)
    && (forall id :: id in t.rows ==> id in u.rows && SameIdentity(t.rows[id], u.rows[id])
                                      && (!Matches(t.rows[id], source, e.uid) ==> u.rows[id] == t.rows[id]))
    && (forall id :: id in u.rows && Matches(u.rows[id], source, e.uid) ==>
          u.rows[id].data == e.data && u.rows[id].deleted == Some(false))
    && (forall id :: id in u.rows && id !in t.rows ==>
          Matches(u.rows[id], source, e.uid) && IsNew(u.rows[id], createdBy) && id == t.nextId)
    && u.nextId == t.nextId + (if Has(t, source, e.uid) then 0 else 1)
  }

  lemma UpsertFacts(t: Table, source: int, createdBy: int, e: IcsEvent)
    requires Valid(t)
    ensures Valid(Upsert(t, source, createdBy, e)) && Effect(t, Upsert(t, source, createdBy, e), source, createdBy, e)
    ensures forall id :: id in t.rows && Matches(t.rows[id], source, e.uid) ==>
              Upsert(t, source, createdBy, e) == t.(rows := t.rows[id := t.rows[id].(data := e.data, deleted := Some(false))])
  {
    var u := Upsert(t, source, createdBy, e);
    if Has(t, source, e.uid) {
      var id :| id in t.rows && Matches(t.rows[id], source, e.uid) && u == t.(rows := t.rows[id := t.rows[id].(data := e.data, deleted := Some(false))]);
      assert Matches(u.rows[id], source, e.uid);
      forall k | k in t.rows && k != id ensures !Matches(t.rows[k], source, e.uid) { }
    } else {
      assert Matches(u.rows[t.nextId], source, e.uid);
    }
  }

  // ----- the whole loop ---------------------------------------------------

  /** What the loop leaves behind: every feed uid has its row with the last entry's data, live; rows of other
      uids, of other sources and manual rows are as before; no row loses its id or identity. */
  ghost predicate Upserted(t: Table, u: Table, source: int, createdBy: int, feed: seq<IcsEvent>) {
    && Valid(u) && t.nextId <= u.nextId
    && (forall uid :: uid in Uids(feed) ==> Has(u, source, uid))
    && (forall id :: id in t.rows ==> id in u.rows && SameIdentity(t.rows[id], u.rows[id]))
    && (forall id :: id in t.rows && !OfFeed(t.rows[id], source, feed) ==> u.rows[id] == t.rows[id])
    && (forall id :: id in u.rows && OfFeed(u.rows[id], source, feed) ==>
          u.rows[id].data == LastData(feed, u.rows[id].uid.value) && u.rows[id].deleted == Some(false))
    && (forall id :: id in u.rows && id !in t.rows ==>
          OfFeed(u.rows[id], source, feed) && IsNew(u.rows[id], createdBy) && t.nextId <= id)
  }

  predicate OfFeed(r: Row, source: int, feed: seq<IcsEvent>) {
    r.source == Some(source) && r.uid.Some? && r.uid.value in Uids(feed)
  }

  lemma {:induction false} UpsertsFacts(t: Table, source: int, createdBy: int, feed: seq<IcsEvent>)
    requires Valid(t)
    ensures Upserted(t, Upserts(t, source, createdBy, feed), source, createdBy, feed)
  {
    if feed != [] {
      var n := |feed| - 1;
      UidsSnoc(feed);
      UpsertsFacts(t, source, createdBy, feed[..n]);
      UpsertedStep(t, Upserts(t, source, createdBy, feed[..n]), source, createdBy, feed);
    }
  }

  lemma UpsertedStep(t: Table, m: Table, source: int, createdBy: int, feed: seq<IcsEvent>)
    requires feed != [] && Uids(feed) == Uids(feed[..|feed| - 1]) + {feed[|feed| - 1].uid}
    requires Valid(t) && Upserted(t, m, source, createdBy, feed[..|feed| - 1])
    ensures Upserted(t, Upsert(m, source, createdBy, feed[|feed| - 1]), source, createdBy, feed)
  {
    hide Upsert; hide Uids; hide Valid; hide Effect; hide Has; hide OfFeed; hide LastData; hide Matches; hide SameIdentity; hide IsNew;
    var u := Upsert(m, source, createdBy, feed[|feed| - 1]);
    UpsertFacts(m, source, createdBy, feed[|feed| - 1]);
    StepKnows(t, m, u, source, createdBy, feed);
    StepKeeps(t, m, u, source, createdBy, feed);
    StepData(t, m, u, source, createdBy, feed);
    assert t.nextId <= u.nextId by { EffectGrows(m, u, source, createdBy, feed[|feed| - 1]); }
  }

  lemma EffectGrows(t: Table, u: Table, source: int, createdBy: int, e: IcsEvent)
    requires Effect(t, u, source, createdBy, e)
    ensures t.nextId <= u.nextId
  {
  }

  lemma StepKnows(t: Table, m: Table, u: Table, source: int, createdBy: int, feed: seq<IcsEvent>)
    requires feed != [] && Uids(feed) == Uids(feed[..|feed| - 1]) + {feed[|feed| - 1].uid}
    requires Upserted(t, m, source, createdBy, feed[..|feed| - 1]) && Effect(m, u, source, createdBy, feed[|feed| - 1])
    ensures forall uid :: uid in Uids(feed) ==> Has(u, source, uid)
  {
    hide Valid; hide Uids;
    forall uid | uid in Uids(feed) ensures Has(u, source, uid) {
      if uid != feed[|feed| - 1].uid {
        var id :| id in m.rows && Matches(m.rows[id], source, uid);
        assert id in u.rows && Matches(u.rows[id], source, uid);
      }
    }
  }

  lemma StepKeeps(t: Table, m: Table, u: Table, source: int, createdBy: int, feed: seq<IcsEvent>)
    requires feed != [] && Uids(feed) == Uids(feed[..|feed| - 1]) + {feed[|feed| - 1].uid}
    requires Upserted(t, m, source, createdBy, feed[..|feed| - 1]) && Effect(m, u, source, createdBy, feed[|feed| - 1])
    ensures forall id :: id in t.rows ==> id in u.rows && SameIdentity(t.rows[id], u.rows[id])
    ensures forall id :: id in t.rows && !OfFeed(t.rows[id], source, feed) ==> u.rows[id] == t.rows[id]
    ensures forall id :: id in u.rows && id !in t.rows ==>
          OfFeed(u.rows[id], source, feed) && IsNew(u.rows[id], createdBy) && t.nextId <= id
  {
    hide Valid; hide Uids; hide Has;
    forall id | id in t.rows ensures id in u.rows && SameIdentity(t.rows[id], u.rows[id]) {
      assert SameIdentity(t.rows[id], m.rows[id]);
    }
    forall id | id in t.rows && !OfFeed(t.rows[id], source, feed) ensures u.rows[id] == t.rows[id] {
      assert !OfFeed(t.rows[id], source, feed[..|feed| - 1]);
    }
    forall id | id in u.rows && id !in t.rows ensures OfFeed(u.rows[id], source, feed) && IsNew(u.rows[id], createdBy) && t.nextId <= id {
      if id in m.rows { assert SameIdentity(m.rows[id], u.rows[id]); }
    }
  }

  lemma StepData(t: Table, m: Table, u: Table, source: int, createdBy: int, feed: seq<IcsEvent>)
    requires feed != [] && Uids(feed) == Uids(feed[..|feed| - 1]) + {feed[|feed| - 1].uid}
    requires Upserted(t, m, source, createdBy, feed[..|feed| - 1]) && Effect(m, u, source, createdBy, feed[|feed| - 1])
    ensures forall id :: id in u.rows && OfFeed(u.rows[id], source, feed) ==>
              u.rows[id].data == LastData(feed, u.rows[id].uid.value) && u.rows[id].deleted == Some(false)
  {
    hide Valid; hide Uids; hide Has;
    forall id | id in u.rows && OfFeed(u.rows[id], source, feed)
      ensures u.rows[id].data == LastData(feed, u.rows[id].uid.value) && u.rows[id].deleted == Some(false)
    {
      if u.rows[id].uid.value != feed[|feed| - 1].uid {
        assert id in m.rows && SameIdentity(m.rows[id], u.rows[id]);
        assert u.rows[id] == m.rows[id];
        assert OfFeed(m.rows[id], source, feed[..|feed| - 1]);
      }
    }
  }

  lemma RemoveStaleValid(t: Table, source: int, seen: set<string>)
    requires Valid(t)
    ensures Valid(RemoveStale(t, source, seen))
  {
    var u := RemoveStale(t, source, seen);
    forall a, b | a in u.rows && b in u.rows && a != b && u.rows[a].source.Some? && u.rows[a].uid.Some?
      ensures !Matches(u.rows[b], u.rows[a].source.value, u.rows[a].uid.value)
    {
      assert !Matches(t.rows[b], t.rows[a].source.value, t.rows[a].uid.value);
    }
  }

  lemma NothingStale(t: Table, source: int, seen: set<string>)
    requires StaleIds(t, source, seen) == {}
    ensures RemoveStale(t, source, seen) == t
  {
    forall id | id in t.rows ensures !IsStale(t.rows[id], source, seen) {
      assert id !in StaleIds(t, source, seen);
    }
    assert RemoveStale(t, source, seen).rows == t.rows;
  }

  // ----- what a sync achieves ---------------------------------------------

  predicate Live(r: Row, source: int, uid: string) {
    Matches(r, source, uid) && r.deleted == Some(false)
  }

  /** Exactly the feed's uids are live, each in one row, with the last entry's data. */
  ghost predicate Mirrors(u: Table, source: int, feed: seq<IcsEvent>) {
    && (forall uid :: HasLive(u, source, uid) <==> uid in Uids(feed))
    && (forall id, uid :: id in u.rows && Live(u.rows[id], source, uid) ==>
          uid in Uids(feed) && u.rows[id].data == LastData(feed, uid))
    && (forall a, b, uid :: a in u.rows && b in u.rows && Live(u.rows[a], source, uid) && Live(u.rows[b], source, uid) ==> a == b)
  }

  predicate HasLive(u: Table, source: int, uid: string) {
    exists id :: id in u.rows && Live(u.rows[id], source, uid)
  }

  /** No row changes id, source, uid, host or creator.  Rows of other sources and manual rows are untouched; a live row
      of this source that the feed does not name is marked deleted, and so is nothing else: a row without uid only by an
      empty feed, a row whose flag is null never.  New rows come from the feed, without a host, made by `createdBy`. */
  ghost predicate Preserves(t: Table, u: Table, source: int, createdBy: int, feed: seq<IcsEvent>) {
    && (forall id :: id in t.rows ==> id in u.rows && SameIdentity(t.rows[id], u.rows[id]))
    && (forall id :: id in t.rows && t.rows[id].source != Some(source) ==> u.rows[id] == t.rows[id])
    && (forall id :: id in t.rows && t.rows[id].source == Some(source) && !OfFeed(t.rows[id], source, feed) ==>
          u.rows[id] == if t.rows[id].deleted == Some(false) && (t.rows[id].uid.Some? || feed == [])
                        then t.rows[id].(deleted := Some(true)) else t.rows[id])
    && (forall id :: id in u.rows && id !in t.rows ==> OfFeed(u.rows[id], source, feed) && IsNew(u.rows[id], createdBy))
  }

  lemma NoUidsIff(feed: seq<IcsEvent>)
    ensures Uids(feed) == {} <==> feed == []
  {
    if feed != [] { assert feed[0].uid in Uids(feed); }
  }

  /** From any table with unique (source, uid): after a sync the source mirrors the feed and everything else is preserved. */
  lemma SyncMirrorsFeed(t: Table, source: int, createdBy: int, feed: seq<IcsEvent>)
    requires Valid(t)
    ensures Valid(Synced(t, source, createdBy, feed))
    ensures Mirrors(Synced(t, source, createdBy, feed), source, feed)
    ensures Preserves(t, Synced(t, source, createdBy, feed), source, createdBy, feed)
  {
    UpsertsFacts(t, source, createdBy, feed);
    var m := Upserts(t, source, createdBy, feed);
    hide Upserts; hide Valid;
    RemoveStaleValid(m, source, Uids(feed));
    MirrorsAfterRemoval(t, m, source, createdBy, feed);
    PreservedByRemoval(t, m, source, createdBy, feed);
  }

  lemma MirrorsAfterRemoval(t: Table, m: Table, source: int, createdBy: int, feed: seq<IcsEvent>)
    requires Upserted(t, m, source, createdBy, feed)
    ensures Mirrors(RemoveStale(m, source, Uids(feed)), source, feed)
  {
    FeedRowsLive(t, m, source, createdBy, feed);
    OnlyFeedRowsLive(t, m, source, createdBy, feed);
    OneLiveRow(m, source, feed);
    hide Uids; hide RemoveStale; hide Upserted; hide LastData;
  }

  lemma FeedRowsLive(t: Table, m: Table, source: int, createdBy: int, feed: seq<IcsEvent>)
    requires Upserted(t, m, source, createdBy, feed)
    ensures forall uid :: uid in Uids(feed) ==> HasLive(RemoveStale(m, source, Uids(feed)), source, uid)
  {
    var u := RemoveStale(m, source, Uids(feed));
    hide Uids; hide Valid;
    forall uid | uid in Uids(feed) ensures HasLive(u, source, uid) {
      assert Has(m, source, uid);
      var id :| id in m.rows && Matches(m.rows[id], source, uid);
      assert OfFeed(m.rows[id], source, feed);
      assert id in u.rows && Live(u.rows[id], source, uid);
    }
  }

  lemma OnlyFeedRowsLive(t: Table, m: Table, source: int, createdBy: int, feed: seq<IcsEvent>)
    requires Upserted(t, m, source, createdBy, feed)
    ensures var u := RemoveStale(m, source, Uids(feed));
            forall id, uid :: id in u.rows && Live(u.rows[id], source, uid) ==>
              uid in Uids(feed) && u.rows[id].data == LastData(feed, uid)
  {
    var u := RemoveStale(m, source, Uids(feed));
    hide Uids; hide Valid; hide Has;
    forall id, uid | id in u.rows && Live(u.rows[id], source, uid)
      ensures uid in Uids(feed) && u.rows[id].data == LastData(feed, uid)
    {
      assert !IsStale(m.rows[id], source, Uids(feed));
      assert OfFeed(m.rows[id], source, feed);
    }
  }

  lemma OneLiveRow(m: Table, source: int, feed: seq<IcsEvent>)
    requires Valid(m)
    ensures var u := RemoveStale(m, source, Uids(feed));
            forall a, b, uid :: a in u.rows && b in u.rows && Live(u.rows[a], source, uid) && Live(u.rows[b], source, uid) ==> a == b
  {
    var u := RemoveStale(m, source, Uids(feed));
    hide Uids;
    forall a, b, uid | a in u.rows && b in u.rows && Live(u.rows[a], source, uid) && Live(u.rows[b], source, uid) ensures a == b {
      assert Matches(m.rows[a], source, uid) && Matches(m.rows[b], source, uid);
    }
  }

  lemma PreservedByRemoval(t: Table, m: Table, source: int, createdBy: int, feed: seq<IcsEvent>)
    requires Upserted(t, m, source, createdBy, feed)
    ensures Preserves(t, RemoveStale(m, source, Uids(feed)), source, createdBy, feed)
  {
    NoUidsIff(feed);
    var u := RemoveStale(m, source, Uids(feed));
    hide Uids; hide Has; hide Valid;
    forall id | id in t.rows ensures id in u.rows && SameIdentity(t.rows[id], u.rows[id]) {
      assert SameIdentity(t.rows[id], m.rows[id]);
    }
  }

  // ----- running it again -------------------------------------------------

  /** Every feed uid already has a live row with its last data. */
  ghost predicate UpToDate(t: Table, source: int, feed: seq<IcsEvent>) {
    && (forall uid :: uid in Uids(feed) ==> Has(t, source, uid))
    && (forall id :: id in t.rows && OfFeed(t.rows[id], source, feed) ==>
          t.rows[id].data == LastData(feed, t.rows[id].uid.value) && t.rows[id].deleted == Some(false))
  }

  /** Rows of the feed's uids with the data the feed ends on; nothing else changes. */
  ghost function Overwrite(t: Table, source: int, feed: seq<IcsEvent>): Table {
    t.(rows := map id | id in t.rows ::
         if OfFeed(t.rows[id], source, feed)
         then t.rows[id].(data := LastData(feed, t.rows[id].uid.value), deleted := Some(false)) else t.rows[id])
  }

  /** When every uid is known already the loop only overwrites. */
  lemma {:induction false} KnownUidsOverwrite(t: Table, source: int, createdBy: int, feed: seq<IcsEvent>)
    requires Valid(t) && forall uid :: uid in Uids(feed) ==> Has(t, source, uid)
    ensures Upserts(t, source, createdBy, feed) == Overwrite(t, source, feed)
  {
    if feed == [] {
      assert Overwrite(t, source, feed).rows == t.rows;
    } else {
      var n := |feed| - 1;
      UidsSnoc(feed);
      KnownUidsOverwrite(t, source, createdBy, feed[..n]);
      UpsertsFacts(t, source, createdBy, feed[..n]);
      OverwriteStep(t, source, createdBy, feed);
    }
  }

  lemma UpsertKnown(t: Table, source: int, createdBy: int, e: IcsEvent, id: nat)
    requires Valid(t) && id in t.rows && Matches(t.rows[id], source, e.uid)
    ensures Upsert(t, source, createdBy, e) == t.(rows := t.rows[id := t.rows[id].(data := e.data, deleted := Some(false))])
  {
    UpsertFacts(t, source, createdBy, e);
    hide Upsert; hide Valid;
  }

  lemma OverwriteStep(t: Table, source: int, createdBy: int, feed: seq<IcsEvent>)
    requires feed != [] && Valid(t) && Uids(feed) == Uids(feed[..|feed| - 1]) + {feed[|feed| - 1].uid}
    requires Has(t, source, feed[|feed| - 1].uid) && Valid(Overwrite(t, source, feed[..|feed| - 1]))
    ensures Upsert(Overwrite(t, source, feed[..|feed| - 1]), source, createdBy, feed[|feed| - 1]) == Overwrite(t, source, feed)
  {
    var n := |feed| - 1;
    var e := feed[n];
    var m := Overwrite(t, source, feed[..n]);
    var id :| id in t.rows && Matches(t.rows[id], source, e.uid);
    assert Matches(m.rows[id], source, e.uid);
    UpsertKnown(m, source, createdBy, e, id);
    hide Upsert; hide Uids;
    var u := Upsert(m, source, createdBy, e);
    var w := Overwrite(t, source, feed);
    OnlyOneMatches(t, source, e.uid, id);
    hide Valid; hide Has;
    forall k | k in t.rows ensures u.rows[k] == w.rows[k] { assert Matches(t.rows[k], source, e.uid) ==> k == id; }
    assert u.rows == w.rows;
  }

  lemma OnlyOneMatches(t: Table, source: int, uid: string, id: nat)
    requires Valid(t) && id in t.rows && Matches(t.rows[id], source, uid)
    ensures forall k :: k in t.rows && Matches(t.rows[k], source, uid) ==> k == id
  {
  }

  lemma UpToDateStays(t: Table, source: int, createdBy: int, feed: seq<IcsEvent>)
    requires Valid(t) && UpToDate(t, source, feed)
    ensures Upserts(t, source, createdBy, feed) == t
  {
    KnownUidsOverwrite(t, source, createdBy, feed);
    assert Overwrite(t, source, feed).rows == t.rows;
  }

  lemma {:induction false} UpsertsAppend(t: Table, source: int, createdBy: int, a: seq<IcsEvent>, b: seq<IcsEvent>)
    ensures Upserts(t, source, createdBy, a + b) == Upserts(Upserts(t, source, createdBy, a), source, createdBy, b)
  {
    if b == [] {
      assert a + b == a;
    } else {
      var n := |b| - 1;
      assert (a + b)[..|a + b| - 1] == a + b[..n];
      UpsertsAppend(t, source, createdBy, a, b[..n]);
    }
  }

  /** A run that died after `k` entries costs nothing: the next full run ends in the very table
      an undisturbed run gives. */
  lemma AbortedRunIsHarmless(t: Table, source: int, createdBy: int, feed: seq<IcsEvent>, k: nat)
    requires Valid(t) && k <= |feed|
    ensures Synced(Upserts(t, source, createdBy, feed[..k]), source, createdBy, feed) == Synced(t, source, createdBy, feed)
  {
    var done, rest := feed[..k], feed[k..];
    assert feed == done + rest;
    var m := Upserts(t, source, createdBy, done);
    UpsertsFacts(t, source, createdBy, done);
    UpToDateStays(m, source, createdBy, done);
    UpsertsAppend(m, source, createdBy, done, rest);
    UpsertsAppend(t, source, createdBy, done, rest);
  }

  /** A second run with the same feed creates nothing, removes nothing and changes nothing. */
  lemma SecondRunIsIdle(t: Table, source: int, createdBy: int, feed: seq<IcsEvent>)
    requires Valid(t)
    ensures var u := Synced(t, source, createdBy, feed);
            && Upserts(u, source, createdBy, feed) == u
            && StaleIds(u, source, Uids(feed)) == {}
            && Synced(u, source, createdBy, feed) == u
  {
    UpsertsFacts(t, source, createdBy, feed);
    var m := Upserts(t, source, createdBy, feed);
    RemoveStaleValid(m, source, Uids(feed));
    var u := RemoveStale(m, source, Uids(feed));
    StaleSparesFeed(m, source, feed);
    UpToDateStays(u, source, createdBy, feed);
    assert StaleIds(u, source, Uids(feed)) == {};
    NothingStale(u, source, Uids(feed));
  }

  lemma StaleSparesFeed(m: Table, source: int, feed: seq<IcsEvent>)
    requires UpToDate(m, source, feed)
    ensures UpToDate(RemoveStale(m, source, Uids(feed)), source, feed)
  {
    var u := RemoveStale(m, source, Uids(feed));
    forall uid | uid in Uids(feed) ensures Has(u, source, uid) {
      assert Has(m, source, uid);
      var id :| id in m.rows && Matches(m.rows[id], source, uid);
      assert id in u.rows && Matches(u.rows[id], source, uid);
    }
  }
}
