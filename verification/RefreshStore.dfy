/** The four functions of api/src/auth/refreshToken.ts over the table they update,
    each run without interruption, and their place in the protocol's runs. */
module RefreshStore {
  import opened Wrappers
  import opened RefreshTokens
  import opened RefreshSafety

  /** What a call that meets no other call does to the table. */
  function RotateAlone(rows: Rows, nextId: TokenId, users: set<UserId>, ttl: nat,
                       id: TokenId, now: Time, nextRaw: string): (Outcome, Rows)
    requires id in rows
  {
    var t := rows[id];
    if Consumable(t, now) then
      if t.user in users then
        (Rotated(nextId), ConsumeRow(rows, id, now)[nextId := NewToken(t.user, nextRaw, t.family, now, ttl)])
      else
        (UnknownUser, ConsumeRow(rows, id, now))
    else if t.consumedAt.Some? then
      (Reuse, RevokeFamilyRows(rows, t.family, now))
    else
      (Invalid, rows)
  }

  /** Presenting this token alone gets nobody a new one, at any time, whatever accounts exist. */
  ghost predicate NeverRotates(rows: Rows, nextId: TokenId, ttl: nat, id: TokenId)
    requires id in rows
  {
    forall users, now, nextRaw :: !RotateAlone(rows, nextId, users, ttl, id, now, nextRaw).0.Rotated?
  }

  /** Presented alone, by an account that exists, the token rotates before `end` and is Invalid from then on. */
  ghost predicate LivesUntil(rows: Rows, nextId: TokenId, ttl: nat, id: TokenId, end: Time)
    requires id in rows
  {
    forall users, at, nextRaw :: rows[id].user in users ==>
      var o := RotateAlone(rows, nextId, users, ttl, id, at, nextRaw).0;
      if at < end then o == Rotated(nextId) else o == Invalid
  }

  class RefreshTokenTable {
    var rows: Rows
    var nextId: TokenId
    const ttl: nat

    ghost predicate Valid()
      reads this
    {
      RowsOk(rows, nextId)
    }

    constructor (ttl: nat)
      ensures Valid() && rows == map[] && this.ttl == ttl
    {
      rows, nextId := map[], 0;
      this.ttl := ttl;
    }

    method IssueRefreshToken(user: UserId, family: FamilyId, raw: string, now: Time) returns (id: TokenId)
      requires Valid() && FreshRaw(rows, raw)
      modifies this
      ensures Valid()
      ensures id == old(nextId) && id !in old(rows)
      ensures id in rows && rows == old(rows)[id := rows[id]]
      ensures rows[id].user == user && rows[id].family == family && rows[id].digest == Sha256(raw)
      ensures LivesUntil(rows, nextId, ttl, id, now + ttl)
      ensures rows[id] == NewToken(user, raw, family, now, ttl)
    {
      id := nextId;
      rows := rows[id := NewToken(user, raw, family, now, ttl)];
      nextId := nextId + 1;
    }

    method RevokeFamily(family: FamilyId, now: Time)
      requires Valid()
      modifies this
      ensures Valid() && nextId == old(nextId)
      ensures rows == RevokeFamilyRows(old(rows), family, now) && rows.Keys == old(rows).Keys
      ensures forall id :: id in rows && old(rows)[id].family != family ==> rows[id] == old(rows)[id]
      ensures forall id :: id in rows && old(rows)[id].family == family ==>
                rows[id] == old(rows)[id].(revokedAt := Some(now)) && NeverRotates(rows, nextId, ttl, id)
    {
      rows := RevokeFamilyRows(rows, family, now);
    }

    method RevokeAllFamiliesForUser(user: UserId, now: Time)
      requires Valid()
      modifies this
      ensures Valid() && nextId == old(nextId)
      ensures rows == RevokeUserRows(old(rows), user, now) && rows.Keys == old(rows).Keys
      ensures forall id :: id in rows && (old(rows)[id].user != user || old(rows)[id].revokedAt.Some?) ==> rows[id] == old(rows)[id]
      ensures forall id :: id in rows && old(rows)[id].user == user ==>
                && rows[id] == old(rows)[id].(revokedAt := if old(rows)[id].revokedAt.Some? then old(rows)[id].revokedAt else Some(now))
                && NeverRotates(rows, nextId, ttl, id)
    {
      rows := RevokeUserRows(rows, user, now);
    }

    method RotateRefreshToken(raw: string, users: set<UserId>, now: Time, nextRaw: string) returns (outcome: Outcome)
      requires Valid() && FreshRaw(rows, nextRaw)
      modifies this
      ensures Valid()
      ensures FreshRaw(old(rows), raw) ==> outcome == Invalid && rows == old(rows)
      ensures forall id :: id in old(rows) && old(rows)[id].digest == Sha256(raw) ==>
                (outcome, rows) == RotateAlone(old(rows), old(nextId), users, ttl, id, now, nextRaw)
      ensures outcome.Rotated? ==>
                && outcome.next in rows && rows[outcome.next].digest == Sha256(nextRaw)
                && LivesUntil(rows, nextId, ttl, outcome.next, now + ttl)
                && exists id :: id in old(rows) && old(rows)[id].digest == Sha256(raw)
                                && rows[outcome.next].user == old(rows)[id].user && rows[outcome.next].family == old(rows)[id].family
    {
      if id :| id in rows && rows[id].digest == Sha256(raw) {
        var record := rows[id];
        var matched := Consumable(rows[id], now);
        ConsumePreservesRowsOnly(rows, nextId, id, now);
        rows := ConsumeRow(rows, id, now);
        if !matched {
          if rows[id].consumedAt.Some? {
            RevokeFamily(record.family, now);
            return Reuse;
          }
          return Invalid;
        }
        if record.user !in users {
          return UnknownUser;
        }
        var next := IssueRefreshToken(record.user, record.family, nextRaw, now);
        return Rotated(next);
      }
      return Invalid;
    }
  }

  lemma ConsumePreservesRowsOnly(rows: Rows, nextId: TokenId, id: TokenId, at: Time)
    requires RowsOk(rows, nextId) && id in rows
    ensures RowsOk(ConsumeRow(rows, id, at), nextId)
  {
    var rows' := ConsumeRow(rows, id, at);
    assert forall a :: a in rows ==> rows'[a].digest == rows[a].digest;
  }

  /** The events of a call that nothing interrupts. */
  function AloneEvents(s: State, c: nat, raw: string, id: TokenId, nextRaw: string): seq<Event>
    requires id in s.rows
  {
    var t := s.rows[id];
    [Find(c, raw, Some(id)), ReadClock(c), Consume(c)]
    + if Consumable(t, s.now) then
        (if t.user in s.users then [LookupUser(c), Insert(c, nextRaw)] else [LookupUser(c)])
      else
        [Reread(c)] + (if t.consumedAt.Some? then [RevokeReused(c)] else [])
  }

  ghost predicate EndsAs(s: State, es: seq<Event>, c: nat, o: Outcome, rows: Rows) {
    && ValidRun(s, es)
    && Run(s, es).rows == rows
    && c in Run(s, es).calls && Run(s, es).calls[c].Rotation? && Run(s, es).calls[c].phase == Done(o)
  }

  lemma EndsAsPrepend(s: State, e: Event, es: seq<Event>, c: nat, o: Outcome, rows: Rows)
    requires Enabled(s, e) && EndsAs(Apply(s, e), es, c, o, rows)
    ensures EndsAs(s, [e] + es, c, o, rows)
  {
    PrependStep(s, e, es);
  }

  lemma AloneHead(s: State, c: nat, raw: string, id: TokenId) returns (s1: State, s2: State, s3: State)
    requires c !in s.calls && id in s.rows && s.rows[id].digest == Sha256(raw)
    ensures Leads(s, Find(c, raw, Some(id)), s1) && Leads(s1, ReadClock(c), s2) && Leads(s2, Consume(c), s3)
    ensures s3 == s.(rows := ConsumeRow(s.rows, id, s.now), calls := s3.calls) && c in s3.calls
    ensures s3.calls[c] == Rotation(id, s.rows[id], s.now, if Consumable(s.rows[id], s.now) then Won else Lost)
  {
    s1 := Apply(s, Find(c, raw, Some(id)));
    s2 := Apply(s1, ReadClock(c));
    s3 := Apply(s2, Consume(c));
  }

  /** The table method is one of the protocol's runs: the one without interleaving. */
  lemma RotateAloneIsARun(s: State, c: nat, raw: string, id: TokenId, nextRaw: string)
    requires c !in s.calls && id in s.rows && s.rows[id].digest == Sha256(raw) && FreshRaw(s.rows, nextRaw)
    ensures var (o, rows) := RotateAlone(s.rows, s.nextId, s.users, s.ttl, id, s.now, nextRaw);
            EndsAs(s, AloneEvents(s, c, raw, id, nextRaw), c, o, rows)
  {
    var s1, s2, s3 := AloneHead(s, c, raw, id);
    var (o, rows) := RotateAlone(s.rows, s.nextId, s.users, s.ttl, id, s.now, nextRaw);
    var tail := AloneEvents(s, c, raw, id, nextRaw)[3..];
    AloneTail(s3, c, s.rows[id], id, nextRaw, tail, o, rows, s);
    ThreeThen(s, s1, s2, c, raw, id, tail, o, rows);
    assert AloneEvents(s, c, raw, id, nextRaw) == [Find(c, raw, Some(id))] + ([ReadClock(c)] + ([Consume(c)] + tail));
  }

  lemma ThreeThen(s: State, s1: State, s2: State, c: nat, raw: string, id: TokenId, tail: seq<Event>, o: Outcome, rows: Rows)
    requires Leads(s, Find(c, raw, Some(id)), s1) && Leads(s1, ReadClock(c), s2) && Enabled(s2, Consume(c))
    requires EndsAs(Apply(s2, Consume(c)), tail, c, o, rows)
    ensures EndsAs(s, [Find(c, raw, Some(id))] + ([ReadClock(c)] + ([Consume(c)] + tail)), c, o, rows)
  {
    EndsAsPrepend(s2, Consume(c), tail, c, o, rows);
    EndsAsPrepend(s1, ReadClock(c), [Consume(c)] + tail, c, o, rows);
    EndsAsPrepend(s, Find(c, raw, Some(id)), [ReadClock(c)] + ([Consume(c)] + tail), c, o, rows);
  }

  lemma AloneTail(s: State, c: nat, t: Token, id: TokenId, nextRaw: string, tail: seq<Event>, o: Outcome, rows: Rows, s0: State)
    requires id in s0.rows && t == s0.rows[id] && FreshRaw(s0.rows, nextRaw)
    requires s == s0.(rows := ConsumeRow(s0.rows, id, s0.now), calls := s.calls)
    requires c in s.calls && s.calls[c] == Rotation(id, t, s0.now, if Consumable(t, s0.now) then Won else Lost)
    requires tail == if Consumable(t, s0.now) then
                       (if t.user in s0.users then [LookupUser(c), Insert(c, nextRaw)] else [LookupUser(c)])
                     else [Reread(c)] + (if t.consumedAt.Some? then [RevokeReused(c)] else [])
    requires (o, rows) == RotateAlone(s0.rows, s0.nextId, s0.users, s0.ttl, id, s0.now, nextRaw)
    ensures EndsAs(s, tail, c, o, rows)
  {
    var s1 := Apply(s, tail[0]);
    if |tail| == 1 {
      assert EndsAs(s1, [], c, o, rows);
      hide Apply; hide RotateAlone; hide EndsAs;
      EndsAsPrepend(s, tail[0], [], c, o, rows);
      assert tail == [tail[0]] + [];
    } else {
      assert FreshRaw(s1.rows, nextRaw);
      var s2 := Apply(s1, tail[1]);
      assert EndsAs(s2, [], c, o, rows);
      hide Apply; hide RotateAlone; hide EndsAs;
      EndsAsPrepend(s1, tail[1], [], c, o, rows);
      EndsAsPrepend(s, tail[0], [tail[1]] + [], c, o, rows);
      assert tail == [tail[0]] + ([tail[1]] + []);
    }
  }

  /** Presenting one raw token twice: the second call is Reuse and leaves the whole family revoked,
      the first call's successor included. */
  lemma ReplayRevokesSuccessor(rows: Rows, nextId: TokenId, users: set<UserId>, ttl: nat, id: TokenId,
                               now: Time, later: Time, raw1: string, raw2: string)
    requires RowsOk(rows, nextId) && id in rows && Consumable(rows[id], now) && rows[id].user in users
    ensures var (o1, rows1) := RotateAlone(rows, nextId, users, ttl, id, now, raw1);
            id in rows1 &&
            var (o2, rows2) := RotateAlone(rows1, nextId + 1, users, ttl, id, later, raw2);
            && o1 == Rotated(nextId) && o2 == Reuse
            && nextId in rows2 && rows2[nextId].revokedAt.Some?
            && forall k :: k in rows2 && rows2[k].family == rows[id].family ==> rows2[k].revokedAt.Some?
  {
    assert id != nextId;
  }
}
