/** When a token that is found expired is classed as Invalid, and when it still ends in Reuse
    (api/src/auth/refreshToken.ts). */
module RefreshExpiry {
  import opened Wrappers
  import opened RefreshTokens
  import opened RefreshSafety

  /** Unconsumed, unrevoked and past its time. */
  predicate FoundExpired(s: State, id: TokenId) {
    id in s.rows && s.rows[id].consumedAt.None? && s.rows[id].revokedAt.None? && s.rows[id].expiresAt <= s.now
  }

  /** The call read the clock in time and is about to send its conditional update for this row. */
  predicate AboutToConsume(s: State, d: nat, id: TokenId) {
    d in s.calls && s.calls[d].Rotation? && s.calls[d].id == id && id in s.rows
    && s.calls[d].phase == Consuming && s.calls[d].at < s.rows[id].expiresAt
  }

  /** If the call ever ends, it ends Invalid. */
  ghost predicate EndsInvalid(t: State, c: nat) {
    forall es :: ValidRun(t, es) && Ended(Run(t, es), c) ==> Run(t, es).calls[c].phase.outcome == Invalid
  }

  predicate Ended(s: State, c: nat) {
    c in s.calls && s.calls[c].Rotation? && s.calls[c].phase.Done?
  }

  /** The row stays unconsumed and the call is on its way to Invalid. */
  ghost predicate Hopeless(s: State, c: nat, id: TokenId) {
    && id in s.rows && s.rows[id].consumedAt.None? && s.rows[id].expiresAt <= s.now
    && (forall d :: !AboutToConsume(s, d, id))
    && c in s.calls && s.calls[c].Rotation? && s.calls[c].id == id
    && (s.calls[c].phase.Found? || s.calls[c].phase.Consuming? || s.calls[c].phase.Lost? || s.calls[c].phase == Done(Invalid))
  }

  lemma HopelessRow(s: State, e: Event, c: nat, id: TokenId)
    requires RowsOk(s.rows, s.nextId) && Enabled(s, e) && Hopeless(s, c, id)
    ensures var t := Apply(s, e);
            && id in t.rows && t.rows[id].consumedAt.None? && t.rows[id].expiresAt == s.rows[id].expiresAt && s.now <= t.now
  {
    if e.Consume? { assert !AboutToConsume(s, e.c, id); }
  }

  lemma HopelessOthers(s: State, e: Event, c: nat, id: TokenId, d: nat)
    requires RowsOk(s.rows, s.nextId) && Enabled(s, e) && Hopeless(s, c, id)
    ensures !AboutToConsume(Apply(s, e), d, id)
  {
    HopelessRow(s, e, c, id);
    assert !AboutToConsume(s, d, id);
  }

  lemma HopelessCall(s: State, e: Event, c: nat, id: TokenId)
    requires RowsOk(s.rows, s.nextId) && Enabled(s, e) && Hopeless(s, c, id)
    ensures var t := Apply(s, e);
            && c in t.calls && t.calls[c].Rotation? && t.calls[c].id == id
            && (t.calls[c].phase.Found? || t.calls[c].phase.Consuming? || t.calls[c].phase.Lost? || t.calls[c].phase == Done(Invalid))
  {
    assert !AboutToConsume(s, c, id);
  }

  lemma {:induction false} HopelessForever(s: State, es: seq<Event>, c: nat, id: TokenId)
    requires Inv(s) && ValidRun(s, es) && Hopeless(s, c, id)
    ensures Hopeless(Run(s, es), c, id)
    decreases |es|
  {
    if es != [] {
      StepPreservesInv(s, es[0]);
      HopelessRow(s, es[0], c, id);
      HopelessCall(s, es[0], c, id);
      forall d ensures !AboutToConsume(Apply(s, es[0]), d, id) { HopelessOthers(s, es[0], c, id, d); }
      hide Inv; hide Apply; hide Enabled; hide AboutToConsume;
      HopelessForever(Apply(s, es[0]), es[1..], c, id);
    }
  }

  /** The late update: a call that read the clock in time consumes the row after expiry, and the finder sees that. */
  lemma LateConsume(t: State, c: nat, d: nat, id: TokenId) returns (es: seq<Event>)
    requires FoundExpired(t, id) && AboutToConsume(t, d, id) && c != d
    requires c in t.calls && t.calls[c].Rotation? && t.calls[c].id == id && t.calls[c].phase == Found
    ensures ValidRun(t, es) && Ended(Run(t, es), c) && Run(t, es).calls[c].phase == Done(Reuse)
    ensures Run(t, es).calls[c].snap == t.calls[c].snap && Run(t, es).calls[c].at == t.now
  {
    var t1 := Apply(t, Consume(d));
    assert t1.rows[id].consumedAt.Some? && t1.calls[c] == t.calls[c] && t1.now == t.now;
    es := LoserEnds(t1, c, id);
    PrependStep(t, Consume(d), es);
    es := [Consume(d)] + es;
  }

  /** A call that presents a consumed token ends in Reuse when nothing else runs. */
  lemma LoserEnds(t: State, c: nat, id: TokenId) returns (es: seq<Event>)
    requires id in t.rows && t.rows[id].consumedAt.Some?
    requires c in t.calls && t.calls[c].Rotation? && t.calls[c].id == id && t.calls[c].phase == Found
    ensures ValidRun(t, es) && Ended(Run(t, es), c) && Run(t, es).calls[c].phase == Done(Reuse)
    ensures Run(t, es).calls[c].snap == t.calls[c].snap && Run(t, es).calls[c].at == t.now
  {
    var t1 := Apply(t, ReadClock(c));
    var t2 := Apply(t1, Consume(c));
    var t3 := Apply(t2, Reread(c));
    var t4 := Apply(t3, RevokeReused(c));
    assert Run(t4, []) == t4;
    hide Consumable; hide RevokeFamilyRows; hide ConsumeRow;
    PrependStep(t3, RevokeReused(c), []);
    PrependStep(t2, Reread(c), [RevokeReused(c)] + []);
    PrependStep(t1, Consume(c), [Reread(c)] + ([RevokeReused(c)] + []));
    PrependStep(t, ReadClock(c), [Consume(c)] + ([Reread(c)] + ([RevokeReused(c)] + [])));
    es := [ReadClock(c)] + ([Consume(c)] + ([Reread(c)] + ([RevokeReused(c)] + [])));
  }

  /** A token found unconsumed, unrevoked and expired ends Invalid in every continuation if and only if no other call
      read the clock in time and still has its conditional update to send. */
  lemma ExpiredIsInvalidIff(s: State, c: nat, raw: string, id: TokenId)
    requires Inv(s) && Enabled(s, Find(c, raw, Some(id))) && FoundExpired(s, id)
    ensures EndsInvalid(Apply(s, Find(c, raw, Some(id))), c) <==> forall d :: !AboutToConsume(s, d, id)
  {
    var t := Apply(s, Find(c, raw, Some(id)));
    StepPreservesInv(s, Find(c, raw, Some(id)));
    forall d ensures AboutToConsume(t, d, id) <==> AboutToConsume(s, d, id) { }
    if d :| AboutToConsume(s, d, id) {
      var es := LateConsume(t, c, d, id);
      assert Ended(Run(t, es), c) && Run(t, es).calls[c].phase.outcome != Invalid;
    } else {
      forall es | ValidRun(t, es) && Ended(Run(t, es), c) ensures Run(t, es).calls[c].phase.outcome == Invalid {
        HopelessForever(t, es, c, id);
      }
    }
  }

  /** Such a call exists: a run from the empty table in which call 2 finds an unconsumed, unrevoked, expired token and
      ends in Reuse. */
  lemma ExpiredYetReuse() returns (s: State, es: seq<Event>)
    ensures Initial(s) && ValidRun(s, es)
    ensures var t := Run(s, es);
            && Ended(t, 2) && t.calls[2].phase == Done(Reuse)
            && t.calls[2].snap.consumedAt.None? && t.calls[2].snap.revokedAt.None? && t.calls[2].snap.expiresAt <= t.calls[2].at
  {
    s := State(0, 1000, 0, map[], {7}, map[], map[]);
    var s1 := Apply(s, Login(7, "", 0, 0));
    var s2 := Apply(s1, Find(1, "", Some(0)));
    var s3 := Apply(s2, ReadClock(1));
    var s4 := Apply(s3, Tick(1000));
    var s5 := Apply(s4, Find(2, "", Some(0)));
    assert FoundExpired(s5, 0) && AboutToConsume(s5, 1, 0);
    es := LateConsume(s5, 2, 1, 0);
    PrependStep(s4, Find(2, "", Some(0)), es);
    es := [Find(2, "", Some(0))] + es;
    PrependStep(s3, Tick(1000), es);
    es := [Tick(1000)] + es;
    PrependStep(s2, ReadClock(1), es);
    es := [ReadClock(1)] + es;
    PrependStep(s1, Find(1, "", Some(0)), es);
    es := [Find(1, "", Some(0))] + es;
    PrependStep(s, Login(7, "", 0, 0), es);
    es := [Login(7, "", 0, 0)] + es;
  }
}
