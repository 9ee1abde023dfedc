/** What every interleaving of the rotation protocol guarantees. */
module RefreshSafety {
  import opened Wrappers
  import opened RefreshTokens

  // ----- a family has one tip ---------------------------------------------

  ghost function OpenTokens(s: State, f: FamilyId): set<TokenId> {
    set id | id in s.rows && Open(s.rows, id, f)
  }

  ghost function Winners(s: State, f: FamilyId): set<nat> {
    set c | c in s.calls && Winner(s.calls, c, f)
  }

  lemma AtMostOneElement<T>(a: set<T>)
    requires forall x, y :: x in a && y in a ==> x == y
    ensures |a| <= 1
  {
    if x :| x in a { assert a == {x}; }
  }

  /** Unconsumed tokens plus winners between consume and insert never exceed one. */
  lemma OneTip(s: State, es: seq<Event>, f: FamilyId)
    requires Inv(s) && ValidRun(s, es)
    ensures |OpenTokens(Run(s, es), f)| + |Winners(Run(s, es), f)| <= 1
  {
    RunPreservesInv(s, es);
    var t := Run(s, es);
    AtMostOneElement(OpenTokens(t, f));
    AtMostOneElement(Winners(t, f));
    if id, c :| id in OpenTokens(t, f) && c in Winners(t, f) { assert false; }
    assert OpenTokens(t, f) == {} || Winners(t, f) == {};
  }

  // ----- consumed once, replaced once -------------------------------------

  predicate Consumed(s: State, id: TokenId) {
    id in s.rows && s.rows[id].consumedAt.Some?
  }

  function One(b: bool): nat { if b then 1 else 0 }

  /** The event is a conditional update that matched row `id`. */
  predicate Consumes(s: State, e: Event, id: TokenId)
    requires Enabled(s, e)
  {
    e.Consume? && s.calls[e.c].id == id && Consumable(s.rows[id], s.calls[e.c].at)
  }

  /** The event inserts a successor of `id`. */
  predicate Succeeds(s: State, e: Event, id: TokenId)
    requires Enabled(s, e)
  {
    e.Insert? && s.calls[e.c].id == id
  }

  ghost function Consumptions(s: State, es: seq<Event>, id: TokenId): nat
    requires ValidRun(s, es)
    decreases |es|
  {
    if es == [] then 0 else One(Consumes(s, es[0], id)) + Consumptions(Apply(s, es[0]), es[1..], id)
  }

  ghost function Successors(s: State, es: seq<Event>, id: TokenId): nat
    requires ValidRun(s, es)
    decreases |es|
  {
    if es == [] then 0 else One(Succeeds(s, es[0], id)) + Successors(Apply(s, es[0]), es[1..], id)
  }

  lemma ConsumptionStep(s: State, e: Event, id: TokenId)
    requires Inv(s) && Enabled(s, e)
    ensures One(Consumed(s, id)) + One(Consumes(s, e, id)) == One(Consumed(Apply(s, e), id))
  {
    if e.Consume? || e.Insert? || e.Reread? { assert CallOk(s.now, s.rows, s.parent, s.calls[e.c]); }
  }

  lemma SuccessorStep(s: State, e: Event, id: TokenId)
    requires Inv(s) && Enabled(s, e)
    ensures One(HasChild(s.parent, id)) + One(Succeeds(s, e, id)) == One(HasChild(Apply(s, e).parent, id))
  {
    if e.Insert? {
      assert CallOk(s.now, s.rows, s.parent, s.calls[e.c]);
      ChildAdded(s.parent, s.nextId, s.calls[e.c].id, id);
    }
  }

  /** In every run a token is consumed at most once and gets at most one successor. */
  lemma {:induction false} ConsumedOnceReplacedOnce(s: State, es: seq<Event>, id: TokenId)
    requires Inv(s) && ValidRun(s, es)
    ensures One(Consumed(s, id)) + Consumptions(s, es, id) == One(Consumed(Run(s, es), id))
    ensures One(HasChild(s.parent, id)) + Successors(s, es, id) == One(HasChild(Run(s, es).parent, id))
    ensures Consumptions(s, es, id) <= 1 && Successors(s, es, id) <= 1
    decreases |es|
  {
    if es != [] {
      StepPreservesInv(s, es[0]);
      ConsumptionStep(s, es[0], id);
      SuccessorStep(s, es[0], id);
      ConsumedOnceReplacedOnce(Apply(s, es[0]), es[1..], id);
    }
  }

  /** A successor keeps account and family, and only a consumed token has one. */
  lemma SuccessorKeepsFamily(s: State, es: seq<Event>, k: TokenId)
    requires Inv(s) && ValidRun(s, es) && k in Run(s, es).parent
    ensures var t := Run(s, es);
            && k in t.rows && t.parent[k] in t.rows
            && t.rows[k].user == t.rows[t.parent[k]].user && t.rows[k].family == t.rows[t.parent[k]].family
            && Consumed(t, t.parent[k])
  {
    RunPreservesInv(s, es);
  }

  // ----- how a presented token is classified ------------------------------

  /** At the end of a call: a token consumed before the call was read is Reuse; one revoked while
      unconsumed is Invalid; Invalid at a time before expiry means revoked and never consumed, so a call that lost the
      race for a token is not Invalid even after the family is revoked; Reuse means somebody consumed it before it
      expired. */
  lemma Classification(s: State, es: seq<Event>, c: nat)
    requires Inv(s) && ValidRun(s, es)
    requires c in Run(s, es).calls && Run(s, es).calls[c].Rotation? && Run(s, es).calls[c].phase.Done?
    ensures var t := Run(s, es); var r := t.calls[c]; var o := r.phase.outcome;
            && r.id in t.rows
            && (r.snap.consumedAt.Some? ==> o == Reuse)
            && (r.snap.consumedAt.None? && r.snap.revokedAt.Some? ==> o == Invalid)
            && (o == Reuse ==> Consumed(t, r.id) && t.rows[r.id].consumedAt.value < t.rows[r.id].expiresAt)
            && (o == Invalid ==>
                  r.snap.consumedAt.None?
                  && ((t.rows[r.id].revokedAt.Some? && !Consumed(t, r.id)) || t.rows[r.id].expiresAt <= r.at))
            && (o.Rotated? || o == UnknownUser ==> Consumable(r.snap, r.at) && t.rows[r.id].consumedAt == Some(r.at))
  {
    RunPreservesInv(s, es);
    var t := Run(s, es);
    assert CallOk(t.now, t.rows, t.parent, t.calls[c]);
  }

  /** Of all calls that ever present one token at most one rotates it. */
  lemma OneRotationPerToken(s: State, es: seq<Event>, c: nat, d: nat)
    requires Inv(s) && ValidRun(s, es)
    requires c in Run(s, es).calls && d in Run(s, es).calls
    requires Holds(Run(s, es).calls[c]) && Holds(Run(s, es).calls[d])
    requires Run(s, es).calls[c].id == Run(s, es).calls[d].id
    ensures c == d
  {
    RunPreservesInv(s, es);
  }

  // ----- the shape of one step --------------------------------------------

  predicate Live(rows: Rows, id: TokenId, f: FamilyId) {
    id in rows && rows[id].family == f && rows[id].consumedAt.None? && rows[id].revokedAt.None?
  }

  ghost predicate RowsGrow(rows: Rows, rows': Rows) {
    forall id :: id in rows ==> id in rows' && Later(rows[id], rows'[id])
  }

  /** A row appears only in a fresh family or as the successor of a winner's token. */
  ghost predicate NewRowsOf(s: State, e: Event, t: State) {
    forall id :: id in t.rows && id !in s.rows ==>
      || (e.Login? && FreshFamily(s.rows, t.rows[id].family))
      || (e.Insert? && Winner(s.calls, e.c, t.rows[id].family) && id in t.parent && s.calls[e.c].id < id
          && t.parent[id] == s.calls[e.c].id)
  }

  /** A call becomes a winner only by consuming a live token. */
  ghost predicate NewWinnersOf(s: State, t: State) {
    forall c, f :: Winner(t.calls, c, f) ==>
      && c in s.calls && s.calls[c].Rotation? && t.calls[c].id == s.calls[c].id
      && (Winner(s.calls, c, f) || Live(s.rows, s.calls[c].id, f))
  }

  ghost predicate ParentsGrow(parent: map<TokenId, TokenId>, parent': map<TokenId, TokenId>) {
    forall k :: k in parent ==> k in parent' && parent'[k] == parent[k]
  }

  lemma StepRows(s: State, e: Event)
    requires RowsOk(s.rows, s.nextId) && Enabled(s, e)
    ensures RowsGrow(s.rows, Apply(s, e).rows)
  {
  }

  lemma StepNewRows(s: State, e: Event)
    requires RowsOk(s.rows, s.nextId) && CallsOk(s) && Enabled(s, e)
    ensures NewRowsOf(s, e, Apply(s, e))
  {
    if e.Insert? { assert CallOk(s.now, s.rows, s.parent, s.calls[e.c]); }
  }

  lemma StepWinners(s: State, e: Event)
    requires CallsOk(s) && Enabled(s, e)
    ensures NewWinnersOf(s, Apply(s, e))
  {
    if e.Consume? { assert CallOk(s.now, s.rows, s.parent, s.calls[e.c]); }
  }

  lemma StepParents(s: State, e: Event)
    requires RowsOk(s.rows, s.nextId) && ChainOk(s.rows, s.parent) && Enabled(s, e)
    ensures ParentsGrow(s.parent, Apply(s, e).parent)
  {
    hide Apply; hide Enabled; hide ChainOk; hide RowsOk;
    if e.Insert? { InsertParents(s, e.c, e.raw); } else { OnlyInsertParents(s, e); }
  }

  lemma InsertParents(s: State, c: nat, raw: string)
    requires RowsOk(s.rows, s.nextId) && ChainOk(s.rows, s.parent) && Enabled(s, Insert(c, raw))
    ensures ParentsGrow(s.parent, Apply(s, Insert(c, raw)).parent)
  {
    NextIsNew(s.rows, s.nextId, s.parent);
    hide ChainOk; hide RowsOk; hide FreshRaw;
    assert Apply(s, Insert(c, raw)).parent == s.parent[s.nextId := s.calls[c].id];
  }

  lemma NextIsNew(rows: Rows, next: TokenId, parent: map<TokenId, TokenId>)
    requires RowsOk(rows, next) && ChainOk(rows, parent)
    ensures next !in parent
  {
  }

  lemma OnlyInsertParents(s: State, e: Event)
    requires Enabled(s, e) && !e.Insert?
    ensures Apply(s, e).parent == s.parent
  {
  }

  // ----- when tokens expire -----------------------------------------------

  lemma NewRow(s: State, e: Event, id: TokenId)
    requires Inv(s) && Enabled(s, e) && id in Apply(s, e).rows && id !in s.rows
    ensures (e.Login? && Apply(s, e).rows[id].expiresAt == e.at + s.ttl)
            || (e.Insert? && Apply(s, e).rows[id].expiresAt == s.calls[e.c].phase.issuedAt + s.ttl)
  {
    hide Inv; hide Consumable;
  }

  lemma {:induction false} ExpiryFixed(s: State, es: seq<Event>, id: TokenId)
    requires Inv(s) && ValidRun(s, es) && id in s.rows
    ensures id in Run(s, es).rows && Run(s, es).rows[id].expiresAt == s.rows[id].expiresAt
    decreases |es|
  {
    if es != [] {
      StepPreservesInv(s, es[0]);
      StepRows(s, es[0]);
      hide Inv; hide Apply; hide Enabled;
      ExpiryFixed(Apply(s, es[0]), es[1..], id);
    }
  }

  /** In every run a token expires the time to live after its issue, whatever happens later: after the login that started
      its family, or after the rotating call found the account. */
  lemma ExpiryOverRuns(s: State, e: Event, es: seq<Event>, id: TokenId)
    requires Inv(s) && Enabled(s, e) && ValidRun(Apply(s, e), es) && id in Apply(s, e).rows && id !in s.rows
    ensures id in Run(Apply(s, e), es).rows
    ensures (e.Login? && Run(Apply(s, e), es).rows[id].expiresAt == e.at + s.ttl)
            || (e.Insert? && Run(Apply(s, e), es).rows[id].expiresAt == s.calls[e.c].phase.issuedAt + s.ttl)
  {
    StepPreservesInv(s, e);
    NewRow(s, e, id);
    ExpiryFixed(Apply(s, e), es, id);
    hide Inv; hide Apply; hide Run; hide ValidRun;
  }

  // ----- a revoked family stays dead --------------------------------------

  ghost predicate AllRevoked(s: State, f: FamilyId) {
    forall id :: id in s.rows && s.rows[id].family == f ==> s.rows[id].revokedAt.Some?
  }

  ghost predicate Dead(s: State, f: FamilyId) {
    && !FreshFamily(s.rows, f)
    && AllRevoked(s, f)
    && (forall c :: !Winner(s.calls, c, f))
  }

  ghost function FamilyIds(s: State, f: FamilyId): set<TokenId> {
    set id | id in s.rows && s.rows[id].family == f
  }

  ghost function RotatedCalls(s: State, f: FamilyId): set<nat> {
    set c | c in s.calls && s.calls[c].Rotation? && s.calls[c].snap.family == f
            && s.calls[c].phase.Done? && s.calls[c].phase.outcome.Rotated?
  }

  lemma DeadShape(s: State, e: Event, t: State, f: FamilyId)
    requires Dead(s, f) && RowsGrow(s.rows, t.rows) && NewRowsOf(s, e, t) && NewWinnersOf(s, t)
    ensures Dead(t, f)
    ensures FamilyIds(t, f) == FamilyIds(s, f)
  {
    var w :| w in s.rows && s.rows[w].family == f;
    assert w in t.rows && t.rows[w].family == f;
    forall id | id in t.rows && t.rows[id].family == f
      ensures id in s.rows && s.rows[id].family == f && t.rows[id].revokedAt.Some?
    {
      assert id in s.rows;
      assert Later(s.rows[id], t.rows[id]);
    }
    forall id | id in s.rows && s.rows[id].family == f ensures id in t.rows && t.rows[id].family == f {
      assert Later(s.rows[id], t.rows[id]);
    }
    forall c ensures !Winner(t.calls, c, f) { assert !Winner(s.calls, c, f); }
  }

  lemma DeadRotations(s: State, e: Event, f: FamilyId)
    requires Enabled(s, e) && forall c :: !Winner(s.calls, c, f)
    ensures RotatedCalls(Apply(s, e), f) == RotatedCalls(s, f)
  {
    if e.Insert? { assert !Winner(s.calls, e.c, f); }
    if e.LookupUser? { assert !Winner(s.calls, e.c, f); }
    var t := Apply(s, e);
    assert forall c :: c in RotatedCalls(t, f) <==> c in RotatedCalls(s, f);
  }

  lemma DeadStep(s: State, e: Event, f: FamilyId)
    requires Inv(s) && Enabled(s, e) && Dead(s, f)
    ensures Dead(Apply(s, e), f)
    ensures FamilyIds(Apply(s, e), f) == FamilyIds(s, f)
    ensures RotatedCalls(Apply(s, e), f) == RotatedCalls(s, f)
  {
    StepRows(s, e);
    StepNewRows(s, e);
    StepWinners(s, e);
    DeadShape(s, e, Apply(s, e), f);
    DeadRotations(s, e, f);
  }

  /** Once dead, a family never gets another token and no rotation of it ever succeeds. */
  lemma {:induction false} DeadForever(s: State, es: seq<Event>, f: FamilyId)
    requires Inv(s) && ValidRun(s, es) && Dead(s, f)
    ensures Dead(Run(s, es), f)
    ensures FamilyIds(Run(s, es), f) == FamilyIds(s, f)
    ensures RotatedCalls(Run(s, es), f) == RotatedCalls(s, f)
    decreases |es|
  {
    if es != [] {
      StepPreservesInv(s, es[0]);
      DeadStep(s, es[0], f);
      DeadForever(Apply(s, es[0]), es[1..], f);
    }
  }

  /** The statements that revoke all of family `f`: a reuse, a logout, or a password change
      or removal of the account that owns it. */
  ghost predicate RevokesFamily(s: State, e: Event, f: FamilyId)
    requires Enabled(s, e)
  {
    || (e.RevokeReused? && s.calls[e.c].snap.family == f)
    || (e.LogoutRevoke? && s.calls[e.c].family == f)
    || (e.RevokeUser? && forall id :: id in s.rows && s.rows[id].family == f ==> s.rows[id].user == e.user)
  }

  lemma RevokedRows(s: State, e: Event, f: FamilyId)
    requires Enabled(s, e) && RevokesFamily(s, e, f)
    ensures Apply(s, e).rows.Keys == s.rows.Keys
    ensures forall id :: id in s.rows ==> Apply(s, e).rows[id].family == s.rows[id].family
    ensures AllRevoked(Apply(s, e), f)
    ensures forall c :: Winner(Apply(s, e).calls, c, f) <==> Winner(s.calls, c, f)
  {
  }

  /** In every continuation: no further token of the family, no further successful rotation of one. */
  ghost predicate NothingMore(t: State, f: FamilyId) {
    forall es :: ValidRun(t, es) ==>
      FamilyIds(Run(t, es), f) == FamilyIds(t, f) && RotatedCalls(Run(t, es), f) == RotatedCalls(t, f)
  }

  /** A raw token longer than every stored one. */
  lemma UnusedRaw(rows: Rows) returns (raw: string)
    ensures FreshRaw(rows, raw)
  {
    raw := "";
    var left := rows.Keys;
    while left != {}
      invariant left <= rows.Keys && forall id :: id in rows && id !in left ==> |rows[id].digest.raw| < |raw|
      decreases |left|
    {
      var id :| id in left;
      raw := raw + rows[id].digest.raw + "x";
      left := left - {id};
    }
  }

  lemma InsertAdds(s: State, c: nat, raw: string, f: FamilyId)
    requires RowsOk(s.rows, s.nextId) && Enabled(s, Insert(c, raw)) && s.calls[c].snap.family == f
    ensures s.nextId in FamilyIds(Apply(s, Insert(c, raw)), f) && s.nextId !in FamilyIds(s, f)
    ensures Run(s, [Insert(c, raw)]) == Apply(s, Insert(c, raw)) && ValidRun(s, [Insert(c, raw)])
  {
    var t := Apply(s, Insert(c, raw));
    assert ValidRun(t, []) && Run(t, []) == t;
    PrependStep(s, Insert(c, raw), []);
    assert [Insert(c, raw)] + [] == [Insert(c, raw)];
  }

  /** A winner can always finish: once its account exists it inserts a token of its family. */
  lemma WinnerInserts(s: State, c: nat, f: FamilyId) returns (es: seq<Event>)
    requires RowsOk(s.rows, s.nextId) && CallsOk(s) && Winner(s.calls, c, f)
    ensures ValidRun(s, es) && s.nextId in FamilyIds(Run(s, es), f) && s.nextId !in FamilyIds(s, f)
  {
    var raw := UnusedRaw(s.rows);
    var user := s.calls[c].snap.user;
    assert CallOk(s.now, s.rows, s.parent, s.calls[c]);
    if s.calls[c].phase.Won? {
      var s1 := Apply(s, SetUsers({user}));
      var s2 := Apply(s1, LookupUser(c));
      InsertAdds(s2, c, raw, f);
      hide FamilyIds; hide FreshRaw;
      es := [Insert(c, raw)];
      PrependStep(s1, LookupUser(c), es);
      es := [LookupUser(c)] + es;
      PrependStep(s, SetUsers({user}), es);
      es := [SetUsers({user})] + es;
      assert s2.rows == s.rows;
      SameRowsSameFamily(s2, s, f);
    } else {
      InsertAdds(s, c, raw, f);
      es := [Insert(c, raw)];
    }
  }

  lemma SameRowsSameFamily(s: State, t: State, f: FamilyId)
    requires s.rows == t.rows
    ensures FamilyIds(s, f) == FamilyIds(t, f)
  {
  }

  lemma WinnerGoesOn(t: State, c: nat, f: FamilyId)
    requires RowsOk(t.rows, t.nextId) && CallsOk(t) && Winner(t.calls, c, f)
    ensures !NothingMore(t, f)
  {
    hide RowsOk; hide CallsOk; hide Winner; hide FamilyIds; hide RotatedCalls;
    var es := WinnerInserts(t, c, f);
    assert FamilyIds(Run(t, es), f) != FamilyIds(t, f);
  }

  lemma DeadMeansNothingMore(t: State, f: FamilyId)
    requires Inv(t) && Dead(t, f)
    ensures NothingMore(t, f)
  {
    hide Inv; hide Dead; hide FamilyIds; hide RotatedCalls;
    forall es | ValidRun(t, es)
      ensures FamilyIds(Run(t, es), f) == FamilyIds(t, f) && RotatedCalls(Run(t, es), f) == RotatedCalls(t, f)
    {
      DeadForever(t, es, f);
    }
  }

  /** A revoke kills the family in every continuation if and only if no rotation of it stands between its
      conditional update and its insert. */
  lemma RevokeKillsIff(s: State, e: Event, f: FamilyId)
    requires Inv(s) && Enabled(s, e) && RevokesFamily(s, e, f) && !FreshFamily(s.rows, f)
    ensures AllRevoked(Apply(s, e), f)
    ensures NothingMore(Apply(s, e), f) <==> forall c :: !Winner(s.calls, c, f)
  {
    var t := Apply(s, e);
    RevokedRows(s, e, f);
    StepPreservesInv(s, e);
    var w :| w in s.rows && s.rows[w].family == f;
    assert t.rows[w].family == f;
    hide RowsOk; hide CallsOk; hide ChainOk; hide TipOk; hide Apply; hide Enabled; hide NothingMore; hide AllRevoked;
    if c :| Winner(s.calls, c, f) {
      WinnerGoesOn(t, c, f);
    } else {
      DeadMeansNothingMore(t, f);
    }
  }

  // ----- the residual window ----------------------------------------------

  predicate Descends(parent: map<TokenId, TokenId>, id: TokenId, r: TokenId)
    decreases id
  {
    id in parent && parent[id] < id && (parent[id] == r || Descends(parent, parent[id], r))
  }

  lemma {:induction false} DescendsGrows(parent: map<TokenId, TokenId>, parent': map<TokenId, TokenId>, id: TokenId, r: TokenId)
    requires Descends(parent, id, r)
    requires forall k :: k in parent ==> k in parent' && parent'[k] == parent[k]
    ensures Descends(parent', id, r)
    decreases id
  {
    if parent[id] != r { DescendsGrows(parent, parent', parent[id], r); }
  }

  /** Everything still usable in `f` comes from the successor of token `r`. */
  ghost predicate Residual(s: State, f: FamilyId, r: TokenId) {
    && r in s.rows && s.rows[r].family == f
    && (forall id :: id in s.rows && s.rows[id].family == f && s.rows[id].revokedAt.None? ==> Descends(s.parent, id, r))
    && (forall c :: Winner(s.calls, c, f) ==> s.calls[c].id == r || Descends(s.parent, s.calls[c].id, r))
  }

  lemma ResidualShape(s: State, e: Event, t: State, f: FamilyId, r: TokenId)
    requires Residual(s, f, r) && RowsGrow(s.rows, t.rows) && NewRowsOf(s, e, t) && NewWinnersOf(s, t)
    requires ParentsGrow(s.parent, t.parent)
    ensures Residual(t, f, r)
  {
    assert Later(s.rows[r], t.rows[r]);
    forall id | id in t.rows && t.rows[id].family == f && t.rows[id].revokedAt.None?
      ensures Descends(t.parent, id, r)
    {
      if id in s.rows {
        assert Later(s.rows[id], t.rows[id]);
        DescendsGrows(s.parent, t.parent, id, r);
      } else {
        assert e.Insert? && Winner(s.calls, e.c, f);
        if s.calls[e.c].id != r { DescendsGrows(s.parent, t.parent, s.calls[e.c].id, r); }
      }
    }
    forall c | Winner(t.calls, c, f) ensures t.calls[c].id == r || Descends(t.parent, t.calls[c].id, r) {
      if t.calls[c].id != r { DescendsGrows(s.parent, t.parent, s.calls[c].id, r); }
    }
  }

  lemma {:induction false} ResidualForever(s: State, es: seq<Event>, f: FamilyId, r: TokenId)
    requires Inv(s) && ValidRun(s, es) && Residual(s, f, r)
    ensures Residual(Run(s, es), f, r)
    decreases |es|
  {
    if es != [] {
      StepPreservesInv(s, es[0]);
      StepRows(s, es[0]);
      StepNewRows(s, es[0]);
      StepWinners(s, es[0]);
      StepParents(s, es[0]);
      ResidualShape(s, es[0], Apply(s, es[0]), f, r);
      ResidualForever(Apply(s, es[0]), es[1..], f, r);
    }
  }

  /** A revoke that races a winner on token `r`: from then on, in every run, at most one token of the
      family is live, and it is the one successor of `r` or a descendant of it. */
  lemma RevokeLeavesOnlyTheWinner(s: State, e: Event, f: FamilyId, c: nat, es: seq<Event>)
    requires Inv(s) && Enabled(s, e) && RevokesFamily(s, e, f) && Winner(s.calls, c, f)
    requires ValidRun(Apply(s, e), es)
    ensures var t := Run(Apply(s, e), es);
            && (forall id :: Live(t.rows, id, f) ==> Descends(t.parent, id, s.calls[c].id))
            && (forall a, b :: Live(t.rows, a, f) && Live(t.rows, b, f) ==> a == b)
            && (forall a, b :: (a in t.parent && b in t.parent && a != b)
                               ==> !(t.parent[a] == s.calls[c].id && t.parent[b] == s.calls[c].id))
  {
    var m := Apply(s, e);
    RevokeMakesResidual(s, e, f, c);
    StepPreservesInv(s, e);
    ResidualForever(m, es, f, s.calls[c].id);
    RunPreservesInv(m, es);
    var t := Run(m, es);
    assert forall id :: Live(t.rows, id, f) ==> Open(t.rows, id, f);
  }

  lemma RevokeMakesResidual(s: State, e: Event, f: FamilyId, c: nat)
    requires CallsOk(s) && TipOk(s.rows, s.calls) && Enabled(s, e) && RevokesFamily(s, e, f) && Winner(s.calls, c, f)
    ensures Residual(Apply(s, e), f, s.calls[c].id)
  {
    var m := Apply(s, e);
    assert CallOk(s.now, s.rows, s.parent, s.calls[c]);
    RevokedRows(s, e, f);
    forall d | Winner(m.calls, d, f) ensures m.calls[d].id == s.calls[c].id {
      assert Winner(s.calls, d, f);
    }
  }

  lemma PrependStep(s: State, e: Event, es: seq<Event>)
    requires Enabled(s, e) && ValidRun(Apply(s, e), es)
    ensures ValidRun(s, [e] + es) && Run(s, [e] + es) == Run(Apply(s, e), es)
  {
    assert ([e] + es)[1..] == es;
  }

  function Racing(t: Token, p1: Phase, p2: Phase): State {
    State(0, 1000, 1, map[0 := t], {7}, map[1 := Rotation(0, FirstToken(), 0, p1), 2 := Rotation(0, FirstToken(), 0, p2)], map[])
  }

  function FirstToken(): Token { NewToken(7, "", 0, 0, 1000) }

  /** One event of the concrete race and the state it leads to. */
  ghost predicate Leads(s: State, e: Event, t: State) {
    Enabled(s, e) && Apply(s, e) == t
  }

  lemma RaceConsumes()
    ensures var used := FirstToken().(consumedAt := Some(0));
            && Leads(Racing(FirstToken(), Consuming, Consuming), Consume(1), Racing(used, Won, Consuming))
            && Leads(Racing(used, Won, Consuming), Consume(2), Racing(used, Won, Lost))
            && Leads(Racing(used, Won, Lost), Reread(2), Racing(used, Won, Revoking))
  {
  }

  lemma RaceRevokes()
    ensures var used := FirstToken().(consumedAt := Some(0));
            && Leads(Racing(used, Won, Revoking), LookupUser(1), Racing(used, Issuing(0), Revoking))
            && Leads(Racing(used, Issuing(0), Revoking), RevokeReused(2),
                     Racing(used.(revokedAt := Some(0)), Issuing(0), Done(Reuse)))
  {
  }

  lemma RaceInserts() returns (t: State)
    ensures Leads(Racing(FirstToken().(consumedAt := Some(0), revokedAt := Some(0)), Issuing(0), Done(Reuse)), Insert(1, "B"), t)
    ensures 2 in t.calls && t.calls[2] == Rotation(0, FirstToken(), 0, Done(Reuse)) && Live(t.rows, 1, 0)
  {
    t := Apply(Racing(FirstToken().(consumedAt := Some(0), revokedAt := Some(0)), Issuing(0), Done(Reuse)), Insert(1, "B"));
  }

  /** From two calls that both hold the unconsumed row to a Reuse and a live successor. */
  lemma RaceTail() returns (es: seq<Event>)
    ensures var s := Racing(FirstToken(), Consuming, Consuming);
            && ValidRun(s, es)
            && 2 in Run(s, es).calls && Run(s, es).calls[2] == Rotation(0, FirstToken(), 0, Done(Reuse))
            && Live(Run(s, es).rows, 1, 0)
  {
    RaceConsumes();
    RaceRevokes();
    var t := RaceInserts();
    var used := FirstToken().(consumedAt := Some(0));
    assert Run(t, []) == t;
    es := [];
    PrependStep(Racing(used.(revokedAt := Some(0)), Issuing(0), Done(Reuse)), Insert(1, "B"), es);
    es := [Insert(1, "B")] + es;
    PrependStep(Racing(used, Issuing(0), Revoking), RevokeReused(2), es);
    es := [RevokeReused(2)] + es;
    PrependStep(Racing(used, Won, Revoking), LookupUser(1), es);
    es := [LookupUser(1)] + es;
    PrependStep(Racing(used, Won, Lost), Reread(2), es);
    es := [Reread(2)] + es;
    PrependStep(Racing(used, Won, Consuming), Consume(2), es);
    es := [Consume(2)] + es;
    PrependStep(Racing(FirstToken(), Consuming, Consuming), Consume(1), es);
    es := [Consume(1)] + es;
  }

  /** The documented window is reachable: a run from the empty table after which call 2 ended in
      Reuse while a token of the same family is live. */
  lemma ResidualWindowIsReachable() returns (s: State, es: seq<Event>)
    ensures Initial(s) && ValidRun(s, es)
    ensures var t := Run(s, es);
            && 2 in t.calls && t.calls[2].Rotation? && t.calls[2].phase == Done(Reuse)
            && Live(t.rows, 1, t.calls[2].snap.family)
  {
    es := RaceTail();
    s := State(0, 1000, 0, map[], {7}, map[], map[]);
    var s1 := Apply(s, Login(7, "", 0, 0));
    assert s1 == State(0, 1000, 1, map[0 := FirstToken()], {7}, map[], map[]);
    var s2 := Apply(s1, Find(1, "", Some(0)));
    var s3 := Apply(s2, Find(2, "", Some(0)));
    assert s3 == Racing(FirstToken(), Found, Found);
    var s4 := Apply(s3, ReadClock(1));
    var s5 := Apply(s4, ReadClock(2));
    assert s5 == Racing(FirstToken(), Consuming, Consuming);
    PrependStep(s4, ReadClock(2), es);
    es := [ReadClock(2)] + es;
    PrependStep(s3, ReadClock(1), es);
    es := [ReadClock(1)] + es;
    PrependStep(s2, Find(2, "", Some(0)), es);
    es := [Find(2, "", Some(0))] + es;
    PrependStep(s1, Find(1, "", Some(0)), es);
    es := [Find(1, "", Some(0))] + es;
    PrependStep(s, Login(7, "", 0, 0), es);
    es := [Login(7, "", 0, 0)] + es;
  }
}
