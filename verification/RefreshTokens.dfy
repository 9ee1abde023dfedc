/** Refresh-token rotation (api/src/auth/refreshToken.ts) as an interleaved protocol.
    Every Prisma call is one atomic step; between two awaits of one call any
    other call may run.  A rotation is a record that remembers the await it
    stands at, so a run is an arbitrary interleaving of any number of
    rotations, logouts, logins, per-user revocations and clock ticks. */
module RefreshTokens {
  import opened Wrappers

  type Time = int
  type UserId = int
  type FamilyId = nat
  type TokenId = nat

  /** SHA-256 as a free constructor: injective and never computed. */
  datatype Digest = Sha256(raw: string)

  datatype Token = Token(user: UserId, digest: Digest, family: FamilyId, expiresAt: Time,
                         consumedAt: Option<Time>, revokedAt: Option<Time>)

  type Rows = map<TokenId, Token>

  // ----- the single Prisma statements -------------------------------------

  /** The where clause of the conditional consume. */
  predicate Consumable(t: Token, at: Time) {
    t.consumedAt.None? && t.revokedAt.None? && t.expiresAt > at
  }

  function ConsumeRow(rows: Rows, id: TokenId, at: Time): Rows
    requires id in rows
  {
    if Consumable(rows[id], at) then rows[id := rows[id].(consumedAt := Some(at))] else rows
  }

  function RevokeFamilyRows(rows: Rows, family: FamilyId, at: Time): Rows {
    map id | id in rows :: if rows[id].family == family then rows[id].(revokedAt := Some(at)) else rows[id]
  }

  /** Unlike the family form this one leaves an earlier `revoked_at` alone. */
  function RevokeUserRows(rows: Rows, user: UserId, at: Time): Rows {
    map id | id in rows ::
      if rows[id].user == user && rows[id].revokedAt.None? then rows[id].(revokedAt := Some(at)) else rows[id]
  }

  function NewToken(user: UserId, raw: string, family: FamilyId, at: Time, ttl: nat): Token {
    Token(user, Sha256(raw), family, at + ttl, None, None)
  }

  predicate FreshRaw(rows: Rows, raw: string) {
    forall id :: id in rows ==> rows[id].digest != Sha256(raw)
  }

  predicate FreshFamily(rows: Rows, family: FamilyId) {
    forall id :: id in rows ==> rows[id].family != family
  }

  // ----- the protocol state -----------------------------------------------

  datatype Outcome = Rotated(next: TokenId) | UnknownUser | Invalid | Reuse

  /** The await a rotation stands at. */
  datatype Phase =
    | Found                       // row read, clock not read yet
    | Consuming                   // clock read, conditional update not applied yet
    | Lost                        // the update matched no row
    | Revoking                    // the re-read showed a consumed row
    | Won                         // the update matched
    | Issuing(issuedAt: Time)     // account found, insert not applied yet
    | Done(outcome: Outcome)

  datatype Call =
    | NotFound
    | Rotation(id: TokenId, snap: Token, at: Time, phase: Phase)
    | Logout(family: FamilyId)
    | LoggedOut

  /** `parent` is history, not a column: it maps each rotated token to the one it replaced. */
  datatype State = State(now: Time, ttl: nat, nextId: TokenId, rows: Rows, users: set<UserId>,
                         calls: map<nat, Call>, parent: map<TokenId, TokenId>)

  datatype Event =
    | Tick(t: Time)
    | SetUsers(users: set<UserId>)
    | Login(user: UserId, raw: string, family: FamilyId, at: Time)
    | Find(c: nat, raw: string, hit: Option<TokenId>)
    | ReadClock(c: nat)
    | Consume(c: nat)
    | Reread(c: nat)
    | RevokeReused(c: nat)
    | LookupUser(c: nat)
    | Insert(c: nat, raw: string)
    | LogoutFind(c: nat, raw: string, hit: Option<TokenId>)
    | LogoutRevoke(c: nat)
    | RevokeUser(user: UserId)

  predicate At(s: State, c: nat, p: Phase) {
    c in s.calls && s.calls[c].Rotation? && s.calls[c].phase == p && s.calls[c].id in s.rows
  }

  predicate Hits(s: State, raw: string, hit: Option<TokenId>) {
    match hit
    case Some(id) => id in s.rows && s.rows[id].digest == Sha256(raw)
    case None => FreshRaw(s.rows, raw)
  }

  predicate Enabled(s: State, e: Event) {
    match e
    case Tick(t) => s.now <= t
    case SetUsers(_) => true
    case Login(_, raw, family, at) => at <= s.now && FreshRaw(s.rows, raw) && FreshFamily(s.rows, family)
    case Find(c, raw, hit) => c !in s.calls && Hits(s, raw, hit)
    case ReadClock(c) => At(s, c, Found)
    case Consume(c) => At(s, c, Consuming)
    case Reread(c) => At(s, c, Lost)
    case RevokeReused(c) => At(s, c, Revoking)
    case LookupUser(c) => At(s, c, Won)
    case Insert(c, raw) =>
      && c in s.calls && s.calls[c].Rotation? && s.calls[c].phase.Issuing? && s.calls[c].id in s.rows
      && FreshRaw(s.rows, raw)
    case LogoutFind(c, raw, hit) => c !in s.calls && Hits(s, raw, hit)
    case LogoutRevoke(c) => c in s.calls && s.calls[c].Logout?
    case RevokeUser(_) => true
  }

  function SetPhase(s: State, c: nat, p: Phase): State
    requires c in s.calls && s.calls[c].Rotation?
  {
    s.(calls := s.calls[c := s.calls[c].(phase := p)])
  }

  function Apply(s: State, e: Event): State
    requires Enabled(s, e)
  {
    match e
    case Tick(t) => s.(now := t)
    case SetUsers(us) => s.(users := us)
    case Login(user, raw, family, at) =>
      s.(rows := s.rows[s.nextId := NewToken(user, raw, family, at, s.ttl)], nextId := s.nextId + 1)
    case Find(c, _, hit) =>
      s.(calls := s.calls[c := if hit.Some? then Rotation(hit.value, s.rows[hit.value], s.now, Found) else NotFound])
    case ReadClock(c) => s.(calls := s.calls[c := s.calls[c].(at := s.now, phase := Consuming)])
    case Consume(c) =>
      var r := s.calls[c];
      SetPhase(s, c, if Consumable(s.rows[r.id], r.at) then Won else Lost).(rows := ConsumeRow(s.rows, r.id, r.at))
    case Reread(c) =>
      SetPhase(s, c, if s.rows[s.calls[c].id].consumedAt.Some? then Revoking else Done(Invalid))
    case RevokeReused(c) =>
      SetPhase(s, c, Done(Reuse)).(rows := RevokeFamilyRows(s.rows, s.calls[c].snap.family, s.now))
    case LookupUser(c) =>
      SetPhase(s, c, if s.calls[c].snap.user in s.users then Issuing(s.now) else Done(UnknownUser))
    case Insert(c, raw) =>
      var r := s.calls[c];
      SetPhase(s, c, Done(Rotated(s.nextId))).(
        rows := s.rows[s.nextId := NewToken(r.snap.user, raw, r.snap.family, r.phase.issuedAt, s.ttl)],
        nextId := s.nextId + 1,
        parent := s.parent[s.nextId := r.id])
    case LogoutFind(c, _, hit) =>
      s.(calls := s.calls[c := if hit.Some? then Logout(s.rows[hit.value].family) else LoggedOut])
    case LogoutRevoke(c) =>
      s.(calls := s.calls[c := LoggedOut], rows := RevokeFamilyRows(s.rows, s.calls[c].family, s.now))
    case RevokeUser(user) => s.(rows := RevokeUserRows(s.rows, user, s.now))
  }

  ghost predicate ValidRun(s: State, es: seq<Event>)
    decreases |es|
  {
    es == [] || (Enabled(s, es[0]) && ValidRun(Apply(s, es[0]), es[1..]))
  }

  ghost function Run(s: State, es: seq<Event>): State
    requires ValidRun(s, es)
    decreases |es|
  {
    if es == [] then s else Run(Apply(s, es[0]), es[1..])
  }

  predicate Initial(s: State) {
    s.rows == map[] && s.calls == map[] && s.parent == map[]
  }

  // ----- the invariant ----------------------------------------------------

  /** `b` is a later version of row `a`. */
  predicate Later(a: Token, b: Token) {
    && a.user == b.user && a.digest == b.digest && a.family == b.family && a.expiresAt == b.expiresAt
    && (a.consumedAt.Some? ==> b.consumedAt == a.consumedAt)
    && (a.revokedAt.Some? ==> b.revokedAt.Some?)
    && (a.revokedAt.Some? && a.consumedAt.None? ==> b.consumedAt.None?)
  }

  predicate IsWinner(c: Call) {
    c.Rotation? && (c.phase.Won? || c.phase.Issuing?)
  }

  /** The calls whose conditional update matched, finished or not. */
  predicate Holds(c: Call) {
    IsWinner(c) || (c.Rotation? && c.phase.Done? && (c.phase.outcome.Rotated? || c.phase.outcome.UnknownUser?))
  }

  ghost predicate RowsOk(rows: Rows, nextId: TokenId) {
    && (forall id :: id in rows ==> id < nextId)
    && (forall a, b :: a in rows && b in rows && a != b ==> rows[a].digest != rows[b].digest)
    && (forall id :: id in rows && rows[id].consumedAt.Some? ==> rows[id].consumedAt.value < rows[id].expiresAt)
  }

  ghost predicate HasChild(parent: map<TokenId, TokenId>, id: TokenId) {
    exists k :: k in parent && parent[k] == id
  }

  ghost predicate CallOk(now: Time, rows: Rows, parent: map<TokenId, TokenId>, c: Call) {
    c.Rotation? ==>
      && c.id in rows
      && Later(c.snap, rows[c.id])
      && c.at <= now
      && (c.phase.Lost? ==> !Consumable(rows[c.id], c.at))
      && (c.phase.Revoking? ==> rows[c.id].consumedAt.Some?)
      && (Holds(c) ==> Consumable(c.snap, c.at) && rows[c.id].consumedAt == Some(c.at))
      && (IsWinner(c) || c.phase == Done(UnknownUser) ==> !HasChild(parent, c.id))
      && (c.phase.Done? && c.phase.outcome.Rotated? ==>
            c.phase.outcome.next in parent && parent[c.phase.outcome.next] == c.id)
      && (c.phase == Done(Reuse) ==> rows[c.id].consumedAt.Some?)
      && (c.phase == Done(Invalid) ==>
            c.snap.consumedAt.None?
            && ((rows[c.id].revokedAt.Some? && rows[c.id].consumedAt.None?) || rows[c.id].expiresAt <= c.at))
  }

  ghost predicate CallsOk(s: State) {
    && (forall c :: c in s.calls ==> CallOk(s.now, s.rows, s.parent, s.calls[c]))
    && (forall c, d :: c in s.calls && d in s.calls && c != d && Holds(s.calls[c]) && Holds(s.calls[d])
                       ==> s.calls[c].id != s.calls[d].id)
  }

  /** Each family is one chain: one root, at most one successor per token, and successors
      only of consumed tokens. */
  ghost predicate ChainOk(rows: Rows, parent: map<TokenId, TokenId>) {
    && (forall k :: k in parent ==>
          && k in rows && parent[k] in rows && parent[k] < k
          && rows[k].user == rows[parent[k]].user
          && rows[k].family == rows[parent[k]].family
          && rows[parent[k]].consumedAt.Some?)
    && (forall j, k :: j in parent && k in parent && j != k ==> parent[j] != parent[k])
    && (forall a, b :: a in rows && b in rows && a !in parent && b !in parent && a != b
                       ==> rows[a].family != rows[b].family)
  }

  predicate Open(rows: Rows, id: TokenId, family: FamilyId) {
    id in rows && rows[id].family == family && rows[id].consumedAt.None?
  }

  predicate Winner(calls: map<nat, Call>, c: nat, family: FamilyId) {
    c in calls && IsWinner(calls[c]) && calls[c].snap.family == family
  }

  /** The tip of a family is a single unconsumed token or a single winner, never both. */
  ghost predicate TipOk(rows: Rows, calls: map<nat, Call>) {
    && (forall f, a, b :: Open(rows, a, f) && Open(rows, b, f) ==> a == b)
    && (forall f, c, d :: Winner(calls, c, f) && Winner(calls, d, f) ==> c == d)
    && (forall f, a, c :: Open(rows, a, f) ==> !Winner(calls, c, f))
  }

  ghost predicate Inv(s: State) {
    RowsOk(s.rows, s.nextId) && CallsOk(s) && ChainOk(s.rows, s.parent) && TipOk(s.rows, s.calls)
  }

  // ----- preservation, one statement at a time ----------------------------

  lemma InitialInv(s: State)
    requires Initial(s)
    ensures Inv(s)
  {
  }

  /** What a call knows survives any later version of its row. */
  lemma CallOkLater(now: Time, now': Time, rows: Rows, rows': Rows,
                    parent: map<TokenId, TokenId>, parent': map<TokenId, TokenId>, c: Call)
    requires c.Rotation? && CallOk(now, rows, parent, c)
    requires now <= now' && c.id in rows' && Later(rows[c.id], rows'[c.id])
    requires forall k :: k in parent ==> k in parent' && parent'[k] == parent[k]
    requires (IsWinner(c) || c.phase == Done(UnknownUser)) && HasChild(parent', c.id) ==> HasChild(parent, c.id)
    ensures CallOk(now', rows', parent', c)
  {
  }

  predicate OnlyRevoked(rows: Rows, rows': Rows) {
    && rows'.Keys == rows.Keys
    && forall id :: id in rows ==>
         && rows'[id].(revokedAt := rows[id].revokedAt) == rows[id]
         && (rows[id].revokedAt.Some? ==> rows'[id].revokedAt.Some?)
  }

  /** Statements that only revoke rows, move the clock or touch accounts. */
  lemma RevokePreservesInv(s: State, t: State)
    requires Inv(s)
    requires t == s.(rows := t.rows, now := t.now, users := t.users)
    requires s.now <= t.now && OnlyRevoked(s.rows, t.rows)
    ensures Inv(t)
  {
    assert RowsOk(t.rows, t.nextId) by {
      forall a, b | a in t.rows && b in t.rows && a != b ensures t.rows[a].digest != t.rows[b].digest {
        assert s.rows[a].digest != s.rows[b].digest;
      }
    }
    RevokePreservesCalls(s, t);
    RevokePreservesChain(s.rows, t.rows, s.parent);
    RevokePreservesTip(s.rows, t.rows, s.calls);
  }

  lemma RevokePreservesCalls(s: State, t: State)
    requires CallsOk(s)
    requires t == s.(rows := t.rows, now := t.now, users := t.users)
    requires s.now <= t.now && OnlyRevoked(s.rows, t.rows)
    ensures CallsOk(t)
  {
    forall c | c in t.calls && t.calls[c].Rotation? ensures CallOk(t.now, t.rows, t.parent, t.calls[c]) {
      assert CallOk(s.now, s.rows, s.parent, s.calls[c]);
      CallOkLater(s.now, t.now, s.rows, t.rows, s.parent, t.parent, s.calls[c]);
    }
  }

  lemma RevokePreservesChain(rows: Rows, rows': Rows, parent: map<TokenId, TokenId>)
    requires ChainOk(rows, parent) && OnlyRevoked(rows, rows')
    ensures ChainOk(rows', parent)
  {
    forall k | k in parent
      ensures && k in rows' && parent[k] in rows' && rows'[k].user == rows'[parent[k]].user
              && rows'[k].family == rows'[parent[k]].family && rows'[parent[k]].consumedAt.Some?
    {
      assert rows'[k].(revokedAt := rows[k].revokedAt) == rows[k];
      assert rows'[parent[k]].(revokedAt := rows[parent[k]].revokedAt) == rows[parent[k]];
    }
    forall a, b | a in rows' && b in rows' && a !in parent && b !in parent && a != b
      ensures rows'[a].family != rows'[b].family
    {
      assert rows[a].family != rows[b].family;
    }
  }

  lemma RevokePreservesTip(rows: Rows, rows': Rows, calls: map<nat, Call>)
    requires TipOk(rows, calls) && OnlyRevoked(rows, rows')
    ensures TipOk(rows', calls)
  {
    assert forall f, a :: Open(rows', a, f) ==> Open(rows, a, f);
  }

  lemma LoginPreservesInv(s: State, e: Event)
    requires Inv(s) && Enabled(s, e) && e.Login?
    ensures Inv(Apply(s, e))
  {
    var t := Apply(s, e);
    assert RowsOk(t.rows, t.nextId);
    forall c | c in t.calls && t.calls[c].Rotation? ensures CallOk(t.now, t.rows, t.parent, t.calls[c]) {
      assert CallOk(s.now, s.rows, s.parent, s.calls[c]);
      CallOkLater(s.now, t.now, s.rows, t.rows, s.parent, t.parent, s.calls[c]);
    }
    LoginPreservesChain(s.rows, s.parent, s.nextId, t.rows[s.nextId]);
    forall c ensures !Winner(s.calls, c, e.family) {
      assert c in s.calls ==> CallOk(s.now, s.rows, s.parent, s.calls[c]);
    }
    AddPreservesTip(s.rows, s.calls, s.nextId, t.rows[s.nextId]);
  }

  lemma LoginPreservesChain(rows: Rows, parent: map<TokenId, TokenId>, id: TokenId, t: Token)
    requires ChainOk(rows, parent) && id !in rows && FreshFamily(rows, t.family)
    ensures ChainOk(rows[id := t], parent)
  {
    var rows' := rows[id := t];
    forall k | k in parent
      ensures k in rows' && parent[k] in rows' && rows'[k] == rows[k] && rows'[parent[k]] == rows[parent[k]]
    {
    }
  }

  lemma AddPreservesTip(rows: Rows, calls: map<nat, Call>, id: TokenId, t: Token)
    requires TipOk(rows, calls) && id !in rows && t.consumedAt.None?
    requires forall a :: !Open(rows, a, t.family)
    requires forall c :: !Winner(calls, c, t.family)
    ensures TipOk(rows[id := t], calls)
  {
    var rows' := rows[id := t];
    assert forall f, a :: Open(rows', a, f) ==> (a == id && f == t.family) || (a != id && Open(rows, a, f));
  }

  /** Steps that only move one call, not into or out of the winners. */
  lemma CallStepPreservesInv(s: State, t: State, c: nat)
    requires Inv(s)
    requires c in t.calls && t == s.(calls := s.calls[c := t.calls[c]])
    requires CallOk(s.now, s.rows, s.parent, t.calls[c])
    requires Holds(t.calls[c]) ==> c in s.calls && Holds(s.calls[c]) && s.calls[c].id == t.calls[c].id
    requires IsWinner(t.calls[c]) ==> c in s.calls && IsWinner(s.calls[c]) && t.calls[c].snap == s.calls[c].snap
    ensures Inv(t)
  {
    assert CallsOk(t);
    assert forall f, d :: Winner(t.calls, d, f) ==> Winner(s.calls, d, f);
  }

  lemma ConsumePreservesInv(s: State, c: nat)
    requires Inv(s) && Enabled(s, Consume(c))
    ensures Inv(Apply(s, Consume(c)))
  {
    var t := Apply(s, Consume(c));
    var r := s.calls[c];
    assert CallOk(s.now, s.rows, s.parent, r);
    if !Consumable(s.rows[r.id], r.at) {
      assert t == s.(calls := s.calls[c := r.(phase := Lost)]);
      CallStepPreservesInv(s, t, c);
    } else {
      ConsumePreservesRows(s.rows, s.nextId, s.parent, r.id, r.at);
      ConsumePreservesCalls(s, t, c);
      ConsumePreservesTip(s, t, c);
    }
  }

  lemma ConsumePreservesRows(rows: Rows, nextId: TokenId, parent: map<TokenId, TokenId>, id: TokenId, at: Time)
    requires RowsOk(rows, nextId) && ChainOk(rows, parent) && id in rows && Consumable(rows[id], at)
    ensures RowsOk(ConsumeRow(rows, id, at), nextId)
    ensures ChainOk(ConsumeRow(rows, id, at), parent)
  {
    var rows' := ConsumeRow(rows, id, at);
    assert forall a :: a in rows ==> rows'[a].digest == rows[a].digest;
    SameFamiliesChain(rows, rows', parent);
    hide ChainOk;
  }

  lemma SameFamiliesChain(rows: Rows, rows': Rows, parent: map<TokenId, TokenId>)
    requires ChainOk(rows, parent) && rows'.Keys == rows.Keys
    requires forall a :: a in rows ==>
               && rows'[a].family == rows[a].family && rows'[a].user == rows[a].user
               && (rows[a].consumedAt.Some? ==> rows'[a].consumedAt.Some?)
    ensures ChainOk(rows', parent)
  {
  }

  lemma ConsumePreservesCalls(s: State, t: State, c: nat)
    requires CallsOk(s) && ChainOk(s.rows, s.parent) && Enabled(s, Consume(c)) && t == Apply(s, Consume(c))
    requires Consumable(s.rows[s.calls[c].id], s.calls[c].at)
    ensures CallsOk(t)
  {
    var r := s.calls[c];
    assert CallOk(s.now, s.rows, s.parent, r);
    forall d | d in t.calls && t.calls[d].Rotation? ensures CallOk(t.now, t.rows, t.parent, t.calls[d]) {
      if d != c {
        assert CallOk(s.now, s.rows, s.parent, s.calls[d]);
        CallOkLater(s.now, t.now, s.rows, t.rows, s.parent, t.parent, s.calls[d]);
      }
    }
    forall d | d in s.calls && Holds(s.calls[d]) ensures s.calls[d].id != r.id {
      assert CallOk(s.now, s.rows, s.parent, s.calls[d]);
    }
  }

  lemma ConsumePreservesTip(s: State, t: State, c: nat)
    requires CallsOk(s) && TipOk(s.rows, s.calls) && Enabled(s, Consume(c)) && t == Apply(s, Consume(c))
    requires Consumable(s.rows[s.calls[c].id], s.calls[c].at)
    ensures TipOk(t.rows, t.calls)
  {
    var r := s.calls[c];
    assert CallOk(s.now, s.rows, s.parent, r);
    assert Open(s.rows, r.id, r.snap.family);
    assert forall f, a :: Open(t.rows, a, f) ==> Open(s.rows, a, f) && a != r.id;
    assert forall f, d :: Winner(t.calls, d, f) ==> Winner(s.calls, d, f) || (d == c && f == r.snap.family);
  }

  lemma InsertPreservesInv(s: State, c: nat, raw: string)
    requires Inv(s) && Enabled(s, Insert(c, raw))
    ensures Inv(Apply(s, Insert(c, raw)))
  {
    var t := Apply(s, Insert(c, raw));
    var r := s.calls[c];
    assert CallOk(s.now, s.rows, s.parent, r);
    assert RowsOk(t.rows, t.nextId);
    InsertPreservesCalls(s, t, c, raw);
    InsertPreservesChain(s.rows, s.parent, s.nextId, r.id, t.rows[s.nextId]);
    var f0 := r.snap.family;
    assert Winner(s.calls, c, f0);
    assert forall f, d :: Winner(t.calls, d, f) ==> Winner(s.calls, d, f) && d != c;
    assert TipOk(s.rows, t.calls);
    AddPreservesTip(s.rows, t.calls, s.nextId, t.rows[s.nextId]);
  }

  lemma InsertPreservesCalls(s: State, t: State, c: nat, raw: string)
    requires CallsOk(s) && RowsOk(s.rows, s.nextId) && ChainOk(s.rows, s.parent)
    requires Enabled(s, Insert(c, raw)) && t == Apply(s, Insert(c, raw))
    ensures CallsOk(t)
  {
    forall d | d in t.calls ensures CallOk(t.now, t.rows, t.parent, t.calls[d]) {
      if d == c { InsertedCall(s, t, c, raw); } else { OtherCallKept(s, t, c, raw, d); }
    }
    hide CallOk; hide ChainOk; hide RowsOk;
    assert forall d :: d in t.calls && d != c ==> d in s.calls && t.calls[d] == s.calls[d];
  }

  lemma InsertedCall(s: State, t: State, c: nat, raw: string)
    requires CallsOk(s) && RowsOk(s.rows, s.nextId) && Enabled(s, Insert(c, raw)) && t == Apply(s, Insert(c, raw))
    ensures CallOk(t.now, t.rows, t.parent, t.calls[c])
  {
    assert CallOk(s.now, s.rows, s.parent, s.calls[c]);
    hide CallsOk;
  }

  lemma OtherCallKept(s: State, t: State, c: nat, raw: string, d: nat)
    requires CallsOk(s) && RowsOk(s.rows, s.nextId) && ChainOk(s.rows, s.parent)
    requires Enabled(s, Insert(c, raw)) && t == Apply(s, Insert(c, raw)) && d in t.calls && d != c
    ensures CallOk(t.now, t.rows, t.parent, t.calls[d])
  {
    assert CallOk(s.now, s.rows, s.parent, s.calls[d]) && CallOk(s.now, s.rows, s.parent, s.calls[c]);
    if s.calls[d].Rotation? {
      assert Holds(s.calls[d]) ==> s.calls[d].id != s.calls[c].id;
      assert s.nextId !in s.parent && s.nextId !in s.rows;
      ChildAdded(s.parent, s.nextId, s.calls[c].id, s.calls[d].id);
      CallOkLater(s.now, t.now, s.rows, t.rows, s.parent, t.parent, s.calls[d]);
    }
    hide CallsOk;
  }

  lemma ChildAdded(parent: map<TokenId, TokenId>, k: TokenId, p: TokenId, id: TokenId)
    requires k !in parent
    ensures HasChild(parent[k := p], id) <==> HasChild(parent, id) || id == p
  {
    var parent' := parent[k := p];
    assert k in parent' && parent'[k] == p;
    if HasChild(parent, id) {
      var j :| j in parent && parent[j] == id;
      assert j in parent' && parent'[j] == id;
    }
  }

  lemma InsertPreservesChain(rows: Rows, parent: map<TokenId, TokenId>, id: TokenId, p: TokenId, t: Token)
    requires ChainOk(rows, parent) && id !in rows && p in rows && p < id
    requires rows[p].consumedAt.Some? && !HasChild(parent, p)
    requires t.user == rows[p].user && t.family == rows[p].family
    ensures ChainOk(rows[id := t], parent[id := p])
  {
    var rows', parent' := rows[id := t], parent[id := p];
    forall k | k in parent
      ensures k in rows' && parent[k] in rows' && rows'[k] == rows[k] && rows'[parent[k]] == rows[parent[k]]
    {
    }
    ChildrenStayDistinct(parent, id, p);
    hide HasChild;
  }

  lemma ChildrenStayDistinct(parent: map<TokenId, TokenId>, id: TokenId, p: TokenId)
    requires id !in parent && !HasChild(parent, p)
    requires forall j, k :: j in parent && k in parent && j != k ==> parent[j] != parent[k]
    ensures var parent' := parent[id := p];
            forall j, k :: j in parent' && k in parent' && j != k ==> parent'[j] != parent'[k]
  {
  }

  lemma StepPreservesInv(s: State, e: Event)
    requires Inv(s) && Enabled(s, e)
    ensures Inv(Apply(s, e))
  {
    var t := Apply(s, e);
    match e
    case Tick(_) => RevokePreservesInv(s, t);
    case SetUsers(_) => RevokePreservesInv(s, t);
    case Login(_, _, _, _) => LoginPreservesInv(s, e);
    case Consume(c) => ConsumePreservesInv(s, c);
    case Insert(c, raw) => InsertPreservesInv(s, c, raw);
    case RevokeUser(_) => RevokePreservesInv(s, t);
    case _ => CallEventPreservesInv(s, e);
  }

  predicate MovesOneCall(e: Event) {
    e.Find? || e.ReadClock? || e.Reread? || e.RevokeReused? || e.LookupUser? || e.LogoutFind? || e.LogoutRevoke?
  }

  lemma CallEventPreservesInv(s: State, e: Event)
    requires Inv(s) && Enabled(s, e) && MovesOneCall(e)
    ensures Inv(Apply(s, e))
  {
    var t := Apply(s, e);
    var m := s.(calls := t.calls);
    CallEventKeepsCall(s, e);
    CallEventMoves(s, e);
    CallEventWinners(s, e);
    hide CallOk; hide CallsOk; hide ChainOk; hide RowsOk; hide TipOk; hide OnlyRevoked; hide Apply; hide Enabled; hide Holds; hide IsWinner;
    CallStepPreservesInv(s, m, e.c);
    RevokePreservesInv(m, t);
  }

  lemma CallEventMoves(s: State, e: Event)
    requires Enabled(s, e) && MovesOneCall(e)
    ensures var t := Apply(s, e); e.c in t.calls && t == s.(calls := s.calls[e.c := t.calls[e.c]], rows := t.rows)
  {
    hide RevokeFamilyRows;
  }

  lemma CallEventWinners(s: State, e: Event)
    requires Enabled(s, e) && MovesOneCall(e)
    ensures var c := Apply(s, e).calls[e.c];
            && (Holds(c) ==> e.c in s.calls && Holds(s.calls[e.c]) && s.calls[e.c].id == c.id)
            && (IsWinner(c) ==> e.c in s.calls && IsWinner(s.calls[e.c]) && c.snap == s.calls[e.c].snap)
  {
    hide RevokeFamilyRows;
  }

  lemma CallEventKeepsCall(s: State, e: Event)
    requires CallsOk(s) && Enabled(s, e) && MovesOneCall(e)
    ensures OnlyRevoked(s.rows, Apply(s, e).rows)
    ensures CallOk(s.now, s.rows, s.parent, Apply(s, e).calls[e.c])
  {
    assert e.c in s.calls ==> CallOk(s.now, s.rows, s.parent, s.calls[e.c]);
  }

  lemma {:induction false} RunPreservesInv(s: State, es: seq<Event>)
    requires Inv(s) && ValidRun(s, es)
    ensures Inv(Run(s, es))
    decreases |es|
  {
    if es != [] {
      StepPreservesInv(s, es[0]);
      RunPreservesInv(Apply(s, es[0]), es[1..]);
    }
  }
}
