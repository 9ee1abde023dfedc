/** What every run of the login handlers guarantees about sessions, tokens and challenges. */
module SessionSafety {
  import opened Wrappers
  import opened Sessions

  // ----- sessions are earned ----------------------------------------------

  /** The device became trusted for this user, in a call that had passed the user's second factor, and from then on
      for whole days up to the given time. */
  ghost predicate Earned(trace: seq<Event>, raw: string, user: UserId, until: int) {
    exists k :: 0 <= k < |trace| && Trusts(trace[k], raw, user, until) && SecondFactor(trace[k].c, user) in trace[..k]
  }

  predicate Trusts(e: Event, raw: string, user: UserId, until: int) {
    e.DeviceTrusted? && e.raw == raw && e.user == user && until == e.at + e.days * 86400000
  }

  /** Earned, and not yet over at the time it was read. */
  ghost predicate EarnedAt(trace: seq<Event>, raw: string, user: UserId, readAt: int) {
    exists until :: readAt < until && Earned(trace, raw, user, until)
  }

  /** What must have happened before call `c` may open a session for the user. */
  ghost predicate Justified(trace: seq<Event>, c: nat, user: UserId, how: How) {
    match how
    case NothingEnrolled => MethodsRead(c, user, false) in trace
    case FactorNow => SecondFactor(c, user) in trace
    case TrustedDevice(raw, readAt) => MethodsRead(c, user, true) in trace && EarnedAt(trace, raw, user, readAt)
  }

  ghost predicate HadSession(trace: seq<Event>, user: UserId) {
    exists c, how :: Session(c, user, how) in trace
  }

  /** Who may hold a full token: somebody with a session of their own, or somebody who was impersonated. */
  ghost predicate MayAct(trace: seq<Event>, user: UserId) {
    HadSession(trace, user) || exists actor :: Impersonated(actor, user) in trace
  }

  /** What must stand before an event. */
  ghost predicate EventOk(before: seq<Event>, e: Event) {
    match e
    case Session(c, user, how) => Justified(before, c, user, how)
    case DeviceTrusted(c, _, user, _, _) => SecondFactor(c, user) in before && exists how :: Session(c, user, how) in before
    case Impersonated(actor, _) => MayAct(before, actor)
    case _ => true
  }

  ghost predicate TraceOk(trace: seq<Event>) {
    forall i :: 0 <= i < |trace| ==> EventOk(trace[..i], trace[i])
  }

  ghost predicate CallOk(trace: seq<Event>, c: nat, call: Call) {
    match call
    case Enrolled(user, _) => MethodsRead(c, user, true) in trace
    case NeedsFactor(user) => MethodsRead(c, user, true) in trace
    case MayOpen(user, how, remember) => Justified(trace, c, user, how) && (remember ==> how == FactorNow)
    case Opened(user, remember) => (exists how :: Session(c, user, how) in trace) && (remember ==> SecondFactor(c, user) in trace)
    case _ => true
  }

  /** A pending token is issued only after a password login of this user that found a second factor enrolled. */
  ghost predicate AskedForFactor(trace: seq<Event>, user: UserId) {
    exists c :: MethodsRead(c, user, true) in trace
  }

  /** A full token without an impersonator is its user's own; one with names who stands behind it. */
  ghost predicate TokenOk(trace: seq<Event>, t: Access) {
    if t.pending then AskedForFactor(trace, t.sub)
    else if t.act.None? then HadSession(trace, t.sub)
    else Impersonated(t.act.value, t.sub) in trace
  }

  ghost predicate EarnedInv(s: State) {
    && TraceOk(s.trace)
    && (forall c :: c in s.calls ==> CallOk(s.trace, c, s.calls[c]))
    && (forall raw :: raw in s.devices ==> Earned(s.trace, raw, s.devices[raw].user, s.devices[raw].expiresAt))
    && (forall t :: t in s.minted ==> TokenOk(s.trace, t))
    && (forall u :: u in s.refreshable ==> HadSession(s.trace, u))
  }

  lemma EarnedGrows(trace: seq<Event>, more: seq<Event>, raw: string, user: UserId, until: int)
    requires Earned(trace, raw, user, until)
    ensures Earned(trace + more, raw, user, until)
  {
    var k :| 0 <= k < |trace| && Trusts(trace[k], raw, user, until) && SecondFactor(trace[k].c, user) in trace[..k];
    assert (trace + more)[..k] == trace[..k];
    assert (trace + more)[k] == trace[k];
  }

  lemma SessionGrows(trace: seq<Event>, more: seq<Event>, user: UserId)
    ensures HadSession(trace, user) ==> HadSession(trace + more, user)
    ensures MayAct(trace, user) ==> MayAct(trace + more, user)
    ensures AskedForFactor(trace, user) ==> AskedForFactor(trace + more, user)
  {
    if c, how :| Session(c, user, how) in trace { assert Session(c, user, how) in trace + more; }
    if actor :| Impersonated(actor, user) in trace { assert Impersonated(actor, user) in trace + more; }
    if c :| MethodsRead(c, user, true) in trace { assert MethodsRead(c, user, true) in trace + more; }
  }

  lemma TokenGrows(trace: seq<Event>, more: seq<Event>, t: Access)
    requires TokenOk(trace, t)
    ensures TokenOk(trace + more, t)
  {
    SessionGrows(trace, more, t.sub);
    hide HadSession; hide AskedForFactor; hide MayAct;
  }

  lemma CallGrows(trace: seq<Event>, more: seq<Event>, c: nat, call: Call)
    requires CallOk(trace, c, call)
    ensures CallOk(trace + more, c, call)
  {
    if call.MayOpen? && call.how.TrustedDevice? {
      var until :| call.how.readAt < until && Earned(trace, call.how.raw, call.user, until);
      EarnedGrows(trace, more, call.how.raw, call.user, until);
    }
    if call.Opened? {
      var how :| Session(c, call.user, how) in trace;
      assert Session(c, call.user, how) in trace + more;
    }
  }

  lemma TraceGrows(trace: seq<Event>, more: seq<Event>)
    requires TraceOk(trace) && forall k :: 0 <= k < |more| ==> EventOk(trace + more[..k], more[k])
    ensures TraceOk(trace + more)
  {
    var all := trace + more;
    hide EventOk;
    forall i | 0 <= i < |all| ensures EventOk(all[..i], all[i]) {
      if i < |trace| {
        assert all[..i] == trace[..i] && all[i] == trace[i];
      } else {
        assert all[..i] == trace + more[..i - |trace|] && all[i] == more[i - |trace|];
      }
    }
  }

  /** Only three steps add events that need a reason, one each. */
  lemma PlainEvents(s: State, e: Step, k: nat)
    requires Enabled(s, e) && k < |Events(s, e)| && !e.OpenSession? && !e.TrustDevice? && !e.Impersonate?
    ensures var x := Events(s, e)[k]; !x.Session? && !x.DeviceTrusted? && !x.Impersonated?
  {
  }

  lemma ReasonedEvent(s: State, e: Step)
    requires Enabled(s, e) && EarnedInv(s) && (e.OpenSession? || e.TrustDevice? || e.Impersonate?)
    ensures |Events(s, e)| == 1 && EventOk(s.trace, Events(s, e)[0])
  {
    hide Earned; hide TraceOk;
    if !e.Impersonate? { assert CallOk(s.trace, e.c, s.calls[e.c]); } else { assert TokenOk(s.trace, e.token); }
  }

  lemma StepKeepsTrace(s: State, e: Step)
    requires Enabled(s, e) && EarnedInv(s)
    ensures TraceOk(Apply(s, e).trace)
  {
    var more := Events(s, e);
    if e.OpenSession? || e.TrustDevice? || e.Impersonate? {
      ReasonedEvent(s, e);
      assert s.trace + more[..0] == s.trace;
    } else {
      forall k | 0 <= k < |more| ensures EventOk(s.trace + more[..k], more[k]) { PlainEvents(s, e, k); }
    }
    hide Moved; hide Events; hide EventOk; hide Enabled;
    TraceGrows(s.trace, more);
  }

  lemma SnocHas(trace: seq<Event>, e: Event)
    ensures e in trace + [e] && forall x :: x in trace ==> x in trace + [e]
  {
  }

  /** The moved call of an assertion check is backed by the factor it just passed. */
  lemma AssertionBacked(s: State, e: Step)
    requires Enabled(s, e) && (e.CheckAssertion? || e.CheckAnonAssertion?)
    ensures CallOk(Apply(s, e).trace, e.c, Apply(s, e).calls[e.c])
  {
    var t := Apply(s, e);
    if t.calls[e.c].MayOpen? {
      assert t.trace[|t.trace| - 1] == SecondFactor(e.c, t.calls[e.c].user);
      assert SecondFactor(e.c, t.calls[e.c].user) in t.trace;
    }
  }

  lemma CheckDeviceBacked(s: State, c: nat)
    requires Enabled(s, CheckDevice(c)) && CallOk(s.trace, c, s.calls[c])
    requires forall raw :: raw in s.devices ==> Earned(s.trace, raw, s.devices[raw].user, s.devices[raw].expiresAt)
    ensures CallOk(Apply(s, CheckDevice(c)).trace, c, Apply(s, CheckDevice(c)).calls[c])
  {
    assert Apply(s, CheckDevice(c)).trace == s.trace;
    hide Earned;
  }

  lemma SimpleBacked(s: State, e: Step)
    requires Enabled(s, e) && (e.ReadMethods? || e.CheckCode? || e.OpenSession?)
    requires CallOk(s.trace, e.c, s.calls[e.c])
    ensures CallOk(Apply(s, e).trace, e.c, Apply(s, e).calls[e.c])
  {
    hide Earned;
    var call := s.calls[e.c];
    if e.ReadMethods? { SnocHas(s.trace, MethodsRead(e.c, call.user, call.user in s.enrolled)); }
    if e.CheckCode? { SnocHas(s.trace, SecondFactor(e.c, call.user)); }
    if e.OpenSession? { SnocHas(s.trace, Session(e.c, call.user, call.how)); }
  }

  /** The steps that are not part of any login call. */
  predicate Outside(e: Step) {
    e.Tick? || e.SetAccounts? || e.DropDevices? || e.UserOptions? || e.AnonOptions? || e.Refresh? || e.Impersonate?
  }

  lemma OutsideMovesNoCall(s: State, e: Step)
    requires Enabled(s, e) && Outside(e)
    ensures Apply(s, e).calls == s.calls
  {
    hide Events;
  }

  /** The steps of a call that has no session yet and no pass. */
  predicate Early(e: Step) {
    e.PasswordOk? || e.ReadMethods? || e.CheckDevice? || e.IssuePending? || e.PresentPending? || e.CheckCode? || e.TakeUserChallenge?
  }

  lemma OtherCallsFree(s: State, e: Step)
    requires Enabled(s, e) && !Outside(e)
    requires !e.ReadMethods? && !e.CheckCode? && !e.OpenSession? && !e.CheckAssertion? && !e.CheckAnonAssertion? && !e.CheckDevice?
    ensures var call := Apply(s, e).calls[e.c]; !call.Enrolled? && !call.NeedsFactor? && !call.MayOpen? && !call.Opened?
  {
    hide Apply; hide Enabled;
    OnlyOneCallMoves(s, e);
    if Early(e) { EarlyCallsFree(s, e); } else { LateCallsFree(s, e); }
  }

  lemma EarlyCallsFree(s: State, e: Step)
    requires Enabled(s, e) && (e.PasswordOk? || e.IssuePending? || e.PresentPending? || e.TakeUserChallenge?)
    ensures e.c in Apply(s, e).calls
    ensures var call := Apply(s, e).calls[e.c]; !call.Enrolled? && !call.NeedsFactor? && !call.MayOpen? && !call.Opened?
  {
    hide Events; hide OwnCredential; hide AnonPasses; hide Trusted; hide AcceptsPending; hide AcceptsFull;
  }

  lemma LateCallsFree(s: State, e: Step)
    requires Enabled(s, e) && (e.PresentPasskey? || e.TakeAnonChallenge? || e.TrustDevice?)
    ensures e.c in Apply(s, e).calls
    ensures var call := Apply(s, e).calls[e.c]; !call.Enrolled? && !call.NeedsFactor? && !call.MayOpen? && !call.Opened?
  {
    hide Events; hide OwnCredential; hide AnonPasses; hide Trusted; hide AcceptsPending; hide AcceptsFull;
  }

  lemma OnlyOneCallMoves(s: State, e: Step)
    requires Enabled(s, e) && !Outside(e)
    ensures e.c in Apply(s, e).calls && Apply(s, e).calls == s.calls[e.c := Apply(s, e).calls[e.c]]
  {
    hide Apply; hide Enabled;
    if Early(e) { EarlyCallMoves(s, e); } else { LateCallMoves(s, e); }
  }

  lemma EarlyCallMoves(s: State, e: Step)
    requires Enabled(s, e) && Early(e)
    ensures e.c in Apply(s, e).calls && Apply(s, e).calls == s.calls[e.c := Apply(s, e).calls[e.c]]
  {
    hide Events; hide OwnCredential; hide AnonPasses; hide Trusted; hide AcceptsPending; hide AcceptsFull;
  }

  lemma LateCallMoves(s: State, e: Step)
    requires Enabled(s, e) && !Outside(e) && !Early(e)
    ensures e.c in Apply(s, e).calls && Apply(s, e).calls == s.calls[e.c := Apply(s, e).calls[e.c]]
  {
    hide Events; hide OwnCredential; hide AnonPasses; hide Trusted; hide AcceptsPending; hide AcceptsFull;
  }

  lemma MovedCallBacked(s: State, e: Step, c: nat)
    requires Enabled(s, e) && EarnedInv(s)
    requires c in Apply(s, e).calls && (c !in s.calls || Apply(s, e).calls[c] != s.calls[c])
    ensures CallOk(Apply(s, e).trace, c, Apply(s, e).calls[c])
  {
    if Outside(e) { OutsideMovesNoCall(s, e); } else { OnlyOneCallMoves(s, e); }
    hide Apply; hide Earned; hide TraceOk; hide HadSession; hide Enabled;
    if e.ReadMethods? || e.CheckCode? || e.OpenSession? {
      SimpleBacked(s, e);
    } else if e.CheckAssertion? || e.CheckAnonAssertion? {
      AssertionBacked(s, e);
    } else if e.CheckDevice? {
      CheckDeviceBacked(s, c);
    } else {
      OtherCallsFree(s, e);
    }
  }

  lemma NewDeviceEarned(s: State, e: Step, raw: string)
    requires Enabled(s, e) && EarnedInv(s) && raw in Apply(s, e).devices && raw !in s.devices
    ensures Earned(Apply(s, e).trace, raw, Apply(s, e).devices[raw].user, Apply(s, e).devices[raw].expiresAt)
  {
    OnlyTrustAdds(s, e, raw);
    TrustLeaves(s, e);
    hide Apply; hide TraceOk; hide HadSession; hide MayAct; hide AskedForFactor;
    var t, user := Apply(s, e), s.calls[e.c].user;
    assert CallOk(s.trace, e.c, s.calls[e.c]);
    var k := |s.trace|;
    assert t.trace[..k] == s.trace && Trusts(t.trace[k], raw, user, t.devices[raw].expiresAt);
  }

  lemma OnlyTrustAdds(s: State, e: Step, raw: string)
    requires Enabled(s, e) && raw in Apply(s, e).devices && raw !in s.devices
    ensures e.TrustDevice? && raw == e.raw
  {
    hide Events; hide OwnCredential; hide AnonPasses; hide Trusted; hide AcceptsPending; hide AcceptsFull;
  }

  lemma TrustLeaves(s: State, e: Step)
    requires Enabled(s, e) && e.TrustDevice?
    ensures e.c in s.calls && s.calls[e.c].Opened? && s.calls[e.c].remember
    ensures Apply(s, e).trace == s.trace + [DeviceTrusted(e.c, e.raw, s.calls[e.c].user, s.now, e.days)]
    ensures e.raw in Apply(s, e).devices && Apply(s, e).devices[e.raw] == Device(s.calls[e.c].user, s.now + e.days * 86400000)
  {
  }

  /** The four steps that sign a token, and whose it is. */
  lemma WhoSigns(s: State, e: Step, a: Access)
    requires Enabled(s, e) && a in Apply(s, e).minted && a !in s.minted
    ensures if e.IssuePending? then e.c in s.calls && s.calls[e.c].NeedsFactor? && a.pending && a.sub == s.calls[e.c].user
            else if e.OpenSession? then
              e.c in s.calls && s.calls[e.c].MayOpen? && !a.pending && a.act == None && a.sub == s.calls[e.c].user
            else if e.Refresh? then e.user in s.refreshable && !a.pending && a.act == None && a.sub == e.user
            else e.Impersonate? && !a.pending && a.act == Some(e.token.sub) && a.sub == e.target
  {
    hide Events; hide OwnCredential; hide AnonPasses; hide Trusted; hide AcceptsPending; hide AcceptsFull;
  }

  lemma NewTokensBacked(s: State, e: Step, a: Access)
    requires Enabled(s, e) && EarnedInv(s) && a in Apply(s, e).minted && a !in s.minted
    ensures TokenOk(Apply(s, e).trace, a)
  {
    var trace := Apply(s, e).trace;
    assert trace == s.trace + Events(s, e);
    WhoSigns(s, e, a);
    hide Apply; hide Moved; hide Earned; hide TraceOk; hide Justified; hide Enabled;
    if e.OpenSession? {
      assert Session(e.c, a.sub, s.calls[e.c].how) in trace;
    } else if e.Impersonate? {
      assert Impersonated(e.token.sub, a.sub) in trace;
    } else if e.Refresh? {
      SessionGrows(s.trace, Events(s, e), a.sub);
    } else {
      assert CallOk(s.trace, e.c, s.calls[e.c]);
      assert MethodsRead(e.c, a.sub, true) in trace;
    }
  }

  lemma NewRefreshable(s: State, e: Step, u: UserId)
    requires Enabled(s, e) && u in Apply(s, e).refreshable && u !in s.refreshable
    ensures HadSession(Apply(s, e).trace, u)
  {
    assert e.OpenSession? && Session(e.c, s.calls[e.c].user, s.calls[e.c].how) in Apply(s, e).trace;
  }

  lemma OldThingsKept(s: State, e: Step)
    requires Enabled(s, e)
    ensures var t := Apply(s, e);
            forall raw :: raw in t.devices && raw in s.devices ==> t.devices[raw] == s.devices[raw]
  {
  }

  lemma StepKeepsEarned(s: State, e: Step)
    requires Enabled(s, e) && EarnedInv(s)
    ensures EarnedInv(Apply(s, e))
  {
    var t := Apply(s, e);
    StepKeepsTrace(s, e);
    OldThingsKept(s, e);
    var more := Events(s, e);
    assert t.trace == s.trace + more;
    hide Apply; hide Events; hide Moved; hide CallOk; hide Earned; hide HadSession; hide TraceOk; hide MayAct; hide AskedForFactor; hide TokenOk;
    forall c | c in t.calls ensures CallOk(t.trace, c, t.calls[c]) {
      if c in s.calls && t.calls[c] == s.calls[c] {
        CallGrows(s.trace, more, c, s.calls[c]);
      } else {
        MovedCallBacked(s, e, c);
      }
    }
    forall raw | raw in t.devices ensures Earned(t.trace, raw, t.devices[raw].user, t.devices[raw].expiresAt) {
      if raw in s.devices {
        EarnedGrows(s.trace, more, raw, s.devices[raw].user, s.devices[raw].expiresAt);
      } else {
        NewDeviceEarned(s, e, raw);
      }
    }
    forall a | a in t.minted ensures TokenOk(t.trace, a) {
      if a in s.minted { TokenGrows(s.trace, more, a); } else { NewTokensBacked(s, e, a); }
    }
    forall u | u in t.refreshable ensures HadSession(t.trace, u) {
      if u in s.refreshable { SessionGrows(s.trace, more, u); } else { NewRefreshable(s, e, u); }
    }
  }

  lemma {:induction false} RunKeepsEarned(s: State, es: seq<Step>)
    requires ValidRun(s, es) && EarnedInv(s)
    ensures EarnedInv(Run(s, es))
    decreases |es|
  {
    if es != [] {
      StepKeepsEarned(s, es[0]);
      RunKeepsEarned(Apply(s, es[0]), es[1..]);
    }
  }

  /** In every run, every full session is preceded by one of: this login read that nothing is enrolled; this very call
      passed the user's second factor; or the presented device became trusted after the same user's second factor, and
      was read before its days were over. */
  lemma SessionsAreEarned(s: State, es: seq<Step>, i: nat)
    requires Initial(s) && ValidRun(s, es) && i < |Run(s, es).trace| && Run(s, es).trace[i].Session?
    ensures var tr := Run(s, es).trace; var e := tr[i];
            || MethodsRead(e.c, e.user, false) in tr[..i]
            || SecondFactor(e.c, e.user) in tr[..i]
            || (e.how.TrustedDevice? && MethodsRead(e.c, e.user, true) in tr[..i] && EarnedAt(tr[..i], e.how.raw, e.user, e.how.readAt))
  {
    RunKeepsEarned(s, es);
    var e := Run(s, es).trace[i];
    assert EventOk(Run(s, es).trace[..i], e);
  }

  /** In every run a device becomes trusted only in a call that had passed this user's second factor and opened its
      session. */
  lemma DevicesAreEarned(s: State, es: seq<Step>, i: nat)
    requires Initial(s) && ValidRun(s, es) && i < |Run(s, es).trace| && Run(s, es).trace[i].DeviceTrusted?
    ensures var tr := Run(s, es).trace; var e := tr[i];
            SecondFactor(e.c, e.user) in tr[..i] && exists how :: Session(e.c, e.user, how) in tr[..i]
  {
    RunKeepsEarned(s, es);
    assert EventOk(Run(s, es).trace[..i], Run(s, es).trace[i]);
  }

  /** Impersonations start from somebody's own session. */
  lemma {:induction false} SomebodyHadSession(trace: seq<Event>, user: UserId)
    requires TraceOk(trace) && MayAct(trace, user)
    ensures exists u :: HadSession(trace, u)
    decreases |trace|
  {
    hide HadSession; hide EventOk; hide TraceOk;
    if !HadSession(trace, user) {
      var actor, i := Impersonator(trace, user);
      TracePrefix(trace, i);
      SomebodyHadSession(trace[..i], actor);
      var u :| HadSession(trace[..i], u);
      SessionGrows(trace[..i], trace[i..], u);
      assert trace[..i] + trace[i..] == trace;
    }
  }

  lemma Impersonator(trace: seq<Event>, user: UserId) returns (actor: UserId, i: nat)
    requires TraceOk(trace) && MayAct(trace, user) && !HadSession(trace, user)
    ensures i < |trace| && MayAct(trace[..i], actor)
  {
    hide HadSession;
    actor :| Impersonated(actor, user) in trace;
    i :| 0 <= i < |trace| && trace[i] == Impersonated(actor, user);
    assert EventOk(trace[..i], trace[i]);
    hide TraceOk;
  }

  lemma TracePrefix(trace: seq<Event>, i: nat)
    requires TraceOk(trace) && i <= |trace|
    ensures TraceOk(trace[..i])
  {
    hide EventOk;
    forall j | 0 <= j < i ensures EventOk(trace[..i][..j], trace[..i][j]) {
      assert trace[..i][..j] == trace[..j] && EventOk(trace[..j], trace[j]);
    }
  }

  /** What an accepted token proves.  A pending one: only that this user's password login found a second factor
      enrolled.  A full one that names no impersonator: this user had a session opened.  A full one that does: that user
      impersonated this one while holding a full token, and somebody had a session. */
  lemma TokensNotInterchangeable(s: State, es: seq<Step>, t: Access)
    requires Initial(s) && ValidRun(s, es)
    ensures var end := Run(s, es);
            && (AcceptsPending(end, t) ==> AskedForFactor(end.trace, t.sub))
            && (AcceptsFull(end, t) && t.act.None? ==> HadSession(end.trace, t.sub))
            && (AcceptsFull(end, t) && t.act.Some? ==>
                  Impersonated(t.act.value, t.sub) in end.trace && MayAct(end.trace, t.act.value) && exists u :: HadSession(end.trace, u))
  {
    RunKeepsEarned(s, es);
    var end := Run(s, es);
    if AcceptsFull(end, t) && t.act.Some? {
      assert TokenOk(end.trace, t);
      ActorMayAct(end.trace, t.act.value, t.sub);
      SomebodyHadSession(end.trace, t.sub);
    }
  }

  lemma ActorMayAct(trace: seq<Event>, actor: UserId, user: UserId)
    requires TraceOk(trace) && Impersonated(actor, user) in trace
    ensures MayAct(trace, actor)
  {
    var i :| 0 <= i < |trace| && trace[i] == Impersonated(actor, user);
    assert EventOk(trace[..i], trace[i]);
    SessionGrows(trace[..i], trace[i..], actor);
    assert trace[..i] + trace[i..] == trace;
  }

  /** The first part cannot say more: a password login alone leads to an accepted pending token while nobody has had a
      session and no full token of anybody is accepted. */
  lemma PendingTokenIsNoSession(s: State, user: UserId, es: seq<Step>, t: Access)
    requires Initial(s)
    requires es == [SetAccounts({user}, {}, {user}, map[]), PasswordOk(0, user, None), ReadMethods(0), CheckDevice(0), IssuePending(0)]
    requires t == Access(user, s.now / 1000 + 900, true, None)
    ensures ValidRun(s, es) && AcceptsPending(Run(s, es), t)
    ensures forall u :: !HadSession(Run(s, es).trace, u)
    ensures forall other :: !AcceptsFull(Run(s, es), other)
  {
    var s3 := Apply(Apply(Apply(s, es[0]), es[1]), es[2]);
    assert es[1..][1..][1..][1..][1..] == [];
    assert es[1..][1..][1..][1..] == [es[4]];
    assert es[1..][1..][1..] == [es[3], es[4]];
    assert es[1..][1..] == [es[2], es[3], es[4]];
    FirstThree(s, user);
    LastTwo(s3, user);
    hide Apply; hide Enabled;
    RunOne(Apply(s3, es[3]), es[4..]);
    RunOne(s3, es[3..]);
    RunOne(Apply(Apply(s, es[0]), es[1]), es[2..]);
    RunOne(Apply(s, es[0]), es[1..]);
    RunOne(s, es);
  }

  lemma FirstThree(s: State, user: UserId)
    requires Initial(s)
    ensures var s1 := Apply(s, SetAccounts({user}, {}, {user}, map[]));
            && Enabled(s1, PasswordOk(0, user, None))
            && var s2 := Apply(s1, PasswordOk(0, user, None));
            && Enabled(s2, ReadMethods(0))
            && var s3 := Apply(s2, ReadMethods(0));
            && s3.now == s.now && s3.minted == {} && s3.users == {user} && s3.trace == [MethodsRead(0, user, true)]
            && 0 in s3.calls && s3.calls[0] == Enrolled(user, None)
  {
  }

  lemma LastTwo(s: State, user: UserId)
    requires s.minted == {} && s.users == {user} && s.trace == [MethodsRead(0, user, true)]
    requires 0 in s.calls && s.calls[0] == Enrolled(user, None)
    ensures var s4 := Apply(s, CheckDevice(0));
            && Enabled(s4, IssuePending(0))
            && var s5 := Apply(s4, IssuePending(0)); var t := Access(user, s.now / 1000 + 900, true, None);
            && s5.minted == {t} && s5.trace == [MethodsRead(0, user, true)] && AcceptsPending(s5, t)
  {
  }

  lemma RunOne(s: State, es: seq<Step>)
    requires es != [] && Enabled(s, es[0]) && ValidRun(Apply(s, es[0]), es[1..])
    ensures ValidRun(s, es) && Run(s, es) == Run(Apply(s, es[0]), es[1..])
  {
  }

  // ----- challenges are used once -----------------------------------------

  function Verifications(trace: seq<Event>, challenge: string): nat {
    if trace == [] then 0
    else Verifications(trace[..|trace| - 1], challenge) + if trace[|trace| - 1] == Verification(challenge) then 1 else 0
  }

  predicate HeldBy(call: Call, challenge: string) {
    (call.Asserting? || call.AssertingAnon?) && call.challenge == challenge
  }

  /** A generated challenge is in one place: offered once, held by one call, or spent. */
  ghost predicate ChallengeInv(s: State) {
    OffersInv(s) && HoldsInv(s) && SpentInv(s)
  }

  /** What is on offer was generated and is neither held nor spent; a passwordless offer ends a fixed time after
      its generation. */
  ghost predicate OffersInv(s: State) {
    && (forall x :: x in s.anonChallenges ==>
          x in s.generated && !Taken(s, x) && s.anonChallenges[x] == s.generated[x] + CHALLENGE_TTL_MS)
    && (forall u :: u in s.userChallenges ==> s.userChallenges[u] in s.generated && !Taken(s, s.userChallenges[u]))
    && (forall u, v :: u in s.userChallenges && v in s.userChallenges && u != v ==> s.userChallenges[u] != s.userChallenges[v])
    && (forall u :: u in s.userChallenges ==> s.userChallenges[u] !in s.anonChallenges)
  }

  ghost predicate HoldsInv(s: State) {
    && (forall c, d, x :: c in s.calls && d in s.calls && HeldBy(s.calls[c], x) && HeldBy(s.calls[d], x) ==> c == d)
    && (forall c, x {:trigger HeldBy(s.calls[c], x)} :: c in s.calls && HeldBy(s.calls[c], x) ==>
          x in s.generated && Verifications(s.trace, x) == 0)
  }

  ghost predicate SpentInv(s: State) {
    && (forall x :: Verifications(s.trace, x) <= 1)
    && (forall x :: Verifications(s.trace, x) > 0 ==> x in s.generated)
  }

  /** Already held by a call or spent on a verification. */
  ghost predicate Taken(s: State, x: string) {
    Verifications(s.trace, x) > 0 || HeldBySome(s.calls, x)
  }

  ghost predicate HeldBySome(calls: map<nat, Call>, x: string) {
    exists c :: c in calls && HeldBy(calls[c], x)
  }

  lemma VerificationsSnoc(trace: seq<Event>, e: Event, x: string)
    ensures Verifications(trace + [e], x) == Verifications(trace, x) + if e == Verification(x) then 1 else 0
  {
    assert (trace + [e])[..|trace|] == trace;
  }

  /** The events of a passkey check: the verification, and the factor if it passed. */
  lemma AssertionEvents(s: State, e: Step)
    requires Enabled(s, e) && (e.CheckAssertion? || e.CheckAnonAssertion?)
    ensures var more := Events(s, e);
            && |more| <= 2 && (|more| == 2 ==> !more[1].Verification?)
            && forall x :: Spends(s, e, x) <==> more != [] && more[0] == Verification(x)
  {
  }

  lemma {:induction false} VerificationsOfTwo(trace: seq<Event>, more: seq<Event>, x: string)
    requires |more| <= 2 && (|more| == 2 ==> !more[1].Verification?)
    ensures Verifications(trace + more, x) == Verifications(trace, x) + if more != [] && more[0] == Verification(x) then 1 else 0
  {
    if more == [] {
      assert trace + more == trace;
    } else {
      VerificationsSnoc(trace, more[0], x);
      if |more| == 1 {
        assert more == [more[0]];
      } else {
        assert trace + more == (trace + [more[0]]) + [more[1]];
        VerificationsSnoc(trace + [more[0]], more[1], x);
      }
    }
    hide Verifications;
  }

  lemma AssertionCounts(s: State, e: Step, x: string)
    requires Enabled(s, e) && (e.CheckAssertion? || e.CheckAnonAssertion?)
    ensures Verifications(Apply(s, e).trace, x) == Verifications(s.trace, x) + if Spends(s, e, x) then 1 else 0
  {
    AssertionEvents(s, e);
    VerificationsOfTwo(s.trace, Events(s, e), x);
    hide Verifications; hide Events; hide Moved; hide Spends;
  }

  lemma OtherCounts(s: State, e: Step, x: string)
    requires Enabled(s, e) && !e.CheckAssertion? && !e.CheckAnonAssertion?
    ensures Verifications(Apply(s, e).trace, x) == Verifications(s.trace, x)
  {
    var more := Apply(s, e).trace;
    assert more == s.trace || (|more| == |s.trace| + 1 && more[..|s.trace|] == s.trace && !more[|s.trace|].Verification?);
    if more != s.trace { VerificationsSnoc(s.trace, more[|s.trace|], x); assert more == s.trace + [more[|s.trace|]]; }
    hide Verifications;
  }

  /** What a step does to the counts. */
  lemma VerificationsStep(s: State, e: Step, x: string)
    requires Enabled(s, e)
    ensures Verifications(Apply(s, e).trace, x) == Verifications(s.trace, x) + if Spends(s, e, x) then 1 else 0
  {
    hide Verifications; hide Apply;
    if e.CheckAssertion? || e.CheckAnonAssertion? { AssertionCounts(s, e, x); } else { OtherCounts(s, e, x); }
  }

  /** The step runs a signature check against challenge `x`. */
  predicate Spends(s: State, e: Step, x: string)
    requires Enabled(s, e)
  {
    || (e.CheckAssertion? && s.calls[e.c].challenge == x && OwnCredential(s, e.c, e.credential))
    || (e.CheckAnonAssertion? && s.calls[e.c].challenge == x)
  }

  lemma OptionsLeave(s: State, e: Step)
    requires Enabled(s, e) && (e.UserOptions? || e.AnonOptions?)
    ensures var t := Apply(s, e);
            && t.calls == s.calls && t.trace == s.trace && t.generated == s.generated[e.challenge := s.now]
            && (e.UserOptions? ==> t.anonChallenges == s.anonChallenges && t.userChallenges == s.userChallenges[e.token.sub := e.challenge])
            && (e.AnonOptions? ==>
                  && t.userChallenges == s.userChallenges
                  && t.anonChallenges == (map x | x in s.anonChallenges && s.anonChallenges[x] > s.now :: s.anonChallenges[x])
                                         [e.challenge := s.now + CHALLENGE_TTL_MS])
  {
  }

  /** Steps that generate a challenge. */
  lemma OptionsKeepChallenges(s: State, e: Step)
    requires Enabled(s, e) && ChallengeInv(s) && (e.UserOptions? || e.AnonOptions?)
    ensures ChallengeInv(Apply(s, e))
  {
    hide Apply; hide Enabled; hide OffersInv; hide HoldsInv; hide SpentInv; hide Taken;
    OptionsLeave(s, e);
    NewIsUntaken(s, e);
    SameHolds(s, Apply(s, e), e.challenge);
    if e.UserOptions? { UserOffer(s, Apply(s, e), e.token.sub, e.challenge); } else { AnonOffer(s, Apply(s, e), e.challenge); }
  }

  lemma SameHolds(s: State, t: State, challenge: string)
    requires HoldsInv(s) && SpentInv(s) && t.calls == s.calls && t.trace == s.trace && t.generated == s.generated[challenge := s.now]
    ensures HoldsInv(t) && SpentInv(t) && forall x :: Taken(t, x) <==> Taken(s, x)
  {
    hide Verifications; hide HeldBy; hide HeldBySome;
  }

  lemma UserOffer(s: State, t: State, user: UserId, challenge: string)
    requires OffersInv(s) && challenge !in s.generated && !Taken(s, challenge) && forall x :: Taken(t, x) <==> Taken(s, x)
    requires t.generated == s.generated[challenge := s.now]
    requires t.anonChallenges == s.anonChallenges && t.userChallenges == s.userChallenges[user := challenge]
    ensures OffersInv(t)
  {
    hide Taken;
  }

  lemma AnonOffer(s: State, t: State, challenge: string)
    requires OffersInv(s) && challenge !in s.generated && !Taken(s, challenge) && forall x :: Taken(t, x) <==> Taken(s, x)
    requires t.generated == s.generated[challenge := s.now] && t.userChallenges == s.userChallenges
    requires t.anonChallenges == (map x | x in s.anonChallenges && s.anonChallenges[x] > s.now :: s.anonChallenges[x])
                                 [challenge := s.now + CHALLENGE_TTL_MS]
    ensures OffersInv(t)
  {
    hide Taken;
  }

  lemma NewIsUntaken(s: State, e: Step)
    requires Enabled(s, e) && ChallengeInv(s) && (e.UserOptions? || e.AnonOptions?)
    ensures e.challenge !in s.generated && !Taken(s, e.challenge)
  {
    hide Verifications; hide OffersInv; hide Apply;
    assert forall c :: c in s.calls ==> !HeldBy(s.calls[c], e.challenge);
  }

  /** Steps that move a challenge from the offer to one call. */
  lemma TakeKeepsChallenges(s: State, e: Step)
    requires Enabled(s, e) && ChallengeInv(s) && (e.TakeUserChallenge? || e.TakeAnonChallenge?)
    ensures ChallengeInv(Apply(s, e))
  {
    TakeShape(s, e);
    var t := Apply(s, e);
    var call := t.calls[e.c];
    hide Apply; hide Enabled; hide OffersInv; hide HoldsInv; hide SpentInv; hide Withdrawn;
    if call.Closed? {
      ClosingKeeps(s, t, e.c);
    } else {
      HandingKeeps(s, t, e.c, call.challenge);
    }
  }

  lemma TakeShape(s: State, e: Step)
    requires Enabled(s, e) && (e.TakeUserChallenge? || e.TakeAnonChallenge?)
    ensures var t := Apply(s, e); var call := t.calls[e.c];
            && t == s.(calls := s.calls[e.c := call], anonChallenges := t.anonChallenges, userChallenges := t.userChallenges)
            && (call.Closed? ==> t.anonChallenges == s.anonChallenges && t.userChallenges == s.userChallenges)
            && (!call.Closed? ==> (call.Asserting? || call.AssertingAnon?) && Withdrawn(s, t, call.challenge))
  {
    hide Apply; hide Enabled; hide Withdrawn;
    if e.TakeUserChallenge? { TakeUserShape(s, e.c); } else { TakeAnonShape(s, e.c, e.challenge); }
  }

  lemma TakeUserShape(s: State, c: nat)
    requires Enabled(s, TakeUserChallenge(c))
    ensures var t := Apply(s, TakeUserChallenge(c)); c in t.calls && var call := t.calls[c];
            && t == s.(calls := s.calls[c := call], anonChallenges := t.anonChallenges, userChallenges := t.userChallenges)
            && (call.Closed? ==> t.anonChallenges == s.anonChallenges && t.userChallenges == s.userChallenges)
            && (!call.Closed? ==> call.Asserting? && Withdrawn(s, t, call.challenge))
  {
    assert s.trace + [] == s.trace;
  }

  lemma TakeAnonShape(s: State, c: nat, challenge: string)
    requires Enabled(s, TakeAnonChallenge(c, challenge))
    ensures var t := Apply(s, TakeAnonChallenge(c, challenge)); c in t.calls && var call := t.calls[c];
            && t == s.(calls := s.calls[c := call], anonChallenges := t.anonChallenges, userChallenges := t.userChallenges)
            && (call.Closed? ==> t.anonChallenges == s.anonChallenges && t.userChallenges == s.userChallenges)
            && (!call.Closed? ==> call.AssertingAnon? && Withdrawn(s, t, call.challenge))
  {
    assert s.trace + [] == s.trace;
  }

  /** A call that gives up leaves every challenge where it was. */
  lemma ClosingKeeps(s: State, t: State, c: nat)
    requires ChallengeInv(s) && t == s.(calls := s.calls[c := Closed])
    ensures ChallengeInv(t)
  {
    assert forall d, x :: d in t.calls && HeldBy(t.calls[d], x) ==> d in s.calls && HeldBy(s.calls[d], x);
    forall x | HeldBySome(t.calls, x) ensures HeldBySome(s.calls, x) { }
  }

  /** One offered challenge leaves the offer, of either kind. */
  ghost predicate Withdrawn(s: State, t: State, challenge: string) {
    || (challenge in s.anonChallenges && t.anonChallenges == s.anonChallenges - {challenge} && t.userChallenges == s.userChallenges)
    || (exists u :: u in s.userChallenges && s.userChallenges[u] == challenge && t.userChallenges == s.userChallenges - {u}
                    && t.anonChallenges == s.anonChallenges)
  }

  lemma WithdrawnOffers(s: State, t: State, challenge: string)
    requires OffersInv(s) && Withdrawn(s, t, challenge)
    ensures !Taken(s, challenge) && challenge in s.generated
    ensures challenge !in t.anonChallenges && forall u :: u in t.userChallenges ==> t.userChallenges[u] != challenge
  {
    hide Taken;
  }

  /** An offered challenge that moves into one call is offered no more. */
  lemma HandingKeeps(s: State, t: State, c: nat, challenge: string)
    requires ChallengeInv(s) && c in t.calls && HeldBy(t.calls[c], challenge) && Withdrawn(s, t, challenge)
    requires t == s.(calls := s.calls[c := t.calls[c]], anonChallenges := t.anonChallenges, userChallenges := t.userChallenges)
    ensures ChallengeInv(t)
  {
    WithdrawnOffers(s, t, challenge);
    HandingHolds(s, t, c, challenge);
    assert HoldsInv(t) by { hide HeldBy; hide Verifications; hide Withdrawn; }
    HandingKeepsOffers(s, t, challenge);
  }

  lemma HandingKeepsOffers(s: State, t: State, challenge: string)
    requires OffersInv(s) && Withdrawn(s, t, challenge) && t.trace == s.trace && t.generated == s.generated
    requires forall x :: HeldBySome(t.calls, x) ==> x == challenge || HeldBySome(s.calls, x)
    ensures OffersInv(t)
  {
    WithdrawnOffers(s, t, challenge);
    forall x | Taken(t, x) ensures x == challenge || Taken(s, x) { }
    hide Taken; hide HeldBySome; hide Verifications;
  }

  lemma HandingHolds(s: State, t: State, c: nat, challenge: string)
    requires c in t.calls && HeldBy(t.calls[c], challenge) && !HeldBySome(s.calls, challenge)
    requires t.calls == s.calls[c := t.calls[c]]
    ensures forall d, x :: d in t.calls && HeldBy(t.calls[d], x) ==> (d == c && x == challenge) || (d in s.calls && d != c && HeldBy(s.calls[d], x))
    ensures forall x :: HeldBySome(t.calls, x) ==> x == challenge || HeldBySome(s.calls, x)
  {
    forall x | HeldBySome(t.calls, x) ensures x == challenge || HeldBySome(s.calls, x) {
      var d :| d in t.calls && HeldBy(t.calls[d], x);
      assert d != c ==> d in s.calls && HeldBy(s.calls[d], x);
    }
  }

  /** A call that holds a challenge after such a step held it before, and the step does not spend it. */
  lemma HeldStays(s: State, e: Step, c: nat, x: string)
    requires Enabled(s, e) && !e.TakeUserChallenge? && !e.TakeAnonChallenge?
    requires c in Apply(s, e).calls && HeldBy(Apply(s, e).calls[c], x)
    ensures c in s.calls && s.calls[c] == Apply(s, e).calls[c]
    ensures e.CheckAssertion? || e.CheckAnonAssertion? ==> c != e.c
  {
    if e.CheckAssertion? || e.CheckAnonAssertion? {
      AssertionMoves(s, e, c);
    } else {
      OthersHoldNothing(s, e, c, x);
    }
  }

  lemma AssertionMoves(s: State, e: Step, c: nat)
    requires Enabled(s, e) && (e.CheckAssertion? || e.CheckAnonAssertion?) && c in Apply(s, e).calls
    ensures c != e.c ==> c in s.calls && s.calls[c] == Apply(s, e).calls[c]
    ensures c == e.c ==> !Apply(s, e).calls[c].Asserting? && !Apply(s, e).calls[c].AssertingAnon?
  {
  }

  lemma OthersHoldNothing(s: State, e: Step, c: nat, x: string)
    requires Enabled(s, e) && !e.TakeUserChallenge? && !e.TakeAnonChallenge? && !e.CheckAssertion? && !e.CheckAnonAssertion?
    requires c in Apply(s, e).calls && (Apply(s, e).calls[c].Asserting? || Apply(s, e).calls[c].AssertingAnon?)
    ensures c in s.calls && s.calls[c] == Apply(s, e).calls[c]
  {
  }

  lemma SpenderHeld(s: State, e: Step, x: string)
    requires Enabled(s, e) && Spends(s, e, x)
    ensures (e.CheckAssertion? || e.CheckAnonAssertion?) && e.c in s.calls && HeldBy(s.calls[e.c], x)
  {
  }

  lemma OffersKept(s: State, e: Step)
    requires Enabled(s, e) && !e.UserOptions? && !e.AnonOptions? && !e.TakeUserChallenge? && !e.TakeAnonChallenge?
    ensures var t := Apply(s, e);
            t.anonChallenges == s.anonChallenges && t.userChallenges == s.userChallenges && t.generated == s.generated
  {
  }

  /** Steps that generate and take nothing: at most they spend the challenge their call holds. */
  lemma OtherStepsKeepChallenges(s: State, e: Step)
    requires Enabled(s, e) && ChallengeInv(s)
    requires !e.UserOptions? && !e.AnonOptions? && !e.TakeUserChallenge? && !e.TakeAnonChallenge?
    ensures ChallengeInv(Apply(s, e))
  {
    hide Apply; hide Spends; hide Verifications; hide Enabled; hide HeldBy; hide ChallengeInv;
    var t := Apply(s, e);
    OffersKept(s, e);
    forall x ensures Verifications(t.trace, x) == Verifications(s.trace, x) + if Spends(s, e, x) then 1 else 0 {
      VerificationsStep(s, e, x);
    }
    forall c: nat, x: string {:trigger HeldBy(t.calls[c], x)} | c in t.calls && HeldBy(t.calls[c], x)
      ensures c in s.calls && HeldBy(s.calls[c], x) && Verifications(t.trace, x) == Verifications(s.trace, x)
    {
      HeldUnspent(s, e, c, x);
    }
    forall x | Spends(s, e, x) ensures HeldBySome(s.calls, x) { SpenderHeld(s, e, x); }
    SpendingKeeps(s, t);
  }

  lemma HeldUnspent(s: State, e: Step, c: nat, x: string)
    requires Enabled(s, e) && ChallengeInv(s) && !e.TakeUserChallenge? && !e.TakeAnonChallenge?
    requires c in Apply(s, e).calls && HeldBy(Apply(s, e).calls[c], x)
    ensures c in s.calls && HeldBy(s.calls[c], x) && !Spends(s, e, x)
  {
    HeldStays(s, e, c, x);
    hide Apply; hide OffersInv; hide SpentInv; hide Enabled;
    if Spends(s, e, x) { SpenderHeld(s, e, x); }
  }

  /** The same, told by what the step leaves: offers untouched, held challenges held before and unspent, and every
      newly spent challenge held before. */
  lemma SpendingKeeps(s: State, t: State)
    requires ChallengeInv(s)
    requires t.anonChallenges == s.anonChallenges && t.userChallenges == s.userChallenges && t.generated == s.generated
    requires forall c: nat, x: string {:trigger HeldBy(t.calls[c], x)} :: c in t.calls && HeldBy(t.calls[c], x) ==>
               c in s.calls && HeldBy(s.calls[c], x) && Verifications(t.trace, x) == Verifications(s.trace, x)
    requires forall x: string :: Verifications(t.trace, x) == Verifications(s.trace, x)
                         || (Verifications(t.trace, x) == Verifications(s.trace, x) + 1 && HeldBySome(s.calls, x))
    ensures ChallengeInv(t)
  {
    forall x | HeldBySome(t.calls, x) ensures HeldBySome(s.calls, x) {
      var c :| c in t.calls && HeldBy(t.calls[c], x);
      assert c in s.calls && HeldBy(s.calls[c], x);
    }
    forall x | HeldBySome(s.calls, x) ensures Verifications(s.trace, x) == 0 && x in s.generated {
      var c :| c in s.calls && HeldBy(s.calls[c], x);
    }
    forall x | Taken(t, x) ensures Taken(s, x) { }
  }

  lemma StepKeepsChallenges(s: State, e: Step)
    requires Enabled(s, e) && ChallengeInv(s)
    ensures ChallengeInv(Apply(s, e))
  {
    hide ChallengeInv; hide Enabled; hide Apply;
    if e.UserOptions? || e.AnonOptions? {
      OptionsKeepChallenges(s, e);
    } else if e.TakeUserChallenge? || e.TakeAnonChallenge? {
      TakeKeepsChallenges(s, e);
    } else {
      OtherStepsKeepChallenges(s, e);
    }
  }

  lemma {:induction false} RunKeepsChallenges(s: State, es: seq<Step>)
    requires ValidRun(s, es) && ChallengeInv(s)
    ensures ChallengeInv(Run(s, es))
    decreases |es|
  {
    hide ChallengeInv; hide Apply; hide Enabled;
    if es != [] {
      StepKeepsChallenges(s, es[0]);
      RunKeepsChallenges(Apply(s, es[0]), es[1..]);
    }
  }

  /** In every run each challenge, of either kind, feeds at most one verification. */
  lemma OneVerificationPerChallenge(s: State, es: seq<Step>, challenge: string)
    requires Initial(s) && ValidRun(s, es)
    ensures Verifications(Run(s, es).trace, challenge) <= 1
  {
    RunKeepsChallenges(s, es);
  }

  lemma GoneStays(s: State, e: Step, x: string)
    requires Enabled(s, e) && x in s.generated && x !in s.anonChallenges
    ensures x in Apply(s, e).generated && x !in Apply(s, e).anonChallenges
  {
    if e.UserOptions? || e.AnonOptions? {
      OptionsLeave(s, e);
    } else if e.TakeUserChallenge? || e.TakeAnonChallenge? {
      TakeShape(s, e);
    } else {
      OffersKept(s, e);
    }
    hide Apply; hide HeldBySome; hide Verifications;
  }

  /** A generated challenge that is off the offer never comes back. */
  lemma {:induction false} GoneForever(s: State, es: seq<Step>, x: string)
    requires ValidRun(s, es) && x in s.generated && x !in s.anonChallenges
    ensures x !in Run(s, es).anonChallenges
    decreases |es|
  {
    if es != [] {
      GoneStays(s, es[0], x);
      hide Apply; hide Enabled;
      GoneForever(Apply(s, es[0]), es[1..], x);
    }
  }

  /** In every run a passwordless challenge reaches a verification only within its five minutes, unspent and held by
      nobody else, and in no continuation is it offered to any call again. */
  lemma NoneAfterExpiry(s0: State, es: seq<Step>, c: nat, challenge: string)
    requires Initial(s0) && ValidRun(s0, es) && Enabled(Run(s0, es), TakeAnonChallenge(c, challenge))
    ensures var s := Run(s0, es); var t := Apply(s, TakeAnonChallenge(c, challenge));
            t.calls[c].AssertingAnon? ==>
              && t.calls[c].challenge == challenge && challenge in s.generated && s.now < s.generated[challenge] + 300000
              && !HeldBySome(s.calls, challenge) && Verifications(s.trace, challenge) == 0
              && forall later :: ValidRun(t, later) ==> challenge !in Run(t, later).anonChallenges
  {
    RunKeepsChallenges(s0, es);
    var s := Run(s0, es);
    TakenInTime(s, c, challenge);
    var t := Apply(s, TakeAnonChallenge(c, challenge));
    hide Run; hide ValidRun; hide ChallengeInv; hide Apply; hide Enabled;
    if t.calls[c].AssertingAnon? {
      forall later | ValidRun(t, later) ensures challenge !in Run(t, later).anonChallenges { GoneForever(t, later, challenge); }
    }
  }

  lemma TakenInTime(s: State, c: nat, challenge: string)
    requires ChallengeInv(s) && Enabled(s, TakeAnonChallenge(c, challenge))
    ensures var t := Apply(s, TakeAnonChallenge(c, challenge));
            && c in t.calls
            && (t.calls[c].AssertingAnon? ==>
                  && t.calls[c].challenge == challenge && challenge in s.generated
                  && s.now < s.generated[challenge] + CHALLENGE_TTL_MS
                  && !HeldBySome(s.calls, challenge) && Verifications(s.trace, challenge) == 0
                  && challenge in t.generated && challenge !in t.anonChallenges)
  {
    TakeAnonDoes(s, c, challenge);
    hide Apply; hide HeldBySome; hide Verifications; hide HoldsInv; hide SpentInv; hide Enabled;
    if challenge in s.anonChallenges { assert !Taken(s, challenge); }
  }

  lemma TakeAnonDoes(s: State, c: nat, challenge: string)
    requires Enabled(s, TakeAnonChallenge(c, challenge))
    ensures var t := Apply(s, TakeAnonChallenge(c, challenge));
            && c in t.calls && t.generated == s.generated
            && (t.calls[c].AssertingAnon? ==>
                  && t.calls[c].challenge == challenge && challenge in s.anonChallenges && s.now < s.anonChallenges[challenge]
                  && challenge !in t.anonChallenges)
  {
    hide Events;
  }
}
