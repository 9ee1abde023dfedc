/** How long trust in a device and signed tokens last, told by the clock of the steps that began them. */
module SessionTrust {
  import opened Wrappers
  import opened Sessions
  import opened SessionSafety

  /** The state before step `i` of a run, the last one for `i == |es|`. */
  ghost function Before(s: State, es: seq<Step>, i: nat): State
    requires ValidRun(s, es) && i <= |es|
    decreases |es|
  {
    if i == 0 then s else Before(Apply(s, es[0]), es[1..], i - 1)
  }

  lemma {:induction false} AfterAll(s: State, es: seq<Step>)
    requires ValidRun(s, es)
    ensures Before(s, es, |es|) == Run(s, es)
    decreases |es|
  {
    if es != [] { AfterAll(Apply(s, es[0]), es[1..]); }
  }

  lemma {:induction false} NextState(s: State, es: seq<Step>, i: nat)
    requires ValidRun(s, es) && i < |es|
    ensures Enabled(Before(s, es, i), es[i]) && Before(s, es, i + 1) == Apply(Before(s, es, i), es[i])
    decreases |es|
  {
    hide Apply; hide Enabled;
    if i > 0 { NextState(Apply(s, es[0]), es[1..], i - 1); }
  }

  lemma {:induction false} EarnedBefore(s: State, es: seq<Step>, i: nat)
    requires ValidRun(s, es) && i <= |es| && EarnedInv(s)
    ensures EarnedInv(Before(s, es, i))
  {
    hide EarnedInv; hide Apply; hide Enabled;
    if i > 0 {
      EarnedBefore(s, es, i - 1);
      NextState(s, es, i - 1);
      StepKeepsEarned(Before(s, es, i - 1), es[i - 1]);
    }
  }

  // ----- trusted devices --------------------------------------------------

  /** The step trusts the device for this user, until whole days after its own time. */
  predicate TrustsFrom(s: State, e: Step, raw: string, user: UserId, until: int) {
    && e.TrustDevice? && e.raw == raw && e.c in s.calls && s.calls[e.c].Opened? && s.calls[e.c].user == user
    && until == s.now + e.days * 86400000
  }

  ghost predicate TrustedSince(s: State, es: seq<Step>, i: nat, n: nat, raw: string, d: Device)
    requires ValidRun(s, es) && i < n <= |es|
  {
    TrustsFrom(Before(s, es, i), es[i], raw, d.user, d.expiresAt)
  }

  lemma DeviceStep(s: State, e: Step, raw: string)
    requires Enabled(s, e) && raw in Apply(s, e).devices
    ensures (raw in s.devices && s.devices[raw] == Apply(s, e).devices[raw])
         || TrustsFrom(s, e, raw, Apply(s, e).devices[raw].user, Apply(s, e).devices[raw].expiresAt)
  {
    if raw in s.devices {
      OldThingsKept(s, e);
    } else {
      OnlyTrustAdds(s, e, raw);
      TrustLeaves(s, e);
    }
    hide Apply; hide Enabled;
  }

  lemma {:induction false} DeviceOrigin(s: State, es: seq<Step>, n: nat, raw: string) returns (i: nat)
    requires ValidRun(s, es) && n <= |es| && s.devices == map[] && raw in Before(s, es, n).devices
    ensures i < n && TrustedSince(s, es, i, n, raw, Before(s, es, n).devices[raw])
  {
    hide Apply; hide Enabled; hide TrustsFrom;
    NextState(s, es, n - 1);
    DeviceStep(Before(s, es, n - 1), es[n - 1], raw);
    if TrustsFrom(Before(s, es, n - 1), es[n - 1], raw, Before(s, es, n).devices[raw].user, Before(s, es, n).devices[raw].expiresAt) {
      i := n - 1;
    } else {
      i := DeviceOrigin(s, es, n - 1, raw);
    }
  }

  /** Some earlier step trusted the device for this user, after the user's second factor and not as long ago as the days
      it was trusted for. */
  ghost predicate InItsDays(s: State, es: seq<Step>, n: nat, raw: string, user: UserId)
    requires ValidRun(s, es) && n <= |es|
  {
    exists i :: 0 <= i < n && es[i].TrustDevice? && es[i].raw == raw
      && Before(s, es, n).now < Before(s, es, i).now + es[i].days * 86400000
      && SecondFactor(es[i].c, user) in Before(s, es, i).trace
  }

  lemma TrustIsInItsDays(s: State, es: seq<Step>, n: nat, user: UserId, device: Option<string>)
    requires Initial(s) && ValidRun(s, es) && n <= |es| && Trusted(Before(s, es, n), user, device)
    ensures InItsDays(s, es, n, device.value, user)
  {
    hide Apply; hide ValidRun; hide Before; hide Enabled;
    var i := DeviceOrigin(s, es, n, device.value);
    EarnedBefore(s, es, i);
    var b := Before(s, es, i);
    NextState(s, es, i);
    RememberedFactor(b, es[i]);
    hide EarnedInv;
  }

  lemma RememberedFactor(s: State, e: Step)
    requires EarnedInv(s) && Enabled(s, e) && e.TrustDevice?
    ensures SecondFactor(e.c, s.calls[e.c].user) in s.trace
  {
    assert CallOk(s.trace, e.c, s.calls[e.c]);
  }

  /** The step reads the device for call `c` and lets it open the session. */
  predicate ReadsDevice(s: State, e: Step, c: nat, user: UserId, raw: string, readAt: int) {
    && e == CheckDevice(c) && c in s.calls && s.calls[c].Enrolled? && s.calls[c].user == user && s.calls[c].device == Some(raw)
    && readAt == s.now && Trusted(s, user, Some(raw))
  }

  /** A pass on a device or the session opened with it. */
  predicate Uses(s: State, c: nat, user: UserId, raw: string, readAt: int) {
    || (c in s.calls && s.calls[c].MayOpen? && s.calls[c].user == user && s.calls[c].how == TrustedDevice(raw, readAt))
    || Session(c, user, TrustedDevice(raw, readAt)) in s.trace
  }

  lemma UseStep(s: State, e: Step, c: nat, user: UserId, raw: string, readAt: int)
    requires Enabled(s, e) && Uses(Apply(s, e), c, user, raw, readAt)
    ensures Uses(s, c, user, raw, readAt) || ReadsDevice(s, e, c, user, raw, readAt)
  {
    var x := Session(c, user, TrustedDevice(raw, readAt));
    if x in Apply(s, e).trace && x !in s.trace {
      SessionStep(s, e, x);
    } else if x !in s.trace {
      PassStep(s, e, c);
    }
    hide Apply; hide Enabled;
  }

  lemma SessionStep(s: State, e: Step, x: Event)
    requires Enabled(s, e) && x.Session? && x in Apply(s, e).trace && x !in s.trace
    ensures e == OpenSession(x.c) && s.calls[x.c].user == x.user && s.calls[x.c].how == x.how
  {
    assert x in Events(s, e);
    hide Moved;
  }

  lemma PassStep(s: State, e: Step, c: nat)
    requires Enabled(s, e) && c in Apply(s, e).calls
    requires Apply(s, e).calls[c].MayOpen? && Apply(s, e).calls[c].how.TrustedDevice?
    ensures var call := Apply(s, e).calls[c];
            (c in s.calls && s.calls[c] == call) || ReadsDevice(s, e, c, call.user, call.how.raw, call.how.readAt)
  {
    hide Events;
    if e == CheckDevice(c) {
    } else if Outside(e) {
      OutsideMovesNoCall(s, e);
    } else {
      OnlyOneCallMoves(s, e);
      if c == e.c { OtherPasses(s, e); }
    }
  }

  lemma OtherPasses(s: State, e: Step)
    requires Enabled(s, e) && !Outside(e) && !e.CheckDevice? && e.c in Apply(s, e).calls && Apply(s, e).calls[e.c].MayOpen?
    ensures !Apply(s, e).calls[e.c].how.TrustedDevice?
  {
    hide Events; hide AnonPasses; hide OwnCredential;
  }

  lemma {:induction false} UseOrigin(s: State, es: seq<Step>, n: nat, c: nat, user: UserId, raw: string, readAt: int) returns (j: nat)
    requires ValidRun(s, es) && n <= |es| && s.calls == map[] && s.trace == [] && Uses(Before(s, es, n), c, user, raw, readAt)
    ensures j < n && ReadsDevice(Before(s, es, j), es[j], c, user, raw, readAt)
  {
    hide Apply; hide Enabled; hide ReadsDevice;
    NextState(s, es, n - 1);
    UseStep(Before(s, es, n - 1), es[n - 1], c, user, raw, readAt);
    if ReadsDevice(Before(s, es, n - 1), es[n - 1], c, user, raw, readAt) {
      j := n - 1;
    } else {
      j := UseOrigin(s, es, n - 1, c, user, raw, readAt);
    }
  }

  /** In every run, a session that a device spared the second factor was let through by a reading of that device, and the
      device had become trusted before that reading, by a call that passed this user's second factor, and fewer
      milliseconds before it than its days have. */
  lemma TrustEnds(s: State, es: seq<Step>, c: nat, user: UserId, raw: string, readAt: int)
    requires Initial(s) && ValidRun(s, es) && Session(c, user, TrustedDevice(raw, readAt)) in Run(s, es).trace
    ensures exists j :: 0 <= j < |es| && es[j] == CheckDevice(c) && readAt == Before(s, es, j).now && InItsDays(s, es, j, raw, user)
  {
    AfterAll(s, es);
    hide Run; hide Apply; hide Enabled; hide Before; hide ValidRun; hide InItsDays;
    var j := UseOrigin(s, es, |es|, c, user, raw, readAt);
    TrustIsInItsDays(s, es, j, user, Some(raw));
  }

  // ----- signed tokens ----------------------------------------------------

  /** The step signs this token, good for a quarter of an hour. */
  predicate Signs(s: State, e: Step, t: Access) {
    match e
    case IssuePending(c) => c in s.calls && s.calls[c].NeedsFactor? && t == Access(s.calls[c].user, s.now / 1000 + 900, true, None)
    case OpenSession(c) => c in s.calls && s.calls[c].MayOpen? && t == Access(s.calls[c].user, s.now / 1000 + 900, false, None)
    case Refresh(user) => t == Access(user, s.now / 1000 + 900, false, None)
    case Impersonate(from, target) => t == Access(target, s.now / 1000 + 900, false, Some(from.sub))
    case _ => false
  }

  lemma SignStep(s: State, e: Step, t: Access)
    requires Enabled(s, e)
    ensures t in Apply(s, e).minted <==> t in s.minted || Signs(s, e, t)
  {
    hide Events; hide AnonPasses; hide OwnCredential; hide Trusted; hide AcceptsFull; hide AcceptsPending;
  }

  lemma {:induction false} SignedInRun(s: State, es: seq<Step>, n: nat, t: Access)
    requires ValidRun(s, es) && n <= |es| && s.minted == {}
    ensures t in Before(s, es, n).minted <==> exists i :: 0 <= i < n && Signs(Before(s, es, i), es[i], t)
  {
    hide Apply; hide Enabled; hide Signs;
    if n > 0 {
      SignedInRun(s, es, n - 1, t);
      NextState(s, es, n - 1);
      SignStep(Before(s, es, n - 1), es[n - 1], t);
    }
  }

  /** The routes accept exactly the tokens of accounts in use that some step of the run signed less than a quarter of an
      hour ago: as a pending one what a login signed that waits for its second factor, as a full one what a session, a
      refresh or an impersonation signed. */
  lemma AcceptedIff(s: State, es: seq<Step>, t: Access)
    requires Initial(s) && ValidRun(s, es)
    ensures AcceptsPending(Run(s, es), t) <==>
              && t.sub in Run(s, es).users
              && exists i :: 0 <= i < |es| && es[i].IssuePending? && Signs(Before(s, es, i), es[i], t)
                             && Run(s, es).now / 1000 < Before(s, es, i).now / 1000 + 900
    ensures AcceptsFull(Run(s, es), t) <==>
              && t.sub in Run(s, es).users
              && exists i :: 0 <= i < |es| && !es[i].IssuePending? && Signs(Before(s, es, i), es[i], t)
                             && Run(s, es).now / 1000 < Before(s, es, i).now / 1000 + 900
  {
    AfterAll(s, es);
    SignedInRun(s, es, |es|, t);
    hide Run; hide Apply; hide Enabled; hide Before; hide ValidRun;
  }
}
