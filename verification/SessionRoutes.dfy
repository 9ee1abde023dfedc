/** The login handlers themselves, each run without interruption (api/src/routes/session.ts,
    api/src/routes/mfaChallenge.ts) with the two lockout tables they consult (api/src/auth/loginLockout.ts and
    api/src/auth/mfaLockout.ts, the same code over two tables).  Their table and map writes are the steps of the interleaved machine, so whatever is
    proved of its runs holds of any sequence of these calls. */
module SessionRoutes {
  import opened Wrappers
  import opened Sessions
  import opened SessionSafety
  import Lockout

  datatype Response = Unauthorized | NotFound | ServerError | FullSession(token: Access) | Pending(token: Access) | Options

  /** What the client data of a passkey response yields: nothing, something that does not parse, or a challenge. */
  datatype ClientData = Absent | Unreadable | Naming(challenge: string)

  /** How the signature check ends. */
  datatype Check = Verified | Refuted | Thrown

  function FactorKey(email: string): string { "mfa:" + email }

  function PasskeyKey(credential: string): string { "passkey:" + credential }

  /** No account shares its lockout record with a passkey or with another account. */
  lemma KeysApart(email: string, other: string, credential: string)
    ensures FactorKey(email) != PasskeyKey(credential)
    ensures FactorKey(email) == FactorKey(other) ==> email == other
    ensures PasskeyKey(email) == PasskeyKey(other) ==> email == other
  {
    assert FactorKey(email)[0] != PasskeyKey(credential)[0];
    assert FactorKey(email)[4..] == email && FactorKey(other)[4..] == other;
    assert PasskeyKey(email)[8..] == email && PasskeyKey(other)[8..] == other;
  }

  lemma {:induction false} RunSnoc(s: State, es: seq<Step>, e: Step)
    requires ValidRun(s, es) && Enabled(Run(s, es), e)
    ensures ValidRun(s, es + [e]) && Run(s, es + [e]) == Apply(Run(s, es), e)
    decreases |es|
  {
    if es == [] {
      assert es + [e] == [e] && [e][1..] == [];
    } else {
      assert (es + [e])[0] == es[0] && (es + [e])[1..] == es[1..] + [e];
      hide Apply; hide Enabled;
      RunSnoc(Apply(s, es[0]), es[1..], e);
    }
  }

  /** Everything but the calls and the history. */
  predicate SameTables(a: State, b: State) {
    && a.now == b.now && a.users == b.users && a.deleted == b.deleted && a.enrolled == b.enrolled && a.passkeys == b.passkeys
    && a.devices == b.devices && a.minted == b.minted && a.refreshable == b.refreshable
    && a.anonChallenges == b.anonChallenges && a.userChallenges == b.userChallenges && a.generated == b.generated
  }

  /** The steps that only move their call on. */
  predicate MovesCall(e: Step) {
    e.PasswordOk? || e.ReadMethods? || e.CheckDevice? || e.PresentPending? || e.CheckCode? || e.CheckAssertion?
    || e.PresentPasskey? || e.CheckAnonAssertion?
  }

  lemma OnlyTheCallMoves(s: State, e: Step)
    requires Enabled(s, e) && MovesCall(e)
    ensures SameTables(s, Apply(s, e)) && e.c in Apply(s, e).calls
  {
    hide Events;
  }

  lemma LoginMoves(s: State, c: nat, user: UserId, device: Option<string>)
    ensures Enabled(s, PasswordOk(c, user, device)) ==> Apply(s, PasswordOk(c, user, device)).calls[c] == PasswordPassed(user, device)
    ensures Enabled(s, ReadMethods(c)) ==>
              Apply(s, ReadMethods(c)).calls[c] == (if s.calls[c].user in s.enrolled then Enrolled(s.calls[c].user, s.calls[c].device)
                                                    else MayOpen(s.calls[c].user, NothingEnrolled, false))
    ensures Enabled(s, CheckDevice(c)) ==>
              Apply(s, CheckDevice(c)).calls[c] == (if Trusted(s, s.calls[c].user, s.calls[c].device)
                                                    then MayOpen(s.calls[c].user, TrustedDevice(s.calls[c].device.value, s.now), false)
                                                    else NeedsFactor(s.calls[c].user))
  {
    hide Events; hide Trusted;
  }

  lemma FactorMoves(s: State, c: nat, t: Access, remember: bool, ok: bool, credential: string)
    ensures Enabled(s, PresentPending(c, t, remember)) ==>
              Apply(s, PresentPending(c, t, remember)).calls[c] == Challenged(t.sub, remember)
    ensures Enabled(s, CheckCode(c, ok)) ==>
              Apply(s, CheckCode(c, ok)).calls[c] == (if ok then MayOpen(s.calls[c].user, FactorNow, s.calls[c].remember) else Closed)
    ensures Enabled(s, CheckAssertion(c, credential, ok)) ==>
              Apply(s, CheckAssertion(c, credential, ok)).calls[c] ==
                (if OwnCredential(s, c, credential) && ok then MayOpen(s.calls[c].user, FactorNow, s.calls[c].remember) else Closed)
  {
    hide Events; hide OwnCredential;
  }

  lemma PasskeyMoves(s: State, c: nat, credential: string, ok: bool)
    ensures Enabled(s, PresentPasskey(c, credential)) ==>
              Apply(s, PresentPasskey(c, credential)).calls[c] == Presented(credential, s.passkeys[credential])
    ensures Enabled(s, CheckAnonAssertion(c, ok)) ==>
              Apply(s, CheckAnonAssertion(c, ok)).calls[c] ==
                (if AnonPasses(s, c, ok) then MayOpen(s.calls[c].owner, FactorNow, false) else Closed)
  {
    hide Events; hide AnonPasses;
  }

  lemma TakeUserMoves(s: State, c: nat)
    requires Enabled(s, TakeUserChallenge(c))
    ensures var t := Apply(s, TakeUserChallenge(c)); var user := s.calls[c].user;
            && SameTables(s.(userChallenges := s.userChallenges - {user}), t)
            && c in t.calls && t.calls[c] == if user in s.userChallenges then Asserting(user, s.userChallenges[user], s.calls[c].remember)
                                             else Closed
  {
    hide Events;
  }

  lemma TakeAnonMoves(s: State, c: nat, challenge: string)
    requires Enabled(s, TakeAnonChallenge(c, challenge))
    ensures var t := Apply(s, TakeAnonChallenge(c, challenge));
            var unexpired := challenge in s.anonChallenges && s.anonChallenges[challenge] > s.now;
            && SameTables(if unexpired then s.(anonChallenges := s.anonChallenges - {challenge}) else s, t)
            && c in t.calls && t.calls[c] == if unexpired then AssertingAnon(s.calls[c].owner, challenge) else Closed
  {
    hide Events;
  }

  function Full(s: State, user: UserId): Access { Access(user, s.now / 1000 + ACCESS_TTL_S, false, None) }

  /** The loop that drops expired challenges, in whatever order the map is walked. */
  method PruneExpired(challenges: map<string, int>, now: int) returns (kept: map<string, int>)
    ensures kept == map x | x in challenges && challenges[x] > now :: challenges[x]
  {
    kept := challenges;
    var todo := challenges.Keys;
    while todo != {}
      invariant todo <= challenges.Keys && kept.Keys <= challenges.Keys
      invariant forall x :: x in kept ==> kept[x] == challenges[x]
      invariant forall x :: x in challenges ==> (x in kept <==> x in todo || challenges[x] > now)
      decreases |todo|
    {
      var x :| x in todo;
      if challenges[x] <= now { kept := kept - {x}; }
      todo := todo - {x};
    }
  }

  class Server {
    var s: State
    var logins: Lockout.Records
    var factors: Lockout.Records
    ghost var start: State
    ghost var done: seq<Step>

    /** The present state is where the calls so far have led from an empty server. */
    ghost predicate Valid()
      reads `s, `start, `done
    {
      Initial(start) && ValidRun(start, done) && Run(start, done) == s
    }

    constructor (s: State)
      requires Initial(s)
      ensures Valid() && this.s == s && logins == factors == map[]
    {
      this.s, start, done, logins, factors := s, s, [], map[], map[];
    }

    method Do(e: Step)
      requires Valid() && Enabled(s, e)
      modifies `s, `done
      ensures Valid() && s == Apply(old(s), e)
    {
      hide Apply; hide Enabled;
      RunSnoc(start, done, e);
      s := Apply(s, e);
      done := done + [e];
    }

    method Advance(e: Step)
      requires Valid() && Enabled(s, e) && MovesCall(e)
      modifies `s, `done
      ensures Valid() && s == Apply(old(s), e) && SameTables(old(s), s) && e.c in s.calls
    {
      OnlyTheCallMoves(s, e);
      hide Apply; hide Enabled;
      Do(e);
    }

    /** The part of a login that opens the session of call `c`. */
    method Open(c: nat) returns (token: Access)
      requires Valid() && c in s.calls && s.calls[c].MayOpen?
      modifies `s, `done
      ensures Valid() && token == Full(s, old(s).calls[c].user)
      ensures SameTables(old(s).(minted := old(s).minted + {token}, refreshable := old(s).refreshable + {token.sub}), s)
      ensures c in s.calls && s.calls[c] == Opened(token.sub, old(s).calls[c].remember)
    {
      Do(OpenSession(c));
      token := Full(s, s.calls[c].user);
    }

    /** The end of a login that still needs a second factor. */
    method Issue(c: nat) returns (token: Access)
      requires Valid() && c in s.calls && s.calls[c].NeedsFactor?
      modifies `s, `done
      ensures Valid() && token == Access(old(s).calls[c].user, s.now / 1000 + PENDING_TTL_S, true, None)
      ensures SameTables(old(s).(minted := old(s).minted + {token}), s)
    {
      token := Access(s.calls[c].user, s.now / 1000 + PENDING_TTL_S, true, None);
      Do(IssuePending(c));
    }

    /** `issueTrustedDeviceToken`. */
    method Remember(c: nat, raw: string, days: nat)
      requires Valid() && c in s.calls && s.calls[c].Opened? && s.calls[c].remember && raw !in s.devices
      modifies `s, `done
      ensures Valid()
      ensures SameTables(old(s).(devices := old(s).devices[raw := Device(old(s).calls[c].user, old(s).now + days * DAY_MS)]), s)
    {
      Do(TrustDevice(c, raw, days));
    }

    /** `isLockedOut`, then the failure or success of the check under this key. */
    method Judge(records: Lockout.Records, key: string, passed: bool) returns (after: Lockout.Records)
      ensures after == Lockout.After(records, Lockout.Attempt(key, s.now, passed))
    {
      if Lockout.IsLocked(records, key, s.now) { return records; }
      after := if passed then Lockout.AfterReset(records, key) else Lockout.AfterFailure(records, key, s.now);
    }

    /** The part of a login after the password: whether a second factor is enrolled, and the device not trusted. */
    method AskForFactor(c: nat, user: UserId, device: Option<string>) returns (asked: bool)
      requires Valid() && c !in s.calls && user in s.users
      modifies `s, `done
      ensures Valid() && SameTables(old(s), s) && c in s.calls
      ensures asked <==> user in old(s).enrolled && !Trusted(old(s), user, device)
      ensures if asked then s.calls[c] == NeedsFactor(user) else s.calls[c].MayOpen? && s.calls[c].user == user
    {
      hide Apply; hide Valid;
      LoginMoves(s, c, user, device);
      Advance(PasswordOk(c, user, device));
      LoginMoves(s, c, user, device);
      Advance(ReadMethods(c));
      if s.calls[c].MayOpen? { return false; }
      LoginMoves(s, c, user, device);
      Advance(CheckDevice(c));
      asked := s.calls[c].NeedsFactor?;
    }

    /** The rest of a login whose password was right. */
    method LoginWithPassword(c: nat, user: UserId, device: Option<string>) returns (r: Response)
      requires Valid() && c !in s.calls && user in s.users
      modifies `s, `done
      ensures Valid()
      ensures r.FullSession? <==> user !in old(s).enrolled || Trusted(old(s), user, device)
      ensures r.FullSession? ==> r.token == Full(s, user) && s.refreshable == old(s).refreshable + {user}
      ensures r.Pending? ==> r.token == Access(user, s.now / 1000 + 900, true, None) && s.refreshable == old(s).refreshable
      ensures (r.FullSession? || r.Pending?) && s.minted == old(s).minted + {r.token}
      ensures s.devices == old(s).devices && s.now == old(s).now
    {
      hide Apply; hide Valid; hide Trusted;
      var asked := AskForFactor(c, user, device);
      if asked {
        var pending := Issue(c);
        return Pending(pending);
      }
      var token := Open(c);
      r := FullSession(token);
    }

    /** POST /session with the email, its account, if any, and the outcome of the password check. */
    method PasswordLogin(c: nat, email: string, user: Option<UserId>, passwordValid: bool, device: Option<string>) returns (r: Response)
      requires Valid() && c !in s.calls
      modifies this
      ensures Valid()
      ensures r == Unauthorized <==> Lockout.IsLocked(old(logins), email, s.now) || user.None? || user.value !in old(s).users || !passwordValid
      ensures r == Unauthorized ==> s == old(s)
      ensures logins == Lockout.After(old(logins), Lockout.Attempt(email, s.now, user.Some? && user.value in old(s).users && passwordValid))
      ensures r.FullSession? <==>
                && r != Unauthorized
                && (user.value in old(s).enrolled ==>
                      && device.Some? && device.value != "" && device.value in old(s).devices
                      && old(s).devices[device.value].user == user.value && old(s).now < old(s).devices[device.value].expiresAt)
      ensures r.FullSession? ==>
                r.token == Access(user.value, s.now / 1000 + 900, false, None) && s.refreshable == old(s).refreshable + {user.value}
      ensures r.Pending? ==> r.token == Access(user.value, s.now / 1000 + 900, true, None) && s.refreshable == old(s).refreshable
      ensures r != Unauthorized ==> (r.FullSession? || r.Pending?) && s.minted == old(s).minted + {r.token}
      ensures s.devices == old(s).devices && s.now == old(s).now && factors == old(factors)
    {
      hide Apply; hide Valid; hide Lockout.AfterFailure; hide Lockout.AfterReset; hide Lockout.IsLocked;
      if Lockout.IsLocked(logins, email, s.now) { return Unauthorized; }
      if user.None? || user.value !in s.users || !passwordValid {
        logins := Lockout.AfterFailure(logins, email, s.now);
        return Unauthorized;
      }
      logins := Lockout.AfterReset(logins, email);
      r := LoginWithPassword(c, user.value, device);
    }

    /** The end of both challenge handlers: session, then the device if it is to be remembered. */
    method OpenAndRemember(c: nat, raw: string, days: nat) returns (token: Access)
      requires Valid() && c in s.calls && s.calls[c].MayOpen? && (s.calls[c].remember ==> raw !in s.devices)
      modifies `s, `done
      ensures Valid() && token == Full(s, old(s).calls[c].user) && s.now == old(s).now
      ensures s.minted == old(s).minted + {token} && s.refreshable == old(s).refreshable + {token.sub}
      ensures s.devices == if old(s).calls[c].remember then old(s).devices[raw := Device(token.sub, s.now + days * 86400000)]
                           else old(s).devices
      ensures s.userChallenges == old(s).userChallenges && s.anonChallenges == old(s).anonChallenges
    {
      hide Apply; hide Valid;
      token := Open(c);
      if s.calls[c].remember { Remember(c, raw, days); }
    }

    /** POST /mfa/challenge/verify with the email of the token's user and the outcome of the code check. */
    method VerifyCode(c: nat, token: Access, email: string, codeOk: bool, remember: bool, raw: string, days: nat) returns (r: Response)
      requires Valid() && c !in s.calls && raw !in s.devices
      modifies this
      ensures Valid() && logins == old(logins)
      ensures r == (if AcceptsPending(old(s), token) && !Lockout.IsLocked(old(factors), FactorKey(email), s.now) && codeOk
                    then FullSession(Full(s, token.sub)) else Unauthorized)
      ensures factors == if AcceptsPending(old(s), token)
                         then Lockout.After(old(factors), Lockout.Attempt(FactorKey(email), s.now, codeOk)) else old(factors)
      ensures r == Unauthorized ==> s.minted == old(s).minted && s.devices == old(s).devices && s.refreshable == old(s).refreshable
      ensures r != Unauthorized ==>
                && s.minted == old(s).minted + {r.token} && s.refreshable == old(s).refreshable + {token.sub}
                && s.devices == if remember then old(s).devices[raw := Device(token.sub, s.now + days * 86400000)] else old(s).devices
      ensures s.now == old(s).now
    {
      hide Apply; hide Valid; hide Lockout.AfterFailure; hide Lockout.AfterReset; hide AcceptsPending; hide Lockout.IsLocked;
      if !AcceptsPending(s, token) { return Unauthorized; }
      var locked := Lockout.IsLocked(factors, FactorKey(email), s.now);
      factors := Judge(factors, FactorKey(email), codeOk);
      if locked { return Unauthorized; }
      CodeFactor(c, token, codeOk, remember);
      if !codeOk { return Unauthorized; }
      var granted := OpenAndRemember(c, raw, days);
      r := FullSession(granted);
    }

    /** The part of the code check between the lockout and the session. */
    method CodeFactor(c: nat, token: Access, codeOk: bool, remember: bool)
      requires Valid() && c !in s.calls && AcceptsPending(s, token)
      modifies `s, `done
      ensures Valid() && SameTables(old(s), s) && c in s.calls
      ensures codeOk ==> s.calls[c] == MayOpen(token.sub, FactorNow, remember)
    {
      hide Apply; hide Valid;
      FactorMoves(s, c, token, remember, codeOk, "");
      Advance(PresentPending(c, token, remember));
      FactorMoves(s, c, token, remember, codeOk, "");
      Advance(CheckCode(c, codeOk));
    }

    /** POST /mfa/challenge/passkey/options: not found for a user without passkeys. */
    method UserPasskeyOptions(token: Access, challenge: string) returns (r: Response)
      requires Valid() && challenge !in s.generated
      modifies this
      ensures Valid() && logins == old(logins) && factors == old(factors)
      ensures r == Unauthorized <==> !AcceptsPending(old(s), token)
      ensures r == Options <==> AcceptsPending(old(s), token) && token.sub in old(s).passkeys.Values
      ensures r == Unauthorized || r == NotFound || r == Options
      ensures s.userChallenges == if r == Options then old(s).userChallenges[token.sub := challenge] else old(s).userChallenges
      ensures s.minted == old(s).minted
    {
      if !AcceptsPending(s, token) { return Unauthorized; }
      if token.sub !in s.passkeys.Values { return NotFound; }
      Do(UserOptions(token, challenge));
      r := Options;
    }

    /** POST /mfa/challenge/passkey/verify with the email of the token's user.  A locked account is refused before its
        challenge is looked at; otherwise the challenge is burnt whatever the outcome.  A check that throws, an id that is
        no string and a foreign credential all count as failures. */
    method VerifyUserPasskey(c: nat, token: Access, email: string, credential: Option<string>, check: Check,
                             remember: bool, raw: string, days: nat)
      returns (r: Response)
      requires Valid() && c !in s.calls && raw !in s.devices
      modifies this
      ensures Valid() && logins == old(logins)
      ensures var o := old(s);
              var reached := AcceptsPending(o, token) && !Lockout.IsLocked(old(factors), FactorKey(email), o.now);
              var passed := && token.sub in o.userChallenges && credential.Some? && credential.value in o.passkeys
                            && o.passkeys[credential.value] == token.sub && check == Verified;
              && r == (if reached && passed then FullSession(Full(s, token.sub)) else Unauthorized)
              && s.userChallenges == (if reached then o.userChallenges - {token.sub} else o.userChallenges)
              && factors == (if AcceptsPending(o, token)
                             then Lockout.After(old(factors), Lockout.Attempt(FactorKey(email), o.now, passed)) else old(factors))
              && s.minted == (if r == Unauthorized then o.minted else o.minted + {r.token})
              && s.now == o.now
    {
      hide Apply; hide Valid; hide Lockout.AfterFailure; hide Lockout.AfterReset;
      if !AcceptsPending(s, token) { return Unauthorized; }
      if Lockout.IsLocked(factors, FactorKey(email), s.now) { return Unauthorized; }
      var granted := AssertFactor(c, token, credential, check, remember);
      factors := Judge(factors, FactorKey(email), granted);
      if !granted { return Unauthorized; }
      var session := OpenAndRemember(c, raw, days);
      r := FullSession(session);
    }

    /** The part of the passkey check between the lockout and its bookkeeping. */
    method AssertFactor(c: nat, token: Access, credential: Option<string>, check: Check, remember: bool) returns (granted: bool)
      requires Valid() && c !in s.calls && AcceptsPending(s, token)
      modifies `s, `done
      ensures Valid() && SameTables(old(s).(userChallenges := old(s).userChallenges - {token.sub}), s)
      ensures granted <==> && token.sub in old(s).userChallenges && credential.Some? && credential.value in old(s).passkeys
                           && old(s).passkeys[credential.value] == token.sub && check == Verified
      ensures granted ==> c in s.calls && s.calls[c] == MayOpen(token.sub, FactorNow, remember)
    {
      hide Apply; hide Valid;
      FactorMoves(s, c, token, remember, check == Verified, "");
      Advance(PresentPending(c, token, remember));
      TakeUserMoves(s, c);
      Do(TakeUserChallenge(c));
      if s.calls[c].Closed? || credential.None? { return false; }
      FactorMoves(s, c, token, remember, check == Verified, credential.value);
      Advance(CheckAssertion(c, credential.value, check == Verified));
      granted := s.calls[c].MayOpen?;
    }

    /** POST /session/passkey/options: expired challenges go, the new one lives five minutes. */
    method PasskeyOptions(challenge: string)
      requires Valid() && challenge !in s.generated
      modifies this
      ensures Valid() && s.minted == old(s).minted && logins == old(logins) && factors == old(factors)
      ensures forall x :: x in s.anonChallenges <==> x == challenge || (x in old(s).anonChallenges && old(s).anonChallenges[x] > s.now)
      ensures s.anonChallenges[challenge] == s.now + 300000
      ensures forall x :: x in s.anonChallenges && x != challenge ==> s.anonChallenges[x] == old(s).anonChallenges[x]
    {
      var kept := PruneExpired(s.anonChallenges, s.now);
      Do(AnonOptions(challenge));
      assert s.anonChallenges == kept[challenge := s.now + CHALLENGE_TTL_MS];
    }

    /** POST /session/passkey/verify: an unlocked stored credential, an unexpired challenge, a good signature, an account
        in use.  A check that throws and an account that vanished end in a server error, and neither is recorded. */
    method VerifyPasskey(c: nat, credential: Option<string>, client: ClientData, check: Check) returns (r: Response)
      requires Valid() && c !in s.calls
      modifies this
      ensures Valid() && logins == old(logins)
      ensures var o := old(s);
              var reached := credential.Some? && credential.value != "" && !Lockout.IsLocked(old(factors), PasskeyKey(credential.value), o.now);
              var known := reached && credential.value in o.passkeys;
              var taken := known && client.Naming? && client.challenge != "" && client.challenge in o.anonChallenges
                           && o.now < o.anonChallenges[client.challenge];
              && (r.FullSession? <==> taken && check == Verified && o.passkeys[credential.value] in o.users
                                      && o.passkeys[credential.value] !in o.deleted)
              && (r == ServerError <==> known && (client.Unreadable? || (taken && check == Thrown)
                                                  || (taken && check == Verified && o.passkeys[credential.value] !in o.users)))
              && (r.FullSession? || r == ServerError || r == Unauthorized)
              && (r.FullSession? ==> r.token == Full(s, o.passkeys[credential.value]))
              && s.anonChallenges == (if taken then o.anonChallenges - {client.challenge} else o.anonChallenges)
              && factors == (if (reached && !known) || (taken && check == Refuted)
                             then Lockout.AfterFailure(old(factors), PasskeyKey(credential.value), o.now)
                             else if taken && check == Verified then Lockout.AfterReset(old(factors), PasskeyKey(credential.value))
                             else old(factors))
              && s.minted == (if r.FullSession? then o.minted + {r.token} else o.minted)
              && s.now == o.now
    {
      hide Apply; hide Valid; hide Lockout.AfterFailure; hide Lockout.AfterReset;
      if credential.None? || credential.value == "" { return Unauthorized; }
      var id := credential.value;
      if Lockout.IsLocked(factors, PasskeyKey(id), s.now) { return Unauthorized; }
      if id !in s.passkeys {
        factors := Lockout.AfterFailure(factors, PasskeyKey(id), s.now);
        return Unauthorized;
      }
      if client.Unreadable? { return ServerError; }
      if client.Absent? || client.challenge == "" { return Unauthorized; }
      var taken, passed := AssertAlone(c, id, client.challenge, check == Verified);
      if !taken { return Unauthorized; }
      if check == Thrown { return ServerError; }
      if check == Refuted {
        factors := Lockout.AfterFailure(factors, PasskeyKey(id), s.now);
        return Unauthorized;
      }
      factors := Lockout.AfterReset(factors, PasskeyKey(id));
      if s.passkeys[id] !in s.users { return ServerError; }
      if !passed { return Unauthorized; }
      var granted := Open(c);
      r := FullSession(granted);
    }

    /** The challenge is taken if it is on offer and unexpired, and the signature checked against it. */
    method AssertAlone(c: nat, id: string, challenge: string, signatureOk: bool) returns (taken: bool, passed: bool)
      requires Valid() && c !in s.calls && id in s.passkeys
      modifies `s, `done
      ensures Valid()
      ensures taken <==> challenge in old(s).anonChallenges && old(s).now < old(s).anonChallenges[challenge]
      ensures SameTables(if taken then old(s).(anonChallenges := old(s).anonChallenges - {challenge}) else old(s), s)
      ensures passed <==> taken && signatureOk && old(s).passkeys[id] in old(s).users && old(s).passkeys[id] !in old(s).deleted
      ensures passed ==> c in s.calls && s.calls[c] == MayOpen(old(s).passkeys[id], FactorNow, false)
    {
      hide Apply; hide Valid;
      PasskeyMoves(s, c, id, signatureOk);
      Advance(PresentPasskey(c, id));
      TakeAnonMoves(s, c, challenge);
      Do(TakeAnonChallenge(c, challenge));
      if s.calls[c].Closed? { return false, false; }
      PasskeyMoves(s, c, id, signatureOk);
      Advance(CheckAnonAssertion(c, signatureOk));
      taken, passed := true, s.calls[c].MayOpen?;
    }
  }
}
