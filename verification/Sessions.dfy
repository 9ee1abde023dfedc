/** Login, second factor and passwordless login as interleaved handler calls (api/src/routes/session.ts,
    api/src/routes/mfaChallenge.ts, api/src/auth/deviceTrust.ts, api/src/auth/jwt.ts) beside the impersonation route
    (api/src/routes/members.ts).  Password, code, signature and ability checks are outcomes the environment chooses; tokens and challenges are fresh values. */
module Sessions {
  import opened Wrappers

  type UserId = int

  const PENDING_TTL_S := 900
  const ACCESS_TTL_S := 900
  const CHALLENGE_TTL_MS := 300000
  const DAY_MS := 86400000

  /** A signed access token, with its expiry in whole seconds: `pending` marks a challenge token, `act` names the impersonator behind it. */
  datatype Access = Access(sub: UserId, exp: int, pending: bool, act: Option<UserId>)

  datatype Device = Device(user: UserId, expiresAt: int)

  /** How a session was justified; a device counts as it was when it was read. */
  datatype How = NothingEnrolled | FactorNow | TrustedDevice(raw: string, readAt: int)

  datatype Event =
    | MethodsRead(c: nat, user: UserId, enrolled: bool)
    | SecondFactor(c: nat, user: UserId)
    | DeviceTrusted(c: nat, raw: string, user: UserId, at: int, days: nat)
    | Impersonated(actor: UserId, target: UserId)
    | Session(c: nat, user: UserId, how: How)
    | Verification(challenge: string)

  /** The await a handler stands at. */
  datatype Call =
    | PasswordPassed(user: UserId, device: Option<string>)
    | Enrolled(user: UserId, device: Option<string>)
    | NeedsFactor(user: UserId)
    | MayOpen(user: UserId, how: How, remember: bool)
    | Challenged(user: UserId, remember: bool)
    | Asserting(user: UserId, challenge: string, remember: bool)
    | Presented(credential: string, owner: UserId)
    | AssertingAnon(owner: UserId, challenge: string)
    | Opened(user: UserId, remember: bool)
    | Closed

  datatype State = State(now: int, users: set<UserId>, deleted: set<UserId>, enrolled: set<UserId>,
                         passkeys: map<string, UserId>, devices: map<string, Device>,
                         minted: set<Access>, refreshable: set<UserId>,
                         anonChallenges: map<string, int>, userChallenges: map<UserId, string>, generated: map<string, int>,
                         calls: map<nat, Call>, trace: seq<Event>)

  datatype Step =
    | Tick(t: int)
    | SetAccounts(users: set<UserId>, deleted: set<UserId>, enrolled: set<UserId>, passkeys: map<string, UserId>)
    | DropDevices(raws: set<string>)
    | PasswordOk(c: nat, user: UserId, device: Option<string>)
    | ReadMethods(c: nat)
    | CheckDevice(c: nat)
    | IssuePending(c: nat)
    | PresentPending(c: nat, token: Access, remember: bool)
    | CheckCode(c: nat, ok: bool)
    | UserOptions(token: Access, challenge: string)
    | TakeUserChallenge(c: nat)
    | CheckAssertion(c: nat, credential: string, ok: bool)
    | AnonOptions(challenge: string)
    | PresentPasskey(c: nat, credential: string)
    | TakeAnonChallenge(c: nat, challenge: string)
    | CheckAnonAssertion(c: nat, ok: bool)
    | OpenSession(c: nat)
    | TrustDevice(c: nat, raw: string, days: nat)
    | Refresh(user: UserId)
    | Impersonate(token: Access, target: UserId)

  predicate Verifies(s: State, t: Access) { t in s.minted && t.exp > s.now / 1000 && t.sub in s.users }

  /** `requireMfaPendingToken`. */
  predicate AcceptsPending(s: State, t: Access) { Verifies(s, t) && t.pending }

  /** `authenticateApiUser`. */
  predicate AcceptsFull(s: State, t: Access) { Verifies(s, t) && !t.pending }

  predicate Trusted(s: State, user: UserId, device: Option<string>) {
    device.Some? && device.value != "" && device.value in s.devices
    && s.devices[device.value].user == user && s.devices[device.value].expiresAt > s.now
  }

  predicate Enabled(s: State, e: Step) {
    match e
    case Tick(t) => s.now <= t
    case SetAccounts(_, _, _, _) => true
    case DropDevices(_) => true
    case PasswordOk(c, user, _) => c !in s.calls && user in s.users
    case ReadMethods(c) => c in s.calls && s.calls[c].PasswordPassed?
    case CheckDevice(c) => c in s.calls && s.calls[c].Enrolled?
    case IssuePending(c) => c in s.calls && s.calls[c].NeedsFactor?
    case PresentPending(c, t, _) => c !in s.calls && AcceptsPending(s, t)
    case CheckCode(c, _) => c in s.calls && s.calls[c].Challenged?
    case UserOptions(t, challenge) => AcceptsPending(s, t) && challenge !in s.generated
    case TakeUserChallenge(c) => c in s.calls && s.calls[c].Challenged?
    case CheckAssertion(c, _, _) => c in s.calls && s.calls[c].Asserting?
    case AnonOptions(challenge) => challenge !in s.generated
    case PresentPasskey(c, credential) => c !in s.calls && credential in s.passkeys
    case TakeAnonChallenge(c, _) => c in s.calls && s.calls[c].Presented?
    case CheckAnonAssertion(c, _) => c in s.calls && s.calls[c].AssertingAnon?
    case OpenSession(c) => c in s.calls && s.calls[c].MayOpen?
    case TrustDevice(c, raw, _) => c in s.calls && s.calls[c].Opened? && s.calls[c].remember && raw !in s.devices
    case Refresh(user) => user in s.refreshable && user in s.users
    case Impersonate(t, target) => AcceptsFull(s, t) && target in s.users
  }

  function To(s: State, c: nat, call: Call): State { s.(calls := s.calls[c := call]) }

  /** The passed factor of a passwordless check: a good signature of a user who is not deleted. */
  predicate AnonPasses(s: State, c: nat, ok: bool)
    requires Enabled(s, CheckAnonAssertion(c, ok))
  {
    ok && s.calls[c].owner in s.users && s.calls[c].owner !in s.deleted
  }

  /** The credential of a passkey check must belong to the user the challenge token names. */
  predicate OwnCredential(s: State, c: nat, credential: string)
    requires c in s.calls && s.calls[c].Asserting?
  {
    credential in s.passkeys && s.passkeys[credential] == s.calls[c].user
  }

  /** What a step does, apart from the history it leaves. */
  function Moved(s: State, e: Step): State
    requires Enabled(s, e)
  {
    match e
    case Tick(t) => s.(now := t)
    case SetAccounts(us, ds, es, ps) => s.(users := us, deleted := ds, enrolled := es, passkeys := ps)
    case DropDevices(raws) => s.(devices := s.devices - raws)
    case PasswordOk(c, user, device) => To(s, c, PasswordPassed(user, device))
    case ReadMethods(c) =>
      var call := s.calls[c];
      To(s, c, if call.user in s.enrolled then Enrolled(call.user, call.device) else MayOpen(call.user, NothingEnrolled, false))
    case CheckDevice(c) =>
      var call := s.calls[c];
      To(s, c, if Trusted(s, call.user, call.device) then MayOpen(call.user, TrustedDevice(call.device.value, s.now), false)
               else NeedsFactor(call.user))
    case IssuePending(c) =>
      To(s, c, Closed).(minted := s.minted + {Access(s.calls[c].user, s.now / 1000 + PENDING_TTL_S, true, None)})
    case PresentPending(c, t, remember) => To(s, c, Challenged(t.sub, remember))
    case CheckCode(c, ok) =>
      To(s, c, if ok then MayOpen(s.calls[c].user, FactorNow, s.calls[c].remember) else Closed)
    case UserOptions(t, challenge) =>
      s.(userChallenges := s.userChallenges[t.sub := challenge], generated := s.generated[challenge := s.now])
    case TakeUserChallenge(c) =>
      var call := s.calls[c];
      // get and delete in one synchronous stretch, whatever the outcome
      if call.user in s.userChallenges then
        To(s, c, Asserting(call.user, s.userChallenges[call.user], call.remember)).(userChallenges := s.userChallenges - {call.user})
      else To(s, c, Closed)
    case CheckAssertion(c, credential, ok) =>
      var call := s.calls[c];
      To(s, c, if OwnCredential(s, c, credential) && ok then MayOpen(call.user, FactorNow, call.remember) else Closed)
    case AnonOptions(challenge) =>
      var kept := map x | x in s.anonChallenges && s.anonChallenges[x] > s.now :: s.anonChallenges[x];
      s.(anonChallenges := kept[challenge := s.now + CHALLENGE_TTL_MS], generated := s.generated[challenge := s.now])
    case PresentPasskey(c, credential) => To(s, c, Presented(credential, s.passkeys[credential]))
    case TakeAnonChallenge(c, challenge) =>
      // get, expiry check and delete in one synchronous stretch
      if challenge in s.anonChallenges && s.anonChallenges[challenge] > s.now then
        To(s, c, AssertingAnon(s.calls[c].owner, challenge)).(anonChallenges := s.anonChallenges - {challenge})
      else To(s, c, Closed)
    case CheckAnonAssertion(c, ok) =>
      To(s, c, if AnonPasses(s, c, ok) then MayOpen(s.calls[c].owner, FactorNow, false) else Closed)
    case OpenSession(c) =>
      var call := s.calls[c];
      To(s, c, Opened(call.user, call.remember)).(
        refreshable := s.refreshable + {call.user},
        minted := s.minted + {Access(call.user, s.now / 1000 + ACCESS_TTL_S, false, None)})
    case TrustDevice(c, raw, days) =>
      To(s, c, Closed).(devices := s.devices[raw := Device(s.calls[c].user, s.now + days * DAY_MS)])
    case Refresh(user) => s.(minted := s.minted + {Access(user, s.now / 1000 + ACCESS_TTL_S, false, None)})
    case Impersonate(t, target) => s.(minted := s.minted + {Access(target, s.now / 1000 + ACCESS_TTL_S, false, Some(t.sub))})
  }

  /** The events a step adds to the history. */
  function Events(s: State, e: Step): seq<Event>
    requires Enabled(s, e)
  {
    match e
    case ReadMethods(c) => [MethodsRead(c, s.calls[c].user, s.calls[c].user in s.enrolled)]
    case CheckCode(c, ok) => if ok then [SecondFactor(c, s.calls[c].user)] else []
    case CheckAssertion(c, credential, ok) =>
      if !OwnCredential(s, c, credential) then []
      else [Verification(s.calls[c].challenge)] + if ok then [SecondFactor(c, s.calls[c].user)] else []
    case CheckAnonAssertion(c, ok) =>
      [Verification(s.calls[c].challenge)] + if AnonPasses(s, c, ok) then [SecondFactor(c, s.calls[c].owner)] else []
    case OpenSession(c) => [Session(c, s.calls[c].user, s.calls[c].how)]
    case TrustDevice(c, raw, days) => [DeviceTrusted(c, raw, s.calls[c].user, s.now, days)]
    case Impersonate(t, target) => [Impersonated(t.sub, target)]
    case _ => []
  }

  function Apply(s: State, e: Step): State
    requires Enabled(s, e)
  {
    Moved(s, e).(trace := s.trace + Events(s, e))
  }

  ghost predicate ValidRun(s: State, es: seq<Step>)
    decreases |es|
  {
    es == [] || (Enabled(s, es[0]) && ValidRun(Apply(s, es[0]), es[1..]))
  }

  ghost function Run(s: State, es: seq<Step>): State
    requires ValidRun(s, es)
    decreases |es|
  {
    if es == [] then s else Run(Apply(s, es[0]), es[1..])
  }

  predicate Initial(s: State) {
    s.devices == map[] && s.minted == {} && s.refreshable == {} && s.anonChallenges == map[] && s.userChallenges == map[]
    && s.generated == map[] && s.calls == map[] && s.trace == []
  }
}
