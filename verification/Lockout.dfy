/** Per-email login lockout (api/src/auth/loginLockout.ts) under the password check of the login
    route (api/src/routes/session.ts), one attempt at a time. */
module Lockout {
  import opened Wrappers

  const LOCKOUT_THRESHOLD := 5
  const BASE_LOCK_MS := 30000
  const MAX_LOCK_MS := 900000

  function Pow2(n: nat): (p: nat)
    ensures p >= 1
  {
    if n == 0 then 1 else 2 * Pow2(n - 1)
  }

  /** Milliseconds of lock after the given consecutive failure. */
  function LockDurationMs(failedCount: nat): nat
    requires failedCount >= LOCKOUT_THRESHOLD
  {
    var d := BASE_LOCK_MS * Pow2(failedCount - LOCKOUT_THRESHOLD);
    if d < MAX_LOCK_MS then d else MAX_LOCK_MS
  }

  datatype Record = Record(failedCount: nat, lockedUntil: Option<int>)

  type Records = map<string, Record>

  predicate IsLocked(m: Records, email: string, now: int) {
    email in m && m[email].lockedUntil.Some? && m[email].lockedUntil.value > now
  }

  function Count(m: Records, email: string): nat { if email in m then m[email].failedCount else 0 }

  function Lock(m: Records, email: string): Option<int> { if email in m then m[email].lockedUntil else None }

  function AfterFailure(m: Records, email: string, now: int): Records {
    var n := Count(m, email) + 1;
    m[email := Record(n, if n >= LOCKOUT_THRESHOLD then Some(now + LockDurationMs(n)) else None)]
  }

  function AfterReset(m: Records, email: string): Records {
    if email in m then m[email := Record(0, None)] else m
  }

  class LoginLockouts {
    var records: Records

    method IsLockedOut(email: string, now: int) returns (locked: bool)
      ensures locked <==> IsLocked(records, email, now)
      ensures forall valid :: VerdictOf(records, Attempt(email, now, valid)) == Blocked <==> locked
    {
      locked := email in records && records[email].lockedUntil.Some? && records[email].lockedUntil.value > now;
    }

    method RecordFailedLogin(email: string, now: int) returns (lockedOut: bool)
      modifies this
      ensures records == AfterFailure(old(records), email, now)
      ensures lockedOut <==> Count(records, email) >= LOCKOUT_THRESHOLD
    {
      var failedCount := (if email in records then records[email].failedCount else 0) + 1;
      lockedOut := failedCount >= LOCKOUT_THRESHOLD;
      var lockedUntil := None;
      if lockedOut {
        lockedUntil := Some(now + LockDurationMs(failedCount));
      }
      records := records[email := Record(failedCount, lockedUntil)];
    }

    method ResetLoginLockout(email: string)
      modifies this
      ensures records == AfterReset(old(records), email)
      ensures records.Keys == old(records).Keys && (email in records ==> records[email] == Record(0, None))
    {
      if email in records {
        records := records[email := Record(0, None)];
      }
    }

    /** The password half of the login handler: a locked email is refused before the password is looked at. */
    method TryLogin(a: Attempt) returns (v: Verdict)
      modifies this
      ensures (v, records) == (VerdictOf(old(records), a), After(old(records), a))
    {
      var locked := IsLockedOut(a.email, a.at);
      if locked { return Blocked; }
      if !a.passwordValid {
        var lockedOut := RecordFailedLogin(a.email, a.at);
        return Failed(lockedOut);
      }
      ResetLoginLockout(a.email);
      return Accepted;
    }
  }

  datatype Attempt = Attempt(email: string, at: int, passwordValid: bool)

  datatype Verdict = Blocked | Failed(lockedOut: bool) | Accepted

  function VerdictOf(m: Records, a: Attempt): Verdict {
    if IsLocked(m, a.email, a.at) then Blocked
    else if a.passwordValid then Accepted
    else Failed(Count(m, a.email) + 1 >= LOCKOUT_THRESHOLD)
  }

  function After(m: Records, a: Attempt): Records {
    match VerdictOf(m, a)
    case Blocked => m
    case Failed(_) => AfterFailure(m, a.email, a.at)
    case Accepted => AfterReset(m, a.email)
  }

  // ----- runs -------------------------------------------------------------

  function AfterAll(m: Records, run: seq<Attempt>): Records
    decreases |run|
  {
    if run == [] then m else AfterAll(After(m, run[0]), run[1..])
  }

  /** The times at which a failure of this email is recorded. */
  function FailureTimes(m: Records, run: seq<Attempt>, email: string): seq<int>
    decreases |run|
  {
    if run == [] then []
    else (if run[0].email == email && VerdictOf(m, run[0]).Failed? then [run[0].at] else [])
         + FailureTimes(After(m, run[0]), run[1..], email)
  }

  predicate NoSuccess(m: Records, run: seq<Attempt>, email: string)
    decreases |run|
  {
    run == [] || (!(run[0].email == email && VerdictOf(m, run[0]).Accepted?) && NoSuccess(After(m, run[0]), run[1..], email))
  }

  /** Failures recorded after the last accepted attempt of this email, counting `sofar` before the run. */
  function SinceReset(m: Records, run: seq<Attempt>, email: string, sofar: nat): nat
    decreases |run|
  {
    if run == [] then sofar
    else
      var v := VerdictOf(m, run[0]);
      var now := if run[0].email != email then sofar
                 else if v.Accepted? then 0
                 else if v.Failed? then sofar + 1 else sofar;
      SinceReset(After(m, run[0]), run[1..], email, now)
  }

  /** The stored count is the number of failures recorded since the last accepted attempt, whatever happens on other emails. */
  lemma {:induction false} CountIsFailuresSinceReset(m: Records, run: seq<Attempt>, email: string)
    ensures Count(AfterAll(m, run), email) == SinceReset(m, run, email, Count(m, email))
    decreases |run|
  {
    if run != [] {
      CountIsFailuresSinceReset(After(m, run[0]), run[1..], email);
    }
  }

  /** The lock times: half a minute after the fifth failure, twice as long after each further one, never more than
      fifteen minutes. */
  function LockTable(n: nat): nat
    requires n >= 5
  {
    if n < 10 then [30000, 60000, 120000, 240000, 480000][n - 5] else 900000
  }

  lemma LocksByTable(n: nat)
    requires n >= 5
    ensures LOCKOUT_THRESHOLD == 5 && LockDurationMs(n) == LockTable(n)
  {
    assert Pow2(4) == 2 * Pow2(3) == 4 * Pow2(2) == 8 * Pow2(1) == 16;
    if n >= 10 { LongLocks(n); }
  }

  /** A failure locks its email exactly from the fifth in a row on, exactly for its lock time, and locks no other. */
  lemma LockedExactlyUntil(m: Records, email: string, at: int, later: int)
    ensures IsLocked(AfterFailure(m, email, at), email, later) <==>
              Count(m, email) + 1 >= 5 && later < at + LockTable(Count(m, email) + 1)
    ensures forall other :: other != email ==> (IsLocked(AfterFailure(m, email, at), other, later) <==> IsLocked(m, other, later))
    ensures !IsLocked(AfterReset(m, email), email, later)
  {
    if Count(m, email) + 1 >= 5 { LocksByTable(Count(m, email) + 1); }
    hide LockDurationMs; hide LockTable;
  }

  /** Attempts on other emails change nothing for this one. */
  lemma OtherEmailsApart(m: Records, a: Attempt, email: string)
    requires a.email != email
    ensures Count(After(m, a), email) == Count(m, email) && Lock(After(m, a), email) == Lock(m, email)
  {
  }

  /** Times that wait out each lock from failure number `n` on; the first waits for a lock already armed. */
  ghost predicate Spaced(times: seq<int>, n: nat, lock: Option<int>) {
    && (times != [] && lock.Some? ==> times[0] >= lock.value)
    && forall i :: 0 <= i < |times| - 1 && n + i + 1 >= LOCKOUT_THRESHOLD ==>
         times[i + 1] - times[i] >= LockDurationMs(n + i + 1)
  }

  lemma SpacedCons(at: int, rest: seq<int>, n: nat, lock: Option<int>)
    requires Spaced(rest, n + 1, if n + 1 >= LOCKOUT_THRESHOLD then Some(at + LockDurationMs(n + 1)) else None)
    requires lock.Some? ==> at >= lock.value
    ensures Spaced([at] + rest, n, lock)
  {
    hide LockDurationMs;
    var times := [at] + rest;
    forall i | 0 <= i < |times| - 1 && n + i + 1 >= LOCKOUT_THRESHOLD
      ensures times[i + 1] - times[i] >= LockDurationMs(n + i + 1)
    {
      if i > 0 {
        assert times[i + 1] == rest[(i - 1) + 1] && times[i] == rest[i - 1];
        assert (n + 1) + (i - 1) + 1 == n + i + 1;
      }
    }
  }

  /** Without a success, the failure after number n waits out the lock armed by number n. */
  lemma {:induction false} FailuresAreSpaced(m: Records, run: seq<Attempt>, email: string)
    requires NoSuccess(m, run, email)
    ensures Spaced(FailureTimes(m, run, email), Count(m, email), Lock(m, email))
    decreases |run|
  {
    if run != [] {
      var a, m' := run[0], After(m, run[0]);
      FailuresAreSpaced(m', run[1..], email);
      hide LockDurationMs; hide Spaced;
      var rest := FailureTimes(m', run[1..], email);
      if a.email == email && VerdictOf(m, a).Failed? {
        SpacedCons(a.at, rest, Count(m, email), Lock(m, email));
      } else {
        assert FailureTimes(m, run, email) == rest;
        if a.email != email { OtherEmailsApart(m, a, email); }
      }
    } else {
      assert FailureTimes(m, run, email) == [];
    }
  }

  lemma LongLocks(n: nat)
    requires n >= 10
    ensures LockDurationMs(n) == 900000
  {
    PowGrows(5, n - LOCKOUT_THRESHOLD);
    assert Pow2(5) == 2 * Pow2(4) == 4 * Pow2(3) == 8 * Pow2(2) == 16 * Pow2(1) == 32;
  }

  lemma {:induction false} PowGrows(a: nat, b: nat)
    requires a <= b
    ensures Pow2(a) <= Pow2(b)
    decreases b
  {
    if a < b { PowGrows(a, b - 1); }
  }

  lemma {:induction false} TenthOnward(times: seq<int>, n: nat, i: nat)
    requires forall i :: 0 <= i < |times| - 1 && n + i + 1 >= LOCKOUT_THRESHOLD ==> times[i + 1] - times[i] >= LockDurationMs(n + i + 1)
    requires 9 <= i < |times|
    ensures times[i] - times[9] >= (i - 9) * MAX_LOCK_MS
  {
    if i > 9 {
      TenthOnward(times, n, i - 1);
      LongLocks(n + i);
      assert n + (i - 1) + 1 == n + i;
      assert times[(i - 1) + 1] - times[i - 1] >= LockDurationMs(n + i);
    }
  }

  /** From any state, attempts that never succeed get at most 10 + T / 900000 failures recorded within T milliseconds. */
  lemma FailuresAreThrottled(m: Records, run: seq<Attempt>, email: string, start: int, t: nat)
    requires NoSuccess(m, run, email)
    requires forall i :: 0 <= i < |FailureTimes(m, run, email)| ==> start <= FailureTimes(m, run, email)[i] <= start + t
    ensures |FailureTimes(m, run, email)| <= 10 + t / 900000
  {
    var times := FailureTimes(m, run, email);
    FailuresAreSpaced(m, run, email);
    if |times| > 10 {
      TenthOnward(times, Count(m, email), |times| - 1);
      assert t >= (|times| - 10) * MAX_LOCK_MS;
    }
  }
}
