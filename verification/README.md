# Verified models of the lodge server

Dafny models of the parts of the server where a property is hard to see from one function: protocols whose calls
interleave, loops that allocate or reconcile, and values that must survive a round trip.  Tables are maps or sequences
of rows, one database statement is one atomic step, a transaction is all-or-nothing, and clocks, random values,
signatures and foreign services are parameters that the environment chooses.

`dafny verify dfyconfig.toml` checks everything.  The modules, by topic:

| topic | modules |
|---|---|
| refresh-token rotation | `RefreshTokens` (steps, invariant), `RefreshSafety` (what every run keeps), `RefreshExpiry` (expired tokens), `RefreshStore` (the four functions over their table) |
| login, second factor, passwordless login | `Sessions` (steps), `SessionSafety` (what every run keeps), `SessionTrust` (how long trust and tokens last), `SessionRoutes` (the handlers), `Lockout` |
| yearly demo schedule | `Calendar`, `Slots`, `Plans`, `CeremonyOrder` (days and order of the ceremonies), `Turns` (whose turn it is), `Schedule` (the passes), `ScheduleGaps` (what must stay open), `DemoSchedule` (the whole) |
| table reconciliation | `IcsSync`, `DigestCollect`, `DigestRuns`, `DigestCrash`, `DigestJob`, `Dedupe` |
| multipart bodies | `Multipart` (the parser), `MultipartRoundTrip` (encoder and inverse) |
| member roles, degrees, addresses | `MemberRoles`, `MemberRoleTable`, `MemberWrites`, `UserMobile`, `MemberAddresses` |
| configuration | `ConfigCasts`, `ConfigCache`, `ConfigRaces`, `ConfigAge` |
| abilities | `Abilities`, `AbilityBuilder`, `AbilityFacts`, `AbilityTable` (who may do what) |
| birthday window | `Birthdays` |

A handler with several awaits is modelled as a state machine whose calls remember the await they stand at, so a run is
any interleaving of any number of calls (`RefreshTokens`, `Sessions`, `DigestRuns`, `ConfigRaces`).  Objects that the
source updates in place are classes (`RefreshTokenTable`, `ScheduleBuilder`, `ExternalEvents`, `Users`,
`LoginLockouts`, `Server`, `Job`, `UserRoles`, `Members`, `AppConfigService`, `Grant`); `Server` and `Job` apply the steps
of their machines, so every sequence of their calls is one of its runs.

## What the code does not do

Where a property is false of the code, the model keeps the code and proves exactly when the property holds:

- A reuse that is detected while another call sits between its consume and its insert revokes the family but not the
  token that call is about to insert (`RevokeKillsIff`, `ResidualWindowIsReachable`); only that token and its
  descendants survive (`RevokeLeavesOnlyTheWinner`).
- An unconsumed token that is expired when it is found ends Invalid in every continuation exactly if no other call read
  the clock in time and still has its update to send (`ExpiredIsInvalidIff`); a run in which it ends in Reuse is
  `ExpiredYetReuse`.
- A digest run that dies between the successful send and its last mark can mail rows again, exactly if one of the rows it
  mailed still exists unmarked (`CrashMailsTwiceIff`, `CrashAfterSendMailsTwice`); without such a crash every row is in
  at most one mail (`ExactlyOneMail`).
- A member update that is refused or rolled back keeps the degree dates it wrote before its checks: user_roles is as
  before exactly if nothing new was written in order (`PatchMember`, `ApplyDegreeDates`); `RefusedAfterWriting` is such
  a request.
- A multipart field named like a property every object inherits makes the parser throw (`InheritedNameThrows`), and a
  file part whose field name ends with `filename=` gets the wrong file name (`KeyNameMisread`); nothing else goes wrong
  (`RoundTripIff`).
- A birthday on 29 February is kept exactly if the window holds a 29 February, or both 28 February and 1 March of one
  year (`LeapDayKeptIff`), so also in a year without that day (`LeapDayKeptWithoutLeapDay`).
- A `get` whose read of the table is still on its way when a `set` finishes puts the old value back into the cache
  (`AfterSetReadsAgreeIff`, `StaleReadIsReachable`, `StaleReadAfterSet`).
- A boolean key that is set to nothing stores the text `null` and reads back as true (`BooleanReadsBack`); a timespan
  key drops the sign (`IntegerRoundTripIff`, `SignIsLost`), and a shorthand such as `6m` loses its unit when it is
  written through `set` (`ShorthandIsLostOnWrite`), while the shorthands are honoured in rows written by other means
  (`ShorthandDays`).
- `users.mobile` is the derived number after every saved request with addresses; a direct edit without addresses
  replaces it (`SyncedExactly`, `DirectEditDesyncs`), as the comment at the write says.
- No demo schedule has a precursor for every ceremony: whatever the seed year and month, nothing 5 to 12 weeks before the
  first Beförderung prepares anything, nor before any ceremony of September (`SomeUnprepared`, part of
  `BuildDemoEventSchedule`); the comment at the search only calls such gaps acceptable. Each single ceremony lacks its
  precursor only if every usable date 5 to 12 weeks before it went to another early title (`BuildDemoEventSchedule`).
- A cached configuration value can be older than the time to live, by the length of the read that fetched it, and by no
  more (`AgeOfReturned`).
- A passkey check that throws, and an account that vanished behind a good passkey, end in a server error on the
  passwordless route (`VerifyPasskey`), where the second-factor route answers a throw like any failure
  (`VerifyUserPasskey`).
- The names in the schedule code say Wednesday; the code, and so the model, places events on Thursdays.
- The comments in the schedule code call its counts empirical; they hold for every seed year and month
  (`EnoughBefoerderungen`, `EnoughAufnahmen`, `BuildDemoEventSchedule`).

## Model

| member | source | states |
|---|---|---|
| RefreshTokens.InitialInv | api/src/auth/refreshToken.ts:50-68 | an empty table satisfies the invariant that all run lemmas start from |
| RefreshTokens.StepPreservesInv | api/src/auth/refreshToken.ts:100-136 | every atomic step of any call keeps: unique digests, each call's view of its token, one chain per family, one tip per family |
| RefreshTokens.RunPreservesInv | api/src/auth/refreshToken.ts:50-166 | the invariant holds after every interleaving of rotations, logouts, logins, revocations and clock ticks |
| RefreshSafety.OneTip | api/src/auth/refreshToken.ts:100-136 | in every interleaving, unconsumed tokens of a family plus calls between consume and insert never exceed one |
| RefreshSafety.ConsumedOnceReplacedOnce | api/src/auth/refreshToken.ts:106-135 | over a whole run a token is consumed at most once and gets at most one successor, and the counts of those events account exactly for the change of the columns |
| RefreshSafety.SuccessorKeepsFamily | api/src/auth/refreshToken.ts:127-135 | a successor has the user and the family of the token it replaced, and that token is consumed |
| RefreshSafety.ExpiryOverRuns | api/src/auth/refreshToken.ts:50-68 | in every run and every continuation a row added by a login expires at its issue time plus the time to live, one added by a rotation at the time the account was found plus the time to live |
| RefreshSafety.Classification | api/src/auth/refreshToken.ts:89-127 | what a finished call's outcome says about the token when it was found and now: found consumed is Reuse, found unconsumed and revoked is Invalid, Reuse means consumed in time, Invalid means revoked and never consumed or expired at the call's clock, so the loser of a race in time is never Invalid, and success means consumed by this call while consumable |
| RefreshExpiry.ExpiredIsInvalidIff | api/src/auth/refreshToken.ts:100-127 | a token found unconsumed, unrevoked and expired ends Invalid in every continuation exactly if no call that read the clock in time still has its conditional update to send |
| RefreshExpiry.ExpiredYetReuse | api/src/auth/refreshToken.ts:106-123 | a run from an empty table in which a call that found such a token ends in Reuse |
| RefreshSafety.OneRotationPerToken | api/src/auth/refreshToken.ts:106-127 | two different calls never both win the same token |
| RefreshSafety.DeadForever | api/src/auth/refreshToken.ts:139-144 | a fully revoked family without a winner stays so in every continuation: no new token, no further successful rotation |
| RefreshSafety.RevokeKillsIff | api/src/auth/refreshToken.ts:112-123 | after revoking a family no continuation inserts a token of it or rotates one of it, exactly if no call sits between consume and insert at that moment |
| RefreshSafety.RevokeLeavesOnlyTheWinner | api/src/auth/refreshToken.ts:89-98 | otherwise every live token of any continuation descends from the winner's token, there is at most one, and the winner's token has one successor |
| RefreshSafety.ResidualWindowIsReachable | api/src/auth/refreshToken.ts:89-98 | the documented window is real: a run from an empty table with a Reuse outcome and a live token of that family |
| RefreshStore.RefreshTokenTable.IssueRefreshToken | api/src/auth/refreshToken.ts:50-68 | adds exactly one row, of the given user, family and digest; presented alone by an existing account it rotates at every time before now plus the time to live and ends Invalid at every time from then on |
| RefreshStore.RefreshTokenTable.RevokeFamily | api/src/auth/refreshToken.ts:139-144 | every row of the family is stamped and every other column and row is as before; presenting any token of the family afterwards, alone, never rotates |
| RefreshStore.RefreshTokenTable.RevokeAllFamiliesForUser | api/src/auth/refreshToken.ts:161-166 | the user's unrevoked rows are stamped with the present time, earlier stamps and all other rows are as before; presenting any of the user's tokens afterwards, alone, never rotates |
| RefreshStore.RefreshTokenTable.RotateRefreshToken | api/src/auth/refreshToken.ts:100-136 | an uninterrupted call has the outcome and table of the specification for whichever row carries the digest; its successor has the user and the family of the presented token, the digest of the new one, and rotates exactly until now plus the time to live; an unknown token changes nothing |
| RefreshStore.RotateAloneIsARun | api/src/auth/refreshToken.ts:100-136 | that specification is the run of the protocol in which nothing interleaves |
| RefreshStore.ReplayRevokesSuccessor | api/src/auth/refreshToken.ts:112-123 | presenting one raw token twice ends in Reuse with the whole family revoked, the successor included |
| SessionSafety.SessionsAreEarned | api/src/routes/session.ts:190-227 | in every run a full session is preceded by: this login read that nothing is enrolled, or this call passed the user's second factor, or the presented device became trusted after the same user's second factor and was read less than its days, of 86400000 milliseconds each, later |
| SessionSafety.DevicesAreEarned | api/src/routes/mfaChallenge.ts:150-156 | in every run a device becomes trusted for a user only in a call that had passed this user's second factor and opened this user's session |
| SessionTrust.TrustEnds | api/src/auth/deviceTrust.ts:10-30 | in every run a session that a device spared the second factor was let through by a reading of that device at a clock time before the end of trust: some step had made the device trusted, in a call past this user's second factor, fewer milliseconds ago than its days have |
| SessionTrust.AcceptedIff | api/src/auth/jwt.ts:44-90 | in every run a pending token is accepted exactly if its account exists and some login that waits for its second factor signed it fewer than 900 seconds ago, a full one exactly if some session, refresh or impersonation did, for exactly the subject and actor of that step |
| SessionSafety.TokensNotInterchangeable | api/src/routes/mfaChallenge.ts:33-46 | in every run an accepted pending token proves only a password login that found a second factor; an accepted full token without an impersonator proves a session of its own user; one with an impersonator proves that this user impersonated its user while entitled to act, and that somebody had a session |
| SessionSafety.PendingTokenIsNoSession | api/src/routes/session.ts:217-227 | a password login alone leads to an accepted pending token while nobody has had a session and no full token is accepted |
| SessionSafety.OneVerificationPerChallenge | api/src/routes/mfaChallenge.ts:207-208 | in every run each challenge, per user or passwordless, feeds at most one verification |
| SessionSafety.NoneAfterExpiry | api/src/routes/session.ts:321-328 | in every run a passwordless challenge reaches a verification only within five minutes of its generation, unspent and held by nobody else, and is offered in no continuation again |
| SessionSafety.StepKeepsChallenges | api/src/routes/session.ts:276-328 | a generated challenge is always in one place: offered, held by one call, or spent |
| SessionRoutes.PruneExpired | api/src/routes/session.ts:279-284 | the loop keeps exactly the unexpired challenges, in whatever order the map is walked |
| SessionRoutes.Server.PasswordLogin | api/src/routes/session.ts:134-231 | refused exactly for a locked email or without a known account or the right password, and then only the failure is recorded; a full session exactly if nothing is enrolled or the presented device is stored, of this user, and now is before its end of trust; otherwise one pending token of 15 minutes and no refresh token; the lockout record of the email moves as in the attempt of the lockout machine |
| SessionRoutes.Server.VerifyCode | api/src/routes/mfaChallenge.ts:106-165 | a full session exactly for an accepted pending token, an unlocked account and a right code; a device becomes trusted exactly if asked for; a refusal issues nothing; the account's lockout record moves with the outcome |
| SessionRoutes.Server.UserPasskeyOptions | api/src/routes/mfaChallenge.ts:167-192 | unauthorized exactly without an accepted pending token, options exactly for a user with a passkey, else not found; one challenge per user, the newest |
| SessionRoutes.Server.VerifyUserPasskey | api/src/routes/mfaChallenge.ts:194-298 | a locked account is refused with its challenge still on offer; otherwise the challenge is burnt whatever the outcome; a full session exactly for an offered challenge, a credential of this very user and a good signature; every other outcome, a check that throws included, is recorded as a failure |
| SessionRoutes.Server.PasskeyOptions | api/src/routes/session.ts:286-295 | drops exactly the expired challenges and offers the new one for five minutes |
| SessionRoutes.Server.VerifyPasskey | api/src/routes/session.ts:297-378 | a full session exactly for an unlocked stored credential, an unexpired challenge, a good signature and an account in use; a server error exactly for unreadable client data, a check that throws or a vanished account; unknown credentials and bad signatures are recorded, and an unexpired challenge is taken off the offer |
| SessionRoutes.KeysApart | api/src/routes/session.ts:306 | lockout records of accounts and of passkeys never coincide |
| Lockout.LoginLockouts.RecordFailedLogin | api/src/auth/loginLockout.ts:56-71 | the new record of this email, and whether the threshold is reached |
| Lockout.LockedExactlyUntil | api/src/auth/loginLockout.ts:26-71 | a failure locks its email exactly from the fifth in a row on, for 30, 60, 120, 240 and 480 seconds and then 900 each, and no other email; a reset unlocks |
| Lockout.LocksByTable | api/src/auth/loginLockout.ts:19-30 | the capped doubling from the fifth failure on is that table of lock times |
| Lockout.LoginLockouts.TryLogin | api/src/routes/session.ts:155-188 | verdict and new records of one password attempt; a locked email is refused whatever the password |
| Lockout.LoginLockouts.ResetLoginLockout | api/src/auth/loginLockout.ts:73-79 | clears count and lock of a known email and creates no record for an unknown one |
| Lockout.CountIsFailuresSinceReset | api/src/auth/loginLockout.ts:56-78 | over every run the stored count is the number of failures since the last accepted attempt of this email |
| Lockout.FailuresAreSpaced | api/src/auth/loginLockout.ts:26-30 | without a success, failure n+1 comes at least the lock time of failure n after it, from the fifth on |
| Lockout.FailuresAreThrottled | api/src/auth/loginLockout.ts:22-78 | without a success at most 10 + T/900000 failures are recorded within T milliseconds, from any state |
| Lockout.LongLocks | api/src/auth/loginLockout.ts:26-30 | from the tenth failure on every lock lasts the full 15 minutes |
| Calendar.EpochIsThursday | api/src/lib/demoSeed.ts:758-766 | 1 January 1970 has weekday 4 |
| Calendar.WeekdaysFollow | api/src/lib/demoSeed.ts:758-766 | the weekday of the next day is the next one, for every valid date, so weekdays are pinned by that one day |
| Calendar.ThursdaysByEpoch | api/src/lib/demoSeed.ts:758-766 | a date is a Thursday exactly if it lies whole weeks from 1 January 1970 |
| Slots.WednesdaysInMonth | api/src/lib/demoSeed.ts:758-766 | the walk over the days of the month collects its Thursdays, by the weekday pinned above, in order |
| Slots.NextTwelveMonths | api/src/lib/demoSeed.ts:779-792 | the twelve months from the seed month on |
| Slots.BuildSlots | api/src/lib/demoSeed.ts:807-816 | the slots are exactly the Thursdays of the twelve months in order, with their month, index, first and blackout marks |
| Slots.ThursdaysShape | api/src/lib/demoSeed.ts:758-766 | the Thursdays from any day of a month on are its first one plus whole weeks |
| Plans.EnoughBefoerderungen | api/src/lib/demoSeed.ts:846-917 | at least seven of the nine eligible months can take a Beförderung, whatever the weekday alignment |
| Plans.EnoughAufnahmen | api/src/lib/demoSeed.ts:846-926 | after five months are taken at least three can still take an Aufnahme |
| Plans.CeremoniesGiveCore | api/src/lib/demoSeed.ts:908-926 | the ceremony passes leave exactly five Beförderungen and three Aufnahmen in eight different months, on non-blackout days from the fifteenth on, and keep the fixed events |
| CeremonyOrder.CeremoniesOnDays | api/src/lib/demoSeed.ts:908-922 | Beförderungen fall on third slots, in May on the fifth, and Aufnahmen into the last week of their month |
| CeremonyOrder.BefoerderungenInOrder | api/src/lib/demoSeed.ts:849-860 | every month that can surely have a Beförderung and comes before one that has, has one |
| Turns.PickedInTurn | api/src/lib/demoSeed.ts:908-927 | the picked ceremonies are those of the plan, in the order of the months, the i-th Beförderung for apprentice i modulo four |
| Schedule.ScheduleBuilder.Assign | api/src/lib/demoSeed.ts:822-827 | a slot is written once: an assigned date keeps its title |
| Schedule.ScheduleBuilder.AssignFixedDates | api/src/lib/demoSeed.ts:830-834 | the plan holds exactly the three fixed events, each on its day |
| Schedule.ScheduleBuilder.PickCeremonyMonths | api/src/lib/demoSeed.ts:849-860 | picks the first usable slots in month order, one per month, and marks their months |
| Schedule.ScheduleBuilder.PlaceCeremonies | api/src/lib/demoSeed.ts:908-926 | the plan after both ceremony passes, with one fitting precursor pending for each of the eight ceremonies, each on the day its rule asks for, no usable month passed over before a Beförderung, and apprentices and seekers taking turns in the order of the months |
| Schedule.ScheduleBuilder.PlaceErhebungen | api/src/lib/demoSeed.ts:932-942 | keeps all earlier titles and pending precursors, adds Erhebungen only, six fellow crafts taking turns in the order of the months, each with its Meistervortrag pending, and leaves no free fifth slot |
| Schedule.ScheduleBuilder.GuaranteeTaI | api/src/lib/demoSeed.ts:955-962 | afterwards every month but July and August has a TA I event; what was added is a Brudermahl on the preferred free slot of a month without Aufnahme |
| ScheduleGaps.GuaranteeLeaves | api/src/lib/demoSeed.ts:955-962 | after the guarantee every second slot outside July, August and December is free, 23 June and a December second slot below a blacked-out third are taken, and a taken third April slot is a Beförderung |
| Schedule.ScheduleBuilder.FindSlot | api/src/lib/demoSeed.ts:872 | the slot of that day, if there is one |
| Schedule.ScheduleBuilder.PlacePrecursor | api/src/lib/demoSeed.ts:868-882 | the closest free, non-first, non-blackout slot 5 to 12 whole weeks before the ceremony; none exactly if there is no such slot |
| Schedule.ScheduleBuilder.PlacePrecursors | api/src/lib/demoSeed.ts:964-971 | keeps everything placed before and adds precursors only, one to one with ceremonies and each with the title that waited for its ceremony; each stands 5 to 12 weeks before its ceremony on the closest slot not taken by an early title, and a ceremony has none only if all those slots are taken |
| ScheduleGaps.SomeUnprepared | api/src/lib/demoSeed.ts:868-882 | for every seed nothing 5 to 12 weeks before the first Beförderung is a precursor, nor before any ceremony of September |
| ScheduleGaps.ThreeRooms | api/src/lib/demoSeed.ts:955-986 | for every seed May, June and a third month keep a free middle slot after the precursors |
| ScheduleGaps.ThreeReached | api/src/lib/demoSeed.ts:973-986 | so three Instruktionen are always placed |
| Schedule.ScheduleBuilder.PlaceInstruktionen | api/src/lib/demoSeed.ts:975-986 | at most three, in different months, on slots that are neither first nor last; every such slot left free comes after the Instruktion of its month, or after the months of all three |
| Schedule.ScheduleBuilder.FillBaseline | api/src/lib/demoSeed.ts:994-1015 | every remaining non-blackout slot gets a title and none is overwritten; Gästeabend on the first slots, and the fillers rotate in date order |
| DemoSchedule.RunPasses | api/src/lib/demoSeed.ts:828-1015 | the passes in their order keep each other's promises: precursors, Instruktionen and filler rotation as promised by their passes hold of the final plan, with three Instruktionen and an unpreparable Beförderung |
| DemoSchedule.BuildDemoEventSchedule | api/src/lib/demoSeed.ts:807-1021 | for every seed: strictly ascending dates, each whole weeks from 1 January 1970; exactly those Thursdays of the twelve months that lie outside July, the first and last weeks of August, and 20 December to 7 January; Gästeabend exactly on the first slots, five Beförderungen and three Aufnahmen in eight months, a TA I event in every month but July and August; precursors one to one with ceremonies, each on the closest date 5 to 12 weeks ahead that no early title took, missing only if all are taken, and always missing before the first Beförderung and before September's ceremonies; by date, four apprentices, six fellow crafts and, in the ballots, ten seekers take turns; exactly three Instruktionen in different months, on the earliest dates they can get; the fillers rotate by date through candlelight talk, gathering and lecture, with 60 speakers and 10 topics |
| DemoSchedule.SortingChangesNothing | api/src/lib/demoSeed.ts:1017-1020 | the list is already sorted: every ascending rearrangement is the list itself |
| IcsSync.ExternalEvents.FindFirst | api/src/lib/externalEventIcsSync.ts:108 | a row with this source and uid if there is one |
| IcsSync.ExternalEvents.SyncSource | api/src/lib/externalEventIcsSync.ts:91-158 | the table is the specified one, uniqueness is kept, created plus updated is the feed length, created counts the new ids, removed counts the stale rows |
| IcsSync.SyncMirrorsFeed | api/src/lib/externalEventIcsSync.ts:91-158 | from any table with unique (source, uid): the source's live rows with a uid are one per feed uid carrying the last entry's data; ids, identities, other sources and manual rows are untouched; a row of the source outside the feed changes only by its deletion mark, set exactly if it was marked live and has a uid or the feed is empty; new rows have no host and the source's creator |
| IcsSync.AbortedRunIsHarmless | api/src/lib/externalEventIcsSync.ts:106-156 | a full run after an abort at any entry ends in the very table of an undisturbed run |
| IcsSync.SecondRunIsIdle | api/src/lib/externalEventIcsSync.ts:106-158 | a second run with the same feed changes nothing and removes nothing |
| DigestCollect.Group | api/src/lib/eventRegistrationDigest.ts:72-84 | strays in order; the buckets' order is that of the live events by first appearance, and each bucket holds exactly the rows of its event in their order |
| DigestCollect.Print | api/src/lib/eventRegistrationDigest.ts:90-101 | one block per event in order: its line, the lines of exactly its rows, a blank; the returned ids are the named rows in the same order |
| DigestCollect.Collect | api/src/lib/eventRegistrationDigest.ts:106-146 | valid ids, stray ids and mail body agree: the body names every valid row once and no other, every name stands under the line of its own row's event, the event lines are the distinct live events by first appearance, and the count is theirs |
| DigestCollect.LiveEventsAre | api/src/lib/eventRegistrationDigest.ts:72-84 | that list holds exactly the live events of the pending rows, each once |
| DigestCollect.LiveEventsByAppearance | api/src/lib/eventRegistrationDigest.ts:72-84 | and in the order in which they first occur |
| DigestCollect.LinesUnderTheirEvents | api/src/lib/eventRegistrationDigest.ts:90-101 | in every such body the last event line before a participant line is that of the event of a pending row with this id |
| DigestCollect.ValidAndStrayPartition | api/src/lib/eventRegistrationDigest.ts:64-146 | valid and stray ids together are the pending rows, none lost and none counted twice |
| DigestCollect.ListsByEvent | api/src/lib/eventRegistrationDigest.ts:74-82 | a row is valid exactly if its event exists and is not deleted |
| DigestRuns.RunPreservesInv | api/src/lib/eventRegistrationDigest.ts:159-214 | the invariant of all digest runs, under registrations, deletions, failed sends and crashes between any two steps |
| DigestRuns.MarkedOnlyAfterMail | api/src/lib/eventRegistrationDigest.ts:192-211 | in every run a row not marked as stray is marked only after a successful mail named it |
| DigestRuns.ExactlyOneMail | api/src/lib/eventRegistrationDigest.ts:159-214 | without a crash between send and mark: never two mails, exactly one for a marked row, none for a stray or still pending one |
| DigestRuns.NoEmptyMail | api/src/lib/eventRegistrationDigest.ts:171-174 | no run ever mails an empty set of rows |
| DigestRuns.CrashAfterSendMailsTwice | api/src/lib/eventRegistrationDigest.ts:192-211 | a concrete run with a crash between send and mark mails a row twice |
| DigestCrash.CrashMailsTwiceIff | api/src/lib/eventRegistrationDigest.ts:192-211 | in every reachable state between send and last mark: a crash now can lead to a second mail of some row in a crash-free continuation exactly if a row just mailed still exists unmarked |
| DigestRuns.LaterArrivalsStayPending | api/src/lib/eventRegistrationDigest.ts:159-214 | no step marks or mails a row the run does not hold |
| DigestRuns.ArrivalsWaitForTheNextRun | api/src/lib/eventRegistrationDigest.ts:159-214 | a row that arrives after its table was read is pending and unmailed until the next run starts |
| DigestRuns.CollectorPartitions | api/src/lib/eventRegistrationDigest.ts:64-146 | a collector splits what it read without loss or overlap, by whether the event is live |
| DigestJob.Job.Collect | api/src/lib/eventRegistrationDigest.ts:64-146 | a collector finds exactly the pending rows of its table, split by whether their event is live |
| DigestJob.CollectIsReadEvents | api/src/lib/eventRegistrationDigest.ts:64-146 | the lists a collector computes are the sets the machine's read step splits off |
| DigestJob.Job.SendEventRegistrationDigest | api/src/lib/eventRegistrationDigest.ts:159-214 | an uninterrupted run: strays are marked, one mail names every other pending row if there is any, a recipient and a working transport, and those rows are marked exactly then |
| Dedupe.Users.MaxNumber | api/scripts/dedupeMatriculationNumbers.ts:37-38 | the greatest number, or 0 when there is none |
| Dedupe.Users.RepairGroup | api/scripts/dedupeMatriculationNumbers.ts:42-58 | every row of the group after its lowest id gets the next number above the running maximum |
| Dedupe.Users.DedupeMatriculationNumbers | api/scripts/dedupeMatriculationNumbers.ts:27-62 | for any group order: numbers distinct, reassigned exactly the rows that share their number with a lower id, all others unchanged, the k reassigned ones holding max+1 to max+k |
| Dedupe.SecondRunReassignsNothing | api/scripts/dedupeMatriculationNumbers.ts:28-35 | on distinct numbers there is no group and nobody to reassign |
| Multipart.SplitBuffer | api/src/lib/multipart.ts:33-44 | the loop computes the leftmost non-overlapping split |
| Multipart.SplitThenJoin | api/src/lib/multipart.ts:33-44 | pieces joined by the separator give back the buffer and none contains the separator |
| Multipart.TrimSurroundingCrlf | api/src/lib/multipart.ts:47-56 | exactly one line break goes on each side |
| Multipart.ParsePartHeaders | api/src/lib/multipart.ts:58-77 | name, file name and type of a header block, or nothing without a name |
| MultipartRoundTrip.NamelessIsSkipped | api/src/lib/multipart.ts:88-97 | a segment in which no name parameter occurs adds nothing, whatever else is in it |
| MultipartRoundTrip.TrimStrips | api/src/lib/multipart.ts:70-71 | the content type loses all white space around it, of the seven latin1 kinds, and nothing else |
| Multipart.ParseMultipart | api/src/lib/multipart.ts:79-111 | the loop over the inner segments computes the fold whose inverse is proved, the thrown error included |
| MultipartRoundTrip.PiecesOfEncoding | api/src/lib/multipart.ts:33-44 | splitting an encoding by RFC 2046 section 5.1.1 gives an empty preamble, the framed parts and the closing mark |
| MultipartRoundTrip.HeaderRead | api/src/lib/multipart.ts:58-77 | a written header (RFC 7578 section 4) is read back, but for a name that swallows the file name's key |
| MultipartRoundTrip.RoundTripIff | api/src/lib/multipart.ts:79-111 | for any parts whose headers and contents avoid the delimiter, with quote-free and break-free names: parsing the encoding throws exactly if a field is named like an inherited property, and otherwise returns all fields in order and the last file byte for byte exactly unless that file is misread |
| MultipartRoundTrip.InheritedNameThrows | api/src/lib/multipart.ts:101-107 | a body with a field named toString makes the parser throw |
| MultipartRoundTrip.KeyNameMisread | api/src/lib/multipart.ts:66 | a file in a field named filename= is delivered under the wrong name |
| MemberRoles.TargetHoldsExactlySubmitted | api/src/routes/members.ts:1072-1091 | after a role write the member's assignable roles are exactly the submitted ones |
| MemberRoles.OthersLoseExactlyEvicted | api/src/routes/members.ts:1083-1090 | another member loses exactly the roles newly granted here that admit one holder |
| MemberRoles.DegreeRowsUntouched | api/src/routes/members.ts:1066-1091 | rows of every other role, degrees included, stay as they are, in order, for every member |
| MemberRoleTable.NonDegreeRoleIds | api/src/routes/members.ts:313-316 | exactly the ids of named roles not called EnteredApprentice, FellowCraft or MasterMason |
| MemberRoleTable.RunsKeep | api/src/routes/members.ts:884-1091 | over every run of role and degree writes: one row per member and role, one holder per exclusive role, MasterMason dated implies FellowCraft dated implies EnteredApprentice dated |
| MemberRoleTable.DegreeDates | api/src/routes/members.ts:884-899 | a degree write dates this member's degree and loses no other date |
| MemberRoleTable.ExactDates | api/src/routes/members.ts:884-899 | with unique role names and one row per member and role: the degree has this one date afterwards, every other date of the member is as it was, and the table changes exactly unless the degree had that date |
| MemberWrites.UserRoles.GetDegreeDate | api/src/routes/members.ts:877-882 | a returned date is one of that degree; none means undated when rows and names are unique |
| MemberWrites.UserRoles.SetDegreeByName | api/src/routes/members.ts:884-899 | writes one date, reports a missing role, throws on an unreadable date, and then changes nothing |
| MemberWrites.UserRoles.ApplyDegreeDates | api/src/routes/members.ts:907-927 | only this member's degree rows change and none loses its date; with unique role names and one row per member and role it is clean exactly if dates are readable, roles exist and each degree below is dated before or by this request, and, clean or not, exactly the submitted degrees with a readable date, an existing role and the degree below dated before or by this request get their date, and all other dates are as before |
| MemberWrites.UserRoles.CreateDegrees | api/src/routes/members.ts:1527-1537 | after a creation that does not throw the member is dated EnteredApprentice, if that role exists |
| MemberWrites.UserRoles.ApplyRoleIds | api/src/routes/members.ts:1072-1091 | both loops together leave the table of the specification |
| MemberWrites.UserRoles.PatchRoles | api/src/routes/members.ts:1650-1756 | with unique role names: refused exactly for a caller who may not manage roles, or who is no Admin and submits the Admin role; a rollback changes nothing; a commit implies a dated entry degree and, under officer enforcement, a second factor for new roles; a caller who is no Admin never adds a holder of Admin |
| MemberWrites.UserRoles.PatchMember | api/src/routes/members.ts:1617-1756 | the whole update as far as user_roles goes, degree dates before the checks and outside the transaction; with unique role names and one row per member and role: every outcome but a commit leaves exactly what the degree part wrote, which is nothing exactly if the caller may not edit degrees or no degree submitted in order is new; refused exactly as specified |
| MemberWrites.RefusedAfterWriting | api/src/routes/members.ts:1637-1711 | a request that is refused and leaves a new degree date in user_roles |
| UserMobile.ComputedIsBest | api/src/lib/userMobile.ts:59-74 | the three-stage choice is the least (kind, id), kind 0 before 1 before all others, among the user's addresses that are not marked deleted and have a number with something but white space in it, in whatever order they were read |
| UserMobile.MobileIsUnique | api/src/lib/userMobile.ts:44-74 | the rows determine that number |
| MemberAddresses.EachRowForItself | api/src/routes/members.ts:976-1016 | every existing row is gone exactly if an input naming it destroys it; otherwise it keeps its id, owner and deletion mark, and each column ends with the last value given by an input naming the row, or its old one if none is given; each input without id makes one row with exactly its values, null elsewhere, the default purpose and not deleted, as the inputs after it leave it; no other row appears |
| MemberAddresses.InputsLeaveOthers | api/src/routes/members.ts:976-1000 | nested inputs reach no address of anybody else |
| MemberAddresses.FewEnoughIff | api/src/routes/members.ts:1021-1029 | the two counts pass exactly if no two addresses of the member marked not deleted are both private or both business |
| MemberAddresses.SyncedExactly | api/src/routes/members.ts:1702-1755 | after a request the stored number is the derived one exactly when addresses were written, or the direct edit equals it, or nothing was edited and it was before |
| MemberAddresses.DirectEditDesyncs | api/src/routes/members.ts:1702-1755 | in every state some direct edit without addresses leaves another number than the derived one |
| MemberAddresses.RunsKeep | api/src/routes/members.ts:970-1040 | over every run: at most one private and one business address each, and a derived number stays derived unless edited directly |
| MemberAddresses.Members.SyncUserMobile | api/src/lib/userMobile.ts:90-96 | stores the user's best number and changes nothing else |
| MemberAddresses.Members.ApplyAddresses | api/src/routes/members.ts:970-1040 | applies the inputs in order with that column-by-column effect, fails on a foreign id, reports the two limits, and stores the derived number |
| MemberAddresses.Members.Patch | api/src/routes/members.ts:1692-1755 | not found, rejected or saved exactly as specified; any failure leaves rows and numbers unchanged; a save has that column-by-column effect, and with addresses ends in sync and within the limits, also when the request sets the number directly |
| MemberAddresses.Members.Create | api/src/routes/members.ts:1485-1525 | the same for a creation, column by column, which leaves every other member's number alone |
| ConfigCasts.IntegerReadsBack | api/src/lib/appConfig.ts:320-394 | an integer key reads back the integer written, without its sign on a timespan key |
| ConfigCasts.IntegerRoundTripIff | api/src/lib/appConfig.ts:382-419 | writing n reads back n exactly if n is not negative or the key is no timespan |
| ConfigCasts.SignIsLost | api/src/lib/appConfig.ts:339-353 | minus five days written to a timespan key read back as five |
| ConfigCasts.FractionsAreDropped | api/src/lib/appConfig.ts:320-326 | a written fraction reads back rounded towards zero; null and flags read back as zero |
| ConfigCasts.TextReadsBack | api/src/lib/appConfig.ts:382-419 | a text reads back as written, null as the empty text, a flag as its word, an integer as its digits |
| ConfigCasts.NoDigitsFallBack | api/src/lib/appConfig.ts:339-353 | a timespan without digits reads as 120 days |
| ConfigCasts.SizeSettings | api/src/lib/appConfig.ts:402-419 | exactly max_db_mem_size and max_upload_file_size are read as sizes |
| ConfigCasts.BooleanReadsBack | api/src/lib/appConfig.ts:299-311 | a flag reads back as itself, a number as whether it is not zero, a text as whether it is none of the seven words for false; null and the empty text, which cast to null, read back as true |
| ConfigCasts.SavingTheReadValueIsIdle | api/src/lib/appConfig.ts:382-419 | saving the value that was read changes nothing for integer keys |
| ConfigCasts.ShorthandDays | api/src/lib/appConfig.ts:339-353 | stored shorthands for months, weeks and days read as 30, 7 and 1 times their number |
| ConfigCasts.ShorthandIsLostOnWrite | api/src/lib/appConfig.ts:320-326 | a shorthand written through set keeps its number and loses its unit |
| ConfigCasts.SizeReads | api/src/lib/appConfig.ts:361-375 | a number right before K, M or G of either case reads as bytes, whatever digit-free text stands around the two |
| ConfigCasts.SizeStaysTextIff | api/src/lib/appConfig.ts:361-375 | a size stays text exactly if no digit stands right before such a unit |
| ConfigCache.AppConfigService.Get | api/src/lib/appConfig.ts:484-502 | the result is the coercion of a raw value the table or default held less than the time to live ago; a miss reads the table now; other entries are undisturbed |
| ConfigCache.AppConfigService.Set | api/src/lib/appConfig.ts:511-527 | stores the cast value, forgets the entry, leaves all other keys' values and entries alone, and an uncached read gives the round trip of the value |
| ConfigCache.FullKeysDiffer | api/src/lib/appConfig.ts:459-461 | different keys never share a row, and the key stands behind prefix and underscore |
| ConfigCache.NullIsNoRow | api/src/lib/appConfig.ts:468-474 | a row holding null gives the default like no row; any other value hides it |
| ConfigRaces.AfterSetReadsAgreeIff | api/src/lib/appConfig.ts:484-527 | when a set has finished, every call starting later returns its row in all interleavings exactly if nothing is cached at all or no earlier read is still on its way with another value |
| ConfigRaces.StaleReadAfterSet | api/src/lib/appConfig.ts:490-497 | such a late store makes a call that starts afterwards return the old value |
| ConfigRaces.StaleReadIsReachable | api/src/lib/appConfig.ts:484-527 | from every initial state with another value in the row a run reaches the end of a set with such a read on its way, and a call started later returns the old value |
| ConfigAge.AgeOfReturned | api/src/lib/appConfig.ts:490-497 | in every interleaving a returned value was in the row when some call read it, and its age is below the time to live plus the length of that read, or the returning call read it itself |
| Abilities.NewestFirst | api/src/authz/ability.ts:412-461 | rules appended later decide whenever one of them matches |
| AbilityBuilder.Grant.ApplyRole | api/src/authz/ability.ts:387-402 | appends exactly the rules of the role, none for an unknown one |
| AbilityBuilder.BuildAbility | api/src/authz/ability.ts:412-461 | the built list is the public rule, the user's own, the roles' in order, and the guard last |
| AbilityFacts.DecidedByRoles | api/src/authz/ability.ts:412-461 | every check succeeds exactly if some held role or the user's own rules grant it and the guard does not bar it |
| AbilityTable.RoleMayIff | api/src/authz/ability.ts:236-402 | each of the fourteen role names opens exactly its line of a table by subject, action and own row, and no other name opens anything |
| AbilityTable.MayIff | api/src/authz/ability.ts:412-461 | so every check of a signed-in user is decided by that table, the two rules open to every user, and the guard |
| AbilityTable.UpdateProfileIff | api/src/authz/ability.ts:237-362 | a profile may be updated exactly by an Admin, an ApplicationAdmin, and its owner holding a degree |
| AbilityFacts.Monotone | api/src/authz/ability.ts:412-461 | additional roles never take a permission away |
| AbilityFacts.OnlyTheSetOfRolesMatters | api/src/authz/ability.ts:412-461 | order and repetition of the roles do not matter |
| AbilityFacts.AdminGrants | api/src/authz/ability.ts:350-362 | the admin rules grant every action on every subject but all, and nothing on that |
| AbilityFacts.AdminMayAllButBarred | api/src/authz/ability.ts:350-461 | with the Admin role a check succeeds exactly on any subject but all, unless the guard bars it, whatever other roles are held |
| AbilityFacts.ImpersonationIff | api/src/authz/ability.ts:426-458 | a row may be impersonated exactly by an Admin, if it is somebody else, not deleted and not an Admin |
| AbilityFacts.DefaultReachIff | api/src/routes/members.ts:169-171 | the sync probe succeeds exactly for EnteredApprentice, FellowCraft, MasterMason, Admin and ApplicationAdmin |
| AbilityFacts.UserAdminReachIff | api/src/routes/members.ts:172-174 | the role probe succeeds exactly for UserAdmin, Secretary, NetDelegate and Admin |
| AbilityFacts.AnonymousIff | api/src/authz/ability.ts:419-423 | without a user only the public working plan is open |
| Birthdays.BirthdayKeptIff | api/src/routes/events.ts:83-112 | for every start and length a birthday other than 29 February is kept exactly if some calendar date of the window has its month and day |
| Birthdays.LeapDayKeptIff | api/src/routes/events.ts:83-112 | 29 February is kept exactly if the window holds a 29 February, or 28 February and 1 March of one year |
| Birthdays.LeapDayKeptWithoutLeapDay | api/src/routes/events.ts:83-112 | such a birthday is kept from 28 February to 1 March of every common year, although no date of that window is 29 February |
| Birthdays.FilterKeeps | api/src/routes/events.ts:100-112 | the filter returns exactly the kept rows, each as often as it occurs |

## Left out

- HTTP routing, request validation, rate limits, cookies and response bodies; OpenAPI checks.
- Passwords, codes, signatures, token signing, digests and random values: outcomes or fresh values the environment chooses.
- Mail transport: a send either succeeded or failed; a delivery whose outcome is unknown is not modelled.
- The parser of ICS files, the fetch around it and the loop over all sources.
- The mandatory-enrolment advisory and its grace period, and the notification mails of the login handlers.
- The ability check, the audit row and the rejection of impersonated sessions around the impersonation step of the login machine; who may impersonate is proved of the ability rules.
- Lockouts inside the interleaved login machine, where a call may stop at any await instead; the handlers consult and move both lockout tables, whose code is the same.
- Writing a passkey's counter after a good check, and its failure when the credential vanishes in between.
- Lost updates between the read and the upsert of one lockout record: attempts on one email come one after another.
- The wait between accepting an options request and offering its challenge is one step here; a leftover expired challenge is refused when it is presented.
- Token lifetimes from the environment: the access lifetime is its default of 15 minutes.
- Two digest processes at once: a run starts only when none is under way.
- Two role writes in overlapping transactions: writes to user_roles come one after another.
- Changes to the roles table itself during a run of role writes.
- A refused or rolled-back creation may use up ids; here a rollback restores the id counter too.
- Address columns other than kind, number and owner are carried as text without meaning.
- The seed year's range in the schedule: years below 100 and from 9999 on, where the date functions of the runtime behave differently.
- Event titles as texts: a title is its kind and the position of its initials, so two titles with equal initials stay different here.
- Times of day, locations and every other demo table.
- Bytes to text decoding of multipart field values, and the extraction of the boundary from the content type.
- Numbers beyond the exact range of doubles, and objects as configuration values.
- Role names that are inherited property names in the ability dispatch table.
- Default texts of the configuration keys and which keys exist: parameters here.
- The visibility of single member rows beyond the two reach probes.
- MemberWrites.UserRoles.PatchMember: the exact parts assume unique role names and one row per member and role, which the table keeps; the other columns of the request are one outcome of the transaction.
