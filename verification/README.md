# Verified model of hot-train admission

A Dafny model of the waiting room that guards hot trains, of the protocols built around it,
and of the encodings they rely on.

One *generation* of a policy is a FIFO queue, an entry table, an owner index, a token table,
an inflight set, a rate window and a leases set that mixes live leases with tombstones. About
ten scripts change these structures, each atomically. The model has them three times:

- as a small set of atomic steps (`RoomSteps`), each shown to keep the invariant
  (`RoomInvariant`, `RoomHistory`, `RoomOrder`, `RoomLife`);
- as functions, one per script (`RoomScripts`), each shown to be a path of steps
  (`RoomPaths`, `RoomRuns`);
- as the class `WaitingRoom.Generation`, one method per script, statement by statement with
  its loops, each proved equal to its function. The ways in which the scripts make a token
  terminal are nine methods, each in its own script's statement order, and each is proved to
  have the effect of the one function `RoomSteps.Close`.

What each script answers and does is stated a second time, by the state before and field by field,
without the scripts' own steps: `JoinAnswers`, `PollAnswers` (get, claim, preflight, cancel),
`LeaseAnswers` (acquire, release, finalize, repair), `CleanupAnswers` and `IssueAnswers`, in the terms
of `RoomFrames`. `RoomOrigins` carries this over runs: entries come from their joins, tokens from
their candidates. `ReservationAnswers` does the same for the reservation protocol, and `FormReaders`
reads the canonical forms back.

Theorems about runs (`RoomTheorems`, `RoomTerminal`, `RoomProgress`, `RoomWait`, `RoomPeek`,
`RoomDrain`, `RoomScan`, `RoomDelivery`, `RoomTally`, `RoomTokens`) quantify over every sequence of
script calls by any number of callers. `RoomExample`, `TerminalRuns` and `LocatorRuns` hold concrete
runs from an empty generation that show where a tempting law fails. `Reservation`, `Locators` and
`ContinuityLatch` are protocols over several parties that may stop between any two steps.
`WorkerRotation` with `RotationFairness`, `RefreshFamilies` and `Reconciler` are the other stateful
cores. `Bytes`, `Preimages`, `SignedForms`, `Base64Url`, `TokenEnvelope` and `LocatorScope` are the
encodings.

`dafny verify dfyconfig.toml` checks everything.

## Assumptions

- Redis time never runs back; entry ids and token hashes are never reused; the limits of a
  policy version do not change while it lives.
- ZRANGEBYSCORE with a limit returns the due members with the lowest scores, ties in any order.
- Maintenance is the issue script without candidates.
- A database commit of a hold is one atomic step, idempotent per owner and idempotency key.
- Each repository call on refresh tokens is one serial step, and a login draws a new family.
- Hashes, MACs and case folding are arbitrary functions; only where a lemma says so is a digest
  assumed to have no collisions.

## Where the code differs from its description

- docs/admission-token-lifecycle.md:62 calls consumed, expired and cancelled terminal. In the code
  they stay terminal, but change into one another: an acquire or a poll after the expiry makes a
  consumed token expired, and a repair makes an expired or cancelled token consumed, and nothing
  else changes them (`RoomTerminal.TerminalSettles`, `RoomTerminal.TerminalIsFinalExactly`).
  `TerminalRuns.ConsumedExpiresRun` and `TerminalRuns.CancelledConsumedRun` are runs in which
  it happens.
- Issue calls are FIFO for the candidates the worker builds, and for arbitrary candidates exactly
  when no candidate is accepted behind a rejected one (`RoomTheorems.IssueFifoExactly`);
  `RoomExample.MixedBatchOvertakes` is a batch that overtakes.
- A closed continuity latch alone does not prevent recreation of a lost generation: a worker that
  read the row before the latch closed still recreates it (`ContinuityLatch.StaleCopyRecreates`).
  It can be recreated if and only if such a worker is about to install (`ContinuityLatch.RecreationExactly`).
- Not every inflight token has a locator. A repair erases it when somebody presents the bearer
  before it was issued (`LocatorRuns.EarlyBearerRun`) or while the continuity marker is missing
  (`LocatorRuns.LostMarkerRun`). Everything inflight or written ahead stays covered if and only if no
  erasure hits such a token (`Locators.CoverageExactly`). It is enough that no repair script
  runs for a token that a worker is about to submit, nor for an inflight token while the marker is
  missing (`Locators.CarefulIsHarmless`); a script that breaks this uncovers something if its erasure
  follows at once (`Locators.FinishExactly`).
- The rotation is fair to a policy that stays enabled, but not within a bound given by the size of
  the lists: new policies before it can keep the pages full (`RotationFairness.ListSizeIsNoBound`).
- Stop indices are cut to 32 bits before they are hashed, so requests 2^32 stops apart have one
  fingerprint (`SignedForms.CutStopsCollide`).
- A locator text with a plus sign or leading zeros in its version, or spaces around its seat class,
  decodes although no encoder writes it (`LocatorScope.EncodeDecode`, `LocatorScope.SignedVersionDecodes`).
- The strict base64 decoder skips line breaks, so several texts decode to one token; verification
  still accepts one text only (`TokenEnvelope.VerifyAcceptsOnlyTheBearer`).

## Model

| member | source | states |
|---|---|---|
| `RoomState.EmptyConsistent` | internal/admission/redis/scripts.go:3-24 | a freshly installed generation satisfies the structural invariant |
| `RoomInvariant.StepConsistent` | internal/admission/redis/scripts.go:33-629 | every atomic change of every script keeps queue, tables, inflight set, leases, owner index and bounds in agreement |
| `RoomInvariant.CloseConsistent` | internal/admission/redis/scripts.go:128-143 | making a token terminal, in any script, leaves no inflight member, no live owner link and one tombstone |
| `RoomInvariant.AdmitConsistent` | internal/admission/redis/scripts.go:595-626 | an admission keeps the inflight and rate bounds and the entry and token in agreement |
| `RoomLife.PathInv` | internal/admission/redis/scripts.go:33-793 | the structural invariant, the log laws and FIFO of in-order admission survive every path of steps |
| `RoomRuns.CallPath` | internal/admission/redis/scripts.go:33-793 | every script call is a path of invariant-keeping steps |
| `RoomRuns.CallInOrder` | internal/admission/redis/scripts.go:581-629 | with one peek and one time the issue call only ever admits the head of the queue |
| `RoomTheorems.AdmissionIsFifo` | internal/admission/application/worker.go:188-257 | over whole runs nobody is admitted before everybody who joined earlier was admitted, cancelled or expired |
| `RoomTheorems.IssueFifoExactly` | internal/admission/redis/scripts.go:581-629 | for arbitrary candidates a call keeps FIFO if and only if it accepts nobody behind a rejected candidate |
| `RoomExample.MixedBatchOvertakes` | internal/admission/redis/scripts.go:585-626 | a run of two joins and an issue call, with candidates not built at one instant, in which the second entry is admitted and the first still waits |
| `RoomTheorems.AdmissionRateHolds` | internal/admission/redis/scripts.go:573-576 | in every window of one second of every run at most the policy's rate of tokens is issued, however many workers call |
| `RoomTheorems.InflightExact` | internal/admission/redis/scripts.go:554-575 | the inflight set is exactly the issued and processing tokens, scored by their expiry, within the limit; the queue is within its limit |
| `RoomTheorems.OneLiveEntry` | internal/admission/redis/scripts.go:60-86 | an owner has at most one live entry and the index points at it |
| `RoomTheorems.CleanupNeverEvicts` | internal/admission/redis/scripts.go:464-523 | no cleanup takes a live entry's link away from it |
| `RoomTheorems.LeaseGenerations` | internal/admission/redis/scripts.go:716-725 | generations granted for a token strictly increase, always for one owner and one booking |
| `RoomTheorems.LeaseFencing` | internal/admission/redis/scripts.go:733-740 | release and finalize succeed only for the latest granted lease while it is open, within the token's life |
| `RoomTheorems.GrantIsNew` | internal/admission/redis/scripts.go:692-725 | a granted generation is larger than all before, its deadline is within the token's expiry, and no unexpired lease was open |
| `RoomTheorems.TokenLifeIsOneWay` | internal/admission/redis/scripts.go:537-551 | terminal tokens stay terminal, a pending cancel never returns to issued, bindings are write-once, deleted tokens never come back |
| `RoomTerminal.TerminalSettles` | internal/admission/redis/scripts.go:703-710 | the status of a terminal token after any call that does not delete it, whatever the call |
| `RoomTerminal.ConsumedLeftExactly` | internal/admission/redis/scripts.go:703-710 | a consumed token becomes something else if and only if its own acquire or a poll of its entry comes after the expiry |
| `RoomTerminal.ConsumedLateExactly` | internal/admission/redis/finalize_committed.go:67-97 | an expired or cancelled token becomes consumed if and only if a matching repair runs with the marker present |
| `RoomTerminal.TerminalIsFinalExactly` | docs/admission-token-lifecycle.md:62 | over a stretch of a run a terminal token keeps its status if and only if no such call comes in it |
| `TerminalRuns.ConsumedExpiresRun` | internal/admission/redis/scripts.go:703-710 | a run in which a consumed token becomes expired and then consumed again |
| `TerminalRuns.CancelledConsumedRun` | internal/admission/redis/finalize_committed.go:67-97 | a run in which a cancelled token becomes consumed |
| `RoomTheorems.DeliveredAtMostOnce` | internal/admission/redis/scripts.go:168-187 | a token is delivered by at most one call of a run |
| `RoomDelivery.PreflightPredictsClaim` | internal/admission/redis/scripts.go:203-232 | the preflight announces a token exactly when a claim would hand it out |
| `RoomDelivery.ClaimMatchesPreflight` | internal/app/waiting_room.go:203-234 | a later successful claim is for the announced token with unchanged fields, so both reconstructions agree |
| `RoomProgress.StaleIsPrefix` | internal/admission/redis/scripts.go:564-572 | expired entries form a prefix of the queue |
| `RoomProgress.SweepRemoves` | internal/admission/redis/scripts.go:564-572 | a pass removes min(cleanup limit, expired prefix) entries from the head and leaves the rest in place |
| `RoomProgress.AdmitsExactly` | internal/admission/redis/scripts.go:573-629 | once the prefix is gone, valid candidates are admitted for exactly the head of the queue that lines up with them, in order; if all line up, min(requested, rate left, inflight left, queue length) entries |
| `RoomPeek.PeekIsFront` | internal/admission/redis/scripts.go:290-319 | a peek returns the front of the queue behind the expired prefix, within its window |
| `RoomPeek.PeekThenIssue` | internal/admission/application/worker.go:188-257 | whatever happens between a peek and the issue call built from it, the call admits exactly the peeked entries up to the first that has left, as many as the limits allow, in order |
| `RoomPeek.PeekedAtOnce` | internal/admission/application/worker.go:188-257 | at the same instant all peeked entries still wait, so the call admits all that the limits allow |
| `RoomWait.PassAdvances` | internal/admission/redis/scripts.go:564-629 | a pass moves every entry that stays forward by what it sweeps, min(cleanup limit, expired prefix), plus what its candidates serve |
| `RoomWait.PassAdmits` | internal/admission/redis/scripts.go:564-629 | every live entry that a pass serves is admitted with its candidate's token, at the time of the pass |
| `RoomWait.WaitIsBounded` | internal/admission/redis/scripts.go:564-629 | an entry at position p has left the queue once the passes have swept and served p entries together, whatever happens in between |
| `RoomWait.WaitInPasses` | internal/admission/redis/scripts.go:564-629 | passes that gain g entries each, or empty the queue, need at most p/g, rounded up |
| `RoomWait.WaitEndsInAdmission` | internal/admission/redis/scripts.go:564-629 | an entry that was neither cancelled nor ran out of time has then been admitted |
| `RoomDrain.NothingLeaks` | internal/admission/redis/scripts.go:464-523 | every token, entry and owner link is within reach of a cleanup loop |
| `RoomDrain.PassLoad` | internal/admission/redis/scripts.go:524-572 | a late maintenance pass lowers the measure by exactly the members it found |
| `RoomDrain.MaintenanceDrains` | internal/admission/redis/scripts.go:524-572 | after as many late passes as the measure says, queue, entries, users, tokens, inflight and leases are empty |
| `RoomScan.EntryHitMeans` | internal/admission/redis/scripts.go:366-397 | the scan reports a duplicate exactly for a live record that is no longer linked, and such an entry has expired |
| `RoomScan.ScanAgreesWithProtocol` | internal/admission/redis/scripts.go:342-428 | a scan spread over a run never reports an inflight or owner mismatch, and its duplicates are exactly the expired, unlinked live records on the pages it read |
| `RoomScan.CleanScanMeansAgreement` | internal/admission/redis/scripts.go:342-428 | of any room at all: a scan of everything that reports nothing means that queue, entries, tokens, inflight set and owner index agree |
| `RoomTally.ReportIsTrue` | internal/admission/redis/scripts.go:577-629 | the counters an issue call returns are exactly the recoveries, expiries and admissions it added to the log |
| `RoomTokens.CallDerived` | internal/admission/redis/scripts.go:603-626 | new tokens are candidates with the candidate's expiry, expiries never change, only finalize and repair consume |
| `JoinAnswers.JoinCleans` | internal/admission/redis/scripts.go:46-59 | the cleanup of a join takes at most 64 entries from the head of the queue, exactly those there that have run out, and touches nothing else |
| `JoinAnswers.JoinAnswers` | internal/admission/redis/scripts.go:60-102 | after that: a duplicate with its place if and only if the owner holds an unexpired entry with the same fingerprint, a conflict if and only if with another, a full queue if and only if it is full; otherwise the entry is at the tail with just what was asked for |
| `JoinAnswers.RepeatedJoin` | internal/admission/redis/scripts.go:60-86 | a client that repeats its join while it holds its place gets its own entry back, and another request of the owner is a conflict |
| `PollAnswers.GetRefuses` | internal/admission/redis/scripts.go:144-146 | unknown and foreign entries are refused and nothing changes |
| `PollAnswers.GetWaiting` | internal/admission/redis/scripts.go:147-201 | a poll of a waiting entry shows its place, or takes it out of the queue when its time is up |
| `PollAnswers.GetAdmitted` | internal/admission/redis/scripts.go:160-201 | a poll of an admitted entry shows it, or expires token and entry when the token's time is up; a claim hands the token out once |
| `PollAnswers.GetFinished` | internal/admission/redis/scripts.go:151-201 | expired and cancelled entries are shown as they are and deliver nothing |
| `PollAnswers.InspectAnswers` | internal/admission/redis/scripts.go:203-232 | each refusal of the preflight and when it comes |
| `PollAnswers.CancelRefuses` | internal/admission/redis/scripts.go:248-250 | unknown and foreign entries are refused and nothing changes |
| `PollAnswers.CancelWaiting` | internal/admission/redis/scripts.go:263-280 | a cancelled waiting entry is in no table, not in the queue and not linked; everybody else keeps their order |
| `PollAnswers.CancelAdmitted` | internal/admission/redis/scripts.go:251-281 | an issued token is cancelled with its entry, a processing one only learns of the cancel, a consumed one stays |
| `LeaseAnswers.AcquireRefuses` | internal/admission/redis/scripts.go:677-688 | a mismatch if and only if owner, fingerprint, a field of the trip or an existing binding differs; the room is then unchanged |
| `LeaseAnswers.AcquireIssued` | internal/admission/redis/scripts.go:711-726 | a lease for the booking, one generation on and to its full length, if it fits into the token's life; otherwise token and entry expire |
| `LeaseAnswers.AcquireProcessing` | internal/admission/redis/scripts.go:692-702 | an open lease is waited for; after it a pending cancel wins, or the token is leased again |
| `LeaseAnswers.AcquireTerminal` | internal/admission/redis/scripts.go:703-710 | a consumed token allows a replay until it expires; expired and cancelled ones are refused |
| `LeaseAnswers.AcquireComparesAll` | internal/admission/redis/scripts.go:677-688 | over every run: a known token is a mismatch exactly when a compared field differs, and a lease, a wait or a replay implies that none does |
| `LeaseAnswers.ReleaseRefuses` | internal/admission/redis/scripts.go:733-740 | which of not found, mismatch and stale lease comes when; nothing changes |
| `LeaseAnswers.ReleaseSettles` | internal/admission/redis/scripts.go:741-764 | a release gives the token back, issued, inflight and linked, if and only if it is not permanent and no cancel is pending; otherwise it cancels token and entry |
| `LeaseAnswers.FinalizeRefuses` | internal/admission/redis/scripts.go:771-778 | the same refusals for finalize |
| `LeaseAnswers.FinalizeConsumes` | internal/admission/redis/scripts.go:779-794 | a finalize consumes the token, even when a cancel is pending |
| `LeaseAnswers.RepairSettles` | internal/admission/redis/finalize_committed.go:67-97 | a repair needs the continuity marker, the token, its owner and booking, and then consumes it whatever it was |
| `LeaseAnswers.ClosedRefuses` | internal/admission/redis/scripts.go:33-37 | with a marker missing or wrong every script but the repair refuses, the policy marker first, and changes nothing |
| `CleanupAnswers.SweepIs` | internal/admission/redis/scripts.go:564-572 | what the queue sweep does to each entry, each link and everything else |
| `CleanupAnswers.CleanupAnswers` | internal/admission/redis/scripts.go:524-572 | what the cleanup of an issue call makes of each token: expired, cancelled, taken back, deleted or as it was |
| `CleanupAnswers.CleanupWindow` | internal/admission/redis/scripts.go:573-576 | of the rate window exactly the last second is left |
| `IssueAnswers.NewTokenIsBorn` | internal/admission/redis/scripts.go:585-626 | every token an issue call makes is one of its candidates, passed every check, and holds the candidate's key id, nonce and times and the entry's owner, fingerprint and trip |
| `RoomOrigins.EntryIsJoined` | internal/admission/redis/scripts.go:87-102 | over every run: an entry was made by a join for its owner, fingerprint and trip |
| `RoomOrigins.TokenIsIssued` | internal/admission/redis/scripts.go:603-626 | over every run: a token was made by an issue call for one candidate and holds what that said ever since |
| `RoomOrigins.DeliveredAsIssued` | internal/admission/redis/scripts.go:168-187 | a delivered token's key id, nonce and times are those of its candidate, and it goes to the owner who joined |
| `RoomOrigins.AcquiredAsJoined` | internal/admission/redis/scripts.go:677-726 | whoever gets a lease, a wait or a replay asked with the owner, fingerprint and trip of the join |
| `WaitingRoom.RangeByScore` | internal/admission/redis/scripts.go:524-524 | returns the due members with the lowest scores, up to the limit |
| `WaitingRoom.Generation.Join` | internal/admission/redis/scripts.go:33-102 | the statements of join compute its specification and keep the invariant |
| `WaitingRoom.Generation.Get` | internal/admission/redis/scripts.go:104-201 | the statements of get and claim compute their specification and keep the invariant |
| `WaitingRoom.Generation.InspectDelivery` | internal/admission/redis/scripts.go:203-232 | the preflight answers as specified and changes nothing |
| `WaitingRoom.Generation.Cancel` | internal/admission/redis/scripts.go:234-281 | the statements of cancel compute its specification and keep the invariant |
| `WaitingRoom.Generation.Peek` | internal/admission/redis/scripts.go:283-320 | the peek loop returns the first unexpired waiting entries of its window |
| `WaitingRoom.Generation.InspectState` | internal/admission/redis/scripts.go:342-429 | the three scan loops count exactly the hits of their pages |
| `WaitingRoom.Generation.Issue` | internal/admission/redis/scripts.go:431-632 | the cleanup, window and admission loops compute the specification, return true counters and keep the invariant |
| `WaitingRoom.Generation.ExpireOnGet` | internal/admission/redis/scripts.go:128-143 | the expiry of a poll, which also leaves the queue, has the effect of closing the token as expired |
| `WaitingRoom.Generation.ExpireOnIssue` | internal/admission/redis/scripts.go:508-523 | the expiry of the cleanup loops has that effect, with the longer retention |
| `WaitingRoom.Generation.CancelOnIssue` | internal/admission/redis/scripts.go:487-507 | the cancellation of the lease loop closes the token as cancelled, or deletes it when its expiry has passed |
| `WaitingRoom.Generation.CancelIssued` | internal/admission/redis/scripts.go:263-275 | the cancellation by the owner closes the token, entry record first |
| `WaitingRoom.Generation.ExpireOnAcquire` | internal/admission/redis/scripts.go:644-658 | the expiry of an acquire closes the token without touching the queue |
| `WaitingRoom.Generation.CancelOnAcquire` | internal/admission/redis/scripts.go:659-675 | the cancellation of an acquire closes the token and keeps it to its expiry or for a minute |
| `WaitingRoom.Generation.CancelOnRelease` | internal/admission/redis/scripts.go:741-757 | the cancellation of a release, whose lease member is already gone, closes the token |
| `WaitingRoom.Generation.ConsumeOnFinalize` | internal/admission/redis/scripts.go:784-792 | finalize, which never writes the entry, still leaves the entry as closing the token does |
| `WaitingRoom.Generation.ConsumeOnRepair` | internal/admission/redis/finalize_committed.go:84-95 | the repair, which writes the entry, closes the token as consumed |
| `WaitingRoom.Generation.Acquire` | internal/admission/redis/scripts.go:634-726 | the statements of acquire compute its specification and keep the invariant |
| `WaitingRoom.Generation.Release` | internal/admission/redis/scripts.go:728-764 | the statements of release compute its specification and keep the invariant |
| `WaitingRoom.Generation.Finalize` | internal/admission/redis/scripts.go:766-794 | the statements of finalize compute its specification and keep the invariant |
| `WaitingRoom.Generation.FinalizeCommitted` | internal/admission/redis/finalize_committed.go:67-97 | the statements of the repair step compute its specification and keep the invariant |
| `Reservation.ActKeeps` | internal/app/reservation.go:297-450 | every step of every request, and every foreign call, keeps: leases come from grants, hot holds come from grants, consumed tokens have their hold |
| `Reservation.OneHoldPerToken` | internal/app/reservation.go:297-417 | no two hot holds are ever created under the same token |
| `Reservation.HoldsWithinTokens` | internal/app/reservation.go:297-417 | distinct hot holds never outnumber the tokens issued |
| `Reservation.ConsumedIsCommitted` | internal/app/reservation.go:402-416 | a token is consumed only when the hold of its own booking is durable |
| `Reservation.RepairMatches` | internal/app/reservation.go:430-450 | replaying a hold with its own token never mismatches and finalizes the token while the generation has it |
| `Reservation.LocatedRepairs` | internal/admission/redis/finalize_committed.go:28-60 | a replaying request that found the locator consumes the token of its hold, while the generation has the token and its marker |
| `ReservationAnswers.CommitLeads` | internal/app/reservation.go:384-416 | a hold becomes durable exactly when the commit goes through, and each answer leads to its own release or to finalize |
| `ReservationAnswers.LookupLeads` | internal/app/reservation.go:343-351 | a record of the same booking is repaired and never booked again, another one ends the request |
| `ReservationAnswers.TransientFailureRetries` | internal/app/reservation.go:365-401 | after no slot, a failure for now or an unheard commit the release gives the token back, and the same request is granted again if and only if a whole lease fits |
| `ReservationAnswers.PermanentFailureCancels` | internal/app/reservation.go:384-401 | after a permanent failure or a conflict the token is cancelled |
| `ReservationAnswers.CommittedIsConsumed` | internal/app/reservation.go:402-416 | after a heard commit the token is consumed, even when a cancel came in |
| `Locators.TtlsFit` | internal/admission/application/worker.go:327-341 | for all valid limits the three times to live are accepted by the store and ordered as needed |
| `Locators.WriteAnswers` | internal/admission/redis/token_locator.go:20-45 | a live locator of another generation is never overwritten; otherwise the locator names this one for a token's life, a lease and the margin |
| `Locators.PresentAnswers` | internal/admission/redis/finalize_committed.go:34-60 | a repair runs its script exactly when the bearer's locator is live |
| `Locators.ActKeeps` | internal/admission/redis/issue_locators.go:20-102 | every command of every worker, lost answers, stops, and every command of a repair whose script runs when it is safe keep all inflight and written candidates covered and all pending erasures harmless |
| `Locators.DropExactly` | internal/admission/redis/finalize_committed.go:52-56 | an erasure leaves every inflight token and every written candidate covered if and only if its token is neither |
| `Locators.FinishExactly` | internal/admission/redis/finalize_committed.go:34-60 | the erasure a repair script leads to, if any, is harmless if and only if no worker is about to have the token admitted and, if the token is inflight, the marker was there; then it stays harmless whatever happens before it runs |
| `Locators.UnsafeFinishUncovers` | internal/admission/redis/finalize_committed.go:52-56 | otherwise its erasure leaves an inflight token or a written candidate without locator |
| `Locators.AdmittedWithoutLocator` | internal/admission/application/worker.go:225-298 | such a candidate, once admitted, is inflight without locator |
| `Locators.CoverageExactly` | internal/admission/application/worker.go:225-298 | over every run: every inflight token and every written candidate is covered at all times if and only if no erasure of a repair hits such a token |
| `Locators.CarefulIsHarmless` | internal/admission/redis/finalize_committed.go:34-60 | if every repair script ran when it was safe, no erasure does |
| `Locators.EveryTokenIsLocatable` | internal/admission/application/worker.go:225-298 | if every repair script ran when it was safe, every issued or processing token has a locator to its own generation that outlives it by a lease and the margin |
| `Locators.UnnamedIsFresh` | internal/admission/application/worker.go:264-298 | a candidate the answer does not name was not admitted, so erasing its locator is safe |
| `LocatorRuns.EarlyBearerRun` | internal/admission/redis/finalize_committed.go:34-60 | a run from an empty generation in which a bearer presented before issue leaves the issued token without locator |
| `LocatorRuns.LostMarkerRun` | internal/admission/redis/finalize_committed.go:54-55 | a run in which a bearer presented while the marker is missing leaves the issued token without locator |
| `ContinuityLatch.PolicyStore.Update` | internal/admission/postgres/policy.go:332-376 | an update of the expected version raises it and opens the latch, any other changes nothing |
| `ContinuityLatch.PolicyStore.MarkRedisInitialized` | internal/admission/postgres/policy.go:214-233 | closes the latch for exactly the current enabled version |
| `ContinuityLatch.Redis.InstallPolicy` | internal/admission/redis/scripts.go:3-24 | installs, confirms or refuses, and changes nothing when it refuses |
| `ContinuityLatch.LatchIsHonest` | internal/admission/postgres/policy.go:214-233 | the latch is open or the current version, closed only after that generation was created |
| `ContinuityLatch.MarkerNeverDecreases` | internal/admission/redis/scripts.go:12-23 | without loss the version marker never decreases and never runs ahead of the row |
| `ContinuityLatch.CreationNeedsOpenCopy` | internal/admission/application/worker.go:151-169 | a generation is created exactly by an install from an open copy over a missing or older marker |
| `ContinuityLatch.NoSilentRecreation` | internal/admission/application/worker.go:151-169 | with the latch closed and nobody about to install from an open copy, no loss leads to recreation |
| `ContinuityLatch.RecreationExactly` | internal/admission/application/worker.go:151-169 | in every state of a run, behind a closed latch, some continuation recreates the generation if and only if somebody is about to install from an open copy |
| `ContinuityLatch.StaleCopyRecreates` | internal/admission/application/worker.go:151-169 | a concrete run in which a stale open copy recreates a lost generation |
| `WorkerRotation.Worker.NextPolicies` | internal/admission/application/worker.go:129-149 | the page behind the cursor, or from the start at the tail |
| `WorkerRotation.Worker.RunOnce` | internal/admission/application/worker.go:88-127 | a pass, possibly cut short, processes a prefix of its page and leaves the cursor at its last policy |
| `WorkerRotation.WorkIs` | internal/admission/application/worker.go:107-127 | what consecutive passes process depends on the position of the cursor and the cut-offs alone |
| `WorkerRotation.NobodyIsSkipped` | internal/admission/application/worker.go:101-127 | however passes are cut short, together they process the policies in cyclic order without gaps |
| `WorkerRotation.RotationIsFair` | internal/admission/application/worker.go:129-149 | from any cursor every policy of a fixed list is run within ceil(n/100)+1 uninterrupted passes |
| `RotationFairness.SteadyPolicyIsRun` | internal/admission/application/worker.go:88-149 | while others are enabled and disabled between passes, a policy that stays enabled is run within as many passes as policies ever come up behind the cursor plus those before it divided by the policies per pass |
| `RotationFairness.SteadyPolicyIsRunSoon` | internal/admission/application/worker.go:88-149 | as many passes as there are policies in all are enough, even if each is cut short after one |
| `RotationFairness.ListSizeIsNoBound` | internal/admission/application/worker.go:129-149 | the size of the lists alone bounds nothing: for every number of full passes, lists of 101 policies that starve one that is always enabled |
| `RefreshFamilies.Repository.Register` | internal/accounts/postgres/refresh_tokens.go:36-47 | inserts a new unrevoked row or reports why not |
| `RefreshFamilies.Repository.Rotate` | internal/accounts/postgres/refresh_tokens.go:55-125 | rotation, replay, invalid and failed insert each have exactly their effect |
| `RefreshFamilies.Repository.RevokeFamily` | internal/accounts/postgres/refresh_tokens.go:127-145 | revokes exactly the rows of the presented token's family |
| `RefreshFamilies.FamiliesAreChains` | internal/accounts/postgres/refresh_tokens.go:102-118 | in every reachable table each family is one simple acyclic chain of rotations |
| `RefreshFamilies.OneLiveToken` | internal/accounts/postgres/refresh_tokens.go:102-118 | a family never has two unrevoked tokens |
| `RefreshFamilies.ReplayKillsFamily` | internal/accounts/postgres/refresh_tokens.go:80-92 | after a replay or a logout no token of the family is ever rotated again |
| `RefreshFamilies.RotateAnswers` | internal/accounts/postgres/refresh_tokens.go:55-125 | a rotation succeeds if and only if the presented token is live, unexpired and of the replacement's user, family and version, and the replacement is new; the effect of each outcome |
| `RefreshFamilies.RegisterAnswers` | internal/accounts/postgres/refresh_tokens.go:36-47 | a registration succeeds if and only if the record is complete and new |
| `RefreshFamilies.RevokeAnswers` | internal/accounts/postgres/refresh_tokens.go:127-145 | a revocation needs the user's own token and revokes just its family |
| `RefreshFamilies.RotationIsEarned` | internal/accounts/postgres/refresh_tokens.go:80-118 | over every run: a rotation that succeeds presents an unexpired token issued earlier to the same user, family and version and never rotated before |
| `Reconciler.InspectAdmissionState` | cmd/reconcile/main.go:528-657 | halts within the page limit against any backend; every call sends the offset, cursor or generation that the answers before it lead to; on completion the policy pages up to the last and the whole cursor were read, the finished inspections are exactly the listings in order, every expected listed generation was validated once, and all counters are what the calls reported |
| `Reconciler.InspectGeneration` | cmd/reconcile/main.go:621-642 | one generation is inspected, from cursor zero and on with the cursor last returned, until a page is not truncated, within the limit |
| `Preimages.EncodeHold` | internal/booking/application/idempotency.go:50-88 | accepts exactly the well-formed requests and writes their canonical form |
| `Preimages.HoldImagesAgree` | internal/booking/application/idempotency.go:50-88 | two accepted requests have the same form if and only if normalized fields and passenger sets are equal |
| `Preimages.EncodeCommand` | internal/booking/application/idempotency.go:89-101 | accepts exactly the two commands with a non-blank id and writes their canonical form |
| `Preimages.CommandImagesAgree` | internal/booking/application/idempotency.go:89-101 | accepted commands have the same form if and only if operation and normalized id are equal, and never that of a hold request |
| `SignedForms.Write` | internal/admission/domain/token.go:166-185 | appending piece by piece gives the canonical form |
| `Preimages.WriteAll` | internal/booking/application/idempotency.go:103-108 | writing field by field gives the canonical list encoding |
| `FormReaders.SignedTokenReads` | internal/admission/domain/token.go:166-185 | a reader that knows only the layout gets each claim and the nonce back from what is signed |
| `FormReaders.HashedRequestReads` | internal/admission/domain/fingerprint.go:33-50 | the same for an admission request |
| `FormReaders.HashedHoldReads` | internal/booking/application/idempotency.go:50-88 | the same for a hold request: the fields in order, then the passengers once each and sorted |
| `FormReaders.HashedCommandReads` | internal/booking/application/idempotency.go:89-101 | the same for a reservation command |
| `SignedForms.RequestFormInjective` | internal/admission/domain/fingerprint.go:33-50 | two requests have the same admission form if and only if they are equal up to the stop indices modulo 2^32 |
| `SignedForms.CutStopsCollide` | internal/admission/domain/fingerprint.go:45-46 | stop indices 2^32 apart collide |
| `SignedForms.TokenFormInjective` | internal/admission/domain/token.go:166-185 | two tokens have the same signed form if and only if nonce and claims are equal, times taken in whole milliseconds |
| `SignedForms.FormsNeverCollide` | internal/admission/domain/token.go:166-185 | a signed form is never an admission form |
| `Base64Url.DecodeEncode` | internal/admission/domain/token.go:196-203 | decoding inverts encoding |
| `Base64Url.EncodeDecode` | internal/admission/domain/token.go:205-210 | what decodes is the encoding of its result up to line breaks |
| `Base64Url.AlphabetIs` | internal/admission/domain/token.go:196-203 | the alphabet |
| `Base64Url.DigitsAreBits` | internal/admission/domain/token.go:196-203 | four digits are the 24 bits of three bytes, most significant first, and what is left over is filled with zeros |
| `TokenEnvelope.DecodeRawOfEncodeRaw` | internal/admission/domain/token.go:196-221 | an envelope is read back as its key id and MAC |
| `TokenEnvelope.EncodeRawOfDecodeRaw` | internal/admission/domain/token.go:205-221 | a raw token is the encoding of what it decodes to, exactly when it has no line break |
| `TokenEnvelope.VerifyAcceptsOnlyTheBearer` | internal/admission/domain/token.go:131-164 | verification accepts exactly the text that reconstruction gives |
| `TokenEnvelope.IssuedVerifies` | internal/admission/domain/token.go:95-164 | an issued record reconstructs its bearer, which verifies |
| `TokenEnvelope.ReconstructAnswers` | internal/admission/domain/token.go:113-164 | a record reconstructs if and only if its claims are complete, its key is known and its hash is the bearer's |
| `TokenEnvelope.EnvelopeLayout` | internal/admission/domain/token.go:196-203 | version, length, key id and MAC, in that order |
| `LocatorScope.DecodeEncode` | internal/admission/redis/token_locator.go:77-114 | decoding a locator gives back its scope in canonical form |
| `LocatorScope.EncodeDecode` | internal/admission/redis/token_locator.go:77-114 | a text that decodes is the encoding of its scope if and only if its version has no sign and no leading zeros and its seat class no spaces around it |
| `LocatorScope.SignedVersionDecodes` | internal/admission/redis/token_locator.go:88-114 | a locator with a plus sign before the version decodes to the same scope |
| `LocatorScope.EncodeInjective` | internal/admission/redis/token_locator.go:77-86 | accepted scopes have the same locator if and only if their canonical forms are equal |
| `LocatorScope.EncodeLayout` | internal/admission/redis/token_locator.go:77-86 | policy id, run id, seat class and version, with bars between them |

## Left out

- Key times to live inside Redis, connections, pipelining errors and value marshalling: a key is present or lost.
- SQL isolation, row locks and retries: every transaction is one step.
- Expiry of idempotency records: holds stay on record.
- The view fields of replies other than identity, status and position, and the display of retry hints: easy.
- Entry locators: only token locators are followed over runs, because repair depends on them.
- Several generations at once: tokens of different generations have different hashes, so each generation is treated alone.
- Seat allocation, sharding, payment, outbox, operator commands, readiness, metrics and HTTP mapping.
- LocatorScope.DecodeEncode: of trimming, folding and UUID parsing only what the module states is assumed.
- SignedForms.TokenFormInjective: ids of 2^32 bytes or more, whose length would be cut, are excluded.
- Preimages.HoldImagesAgree: trimming and case folding are arbitrary functions, so nothing is said about which texts they identify.
