# Verified models of the Blocks building blocks

These Dafny modules model the parts of the repository whose promises depend on interleaving, on
compare-and-swap, or on an algorithm, and prove what those parts promise.

* **AuthBasic** (`VerificationCodes.dfy`, `EpochText.dfy`, `Sessions.dfy`, `Lockout.dfy`): one-time codes that are
  reserved, evaluated and consumed by conditional writes; session epochs, tokens and sign-out markers;
  the sign-in lockout.
* **AsyncJob** (`JobStatus.dfy`, `BatchChunks.dfy`, `BatchSubmit.dfy`, `ContainerPoller.dfy`): the status
  record that a submitter and at-least-once handlers write, batch packing, the bounded send pool, and
  the slot-limited poller.
* **Agent** (`Chat.dfy`, `ChatClient.dfy`, `ChunkStream.dfy`, `TurnBudget.dfy`, `TurnStream.dfy`,
  `UntrustedOutput.dfy`): the chat controller, the chunk queue and its subscription, the runaway caps,
  what a turn publishes, and the wrapping of untrusted tool output.
* **AppSetting and scripts** (`BulkSecrets.dfy`, `TopoSort.dfy`, `Scheduling.dfy`, `Redaction.dfy`): the
  deploy-time secret reconciler, the publish order, the delivery forecast, and credential redaction.
* `Runs.dfy`, `Maybe.dfy`, `Collections.dfy` and `Replacing.dfy` hold what several modules share.

## How the concurrent parts are modelled

Each protocol is a state machine whose `Step` is total: an action that is not enabled changes nothing, so
every sequence of actions is a run, and a theorem about `Run(start, actions)` speaks of every number of
requests and every interleaving. One action is one piece of source code between two awaits. A store
read returns any value the item has ever held, so reads may be stale; a conditional write is atomic. Beside
each machine stands a class with the source's own variables. Its methods do what the source's code does
and are proved to make exactly the steps of the machine; a whole request method takes a schedule
of what others do at each of its awaits.

Fields that only the theorems look at (which issuance a request reserved, which call wrote a history
entry, and so on) are named as bookkeeping where they are declared. Clocks, random values, store errors,
network answers and model events are inputs. Digests are injective functions of the code and tokens are
records of their claims.

## Where the code does less than its comments say

Each of these is proved, with the exact condition where there is one.

* A code is refused up to 999 ms before its ten minutes are over, because its row's time-to-live is in whole
  seconds (`VerificationCodes.ReadableForSixHundredSeconds`); on a row that is still stored it is good for
  the ten minutes exactly (`VerificationCodes.RightCodeIsGoodForTenMinutes`).
* A session epoch rises at every bump except at 2^53 - 1, where the next value reads back as 0
  (`EpochText.BumpRaisesIff`).
* A session check that verified a token before its expiry but reads the revocation list after it admits a
  signed-out token, because the marker lapses at that moment (`Sessions.StraddlingCheckIsAdmitted` is the run,
  `Sessions.SignedOutTokenIsAdmittedIff` the exact condition).
* A sign-in that matched the old password but reads the epoch after both bumps of a reset keeps a valid
  session (`Sessions.SlowSignInIsAdmitted`).
* At most `maxAttempts` failures are evaluated in the `windowSeconds` of a counting window exactly when the
  window outlasts neither the lock nor the counter row (`Lockout.AtMostMaxFailuresPerWindowIff`). The row
  lives a whole number of seconds, so for a window of whole seconds that means exactly when the lock is the
  longer of the two; with both at their default of 900 s one more failure fits in
  (`Lockout.BoundingIffLongerLock`). The option's comment calls the window sliding; it is fixed from
  the failure that opened it.
* A lock can end up to one second early for the same reason, exactly when the row may be dropped before the
  lock's last millisecond (`Lockout.LocksLastIff`); `Lockout.ALockEndsEarly` is the run.
* The submission time stays too late exactly when the record was created with a later time and the correction
  did not settle: it read no record, lost five swaps, or met a store error
  (`JobStatus.SubmissionTimeIsTheMinimumIff`). One stale read is enough
  (`JobStatus.StaleAbsenceLeavesALateTime`); with fresh reads the record is always found
  (`JobStatus.FreshReadsFindTheRecord`).
* A duplicate delivery reopens a completed job (`JobStatus.UndisturbedAppendLands`).
* A stopped poller can still start handlers, after drain resolved, exactly when a receive is under way
  (`ContainerPoller.NoLateBatchIff`, `ContainerPoller.DrainedPollerStartsABatch`), and no more than that
  receive asked for (`ContainerPoller.AtMostOneLateBatch`).
* After `destroy` the chat still calls back for failed sends, failed streams, new sends and
  `newConversation` (`Chat.AfterDestroy`).
* A `done` without text leaves an empty bubble that a resume takes over; a re-sync of the first turn then
  resolves the second (`Chat.EmptyDoneLetsAResyncResolveAResume`). After every other
  terminal chunk a re-sync of the ended turn stays inert, after this one it can always be made to act
  (`Chat.ResyncAfterATerminalChunkIsInertIff`).
* Redaction leaves a credential value that is part of its own or a later token
  (`Redaction.NoCredentialRemainsIff`, `Redaction.AValueInItsTokenStays`).
* A resumed turn is charged for the turn before it when no hook ran in its fresh segment
  (`TurnBudget.AResumeMayInheritTheLastTurnsCount`; `TurnBudget.CountersAreThisTurns` has the condition).
* A turn that raised an interrupt and then failed or hit a cap publishes two terminal chunks
  (`TurnStream.EveryTurnEndsWithATerminalChunk`).
* The nonce of wrapped tool output can appear in the body when it begins with `a`: lower-casing
  `untrusted-datA` supplies that letter (`UntrustedOutput.NonceStaysOutIff`).

## Model

| member | source | states |
|---|---|---|
| VerificationCodes.AtMostFiveGuessesPerCode | packages/bb-auth-basic/src/index.ts:355-443 | over any run of issues, verifications, stale reads and reaping, at most five guesses are evaluated per issued code |
| VerificationCodes.EachCodeAcceptedAtMostOnce | packages/bb-auth-basic/src/index.ts:417-443 | an accepted request presented the code of an issuance, and no other request was accepted for that issuance |
| VerificationCodes.SuccessesNeverOutnumberIssuances | packages/bb-auth-basic/src/index.ts:340-443 | the accepted requests are at most as many as the codes issued |
| VerificationCodes.RowsComeFromIssuesAndLeaveForAReason | packages/bb-auth-basic/src/index.ts:340-462 | only an issuance fills an empty store; a row leaves by an acceptance of its code, or past its expiry, with five attempts spent, or past its whole-second time-to-live; each acceptance removes the row |
| VerificationCodes.ConsumeLoopIsBounded | packages/bb-auth-basic/src/index.ts:417-443 | with fresh re-reads a right guess retries its delete at most 4 times, plus 6 for each code issued meanwhile |
| VerificationCodes.AloneOnLiveRow | packages/bb-auth-basic/src/index.ts:355-443 | undisturbed on a row that has not expired and has at most four attempts spent, the right code is accepted and the row removed, a wrong one costs one attempt |
| VerificationCodes.AloneOnDeadRow | packages/bb-auth-basic/src/index.ts:362-379 | undisturbed on a row that has expired or has five attempts spent, the row is removed and the request refused |
| VerificationCodes.RightCodeIsGoodForTenMinutes | packages/bb-auth-basic/src/index.ts:340-443 | after any run, an issue and any further run without another, the right code presented undisturbed on the stored row is accepted if and only if at most 600 000 ms have passed and at most four attempts are reserved; after five it is refused |
| VerificationCodes.WrongGuessesThenTheRightOne | packages/bb-auth-basic/src/index.ts:355-443 | after any run, an issue, any number of wrong guesses one after the other and a wait, the right code is accepted if and only if there were at most four and the wait was at most 600 000 ms |
| VerificationCodes.ReadableForSixHundredSeconds | packages/bb-kv-store/src/ttl.ts:48-85 | the row of a code is readable and unexpired exactly while the whole second of the clock is less than 600 after that of the issue |
| VerificationCodes.RightGuessSurvivesRaces | packages/bb-auth-basic/src/index.ts:417-443 | in every reachable state a right guess whose code is still stored is accepted by its next delete, or by the one after a fresh re-read, and the row is gone |
| VerificationCodes.CodeStore.GenerateCode | packages/bb-auth-basic/src/index.ts:340-353 | issuing replaces the row by the digest of the code with no attempts spent |
| VerificationCodes.CodeStore.DeleteIfUnchanged | packages/bb-auth-basic/src/index.ts:455-462 | removes the row only if it is still the one that was read |
| VerificationCodes.CodeStore.VerifyCode | packages/bb-auth-basic/src/index.ts:355-443 | under any interference at its awaits the method makes a run of the machine and ends accepted or refused; alone it succeeds exactly on a row with the right code, before its expiry and its whole-second time-to-live, with at most four attempts spent |
| EpochText.EpochRoundTrip | packages/bb-auth-basic/src/index.ts:211-215 | reading a printed epoch gives it back, except that an unsafe integer reads as 0 |
| EpochText.StrayTextIsReadLeniently | packages/bb-auth-basic/src/index.ts:211-215 | spaces before a number and anything after it are skipped, a plus sign too, and a minus sign makes any number read as 0 |
| EpochText.TextWithoutANumberReadsAsZero | packages/bb-auth-basic/src/index.ts:211-215 | text with no digit after its spaces and sign reads as 0 |
| EpochText.BumpRaisesIff | packages/bb-auth-basic/src/index.ts:898-906 | a bump raises the epoch, by one, if and only if it is below 2^53 - 1; there it falls to 0 |
| EpochText.LargestEpochFallsToZero | packages/bb-auth-basic/src/index.ts:211-215 | the concrete marker at which a bump makes old tokens current again |
| Sessions.CommittedBumpsRaiseTheEpoch | packages/bb-auth-basic/src/index.ts:898-917 | concurrent resets with stale reads: the committed epoch values strictly increase (below 2^53 - 1) |
| Sessions.AdmittedIffEpochCurrent | packages/bb-auth-basic/src/index.ts:770-792 | a check with a fresh epoch read admits a token if and only if it is not seen revoked and the token's epoch was read as the newest |
| Sessions.BumpRefusesEarlierTokens | packages/bb-auth-basic/src/index.ts:770-917 | a token whose epoch was read before a committed bump is refused by every check that reads the epoch after it |
| Sessions.ResetEndsEarlierSessions | packages/bb-auth-basic/src/index.ts:643-677 | after a reset, tokens whose epoch was read before its first bump are refused; with the second bump, also those read before the password was written |
| Sessions.PasswordsFollowABump | packages/bb-auth-basic/src/index.ts:652-664 | a password is only written after a bump of the same reset committed |
| Sessions.EveryTokenHasItsPassword | packages/bb-auth-basic/src/index.ts:558-695 | over every run each token was minted for a request that, earlier in the run, presented the hash of a password stored by then; its epoch and lifetime are those of the moment it was minted |
| Sessions.AWrongPasswordGetsNoToken | packages/bb-auth-basic/src/index.ts:573-578 | over every run a request that only presents hashes no stored password has is never signed in, and none of its mints changes anything |
| Sessions.EveryPasswordWasAskedFor | packages/bb-auth-basic/src/index.ts:643-664 | over every run each password after the first is the one that the reset which wrote it was asked for |
| Sessions.EveryCheckBeganInTime | packages/bb-auth-basic/src/index.ts:770-792 | over every run a check that has a verdict, or will get one, began before its token expired |
| Sessions.EveryMarkerWasAskedFor | packages/bb-auth-basic/src/index.ts:811-838 | over every run a marker was written for a sign-out that began while its token was alive |
| Sessions.GivesUpOnlyAfterThreeFailures | packages/bb-auth-basic/src/index.ts:898-917 | over every run a reset fails, or is done without its second bump, only when three attempts at that bump failed |
| Sessions.SignedOutTokenIsRefused | packages/bb-auth-basic/src/index.ts:811-838 | once sign-out returned, a check that reads the revocation list before the token's expiry, and not stale, never admits the token, whatever happens in between |
| Sessions.SignedOutTokenIsAdmittedIff | packages/bb-auth-basic/src/index.ts:770-838 | over every run, a check begun after the sign-out returned, with a fresh epoch read, admits the token if and only if its list read was stale or came at or after the token's expiry, and the token's epoch is still the newest |
| Sessions.StraddlingCheckIsAdmitted | packages/bb-auth-basic/src/index.ts:680-838 | the run from the start in which that happens: sign in, sign out, begin a check, and read the list as the token and its marker expire |
| Sessions.SlowSignInIsAdmitted | packages/bb-auth-basic/src/index.ts:558-695 | the run from the start in which a sign-in matches a password, a reset replaces it and commits both bumps, and the sign-in's token is admitted all the same |
| Sessions.SessionStore.BumpSessionEpoch | packages/bb-auth-basic/src/index.ts:898-917 | at most three attempts, a run of the machine; the result says whether one committed; alone it appends exactly the next epoch |
| Sessions.SessionStore.ConfirmResetPassword | packages/bb-auth-basic/src/index.ts:643-677 | bump, write, bump as a run of the machine under any interference and store errors; alone it bumps twice around one password write |
| Lockout.NothingEvaluatedWhileLocked | packages/bb-auth-basic/src/index.ts:558-585 | no password is evaluated between the failure that trips a lock and the end of that lock |
| Lockout.LockedExactlyUntilOver | packages/bb-auth-basic/src/index.ts:960-977 | while a lock is held an attempt is refused as locked if and only if the lock is not over |
| Lockout.TheLogDecides | packages/bb-auth-basic/src/index.ts:960-1017 | over every run a sign-in is refused as locked if and only if the last counting window holds at least `maxAttempts` failures and no success, the one that reached `maxAttempts` is less than `lockoutSeconds` ago, and the row of the last one still lives |
| Lockout.TripsAtTheLastAttempt | packages/bb-auth-basic/src/index.ts:991-1017 | over every run a failure trips the lock if and only if it is number `maxAttempts` of its window, and it joins the window of the sign-in before it exactly when that one failed, its row still lives and the window is open |
| Lockout.ASuccessClearsTheCounter | packages/bb-auth-basic/src/index.ts:580-585 | after a success only `maxAttempts` new failures lock the user out |
| Lockout.TheLogIsWhatWasEvaluated | packages/bb-auth-basic/src/index.ts:558-585 | the log that these speak of holds exactly the sign-ins of the run that were not refused as locked, with their times |
| Lockout.LockLastsIff | packages/bb-auth-basic/src/index.ts:960-1017 | a lock tripped at a given moment lasts `lockoutSeconds` if and only if the row's time-to-live comes no earlier |
| Lockout.LocksLastIff | packages/bb-auth-basic/src/index.ts:960-1017 | in every run no password is evaluated within `lockoutSeconds` of a trip, if and only if the row, wherever in a second it is written, outlives the lock |
| Lockout.LockLasts | packages/bb-auth-basic/src/index.ts:960-1017 | in any case a lock lasts more than `lockoutSeconds` less one second |
| Lockout.ALockEndsEarly | packages/bb-kv-store/src/ttl.ts:48-85 | otherwise the run in which a tripped lock is followed by an evaluated password too early |
| Lockout.AtMostMaxFailuresPerWindowIff | packages/bb-auth-basic/src/index.ts:991-1017 | in every run at most `maxAttempts` failures lie, by the clock, within `windowSeconds` of the failure that opened the window and before a success, if and only if the window outlasts neither the lock nor the row |
| Lockout.AWindowOverflows | packages/bb-auth-basic/src/index.ts:991-1017 | otherwise a run with one failure too many: fill the counter, wait, fail again |
| Lockout.BoundingIffLongerLock | packages/bb-auth-basic/src/index.ts:306-312 | for windows of whole seconds the bound holds if and only if the lock is longer than the window; a second longer is always enough |
| Lockout.DroppingDecidesNothingIff | packages/bb-auth-basic/src/index.ts:1006-1013 | dropping any row at its time-to-live changes no lock and no later row, if and only if the row outlives both the window and the lock |
| Lockout.Throttle.SignIn | packages/bb-auth-basic/src/index.ts:558-585 | the sign-in method makes the machine's step and returns its outcome |
| Lockout.Throttle.RecordFailedSignIn | packages/bb-auth-basic/src/index.ts:991-1017 | counts the failure within its window and stamps the trip once |
| JobStatus.EachVersionIsWrittenOnce | packages/bb-async-job/src/status.ts:231-339 | over any run each version number is written once and determines the whole record, so a stale read whose version still matches is a current read |
| JobStatus.RecordedExactlyOnce | packages/bb-async-job/src/status.ts:304-339 | in every later state a `recordTransition` that returned is in the history exactly once with its own arguments, and one that did not return is not in it |
| JobStatus.ErrorIsTheLastOneGiven | packages/bb-async-job/src/status.ts:304-339 | over every run the error of every record ever held is that of the last call in its history that gave one, and absent if none did; backdating keeps it |
| JobStatus.CallsKeepTheirArguments | packages/bb-async-job/src/status.ts:195-339 | over every run a call under way or returned carries the arguments it was made with |
| JobStatus.GivesUpOnlyAfterFiveLosses | packages/bb-async-job/src/status.ts:231-339 | over every run a call gives up its write only after five refused swaps of its own, or after a store error |
| JobStatus.EveryRecordIsWellFormed | packages/bb-async-job/src/status.ts:162-339 | every record ever readable starts `queued` at its submission time, its state is the last transition's and its attempts the maximum |
| JobStatus.NothingIsUndone | packages/bb-async-job/src/status.ts:195-339 | over any run no write undoes a transition, lowers the version or attempts, or moves the submission time later |
| JobStatus.SubmissionTimeIsTheMinimum | packages/bb-async-job/src/status.ts:195-263 | a settled submission leaves a submission time at most its own; with one submitter it is the minimum of the backfilled and the real time |
| JobStatus.SubmissionTimeIsTheMinimumIff | packages/bb-async-job/src/status.ts:195-263 | with one submitter the submission time ends as the minimum of the backfilled and the real time, if and only if the correction settled or the record was not created later |
| JobStatus.FreshReadsFindTheRecord | packages/bb-async-job/src/status.ts:235-239 | with fresh reads no correction is given up for want of a record |
| JobStatus.StaleAbsenceLeavesALateTime | packages/bb-async-job/src/status.ts:235-239 | the run from the start in which one stale read leaves the submission time too late |
| JobStatus.UndisturbedAppendLands | packages/bb-async-job/src/status.ts:310-332 | an undisturbed append lands whatever the state of the job, after a backfilled `queued` when there is no record, and leaves this state, error, attempts, times and history |
| JobStatus.JobStatusTracker.RecordTransition | packages/bb-async-job/src/status.ts:304-339 | at most five attempts under any interference, a run of the machine; it returns normally exactly when it was recorded |
| JobStatus.JobStatusTracker.RecordQueued | packages/bb-async-job/src/status.ts:195-212 | creates or corrects the record as a run of the machine; alone it always settles |
| JobStatus.JobStatusTracker.BackdateSubmission | packages/bb-async-job/src/status.ts:231-263 | the correction loop as a run of the machine, with at most five attempts |
| BatchChunks.ChunkBatch | packages/bb-async-job/src/index.aws.ts:475-494 | an in-order partition into acceptable requests, each closed only because the next body did not fit, and no acceptable in-order partition has fewer |
| BatchChunks.GreedyStaysAhead | packages/bb-async-job/src/index.aws.ts:475-494 | after the same number of requests the greedy grouping is at least as far as any other |
| BatchChunks.GreedyIsMinimal | packages/bb-async-job/src/index.aws.ts:475-494 | any grouping with the greedy property uses the fewest requests |
| BatchSubmit.RunFromPool | packages/bb-async-job/src/index.aws.ts:511-560 | in every interleaving no payload has two outcomes and open chunks have none |
| BatchSubmit.AtMostFiveDistinctSends | packages/bb-async-job/src/index.aws.ts:522-559 | in every interleaving at most five chunks are outstanding and no chunk is in two requests |
| BatchSubmit.EachChunkIsTakenOnce | packages/bb-async-job/src/index.aws.ts:522-533 | in every interleaving the chunks are sent, or skipped after an abort, one after the other and each exactly once |
| BatchSubmit.EveryChunkIsTaken | packages/bb-async-job/src/index.aws.ts:522-559 | and all of them by the time every worker has finished |
| BatchSubmit.NoSendStartsAfterAnAbort | packages/bb-async-job/src/index.aws.ts:528-547 | after an abort, whatever follows, a request still outstanding was already outstanding then |
| BatchSubmit.OutcomesAreThoseOfTheRun | packages/bb-async-job/src/index.aws.ts:528-554 | over every run a payload has an id or a failure if and only if some action of the run gave it: an admissible answer to its outstanding request that names it, the rejection of that request, or its chunk's turn in an aborted pool |
| BatchSubmit.AbortedIffARequestFailed | packages/bb-async-job/src/index.aws.ts:538-547 | over every run the pool is aborted if and only if an outstanding request was rejected |
| BatchSubmit.ThePoolSettles | packages/bb-async-job/src/index.aws.ts:522-559 | every step brings the pool closer to its end and until then some step is possible |
| BatchSubmit.SortSorts | packages/bb-async-job/src/index.aws.ts:604 | the failures end up in ascending index order, none lost |
| BatchSubmit.SortKeepsOutcomes | packages/bb-async-job/src/index.aws.ts:604 | sorting keeps exactly one outcome per payload |
| BatchSubmit.Sender.FillMissing | packages/bb-async-job/src/index.aws.ts:593-598 | appends one `MissingResult` entry for exactly the payloads without id or failure |
| BatchSubmit.EveryPayloadIsAccounted | packages/bb-async-job/src/index.aws.ts:588-609 | the result of the pool gives every payload exactly one outcome, failures in ascending order |
| BatchSubmit.TheResultIsTruthful | packages/bb-async-job/src/index.aws.ts:588-632 | the result reports an id or a failure if and only if the run gave it, `MissingResult` otherwise exactly for the payloads the run gave nothing, and succeeds if and only if every payload got an id |
| BatchSubmit.SubmitBatch | packages/bb-async-job/src/index.aws.ts:562-632 | the three up-front errors exactly when they apply; otherwise, under any finished schedule and answers, the result is that of the pool's final state, one outcome per payload, and tells exactly what the schedule gave each payload |
| ContainerPoller.SlotsAreNeverExceeded | packages/bb-async-job/src/index.aws.ts:255-377 | `inFlight` counts the started, unfinished handlers and never exceeds the limit, although the free slots are computed before the awaited receive; waiters resolve only at 0 |
| ContainerPoller.HandlersFollowTheirReports | packages/bb-async-job/src/index.aws.ts:288-319 | over every run a handler is at work until its worker reports, is deleting after an ok report until the delete settles, and ends with its message deleted if and only if it reported ok and the delete settled well |
| ContainerPoller.AsksForAllItCanTake | packages/bb-async-job/src/index.aws.ts:322-366 | a running poller at the top of its loop can take any number of messages up to ten and to its free slots, and no more |
| ContainerPoller.TheLoopComesBack | packages/bb-async-job/src/index.aws.ts:322-359 | over every run the loop has stopped only after a stop, and otherwise comes back to its top after a failed receive and a nap with nothing else changed |
| ContainerPoller.WaitersAreConserved | packages/bb-async-job/src/index.aws.ts:258-269 | over any run the waiters resolved and still waiting are as many as the drains asked for, and none waits when nothing is in flight |
| ContainerPoller.AtMostOneLateBatch | packages/bb-async-job/src/index.aws.ts:322-368 | after a stop, over any run, no more handlers start than a receive under way asked for |
| ContainerPoller.NoLateBatchIff | packages/bb-async-job/src/index.aws.ts:322-368 | a stopped poller starts nothing in any run if and only if no receive is under way |
| ContainerPoller.DrainedPollerStartsABatch | packages/bb-async-job/src/index.aws.ts:337-366 | the run from the start in which drain resolves and handlers start afterwards |
| ContainerPoller.Poller.Dispatch | packages/bb-async-job/src/index.aws.ts:361-366 | one slot taken and one handler started per message |
| ContainerPoller.Poller.ReleaseSlot | packages/bb-async-job/src/index.aws.ts:264-269 | releases one slot, and with the last one resolves every waiter |
| Chat.ConsumersAreToldConsistently | packages/bb-agent/src/index.chat.ts:271-348 | in every interleaving at most one error per turn, strictly alternating loading values, and a current message list |
| Chat.ALostConnectionNeverHangs | packages/bb-agent/src/index.chat.ts:582-592 | over every run, once the connection is lost during a loading turn, the failsafe is set and loading is on in every later state, until loading was cleared after the loss or the controller was destroyed |
| Chat.TheFailsafeEndsTheTurn | packages/bb-agent/src/index.chat.ts:293-306 | in such a state the timer clears loading, tells so, and leaves exactly one error for the turn |
| Chat.BubbleShowsTheStream | packages/bb-agent/src/index.chat.ts:485-503 | while a turn is unresolved its bubble shows exactly the concatenation of the text deltas delivered since it began |
| Chat.ResyncOnlyExtends | packages/bb-agent/src/index.chat.ts:363-420 | a re-sync leaves the turn as it is, or resolves it with persisted text that extends what was streamed |
| Chat.PrepareGivesEmptyBubble | packages/bb-agent/src/index.chat.ts:641-681 | a turn begins with an empty bubble, new or left over empty, message ids stay distinct and old messages stay |
| Chat.TerminalChunkRetires | packages/bb-agent/src/index.chat.ts:505-552 | a terminal chunk retires the turn's id for good if and only if it is not an empty `done` for an empty bubble |
| Chat.RetiredStays | packages/bb-agent/src/index.chat.ts:641-742 | no action, and no later turn, takes a retired id again |
| Chat.ResyncOfARetiredTurnIsInert | packages/bb-agent/src/index.chat.ts:363-452 | a re-sync that captured a retired turn changes no message and raises no interrupt, however the controller was used in between |
| Chat.ABubbleLeftBehindIsTakenAgain | packages/bb-agent/src/index.chat.ts:641-681 | between turns, from any state with the empty bubble of an ended turn in the list, some use of the controller lets the turn's re-sync act on a later turn |
| Chat.ResyncAfterATerminalChunkIsInertIff | packages/bb-agent/src/index.chat.ts:363-552 | once a terminal chunk ended the captured turn, the re-sync changes no message and raises no interrupt in any run, if and only if the chunk was not an empty `done` for an empty bubble |
| Chat.EmptyDoneLetsAResyncResolveAResume | packages/bb-agent/src/index.chat.ts:668-675 | the concrete run in which an id is taken again and an old re-sync ends the new turn |
| Chat.AfterDestroy | packages/bb-agent/src/index.chat.ts:788-795 | after `destroy` an action reaches the consumer if and only if it is one of the unguarded ones |
| ChatClient.WhatEachStepMeans | packages/bb-agent/src/index.chat.ts:271-795 | in every reachable state, what each action means to the consumer and to the tasks under way: sends, streams, re-syncs, timer, reset and teardown |
| ChatClient.ChatController.SendMessage | packages/bb-agent/src/index.chat.ts:638-692 | refused exactly while loading; otherwise loading, with the input recorded in order under new ids, an empty bubble, nothing lost from the list, no error reported and no timer; it is the step of the machine |
| ChatClient.ChatController.ConversationEnsured | packages/bb-agent/src/index.chat.ts:555-594 | a known or created conversation leads to a new stream, a failed creation to the failure of the send; it is the step of the machine |
| ChatClient.ChatController.HandleChunk | packages/bb-agent/src/index.chat.ts:485-553 | a terminal chunk ends the turn, with loading and timer cleared; a delta or final text changes only the bubble's text; an error or interrupt takes away only an empty bubble; errors and interrupts are told exactly when due, at most one each; after `destroy` nothing happens |
| ChatClient.ChatController.HistoryArrived | packages/bb-agent/src/index.chat.ts:373-427 | a turn in flight is resolved exactly when the persisted text extends the streamed one, changing only its bubble; otherwise it keeps its state and the timer is armed; without such a turn nothing changes; a failed read is an error at most once |
| ChatClient.ChatController.InterruptsArrived | packages/bb-agent/src/index.chat.ts:428-469 | an interrupt is raised exactly for a turn still in flight and pauses it with loading and timer cleared; no message ever changes |
| ChatClient.ChatController.ConsumerEnded | packages/bb-agent/src/index.chat.ts:611-635 | loading is cleared unless destroyed, and also then when the stream failed; an error is told exactly when it failed and the turn had none; messages and bubble stay |
| ChatClient.ChatController.OnDisconnect | packages/bb-agent/src/index.chat.ts:582-592 | a connection lost by anyone but the client arms the failsafe of a loading turn; it is the step of the machine |
| ChatClient.ChatController.HandleSendFailure | packages/bb-agent/src/index.chat.ts:345-349 | not loading, no turn in flight, only an empty bubble gone, and exactly one error for the turn |
| ChatClient.ChatController.FailsafeFires | packages/bb-agent/src/index.chat.ts:294-306 | a loading turn ends with an error reported; without one, or after `destroy`, nothing is told; messages and bubble stay |
| ChatClient.ChatController.NewConversation | packages/bb-agent/src/index.chat.ts:731-742 | the list is empty, the stream and the conversation are forgotten; it is the step of the machine |
| ChatClient.ChatController.Destroy | packages/bb-agent/src/index.chat.ts:788-795 | destroyed, the timer cleared, nothing told; it is the step of the machine |
| ChunkStream.NothingIsLostOrReordered | packages/bb-agent/src/transport.ts:109-139 | in every interleaving delivered chunks, the one in hand and the buffer are exactly the messages before the close, in order; a parked consumer misses nothing and a returned one saw everything |
| ChunkStream.DrainedStreamEndsAtTheFirstTerminalChunk | packages/bb-agent/src/transport.ts:211-214 | a drained stream not cut short ends with a terminal chunk and has no earlier one |
| ChunkStream.ClosedStreamDrains | packages/bb-agent/src/transport.ts:126-138 | once closed, the consumer finishes within a computed number of its own steps |
| ChunkStream.UnsubscribeAlwaysDetaches | packages/bb-agent/src/transport.ts:202-264 | after `unsubscribe` the remote subscription is not left open, whether the attach resolves before or after it |
| ChunkStream.ConfirmedForGood | packages/bb-agent/src/transport.ts:237-252 | once the subscription is confirmed a later rejection does nothing, whatever happens in between |
| ChunkStream.ChunkQueue.PushChunk | packages/bb-agent/src/transport.ts:114-119 | a push wakes the parked consumer, or is buffered, or is dropped after close |
| ChunkStream.ChunkQueue.CloseQueue | packages/bb-agent/src/transport.ts:121-125 | close ends a parked consumer and keeps the buffer |
| ChunkStream.ChunkQueue.RunConsumer | packages/bb-agent/src/transport.ts:127-137 | the generator runs to its next yield, park or return |
| ChunkStream.Subscription.StopListening | packages/bb-agent/src/transport.ts:259-263 | detaches a handle it has, records the intent otherwise, and closes the queue |
| TurnBudget.CapsBoundALogicalTurn | packages/bb-agent/src/agent.ts:404-452 | over any run of turns, interrupts and resumes a logical turn makes at most `maxLlmCalls` uncancelled model calls and at most `maxToolIterations` distinct uncancelled tool calls |
| TurnBudget.CountersAreThisTurns | packages/bb-agent/src/agent.ts:404-428 | once a hook ran in the fresh segment the saved counters are this turn's model calls and distinct tool ids; without it the calls are right if and only if none were left behind, the tool count if and only if the turn uses every id that was |
| TurnBudget.CancelledByThisTurnAlone | packages/bb-agent/src/agent.ts:439-452 | a call is cancelled exactly when this turn's own count goes over the cap; a re-emitted tool call is not charged twice |
| TurnBudget.EventsAreTheCallsOfTheTurn | packages/bb-agent/src/agent.ts:404-452 | over every run the calls of a logical turn are exactly those made since its fresh segment began, in order |
| TurnBudget.CapExceededIffACallWasCancelled | packages/bb-agent/src/agent.ts:439-452 | over every run a segment reports an exceeded cap if and only if one of its own calls was cancelled |
| TurnBudget.AResumeMayInheritTheLastTurnsCount | packages/bb-agent/src/agent.ts:404-412 | the concrete run without a hook in which the last turn's count leaks |
| TurnBudget.Budget.BeforeToolCall | packages/bb-agent/src/agent.ts:422-452 | resets lazily, charges a new id once, and keeps the first reason a cap was exceeded |
| TurnBudget.Budget.BeforeModelCall | packages/bb-agent/src/agent.ts:414-445 | resets lazily, charges the call, and cancels exactly over the cap |
| TurnStream.BothModesStreamTheWholeText | packages/bb-agent/src/agent.ts:473-530 | in both streaming modes and however the turn ends the text chunks together are the model's text |
| TurnStream.ModesDifferOnlyInCutting | packages/bb-agent/src/agent.ts:473-577 | apart from the cutting of text both modes publish the same chunks, and `done` carries the whole text |
| TurnStream.TextAppearsAtItsBoundary | packages/bb-agent/src/agent.ts:473-518 | block by block, at every moment exactly the text up to the last block end or interrupt has been published, in at most one chunk per boundary |
| TurnStream.PublishedStays | packages/bb-agent/src/agent.ts:473-518 | what was published at any moment stays in front of what comes later |
| TurnStream.TokensAreNotHeldBack | packages/bb-agent/src/agent.ts:473-518 | delta by delta every event publishes its own chunk at once |
| TurnStream.EveryTurnEndsWithATerminalChunk | packages/bb-agent/src/agent.ts:499-577 | the last chunk is terminal, and it is the only one if and only if the turn did not both interrupt and fail or hit a cap |
| TurnStream.RunAgent | packages/bb-agent/src/agent.ts:459-577 | the event loop publishes exactly the specified chunks |
| UntrustedOutput.NoDelimiterRemains | packages/bb-agent/src/untrusted.ts:32-37 | no letter-case variant of the delimiter word remains in any neutralised body |
| UntrustedOutput.OnlyTheDelimitersRemain | packages/bb-agent/src/untrusted.ts:32-38 | in the wrapped text a variant starts only inside the two real delimiters |
| UntrustedOutput.NonceStaysOutIff | packages/bb-agent/src/untrusted.ts:32-37 | the nonce stays out of every neutralised body if and only if it does not begin with `a` |
| UntrustedOutput.NonceGetsThrough | packages/bb-agent/src/untrusted.ts:37 | the body that brings a nonce beginning with `a` through |
| UntrustedOutput.AHarmlessBodyIsUnchanged | packages/bb-agent/src/untrusted.ts:32-38 | a body with neither the nonce nor a variant of the delimiter word stands unchanged after the opening delimiter |
| UntrustedOutput.VariantIff | packages/bb-agent/src/untrusted.ts:37 | a variant is the word with each character as it is or as its capital |
| Replacing.OnlyOldTextRemains | scripts/harbor-bench/traces.py:32-40 | what a replaced text contains, and no replacement can overlap, was there before and is no match |
| Replacing.CountsIffOccurs | scripts/harbor-bench/traces.py:36-38 | the count is positive if and only if the value occurs, and otherwise nothing changes |
| Replacing.CountIsTheMost | scripts/harbor-bench/traces.py:36 | the count is the largest number of occurrences that do not overlap |
| Replacing.LengthCountsReplacements | scripts/harbor-bench/traces.py:36-38 | the length changes by the count times the difference in length |
| Redaction.NoCredentialRemains | scripts/harbor-bench/traces.py:32-40 | no credential value is left in any data when none can overlap its own token or one put in later |
| Redaction.NoCredentialRemainsIff | scripts/harbor-bench/traces.py:32-40 | for distinct values without brackets of which no shorter one is part of a longer one's token, that holds if and only if no value is part of its own or a shorter one's token |
| Redaction.AValueInItsTokenStays | scripts/harbor-bench/traces.py:38 | the value `RED` stays, in its own token |
| Redaction.BracketFreeIsSeparable | scripts/harbor-bench/traces.py:38 | values without square brackets that no token contains meet that condition |
| Replacing.ReplacedApart | scripts/harbor-bench/traces.py:36-38 | with no occurrence across a seam the two sides are replaced independently |
| Redaction.RedactedApart | scripts/harbor-bench/traces.py:33-38 | three parts of the data that no value straddles are redacted independently, by all values in any order |
| Redaction.AValueBecomesItsToken | scripts/harbor-bench/traces.py:33-38 | longest first, a value is replaced whole by its own token wherever it stands in the data, even when others are parts of it, and what surrounds it is redacted as if alone |
| Redaction.ShortestFirstLeavesAFragment | scripts/harbor-bench/traces.py:33-34 | why the order matters: shortest first leaves a fragment |
| Redaction.CountsAccountForTheLength | scripts/harbor-bench/traces.py:35-39 | the counts account exactly for the change in length |
| Redaction.TallySays | scripts/harbor-bench/traces.py:35-39 | each name's total grows by what was found under it, and a name appears only if it was there or something was found |
| Redaction.TotalsAccountForTheLength | scripts/harbor-bench/traces.py:35-39 | the totals per name alone give the change in length |
| Redaction.SortIsStable | scripts/harbor-bench/traces.py:34 | the sort keeps, for every length, the same credentials in the same order |
| Redaction.Redact | scripts/harbor-bench/traces.py:32-40 | the loop computes the longest-first redaction and its running totals, and leaves no value |
| BulkSecrets.UpdateSays | packages/bb-app-setting/src/index.cdk.ts:239-264 | an update throws exactly when a parameter to re-encrypt is missing; otherwise what each declared, dropped and foreign name holds |
| BulkSecrets.UpdateSyncsIff | packages/bb-app-setting/src/index.cdk.ts:253-264 | an update leaves every declared name under its declared key if and only if the store was as its old properties say |
| BulkSecrets.CreateSyncsIff | packages/bb-app-setting/src/index.cdk.ts:208-221 | a create ends so if and only if names already present were under their declared key |
| BulkSecrets.StoreMatchesTheDeclaration | packages/bb-app-setting/src/index.cdk.ts:239-266 | after any history of deployments, teardowns, redeliveries and runtime writes the stored names are the declared ones, each under the key its declaration names, or the default key when it names none or an empty one, and the next deployment does not throw |
| BulkSecrets.RedeliveryChangesNothing | packages/bb-app-setting/src/index.cdk.ts:239-266 | redelivering the last event changes no name, value or key |
| BulkSecrets.KeptNamesKeepTheirValues | packages/bb-app-setting/src/index.cdk.ts:226-233 | a name kept by a deployment keeps its value, also when re-keyed |
| BulkSecrets.NewNamesGetTheirDrawnValues | packages/bb-app-setting/src/index.cdk.ts:201-216 | after any such history a newly declared name gets the value drawn for it, under its declared key |
| BulkSecrets.OldNamesHadNoKey | packages/bb-app-setting/src/index.cdk.ts:231-236 | old properties from before keys existed act as parameters without a key |
| BulkSecrets.ParameterStore.HandleEvent | packages/bb-app-setting/src/index.cdk.ts:239-266 | the handler's loops compute the specified outcome |
| TopoSort.Sort | scripts/publish/publish.ts:78-97 | on every graph: ends, each name once, a dependency after its dependant only on a cycle; with unique names a permutation that puts every dependency first if and only if the graph has no cycle |
| TopoSort.Search.Visit | scripts/publish/publish.ts:83-93 | the recursive visit keeps that order and ends on cyclic graphs |
| TopoSort.DepsFirstMeansAcyclic | scripts/publish/publish.ts:78-97 | an order with every dependency first exists only without cycles |
| TopoSort.AcyclicPutsDepsFirst | scripts/publish/publish.ts:78-97 | without cycles every dependency is first |
| Scheduling.FirstDayWithEnoughWork | scripts/monte-carlo.ts:231-239 | the result is the first day by which that many weekdays have passed |
| Scheduling.Composes | scripts/monte-carlo.ts:231-239 | adding a then b business days is adding a + b |
| Scheduling.StrictlyMonotone | scripts/monte-carlo.ts:231-239 | more business days if and only if a later date |
| Scheduling.WeekendDays | scripts/monte-carlo.ts:231-239 | counted from a Thursday, the third and fourth day of each week are the weekend |
| Scheduling.FiveDaysAreAWeek | scripts/monte-carlo.ts:231-239 | five business days from a weekday are a week, from a weekend they end on the next Friday |
| Scheduling.AddBusinessDaysTo | scripts/monte-carlo.ts:231-239 | the day-by-day loop computes it, for zero and negative days too |
| Scheduling.Simulate | scripts/monte-carlo.ts:262-285 | earliest-date assignment is least-load list scheduling: the dates and every end date are those of the greedy loads |
| Scheduling.GreedyMakespan | scripts/monte-carlo.ts:262-285 | m times the makespan is at most all the work plus m - 1 longest tasks |
| Scheduling.GreedyIsWithinTwiceTheBest | scripts/monte-carlo.ts:262-285 | m times the makespan is at most 2m - 1 times that of any other assignment |
| Scheduling.WorkIsConserved | scripts/monte-carlo.ts:268-284 | no assignment loses or invents work |

## Left out

- Sessions.SignedOutTokenIsRefused: speaks of checks that read the list before the token's own expiry, because the marker lapses then.
- Redaction.NoCredentialRemainsIff: where a shorter value is part of a longer one's token, or values hold brackets, only the sufficient condition of `NoCredentialRemains` is given.
- Sessions.CommittedBumpsRaiseTheEpoch: below 2^53 - 1 only; above it is false.
- JobStatus.RecordedExactlyOnce: without reaping of the record by its time-to-live.
- Lockout.AtMostMaxFailuresPerWindowIff: a window begins with the failure that sets the counter to one, as in the source; for sign-ins that run one after the other; concurrent ones may read the same counter. Counter rows written by older versions, malformed rows and failed counter writes are not modelled.
- Chat.ConsumersAreToldConsistently: without `run()`, `subscribe()` and `loadConversation()`, which the source says not to mix in; the timer may fire at any moment, not after a fixed time.
- Chat.BubbleShowsTheStream: a chunk of an older stream that is still being consumed counts as delivered, as in the source.
- ChunkStream.NothingIsLostOrReordered: one consumer per stream.
- TurnBudget.CapsBoundALogicalTurn: app state is saved when each segment ends; a segment lost in a crash loses its counts. Chats without a conversation id, which save nothing, are not modelled.
- TurnStream.EveryTurnEndsWithATerminalChunk: a publish that fails is not modelled; the result event is the last of its stream.
- BulkSecrets.StoreMatchesTheDeclaration: unique names per deployment, no parameter present beforehand, deletes succeed. Tags are not modelled.
- Scheduling.Simulate: at least one engineer (with none the source computes invalid dates); a day is a calendar day without time zones.
- UntrustedOutput.OnlyTheDelimitersRemain: the source name is taken as already sanitised.
- Redaction.AValueBecomesItsToken: where a listed value straddles an end of the occurrence, which of the two is replaced depends on their lengths; that case is not described.
- Redaction.Redact: bytes are characters; the library's stable sort is modelled as an insertion sort.
- BatchSubmit.SubmitBatch: a body is its length in bytes; the oversize check stands for payload validation; the answer names only entries that were sent, each at most once.
- `waitUntilComplete`, `tryRecordTransition` and the grouped writes of `recordQueuedBatch`: polling and plumbing around the record.
- Cookies, password hashing, token signing, sign-up and the state machine of the sign-in form.
- The Mantle key resolver, the in-memory job queue, the snapshot storage, the registry metadata merge and the benchmark statistics and token accounting: they would add easier results of the same kinds.
- The agent loop and model providers, infrastructure constructs, and `index.hooks.ts`, a deprecated copy of the chat state machine.
- Visibility heartbeats, worker timeouts and redelivery by the queue.
