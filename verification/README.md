# A verified model of Hookbound

Hookbound is a Go library for sending and receiving signed webhooks. This project models its three hardest parts in
Dafny and proves what they promise:

1. **The durable outbox and inbox** (`postgres/`, `retry.go`, `outcome.go`). Any number of publishers, workers and
   cleanups act on shared rows. Each transaction is one atomic step that works with an instant read in an *earlier*
   step, so any worker may stall, act late or vanish in between.
   - The rows and what each transaction does to them are functions (`Outbox.dfy`, `Inbox.dfy`); the statements of each
     transaction are methods of a class proved against those functions (`Store.dfy`).
   - Runs are in `OutboxRuns.dfy` and `Inbox.dfy`, invariants in `Ledger.dfy`, theorems over all runs in
     `OutboxTheorems.dfy`, `OutboxProgress.dfy`, `InboxTheorems.dfy`, `InboxBoundary.dfy`, `InboxProgress.dfy`,
     `Publication.dfy` and `Retention.dfy`.
   - Lease renewal against the clock is in `Runtime.dfy` and `ReceiptLeases.dfy`; when the next attempt may start is in
     `Scheduling.dfy`; header maps, and what a jsonb column makes of them, are in `HttpHeaders.dfy` and `Utf8.dfy`.
2. **The in-memory replay guard and the receiver that drives it** (`replay.go`, `receiver.go`). `ReplayGuard.dfy` holds
   the guard as a class and as a function, and its refinement of an unbounded table; `Receiver.dfy` holds the
   interleavings of concurrent `ServeHTTP` calls; `Endpoint.dfy` holds `ServeHTTP` as code.
3. **The signature wire format** (`standard/standard.go`), which follows the "Signature scheme" section of the Standard
   Webhooks specification and sections 4 and 5 of RFC 4648: `Text.dfy`, `Base64.dfy`, `Standard.dfy`.

Time is an integer count of nanoseconds; 64-bit arithmetic is written out where it can overflow (`Common.dfy`).

## Where the code and its promises part

The model follows the code. These promises hold only under a condition, which is stated and proved:

- `docs/postgres.md` line 73 says that reusing an idempotency key with the same headers returns the original
  publication. Header values may hold any byte from 0x20 on except DEL, but the jsonb column they are stored in turns
  each byte that is not valid UTF-8 into U+FFFD, and the comparison is with what is read back. The promise holds exactly
  when the header values are valid UTF-8; otherwise every identical retry is a conflict, and a request whose value
  really is U+FFFD is taken for the same publication (`PublicationProtocol.RecognisedExactlyForText`,
  `PublicationProtocol.UnrecognisedExample` with the bytes `caf\xE9`).
- A conflicting `EnqueueTxWithOptions` returns before it removes the message it has just inserted
  (`postgres/store.go` lines 233-236, 240-246), as `PublicationProtocol.StrandedMessageExample` shows. `EnqueueWithOptions` rolls back; a caller that commits its own
  transaction after the conflict keeps a message without a delivery (`PublicationProtocol.LoserLeavesNoTrace`). The
  runs include that step.
- `docs/postgres.md` line 101 says that configurations where a renewal cannot finish before the lease expires are
  rejected. `NewRuntime` accepts `interval + timeout < lease`. Two kinds of accepted configuration fail the promise.
  - The claim has no timeout of its own (`postgres/runtime.go` line 159). With `claim` the longest it may take, every
    renewal *starts* before the lease has expired exactly when `interval + max(claim, timeout) < lease`
    (`DurableRuntime.StartsInTimeExactly`). With a lease of 60s, an interval of 20s and a timeout of 5s, the first
    renewal after a claim of 40s starts at the expiry (`DurableRuntime.SlowClaimStartsTooLate`).
  - For a renewal's clock reading to come before the expiry, as its statement needs, the exact condition is
    `interval + max(claim, timeout) + timeout < lease` (`DurableRuntime.ReadsInTimeExactly`). A 60s lease with a 40s
    interval and a 19s timeout is accepted and fails it after any claim.

  Under the stronger condition no other worker can take the delivery between renewals
  (`LeaseKeeping.HeartbeatsHoldTheLease`). Leases count from the clock reading; rounding up to microseconds only
  lengthens them.
- `docs/reliability.md` line 31 says that a stale worker cannot complete a claim after another worker reclaims it. For
  deliveries that holds without exception. For receipts, whose only token is the attempt number, it fails when the row
  was removed by Cleanup and received again. When Cleanup keeps processed receipts for `retention` and workers act on
  claims no older than `prompt`, every completed or superseded claim no older than `age` is refused exactly when
  `prompt <= retention` and `age <= retention` (`InboxBoundary.FencedExactlyWithinRetention`). Both failures are runs
  from the empty table: at `retention + 1` a stale completion settles the re-created receipt
  (`InboxBoundary.RebornReceiptAnswersStaleClaim`), and one worker that acts a moment too late makes claims of age 0
  unsafe for the others (`InboxBoundary.SlackWorkerSpoilsTheBound`).
- The cap on Retry-After fails for one configuration, a maximum equal to the largest Duration
  (`Scheduling.RetryAfterIsBounded`), and a signature tolerance of that value lets every timestamp pass
  (`Standard.ToleranceIsDistance`).
- `MaxBodyBytes` equal to the largest int64 makes the receiver read every body as empty (`Endpoint.BodyIsReadWhole`).

One answer of the replay guard depends on when an expired acceptance is dropped, which its caller cannot see: `Release`
of an identity whose acceptance has expired (`ReplayGuard.GuardRefinesTable`, `ReplayGuard.ReleaseIsOpen`). The receiver
never makes that call (`Receiver.SettlingNeverConflicts`).

## Model

| member | source | states |
|---|---|---|
| OutboxRuns.ReachableStatesAreSound | postgres/store.go:379-575 | in every state of every run each delivery's attempts are numbered 1..attempt_count, all but the last are finished, the last is open iff the row is in flight, a lease is set iff in flight, completed_at iff terminal, keys are unique, references resolve, and attempts never overlap: started(k) <= finished(k) <= started(k+1) |
| Ledger.ClaimKeepsLedger | postgres/store.go:388-441 | a claim of a due row, with any earlier clock reading, keeps ledger, order and budget |
| Ledger.RenewKeepsLedger | postgres/store.go:461-501 | a renewal, successful or refused, keeps ledger, order and budget |
| Ledger.CompleteKeepsLedger | postgres/store.go:525-575 | a completion, accepted or refused, keeps ledger, order and budget |
| Ledger.InsertKeepsLedger | postgres/store.go:187-228 | an enqueue that meets no conflict adds one delivery, leaves every other row and its attempts alone, and keeps ledger, key uniqueness, references, order and budget |
| Ledger.MessageKeepsLedger | postgres/store.go:187-192 | a message left behind without a delivery disturbs none of them |
| Ledger.OwnerHoldsLease | postgres/store.go:530-570 | in a sound ledger an attempt update that matches implies that the delivery update matches, so the second conflict of a completion is unreachable |
| Ledger.OneOwner | postgres/store.go:479-485 | two claims that both own their attempt of one delivery carry the same attempt id |
| Ledger.AttemptBudget | postgres/store.go:399-435 | attempt_count = worker-completed + lease-lost + (1 if in flight), and workers complete at most the policy's maximum however many leases are lost |
| OutboxTheorems.ReachableBudget | retry.go:55-68 | the attempt budget in every state of every run under policies of one effective maximum; a queued delivery has attempts left |
| OutboxTheorems.StaleClaimsAreFenced | postgres/store.go:449-575 | once a claim was completed or its delivery granted again, every later renewal and completion with it fails and changes no row, in every continuation of the run |
| OutboxTheorems.LiveLeasesAreSpared | postgres/store.go:399-405 | no claim takes a row whose lease is still live when its update takes effect, however old its clock reading |
| OutboxTheorems.TerminalIsAbsorbing | postgres/store.go:553-560 | a terminal delivery and its attempts never change again until Cleanup removes the row |
| OutboxTheorems.ReachableOutcomes | postgres/store.go:416-560 | in every reachable state the attempts of a delivery tell its history: an earlier one lost its lease and was closed as `lease_expired` when the next one started, or its worker asked for a retry; state, codes and times of a settled delivery are those of its last attempt |
| OutboxTheorems.CompletionsAreHonoured | postgres/store.go:525-560 | over every run an owned completion does what its report calls for: a retryable outcome is retried exactly as long as the policy allows the attempt, at the later of backoff and the destination's time, any other is final; attempt and row record the report column by column |
| OutboxTheorems.EveryDeliveryComesDue | postgres/store.go:400-405 | in every reachable state an unfinished delivery can be claimed from its due time on and not before, a finished one never |
| OutboxTheorems.DeliveriesAreRetained | postgres/cleanup.go:43-72 | over every run a delivery leaves the table only by Cleanup, once it has been finished for longer than its kind is kept |
| OutboxProgress.GrantProgress | postgres/store.go:399-435 | granting a queued delivery strictly decreases a non-negative measure of its remaining life |
| OutboxProgress.CompletionProgress | postgres/store.go:525-560 | completing an owned attempt strictly decreases the same measure |
| OutboxProgress.StepKeepsRemaining | postgres/store.go:379-575 | no step of anybody increases the measure of a delivery: renewals, grants after a lost lease and steps of other rows keep it |
| OutboxProgress.LifeIsBounded | postgres/store.go:741-748 | over any stretch of any run the grants from the queue and the completions of a delivery number at most what its measure falls by, at most twice the maximum in all; the measure is zero exactly when the delivery is terminal |
| OutboxProgress.BoundedOvertaking | postgres/store.go:400-405 | once the clock is past the due time of a queued row, and while no lease expires, the claims granted before it number at most the rows ahead of or tied with it plus the publishers and completers that were stalled with an older clock reading, whatever else is enqueued or retried |
| Outbox.NormalizedOutcome | postgres/store.go:716-729 | a given outcome is kept; a missing one is permanent exactly for the four error codes no retry can mend, and a retry otherwise |
| Outbox.Transition | postgres/store.go:731-750 | each next state exactly for its outcome; a retry iff the outcome is repeatable and the policy allows the attempt, exhausted iff repeatable and not allowed; due no earlier than backoff and the destination's time, and no later than the jittered backoff or that time |
| Outbox.RetryIsBetweenBounds | postgres/store.go:741-748 | with the classifier's Retry-After, the next attempt lies between the backoff and the later of jittered backoff and the Retry-After cap |
| Outbox.MicrosecondsCeil | postgres/store.go:708-714 | rounding to microseconds never shortens a lease and adds less than a microsecond to one |
| DurableStore.Store.ClaimDelivery | postgres/store.go:379-447 | returns nothing exactly when no row is due, otherwise the due row with the earliest next attempt and creation, with that row's and its message's content column by column, and changes the rows as the specified claim does; in a sound ledger it never fails |
| DurableStore.Store.RenewDeliveryLease | postgres/store.go:449-503 | succeeds exactly when the claim still owns an unexpired lease, and changes that lease only |
| DurableStore.Store.CompleteDelivery | postgres/store.go:505-575 | succeeds exactly when both guards hold, in a sound ledger exactly when the attempt is owned; otherwise nothing changes |
| DurableStore.Store.FindIdempotentPublication | postgres/store.go:251-288 | returns the stored ids when the content matches, a conflict when it does not, nothing when the key is free |
| DurableStore.Store.YieldToWinner | postgres/store.go:233-248 | on the lost race the winner's ids leave the rows as they were before the call, and a conflict leaves the inserted message behind |
| DurableStore.Store.InsertDelivery | postgres/store.go:211-248 | the delivery insert and what follows it have the outcome and effect of the specified insert phase |
| DurableStore.Store.InsertPublication | postgres/store.go:176-248 | the inserts have exactly the outcome and effect of the specified insert phase, rows at return included |
| DurableStore.Store.EnqueueTxWithOptions | postgres/store.go:143-249 | lookup and inserts in one piece are the specified call, rows at return included |
| DurableStore.Store.EnqueueWithOptions | postgres/store.go:118-134 | commits a successful call and rolls back any other |
| DurableStore.Store.InsertReceipt | postgres/store.go:348-362 | the first statement stores the receipt exactly when none is there |
| DurableStore.Store.CompareReceipt | postgres/store.go:363-376 | the second statement accepts exactly a receipt of the same immutable content, refuses another with a conflict, and fails when the receipt is gone |
| DurableStore.Store.Handle | postgres/store.go:332-377 | both in one piece: the first delivery of a message is stored; a later one succeeds exactly when its immutable content is the same, and stores nothing |
| DurableStore.Store.ClaimReceipt | postgres/store.go:577-629 | claims the due receipt with the earliest next attempt and arrival, with its content, or returns nothing exactly when none is due |
| DurableStore.Store.RenewReceiptLease | postgres/store.go:631-672 | succeeds exactly when the receipt still answers to the attempt number with a live lease |
| DurableStore.Store.CompleteReceipt | postgres/store.go:674-706 | succeeds exactly when the receipt still answers to the attempt number, and settles it as the transition says |
| DurableStore.Store.Cleanup | postgres/cleanup.go:20-111 | refuses bad policies unchanged, else removes the oldest eligible batch of each enabled category and returns the exact counts |
| DurableRuntime.NewRuntime | postgres/runtime.go:47-102 | accepts exactly the configurations whose parts are present and whose effective interval is positive and, with the timeout, shorter than the lease; keeps what was given, fills in every default, and the result is runnable |
| DurableRuntime.RefusedExactly | postgres/runtime.go:48-86 | the refused configurations in the given fields: a missing part, a negative number, or timings that do not fit |
| DurableRuntime.DefaultTimingsFit | postgres/runtime.go:60-77 | default renewal settings are accepted for every lease of at least 3ns and for no shorter one |
| DurableRuntime.StartsInTimeExactly | postgres/runtime.go:155-165 | with a bound on the claim of its own, every heartbeat schedule starts its renewals before the expiry iff interval + max(claim, timeout) < lease |
| DurableRuntime.ReadsInTimeExactly | postgres/store.go:461-476 | with the same bound, every heartbeat schedule reads the clock before the expiry iff interval + max(claim, timeout) + timeout < lease |
| DurableRuntime.AcceptedRenewalsStartInTime | postgres/runtime.go:260-285 | for every accepted configuration, if the claim returns within the lease less one interval, every renewal starts strictly before the expiry of the lease before it |
| DurableRuntime.SlowClaimStartsTooLate | postgres/runtime.go:159-165 | for every accepted configuration and every longer claim, a schedule whose first renewal starts at or after the expiry |
| DurableRuntime.AcceptedRenewalMayReadTooLate | postgres/runtime.go:75-77 | an accepted configuration with, after claims of any bound, a schedule whose renewal reads the clock at or after the expiry |
| DurableRuntime.DefaultRenewalsReadInTime | postgres/runtime.go:66-74 | after a claim within the timeout, every schedule of the default settings reads in time iff the lease is over 15s or no multiple of 3ns |
| DurableRuntime.LeaseHeartbeat.Run | postgres/runtime.go:260-285 | renews until something ends it, keeps the exact-timer schedule after a claim of whatever length, reports an error and cancels the work exactly when a renewal failed under a live context |
| LeaseKeeping.RenewalNeedsLiveLease | postgres/store.go:466-485 | the holder's renewal succeeds exactly when its clock reading precedes the expiry |
| LeaseKeeping.OthersLeaveLiveLease | postgres/store.go:399-405 | while a lease is live no step of anybody else changes the held row or any of its attempts |
| LeaseKeeping.HeartbeatsHoldTheLease | postgres/runtime.go:155-179 | in every run of the protocol, a claim renewed on a schedule with interval + max(claim, timeout) + timeout < lease keeps its attempt and is never granted to another worker between two beats |
| ReceiptLeases.OthersLeaveLiveLease | postgres/store.go:584-600 | while a receipt's lease is live, and workers act on claims no older than the retention, no step of anybody else changes the held row |
| ReceiptLeases.RenewalNeedsLiveLease | postgres/store.go:641-668 | the holder's renewal of a receipt succeeds exactly when its clock reading precedes the expiry, and changes the lease only |
| ReceiptLeases.HeartbeatsHoldTheLease | postgres/runtime.go:181-202 | on such a schedule, while workers act on claims no older than the receipt retention, a receipt claim stays the row's current claim and is never granted to another worker between two beats |
| PublicationProtocol.InsertPhaseIsAStep | postgres/store.go:187-248 | the inserts change the rows as one of two protocol steps, or not at all: the insert when nothing conflicts, the stranded message when the key belongs to other content |
| PublicationProtocol.LoserLeavesNoTrace | postgres/store.go:227-248 | when the key was taken in the meantime the answer is the winner's ids or a conflict, by content; the rows differ at return exactly by the message inserted before a conflict, and not at all once EnqueueWithOptions has ended |
| PublicationProtocol.StrandedMessageExample | postgres/store.go:233-246 | after every keyed publication, a request with the same key and another body leaves its message without a delivery at return |
| PublicationProtocol.RunRetains | postgres/store.go:187-219 | until Cleanup removes it, a delivery keeps message, destination, headers and key through every run |
| PublicationProtocol.KeyedCallsAgree | postgres/store.go:170-248 | once a row holds a key, calls with that key succeed exactly when their content matches the row as stored, all with the same ids, and change nothing in a transaction of their own, with lookup and inserts as separate steps of the run |
| PublicationProtocol.RecognisedExactlyForText | postgres/store.go:274-280 | repetitions of a request, and nothing else, are recognised iff its header values are valid UTF-8; otherwise no repetition is |
| PublicationProtocol.UnrecognisedExample | postgres/store.go:274-280 | both failures for the value `caf\xE9` |
| PublicationProtocol.PublishingIsIdempotent | postgres/store.go:156-248 | in the caller's terms: when the header values are valid UTF-8, type, body, defaulted content type, URL, canonical headers and any explicit id decide, even for a call that looked up before the first one committed; when they are not, repeating the request is always a conflict |
| PublicationProtocol.WorkersPostWhatWasPublished | postgres/store.go:396-447 | over every run, each grant of a delivery before its removal carries the message id, event type, body, content type, destination and headers of the request that published it, the next attempt number, and the right to complete the attempt |
| PublicationProtocol.NewDeliveriesAreDueAtOnce | postgres/store.go:187-219 | a published delivery is pending without attempts and can be claimed from the instant its publisher read |
| HttpHeaders.CanonicalNameTwice | postgres/store.go:306-321 | canonicalising a header name twice is canonicalising it once |
| HttpHeaders.CanonicalNameForgetsCase | postgres/store.go:317-318 | two valid names have one canonical form iff they differ in letter case only |
| HttpHeaders.CanonicalNameCapitals | postgres/store.go:317-318 | capitals stand at the start and after each hyphen of a canonical name, and nowhere else |
| HttpHeaders.InvalidNamesAreKept | postgres/store.go:317-318 | a name with a character no header name may hold is kept as it is |
| HttpHeaders.LessIsLexicographic | postgres/store.go:314 | names are sorted by their first difference, prefixes first |
| HttpHeaders.IterationOrderIsIrrelevant | postgres/store.go:306-321 | gathering headers under canonical names does not depend on the map's iteration order |
| HttpHeaders.Canonicalize | postgres/store.go:306-321 | the loops over names and values compute the canonical headers |
| HttpHeaders.CanonicalHeadersTwice | postgres/store.go:306-321 | canonicalising headers is idempotent |
| HttpHeaders.CanonicalHeadersCollect | postgres/store.go:315-319 | under each canonical name stand the values of all its spellings, none lost, in order |
| HttpHeaders.CanonicalHeadersAreText | postgres/store.go:306-321 | canonicalising moves values around and alters none, so it keeps whether all are valid UTF-8 |
| HttpHeaders.ReadBackHeadersIsIdentity | postgres/store.go:166-169 | headers survive the jsonb column iff all values are valid UTF-8, and what was read back once survives |
| Utf8.ReadBackIsIdentity | postgres/store.go:274-277 | a string survives being stored as JSON iff it is valid UTF-8 |
| Utf8.ReadBackIsValid | postgres/store.go:274-277 | what is read back is valid UTF-8 |
| Utf8.RuneWidthExactly | postgres/store.go:274-277 | a string starts with a character iff it starts with the encoding of a Unicode scalar value by section 3 of RFC 3629 |
| Utf8.SpacesAreUnicode | standard/standard.go:442-452 | trimming takes exactly Unicode's white space characters |
| Inbox.Transition | postgres/store.go:752-764 | a receipt is processed iff the handler returned nil, retried iff the error is not permanent and the policy allows it, within the policy's window |
| InboxTheorems.StaleClaimsAreFenced | postgres/store.go:631-706 | a completed or superseded receipt claim answers to nothing, and renewing or completing with it changes nothing, unless the receipt was re-created after Cleanup |
| InboxTheorems.StaleClaimsAreFencedWithinRetention | postgres/cleanup.go:74-89 | while no worker acts on a claim older than the time Cleanup keeps processed receipts, a completed or superseded claim no older than that is refused and changes nothing |
| InboxBoundary.SlackWorkerSpoilsTheBound | postgres/store.go:674-704 | for every retention, when workers may act on claims one instant older, a run from the empty table in which a superseded claim of age 0 answers |
| InboxTheorems.LiveLeasesAreSpared | postgres/store.go:584-600 | no claim of any run takes a receipt whose lease is still live when its update takes effect |
| InboxTheorems.DuplicatesAreRecognised | postgres/store.go:363-376 | whenever its two statements run, a message received again is accepted iff its event type, content type and body are those of the stored receipt, until Cleanup removes it |
| InboxTheorems.HandlersSeeWhatWasReceived | postgres/store.go:592-629 | over every run, each grant of a receipt before its removal carries the content of the message first received, and the right to complete the attempt |
| InboxTheorems.NewReceiptsAreDueAtOnce | postgres/store.go:348-355 | a received message is stored as received, pending without attempts, and can be claimed from the instant its receiver read |
| InboxTheorems.EveryReceiptComesDue | postgres/store.go:592-601 | in every reachable state an unfinished receipt can be claimed from its due time on and not before, a finished one never |
| InboxTheorems.CompletionsAreHonoured | postgres/store.go:674-704 | an answered completion settles the receipt as the handler's result calls for, and retries exactly as long as the policy allows, column by column |
| InboxBoundary.RebornReceiptAnswersStaleClaim | postgres/store.go:687-704 | for every retention, a run from the empty table in which a completed claim answers at the age of retention + 1, settles the re-created receipt, and the live worker's completion is refused |
| InboxBoundary.FencedExactlyWithinRetention | postgres/cleanup.go:74-89 | the boundary: every completed or superseded claim of every run is refused up to a given age iff neither that age nor the age of the claims workers act on exceeds the retention |
| InboxTheorems.ReachableReceiptsAreSound | postgres/store.go:577-706 | in every reachable state a lease is set iff processing, processed_at iff terminal, and a receipt waiting for another attempt has attempts left |
| InboxTheorems.TerminalReceiptIsAbsorbing | postgres/store.go:674-706 | a terminal receipt never changes again until Cleanup removes it |
| InboxProgress.StepKeepsRemaining | postgres/store.go:577-706 | no step of anybody increases the measure of a receipt's remaining life, and granting it from the queue or completing it decreases it |
| InboxProgress.LifeIsBounded | postgres/store.go:752-764 | over any stretch of any run the grants from the queue and the completions of a receipt number at most what its measure falls by, at most twice the maximum in all, however many leases are lost; the measure is zero exactly when the receipt is terminal |
| InboxProgress.BoundedOvertaking | postgres/store.go:592-601 | once the clock is past the due time of a queued receipt, and while no lease expires, the claims granted before it number at most the receipts ahead of or tied with it plus the insertions and completions that were stalled with an older clock reading |
| InboxTheorems.ContentIsKept | postgres/store.go:348-355 | through every run a receipt keeps the content it was first received with until Cleanup removes it |
| Retention.NormalizePolicy | postgres/cleanup.go:122-134 | accepts exactly non-negative durations and batch sizes up to the maximum; zero becomes the default |
| Retention.OldestBatchIsUnique | postgres/cleanup.go:43-60 | the order leaves no choice which rows a bounded deletion takes |
| Retention.DeliveredGoOldestFirst | postgres/cleanup.go:44-57 | of the delivered rows a pass takes those completed before the cutoff, the earliest first, at most a batch, all of them when they do not fill one, none when retention is 0 |
| Retention.FailedGoOldestFirst | postgres/cleanup.go:59-73 | the same for deliveries that failed, were disabled or exhausted |
| Retention.ReceiptsGoOldestFirst | postgres/cleanup.go:74-89 | the same for terminal receipts |
| Retention.OrphansGoOldestFirst | postgres/cleanup.go:90-107 | the same for messages that no remaining delivery refers to, by creation |
| Retention.PassIsAPurge | postgres/migrations/001_init.sql:11-53 | a pass is a legal removal of both run models: terminal deliveries, then messages without deliveries, so the cascade from messages never removes a delivery, and terminal receipts, each older than its retention |
| Retention.PassKeepsLedger | postgres/cleanup.go:43-105 | a pass keeps ledger, order, budget and references and removes no other delivery |
| Retention.PassShrinks | postgres/cleanup.go:114-120 | the tables shrink by exactly the counts a pass reports |
| Retention.EmptyPassMeansNothingEligible | postgres/cleanup.go:43-111 | a pass reports nothing iff nothing was eligible |
| Retention.PassesTerminate | postgres/cleanup.go:43-111 | repeated passes at one instant reach a state with nothing eligible |
| Scheduling.CryptoJitter | retry.go:15-29 | a jitter draw lies between zero and the maximum, also when the random source fails |
| Scheduling.CryptoJitterIsOnto | retry.go:17-29 | every value up to the maximum is drawn for some random word; a failed source gives the middle |
| Scheduling.RetryPolicy.Next | retry.go:55-93 | a retry is allowed exactly within the budget and with a usable delay, at now + delay to now + delay + delay/5 for every Jitter implementation; the final overflow guard never decides |
| Scheduling.NextFollowsSchedule | retry.go:55-93 | in the fields of the policy: which attempts are repeated, after which entry of the schedule, plus exactly what the jitter draws within its bound |
| Scheduling.StandardPolicyAttempts | retry.go:37-53 | the standard policy allows ten attempts, with positive and never shrinking delays |
| Scheduling.RetryAfterIsBounded | outcome.go:88-110 | a Retry-After answer lies within the cap iff not (the cap is the largest Duration and the date is beyond it) |
| Scheduling.RetryAfterExactly | outcome.go:88-110 | the header asks for that many seconds from now or until that date, each cut at the cap, and for nothing when blank, past or unreadable |
| Scheduling.UncappedDateExample | outcome.go:100-108 | the exception happens for the last HTTP date, at any instant more than the largest Duration before it |
| Scheduling.Classify | outcome.go:61-86 | delivered iff 2xx, disabled iff 410, retried iff error, no response, 408, 425, 429 or 5xx and above; the retry time is that of Retry-After exactly for those responses |
| ReplayGuard.KeysDoNotCollide | replay.go:60 | two identities with the same map key are the same identity |
| ReplayGuard.MemoryReplayGuard.TryClaim | replay.go:62-99 | one pass through the critical section answers and changes the entries as specified, and keeps the channel discipline |
| ReplayGuard.MemoryReplayGuard.Sweep | replay.go:85-89 | the sweep drops exactly the expired acceptances |
| ReplayGuard.MemoryReplayGuard.Commit | replay.go:102-119 | commits exactly an entry in progress and closes its channel, which was open |
| ReplayGuard.MemoryReplayGuard.Release | replay.go:121-140 | removes exactly an entry in progress and closes its channel, which was open |
| ReplayGuard.ClaimRefines | replay.go:62-99 | Claim answers as the unbounded table does, and reports capacity exactly when the live entries number the maximum |
| ReplayGuard.CommitRefines | replay.go:102-119 | Commit succeeds exactly for identities active in the table |
| ReplayGuard.ReleaseRefines | replay.go:121-140 | Release agrees with the table of live identities iff no expired acceptance of that identity lingers |
| ReplayGuard.GuardRefinesTable | replay.go:53-140 | over every history of calls with a monotone clock the bounded map stays within its bound and answers the next Claim, Commit or Release as the unbounded table, which leaves open only the Release of an expired acceptance |
| ReplayGuard.ReleaseIsOpen | replay.go:121-140 | two histories that leave the same table and opposite answers of that Release |
| Receiver.EveryAckIsAccounted | receiver.go:120-146 | over all interleavings every recorded 2xx of an identity follows a successful handler run and the commit of that run, by the same call or by an acceptance that has not expired |
| Receiver.AcknowledgedCallsAreAccounted | receiver.go:120-146 | the same of the calls: none ends with a 2xx response without such a run and commit |
| Receiver.SuccessesAreAcknowledged | receiver.go:131-146 | no success is lost: a call whose handler returned nil is on its way to the 2xx response or has written it |
| Receiver.ClaimsAreAnsweredByState | receiver.go:120-131 | at its claim a call is answered at once iff the identity is accepted and not expired, waits iff it is in progress, is refused iff the live identities number the maximum, and runs the handler otherwise |
| Receiver.CommitsAreApart | receiver.go:140-141 | two commits of one identity are at least the replay TTL apart by their clock readings |
| Receiver.HandlersNeverOverlap | receiver.go:120-161 | two calls that hold the claim of one identity are the same call, and the identity is in progress as long |
| Receiver.SettlingNeverConflicts | receiver.go:131-160 | a holder's Commit or Release, the panic path included, is never refused; a handler that returned nil is acknowledged, one that failed leaves no entry |
| Receiver.ChannelsAreClosedOnce | replay.go:72-80 | a channel is closed by settling its entry and by nothing else, while open; a parked call's channel is open iff its entry is in progress |
| Endpoint.ErrorStatus | receiver.go:178-200 | the default responder writes 401, 400, 413 and 422 exactly for their errors, 500 for all others, and a success for none |
| Endpoint.NewReceiver | receiver.go:41-73 | accepts a configuration exactly when both parts are there and the success status is left out or 2xx, keeps what was given and fills in the documented defaults |
| Endpoint.BodyIsReadWhole | receiver.go:163-176 | the body is read whole or refused as too large iff the limit is not the largest int64 or the body is empty |
| Endpoint.ChecksInOrder | receiver.go:81-118 | which check refuses a request with which error, in order, and that a message passes them all |
| Endpoint.Receiver.Admit | receiver.go:75-130 | only a message that passed every check reaches the guard or the handler; a failed check hands its own error to the responder; the one success answered here is for an accepted identity |
| Endpoint.Receiver.Finish | receiver.go:131-161 | the success status is answered exactly when the handler returned nil and the acceptance was recorded; otherwise the claim is given up and the error goes to the responder |
| Standard.SignedContentIsUnambiguous | standard/standard.go:454-462 | equal signed bytes mean equal id, timestamp text and body, for valid ids and parseable timestamps |
| Standard.SignedContentInOrder | standard/standard.go:454-462 | the signed bytes are the id up to the first dot, the timestamp up to the second, then the body |
| Standard.ValidIdsAreHeaderSafe | id.go:47-63 | a valid id has 1 to 200 bytes, no surrounding space and none of CR, LF, NUL, DEL and dot |
| Standard.ParseListOfPrint | standard/standard.go:422-440 | parsing a printed list of at most 32 signatures gives the list back |
| Standard.ParseFieldExactly | standard/standard.go:429-438 | a field is a version without comma, a comma, and 1 to 256 bytes of padded base64 |
| Standard.ParseListExactly | standard/standard.go:422-440 | a header is read as a list iff its 1 to 32 fields are the entries |
| Standard.PrintedSignature | standard/standard.go:138-141 | one signature is printed as `v1,` and its padded base64 |
| Standard.SingleHeaderExactly | standard/standard.go:442-452 | a header counts iff sent once and not blank, trimmed, without CR, LF and NUL |
| Standard.TrustedKeysAreChecked | standard/standard.go:316-345 | key lists are used iff every configured provider returned one within the limits |
| Standard.ParseSignatures | standard/standard.go:422-440 | the loop accepts exactly the lists of 1 to 32 well-formed fields and returns them in order |
| Standard.Sign | standard/standard.go:117-148 | signing has exactly the specified headers or error |
| Standard.VerifyAny | standard/standard.go:316-357 | the loops decide whether some trusted key matches some signature, with the errors of the key lists |
| Standard.Verify | standard/standard.go:256-314 | accepts exactly the authentic requests whose type is extracted, and returns the claimed id and timestamp; the timestamp is within the tolerance of the arrival, and a request in order up to a timestamp beyond it gets the expiry error |
| Standard.SignThenVerify | standard/standard.go:117-148 | for every valid message and key lists with one common key, Verify accepts what Sign produced, with the same id and whole-second timestamp |
| Standard.AcceptedMeansUnaltered | standard/standard.go:256-314 | an accepted request that carries a signed message's signature header is that message, whichever kinds of keys the verifier trusts, unless its content has under a trusted key the MAC of the signed content |
| Standard.ToleranceIsDistance | standard/standard.go:410-415 | the clamped check compares the true distance of the two instants iff the tolerance is not the largest Duration or the distance is within it |
| Standard.ToleranceExample | standard/standard.go:410-415 | a distance the largest tolerance should reject and accepts |
| Text.ParseIntExactly | standard/standard.go:272-275 | a timestamp text is decimal digits with at most one sign, within an int64 |
| Text.DigitsArePositional | standard/standard.go:272-275 | digits have their decimal value |
| Text.FieldsSkipSpace | standard/standard.go:423-426 | leading white space makes no field |
| Standard.ValidateHMACKeys | standard/standard.go:464-474 | accepts exactly 1 to 16 keys of 24 to 64 bytes |
| Standard.ParseEncodedSecret | standard/standard.go:76-94 | a key is printed iff it has 24 to 64 bytes, and parsing gives it back |
| Standard.ParseSecretExactly | standard/standard.go:76-87 | a text is read as a key iff some encoding reads it so, without the prefix, at 24 to 64 bytes |
| Standard.ParseForeignSecret | standard/standard.go:76-87 | the same key is read from every padding and alphabet |
| Base64.DecodeOfEncode | standard/standard.go:484-492 | decoding undoes encoding in each of the four encodings |
| Base64.Alphabets | standard/standard.go:484-492 | each symbol is the one of tables 1 and 2 of RFC 4648 |
| Base64.TestVectors | standard/standard.go:484-492 | test vectors of section 10 of RFC 4648 for three, two and one bytes |
| Base64.LineBreaksAreIgnored | standard/standard.go:484-492 | CR and LF are ignored wherever they stand |
| Base64.LenientAndStrict | standard/standard.go:484-492 | unused trailing bits are ignored; missing, superfluous or misplaced padding is refused |
| Base64.DecodeOrderIsIrrelevant | standard/standard.go:484-492 | the result of trying the encodings in turn does not depend on their order |
| Base64.DecodeAny | standard/standard.go:484-492 | the loop returns the answer of the first encoding that accepts |

## Left out

- HTTP sending, response reading, DNS and dialling (`sender.go`, `transport/policy.go`): plumbing over library types.
- HMAC, SHA-256 and Ed25519 are arbitrary functions; idempotency key hashes stand for the keys themselves.
- Random ids: a generated message id is assumed new where it matters (a precondition of the publication theorems), and an attempt id is new by the enabling condition of the claim step.
- Request and message validation, header redaction, error detail and truncation, captured response headers and bodies: columns no guard reads. JSON is modelled for header values only.
- Ids, URLs, event types, content types and header names are characters, so valid text: PostgreSQL refuses a text column that is not UTF-8, an error the model does not have.
- The GitHub and Stripe verifiers: smaller variants of the Standard Webhooks verifier. The Ed25519 signer, and text forms of Ed25519 keys.
- CLI, examples, testkit, auth helpers, handler registry, migration runner, schema quoting.
- PostgreSQL's row locks, SKIP LOCKED and MVCC: a transaction is one atomic step, except that its clock reading, and an enqueue's first lookup, are earlier steps. A claim query that skips locked rows may return a later row than the first due one. Cleanup is serial with respect to enqueues.
- The order of text columns is the order of characters, not a database collation; attempt_count does not overflow its 32 bits; timestamps keep their nanoseconds.
- Times are unbounded integers: adding a lease or a TTL to an instant does not overflow. Time.Sub is exact up to its clamp, for all representable instants.
- The worker loops of Runtime (`Run`, `runLoop`, `WorkOutboundOnce`, `WorkInboundOnce`) as code; what their transactions and heartbeat do together is proved over runs. Goroutine scheduling delays: the heartbeat's timers are exact.
- DurableStore.Store.Handle: one piece; its two statements are separate in `InsertReceipt`, `CompareReceipt` and `InboxTheorems.DuplicatesAreRecognised`.
- DurableStore.Store.EnqueueTxWithOptions: one piece; lookup and inserts are separate steps in `PublicationProtocol`. A failed statement, which aborts a PostgreSQL transaction, counts as its rollback.
- DurableRuntime.LeaseHeartbeat.Run: a finite prefix of the loop; the select's choice and the outcome of each renewal are inputs.
- `leaseHeartbeat.Stop`: waiting for the loop is a precondition, as the call blocks until then.
- Endpoint.Receiver.Admit: the wait on another call's channel is its result `Waits`, after which the claim is tried again; `Receiver.dfy` has the interleavings. Only guards that can commit are modelled, and no guard at all.
- Endpoint.Receiver.Finish: a custom ErrorResponder may write any status, a 2xx included; the theorems about acknowledgements speak of the success status Receiver itself writes.
- ReceiptLeases.HeartbeatsHoldTheLease: needs that no worker acts on a claim older than the receipt retention, for the reason given above.
- The receiver and its replay guard are configured with clocks of their own; `Receiver.dfy` has one, so its theorems are about clocks that agree.
- InboxProgress.BoundedOvertaking: assumes that no lease expires, as the next.
- OutboxProgress.BoundedOvertaking: assumes that no lease expires in the stretch considered, as expired rows may be granted in any number before a waiting one.
