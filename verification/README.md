# Models of the agent connector's coordination core

This project models the parts of the `wn-agent` connector where concurrent
requests, bounded memory and background schedules meet, and two small codecs of
the Hermes gateway configurator. It proves properties of every run, every input
or every reachable state of those models. `dafny verify dfyconfig.toml` covers
all of it.

## What is where

Idempotent sends and stream begins. `BoundedFifo` is the bounded first-in
first-out window behind the send store, the begin receipts and the delivered-id
cursor, as a sequence with its refinement by a queue and a map. `IdempotencyStore`
and `StreamBeginStore` are the stores as classes whose methods move that window.
`IdempotencyProtocol` and `StreamBeginProtocol` put any number of callers around
them as step machines with one program counter a caller: each critical section is
one step, each await a point where other callers and cancellation come in between.
There is no await between a successful send and its record, so cancellation does
not fall there. `IdempotencyPersistence` adds the background writers.
`ReceiptLog` says whether a key's last receipt is still out.

Inbound delivery. `DeliveredCursor` is the cursor, `RowOrder` the order of the
replay query (sender time, id, order of storing), `InboundReplay` the replay
loop over one account's newest rows, and `InboundDelivery` the whole subscription
as a step machine: storage, the broadcast ring, the cursor, lag, replay, resync
notices and the wire. Durable rows within one subscription's scope have distinct
ids, and a row that projects yields its event or a read error.

Schedules. `CatchUpHandshake` is the start and stop protocol on the two atomics,
as sequentially consistent steps. `CatchUpCadence` and `InvitePolicyWorker` are
the two adaptive loops over discrete time; `Arithmetic` counts fixed-length steps
in a span.

Timeline pages. `TimelinePaging` has the trimming loop against the exact frame
length and the walk of a client that follows the edge cursor.

Configurator. `Bech32`, `BitRegrouping` and `Npub` follow the "Bech32" section of
BIP-173 and the "Bare keys and ids" section of NIP-19. `EnvLayout`, `EnvFile`,
`EnvMethods` and `EnvRuns` are the `.env` merge; `YamlScalar`, `MiniYaml` and
`YamlRoundTrip` the fallback YAML reader and writer. `Text` and `SortedNames` are
the string operations they use.

## Where the code does less than its comments say

Each of these is a lemma with a failing input, next to one that says exactly when
the property holds.

- The comment at `crates/agent-connector/src/inbound.rs:171-176` takes a lag of at
  most 4096 dropped events to be within reach of the newest-window replay. The
  ring still holds up to 1024 newer events whose rows are stored already, so the
  oldest dropped rows can be outside the window: `LagWithinTheLimitCanLoseARow`.
- The comment at lines 318-329 of the same file takes that window to be what a
  lagged subscription missed. "Newest" is by the sender's timestamp, which is not
  clamped, so a row that arrives late is outside however small the lag is:
  `LateRowIsLost`. A row is recovered if and only if fewer than 4096 stored rows
  have a later timestamp when the replay reads (`RecoveredIffInWindow`).
- A replay can repeat a row the subscription has delivered, when the unseen rows
  before it push its id out of the cursor: `EvictedRowIsRepeated` for every
  capacity, against the exact condition `ReplayRepeatsNothingIff`.
- The comment at `crates/agent-connector/src/event_projection.rs:1276-1281` says
  that a busy account never costs one pass per event. A pass that activity woke
  does not drain the channel, so each event still buffered wakes one more:
  `BurstCostsOnePassEach`, `BurstBreaksTheBound`. The exact count of what is left
  over is in `BacklogIsReadOneByOne` and `SettlesIffNothingLeft`, and the bound for
  a window without activity includes it: `WindowWithoutActivityIsSparse`.
- Account errors are said not to keep the catch-up schedule hot. As long as none is
  lost to a full ring they do not (`ErrorsDoNotChangeTheSchedule`); a burst that
  overflows the ring is read as a lag, which counts as activity:
  `ErrorBurstIsInertIffItFits`, `ErrorOverflowResetsTheSchedule`.
- A durable send whose key is retained under another fingerprint leaves no
  receipt, as the documentation of the store says: `ReceiptSticksIffKeyFree` is the
  exact case.
- A timeline walk gets stuck behind a row that does not fit a frame of its own, and
  only then: `WalkBackCompleteIffRowsFit`.
- The fallback YAML writer doubles apostrophes and the reader does not undo it, so
  every rewrite doubles them again; a decimal such as 0.00001 is read as a float,
  printed with an exponent and read back as text; lists are not read back at all:
  `ApostropheIsNotUndone`, `SmallDecimalComesBackAsText`, against the exact
  conditions `RoundTripIff` and `RewritingKeepsIff`.
- Writing the `.env` file drops one final blank line if both settings are in the
  file already: `RunKeepsAllLinesIff`, `FinalBlankLineIsLost`.

## Model

| member | source | states |
|---|---|---|
| BoundedFifo.PutKeepsWellformed | crates/agent-connector/src/stream_session.rs:341-366 | one record step keeps the window within capacity with each key once, and the key is retained afterwards |
| BoundedFifo.WindowIsLastAccepted | crates/agent-connector/src/stream_session.rs:341-366 | sliding-window refinement: after any sequence of records the window is exactly the last min(capacity, n) accepted records, in order; shared by the send store, the begin receipts and the delivered cursor |
| BoundedFifo.RepeatsNeedTurnover | crates/agent-connector/src/event_projection.rs:993-1005 | any capacity + 1 consecutive accepted records have distinct keys |
| BoundedFifo.ReacceptedOnlyAfterCapacityOthers | crates/agent-connector/src/event_projection.rs:993-1005 | a key is accepted again only after at least `capacity` other, distinct keys were accepted in between |
| BoundedFifo.PutKeepsRetainedValue | crates/agent-connector/src/stream_session.rs:341-366 | first write wins: a retained record is never overwritten, and exactly the oldest one goes, exactly when a new key arrives in a full window |
| BoundedFifo.RepresentsPut | crates/agent-connector/src/stream_session.rs:353-364 | the queue and the map changed by one record agree with each other and with the window |
| BoundedFifo.ReplayOfWindowIsIdentity | crates/agent-connector/src/stream_session.rs:508-534 | recording the entries of a well-formed window one by one rebuilds it |
| DeliveredCursor.DeliveredInboundCursor.Contains | crates/agent-connector/src/event_projection.rs:989-991 | membership in the hash set is membership in the window |
| DeliveredCursor.DeliveredInboundCursor.Record | crates/agent-connector/src/event_projection.rs:993-1005 | the queue and the set move to the window with the id put in: nothing if known, otherwise at the end with the oldest evicted at capacity |
| IdempotencyStore.ConstantTimeEq | crates/agent-connector/src/stream_session.rs:543-552 | the accumulate-differences loop decides equality of byte strings |
| IdempotencyStore.LoadAfterPersist | crates/agent-connector/src/stream_session.rs:443-461 | loading what was persisted gives back the same window, timestamps and dispositions included |
| IdempotencyStore.SendIdempotencyStore.FromFile | crates/agent-connector/src/stream_session.rs:508-534 | the load loop builds exactly the window that recording the file's entries would |
| IdempotencyStore.SendIdempotencyStore.GetWithDisposition | crates/agent-connector/src/stream_session.rs:179-192 | a receipt is returned if and only if the key is retained under the same fingerprint |
| IdempotencyStore.SendIdempotencyStore.Record | crates/agent-connector/src/stream_session.rs:341-366 | order, receipts and timestamps move together to the window with the record put in; a write-out is due exactly when the key was new |
| IdempotencyStore.SendIdempotencyStore.Snapshot | crates/agent-connector/src/stream_session.rs:443-461 | the snapshot lists the window in order |
| IdempotencyProtocol.ReachableStatesKeepInv | crates/agent-connector/src/stream_session.rs:212-326 | every state of every interleaving of acquire, wait, timeout, record, complete, cancellation and drop keeps the protocol invariant |
| IdempotencyProtocol.OneGateOneLeader | crates/agent-connector/src/stream_session.rs:212-326 | callers of one (key, fingerprint) share one live gate and at most one holds its lock; under strict acquisition this holds per key, and all of them carry one fingerprint |
| IdempotencyProtocol.OneSuccessPerGate | crates/agent-connector/src/stream_session.rs:106-118 | at most one mutation succeeds in the lifetime of a gate |
| IdempotencyProtocol.NoSendWhileRetained | crates/agent-connector/src/stream_session.rs:212-326 | no leader is elected, and none is between election and record, while the receipt is retained; under strict acquisition while the key is retained at all |
| IdempotencyProtocol.CompletedAnswersAreGenuine | crates/agent-connector/src/stream_session.rs:212-326 | a Completed answer carries ids that a success under the same key and fingerprint produced, or that were loaded for it |
| IdempotencyProtocol.StrictAtMostOncePerRetention | crates/agent-connector/src/stream_session.rs:259-326 | two successes under one key, with whatever fingerprints, have an eviction of the key's receipt in between |
| IdempotencyProtocol.StrictRetainedKeyDecides | crates/agent-connector/src/stream_session.rs:259-326 | while a key is retained every caller gets Completed for its fingerprint and Conflict for any other, and nobody leads |
| IdempotencyProtocol.DurableResendNeedsEviction | crates/agent-connector/src/stream_session.rs:212-253 | once a (key, fingerprint) receipt is retained, another success for it needs an eviction first |
| IdempotencyProtocol.ReceiptSticksIffKeyFree | crates/agent-connector/src/stream_session.rs:341-366 | recording leaves the receipt behind if and only if the key was free: the exact case of the documented cache miss |
| IdempotencyProtocol.AbandonedKeyCanLead | crates/agent-connector/src/stream_session.rs:212-326 | however earlier callers of a key ended, once they are gone and no receipt answers, the next caller can lead and succeed: no gate or lock is left behind |
| IdempotencyPersistence.FileNeverGoesBackwards | crates/agent-connector/src/stream_session.rs:443-495 | under any number of concurrent background writers the file's version never decreases |
| IdempotencyPersistence.RestartFindsAnEarlierMemory | crates/agent-connector/src/stream_session.rs:404-495 | at any moment the file loads to a window the store really had |
| IdempotencyPersistence.SucceededTaskIsDurable | crates/agent-connector/src/stream_session.rs:381-402 | once a spawned write has succeeded the file is at least as new as the record that spawned it |
| IdempotencyPersistence.FileCatchesUp | crates/agent-connector/src/stream_session.rs:341-402 | once no write is owed and the writes spawned by the last record have succeeded, the file is the memory |
| StreamBeginStore.StreamSessionStore.IsTaken | crates/agent-connector/src/stream_session.rs:688-694 | an id counts as taken if a session, a reservation or a receipt has it |
| StreamBeginStore.StreamSessionStore.FirstFree | crates/agent-connector/src/stream_session.rs:699-711 | the drawing loop stops at the first drawn id that is not taken, and goes past all of them only if every one is |
| StreamBeginStore.StreamSessionStore.ReserveStreamBegin | crates/agent-connector/src/stream_session.rs:661-736 | completed, conflict, wait, id in use or leader, in that order of tests; only a new leader changes the tables |
| StreamBeginStore.StreamSessionStore.CompleteStreamBegin | crates/agent-connector/src/stream_session.rs:738-772 | removes exactly its own reservation, installs the receipt in the bounded window and names the watch cell to set; otherwise nothing changes |
| StreamBeginStore.StreamSessionStore.ReleaseStreamBegin | crates/agent-connector/src/stream_session.rs:774-790 | removes exactly its own reservation and names the watch cell to set; otherwise nothing changes |
| StreamBeginStore.StreamSessionStore.RemoveIfSame | crates/agent-connector/src/stream_session.rs:799-811 | removes the session only if it is still the same publisher's |
| StreamBeginStore.StreamSessionStore.SweepIdle | crates/agent-connector/src/stream_session.rs:866-888 | removes exactly the idle sessions whose publisher could be evicted and counts them |
| StreamBeginProtocol.ReachableStatesKeepInv | crates/agent-connector/src/stream_session.rs:603-790 | every state of every interleaving of reserve, insert, complete, release, notify, subscribe, wait and cancellation keeps the invariant |
| StreamBeginProtocol.StreamIdsHaveOneHolder | crates/agent-connector/src/stream_session.rs:661-772 | the reserved ids are exactly the in-flight ids, and a stream id belongs to at most one in-flight request or receipt |
| StreamBeginProtocol.LeaderNeverStumbles | crates/agent-connector/src/stream.rs:198-243 | a leader's reservation is there, its request has no receipt yet, and its insertion does not collide |
| StreamBeginProtocol.FollowersAreWoken | crates/agent-connector/src/stream.rs:192-197 | a follower is never left waiting: its cell is set, or its leader still holds the reservation, or setting the cell is the remover's next step |
| StreamBeginProtocol.SameReceiptUntilEviction | crates/agent-connector/src/stream_session.rs:672-685 | from the completion of a request to the eviction of its receipt nobody reserves for it again, and every retry gets that receipt or Conflict |
| StreamBeginProtocol.CompletionInstallsTheAnswer | crates/agent-connector/src/stream_session.rs:603-621 | completion always finds its reservation, installs its receipt and goes on to notify |
| StreamBeginProtocol.AbandonedRequestCanBegin | crates/agent-connector/src/stream_session.rs:603-790 | however earlier leaders of a request ended, once they are gone and there is no receipt, the next caller reserves, inserts and completes: no reservation is left behind |
| CatchUpHandshake.AtMostOneDriver | crates/agent-connector/src/event_projection.rs:1099-1145 | at most one driver owns `started`, and nobody is spawning another |
| CatchUpHandshake.SubscriptionsHaveADriver | crates/agent-connector/src/event_projection.rs:1132-1145 | whenever subscriptions are active and no subscribe or exit check is in progress, a driver is running |
| CatchUpHandshake.ActiveCountsSubscriptions | crates/agent-connector/src/event_projection.rs:1224-1239 | the counter is the number of live subscriptions and never negative |
| CatchUpCadence.WaitForCatchUpWake | crates/agent-connector/src/event_projection.rs:1282-1322 | the select loop over the event ring wakes when the specification says, for the reason it says, and leaves unread what it says |
| CatchUpCadence.WakesBetweenFloorAndDeadline | crates/agent-connector/src/event_projection.rs:1282-1322 | a wake is never before the floor nor after the deadline |
| CatchUpCadence.WaitHearsFirst | crates/agent-connector/src/event_projection.rs:1282-1322 | a wait that meets no lag is woken by the first activity sent by its deadline, at the time that is sent but not before the floor, and otherwise runs out |
| CatchUpCadence.DrainPendingActivity | crates/agent-connector/src/event_projection.rs:1324-1341 | draining reads up to the first activity or lag and reports whether there was one |
| CatchUpCadence.ErrorBurstIsInertIffItFits | crates/agent-connector/src/event_projection.rs:1324-1345 | account errors sent while the driver was in a pass, and nothing else, wake it or count as activity if and only if they overflow the ring |
| CatchUpCadence.RunDriver | crates/agent-connector/src/event_projection.rs:1116-1173 | the driver loop makes exactly the passes of the specification |
| CatchUpCadence.CadenceBounds | crates/agent-connector/src/event_projection.rs:1116-1173 | on every trace the interval stays in [base, max] and each pass wakes between base and max after the previous completion |
| CatchUpCadence.PassesAreLinked | crates/agent-connector/src/event_projection.rs:1116-1173 | each pass counts from the completion of the one before, with the interval that one left: base after a successful pass that observed activity, doubled up to max otherwise; and it starts from what that one left unread |
| CatchUpCadence.PassHearsFirst | crates/agent-connector/src/event_projection.rs:1131-1158 | a pass that meets no lag observes activity if and only if one is sent by its deadline, and leaves unread exactly what comes after the first |
| CatchUpCadence.ErrorsDoNotChangeTheSchedule | crates/agent-connector/src/event_projection.rs:1116-1173 | for every trace on which no pass meets a lag, the passes are the same with all account errors taken out of the trace |
| CatchUpCadence.QuietIntervalsGrow | crates/agent-connector/src/event_projection.rs:1150-1173 | through a quiet stretch the interval doubles until it reaches max |
| CatchUpCadence.QuietPassesSpreadOut | crates/agent-connector/src/event_projection.rs:1116-1173 | after the ramp, quiet passes are at least max apart |
| CatchUpCadence.QuietStretchIsSparse | crates/agent-connector/src/event_projection.rs:1116-1173 | a stretch of length T in which no pass observes activity has at most ramp + T/max + 1 passes, where ramp is the number of doublings from base to max |
| CatchUpCadence.OneActivityPerPass | crates/agent-connector/src/event_projection.rs:1153-1158 | a pass that meets no lag uses up exactly one activity if one is due by its deadline, and none otherwise |
| CatchUpCadence.BacklogIsReadOneByOne | crates/agent-connector/src/event_projection.rs:1116-1173 | in a window without new activity each of the next passes observes one of the activities still unread, in turn, until none is left |
| CatchUpCadence.SettlesIffNothingLeft | crates/agent-connector/src/event_projection.rs:1116-1173 | no pass of such a window observes anything if and only if no earlier activity was left unread |
| CatchUpCadence.WindowWithoutActivityIsSparse | crates/agent-connector/src/event_projection.rs:1116-1173 | a window of length T in which no activity is sent and no pass meets a lag has at most (activities unread at its start) + ramp + T/max + 2 passes |
| CatchUpCadence.BurstCostsOnePassEach | crates/agent-connector/src/event_projection.rs:1153-1158 | n activities sent while the driver waits or works cost n passes, one base interval apart |
| CatchUpCadence.BurstBreaksTheBound | crates/agent-connector/src/event_projection.rs:1276-1281 | so the bound without the unread activities fails on every schedule with max at least twice base: n activities sent before the driver starts, with n at least 2 ramp + 6 and within the ring, make n passes in a window of n - 1 base intervals in which none is sent and no pass meets a lag |
| CatchUpCadence.ErrorOverflowResetsTheSchedule | crates/agent-connector/src/event_projection.rs:1296-1345 | one error more than the ring holds, sent during a successful pass of a backed-off driver, wakes it one base interval later and puts the interval back to base |
| InvitePolicyWorker.InvitePolicyRetryState.RecordFailureWith | crates/agent-connector/src/validation.rs:96-118 | counts the failure and makes the candidate due again exactly from now plus its capped backoff on |
| InvitePolicyWorker.InvitePolicyRetryState.NextDue | crates/agent-connector/src/validation.rs:73-82 | the earliest retry over all failed candidates, if there is one |
| InvitePolicyWorker.NoteEnumerationResult | crates/agent-connector/src/invite_policy.rs:57-74 | success clears the failure deadline and resets the delay; failure sets the deadline and doubles the delay up to the cap |
| InvitePolicyWorker.FailureDelayAtLeastBase | crates/agent-connector/src/invite_policy.rs:57-74 | in every run of the worker the failure delay is at least the base interval |
| InvitePolicyWorker.SafetyPassesSpread | crates/agent-connector/src/invite_policy.rs:107-212 | safety passes of a failing stretch are a base interval apart |
| InvitePolicyWorker.RetryPassesSpread | crates/agent-connector/src/invite_policy.rs:107-212 | so are its retry-driven passes |
| InvitePolicyWorker.FailingEnumerationsAreRateLimited | crates/agent-connector/src/invite_policy.rs:107-212 | the worker never spins: a window of length T of failing enumerations without events has at most 2(T/base + 1) of them |
| InvitePolicyWorker.NotDueBeforeBackoff | crates/agent-connector/src/invite_policy.rs:269-278 | a failed candidate that stays pending is not due before its backoff is over |
| InvitePolicyWorker.AttemptsRespectBackoff | crates/agent-connector/src/invite_policy.rs:312-356 | in any sequence of attempts run one after the other, two attempts at a candidate that stays pending are at least its backoff apart, measured from the return of the first |
| InvitePolicyWorker.BackoffFollowsFailureCount | crates/agent-connector/src/validation.rs:96-127 | the backoff in force is the one for the number of consecutive failures since the candidate was last cleared |
| InvitePolicyWorker.BackoffGrowsToItsCap | crates/agent-connector/src/validation.rs:120-129 | backoffs never shrink with more failures and never exceed the cap |
| InvitePolicyWorker.WorkerFollowsItsOperations | crates/agent-connector/src/invite_policy.rs:220-278 | in every run of the worker the retry state is what the sequence of its enumerations, attempts and events makes of the empty one |
| InvitePolicyWorker.RunIsSequential | crates/agent-connector/src/invite_policy.rs:107-278 | in every run of the worker its attempts run one after the other, over start-up, enumerations and events |
| InvitePolicyWorker.WorkerRespectsBackoff | crates/agent-connector/src/invite_policy.rs:107-356 | in every run of the worker, two attempts at a candidate that stays pending are at least the first one's backoff apart |
| InboundReplay.ReplayMissedInbound | crates/agent-connector/src/inbound.rs:305-356 | the replay loop over one account's rows: cursor and events as specified, also when a read fails midway |
| InboundReplay.SuccessfulReplayMissesNothing | crates/agent-connector/src/inbound.rs:329-353 | after a successful replay every projecting row of the page is returned or was known |
| InboundReplay.ReplayedIdsAreKnown | crates/agent-connector/src/inbound.rs:329-353 | whatever the cursor holds after a replay was there before or was collected, also when the replay fails |
| InboundReplay.ReplayIsClean | crates/agent-connector/src/inbound.rs:329-353 | a sufficient order: over at most `capacity` rows, with ids outside the page first in the cursor, a replay evicts only ids outside its rows, also when it fails midway |
| InboundReplay.SecondReplayIsEmpty | crates/agent-connector/src/inbound.rs:329-353 | an immediate second replay of the same rows returns nothing |
| InboundReplay.ReplayOrderIsOutsideFirst | crates/agent-connector/src/inbound.rs:329-353 | deliveries in replay order put the cursor in that order for every newest window |
| InboundReplay.ReplayRepeatsNothingIff | crates/agent-connector/src/inbound.rs:329-353 | a finished replay returns exactly the projecting rows the cursor did not know, each once and in order, if and only if each row it knew is reached before the unseen rows push its id out of the cursor |
| InboundReplay.EvictedRowIsRepeated | crates/agent-connector/src/inbound.rs:329-353 | for every capacity and every full cursor: a page with an unseen row before the cursor's oldest row returns both |
| RowOrder.NewestIffFewLater | crates/storage-sqlite/src/account_projection.rs:340-344 | a row is on the bounded page if and only if fewer than the limit come after it by sender time, id and order of storing |
| InboundDelivery.NoSilentLoss | crates/agent-connector/src/inbound.rs:63-278 | on every run of an account-scoped subscription, each broadcast durable fact that projects was written, or a resync notice was written after its row was stored, provided every lag is covered by the replay page |
| InboundDelivery.RedeliveredOnlyAfterTurnover | crates/agent-connector/src/inbound.rs:63-278 | on every run an id is written a second time only after `capacity` other distinct ids were recorded in between |
| InboundDelivery.RecoveredIffInWindow | crates/agent-connector/src/inbound.rs:171-278 | a finished replay accounts for a row nobody was told about if and only if fewer than `capacity` stored rows have a later sender time, whenever they were stored |
| InboundDelivery.ShortLagIsCovered | crates/agent-connector/src/inbound.rs:171-190 | a lag is covered if all events from the first dropped one on, the rows not broadcast yet and the earlier rows that overtook a dropped one by sender time number at most `capacity` |
| InboundDelivery.LagWithinTheLimitCanLoseARow | crates/agent-connector/src/inbound.rs:171-190 | for every ring size and capacity there is a run whose lag is within the limit and that loses its oldest row without a notice |
| InboundDelivery.LateRowIsLost | crates/agent-connector/src/inbound.rs:318-333 | for every ring size and capacity there is a run that drops a single event, of a row stored last but with the oldest sender time, and loses that row without a notice |
| InboundDelivery.RecoveryRepeatsNothingIff | crates/agent-connector/src/inbound.rs:329-353 | the exact condition for a replay to repeat nothing, at every recovery of every run |
| TimelinePaging.BoundedTimelinePageResponse | crates/agent-connector/src/timeline.rs:93-131 | the loop gives up the least number of rows, at the end away from the cursor, that makes the exact frame fit, and fails if and only if no number does |
| TimelinePaging.ClampLimit | crates/agent-connector/src/timeline.rs:57-59 | the limit in force is the requested one when that is in range, the nearest bound when it is not, and the default when there is none |
| TimelinePaging.TrimmedBefore | crates/agent-connector/src/timeline.rs:93-131 | a trimmed `before` page is the stretch of rows ending at the cursor, with the flags telling what is missing, and empty only if the nearest row does not fit alone |
| TimelinePaging.TrimmedAfter | crates/agent-connector/src/timeline.rs:93-131 | the same for `after` pages, starting at the cursor |
| TimelinePaging.WalkBackCompleteIffRowsFit | crates/agent-connector/src/timeline.rs:43-131 | following the oldest row backwards collects every row exactly once and in order if and only if each row fits a frame alone, or the empty page where there is none; otherwise the walk is stuck |
| TimelinePaging.WalkForwardCompleteIffRowsFit | crates/agent-connector/src/timeline.rs:43-131 | the same towards the newest row |
| Bech32.Bech32Polymod | scripts/hermes_marmot_configure_gateway.py:40-49 | the loop computes the checksum fold |
| Bech32.FoldIsLinear | scripts/hermes_marmot_configure_gateway.py:40-49 | the checksum is linear over GF(2) in state and word together |
| Bech32.FoldIsInjective | scripts/hermes_marmot_configure_gateway.py:40-49 | nor does any word |
| Bech32.ShortWordsAreTold | scripts/hermes_marmot_configure_gateway.py:40-49 | from any state, words of at most six symbols end in different states |
| Bech32.ChecksumExistsAndIsUnique | scripts/hermes_marmot_configure_gateway.py:85 | every prefix has exactly one accepted six-symbol suffix |
| Bech32.BurstIsDetected | scripts/hermes_marmot_configure_gateway.py:85 | changing symbols confined to six consecutive positions of an accepted word of any length always makes the checksum fail |
| Bech32.UnnoticedIffDifferenceVanishes | scripts/hermes_marmot_configure_gateway.py:85 | a change is unnoticed if and only if its difference word takes the zero state to zero |
| Bech32.SevenPositionsCanHide | scripts/hermes_marmot_configure_gateway.py:85 | six is the limit: any seven consecutive positions can be changed into another accepted word |
| BitRegrouping.ConvertBits | scripts/hermes_marmot_configure_gateway.py:52-67 | the accumulator loop returns bytes that are the same bit string but for less than one group of zero padding, and nothing if and only if no such bytes exist |
| BitRegrouping.RegroupedBytesAreUnique | scripts/hermes_marmot_configure_gateway.py:52-67 | values regroup to at most one list of bytes |
| BitRegrouping.RegroupedValuesAreUnique | scripts/hermes_marmot_configure_gateway.py:52-67 | at most one list of values regroups to given bytes: only canonical groupings are accepted |
| BitRegrouping.RegroupingInvertsGrouping | scripts/hermes_marmot_configure_gateway.py:52-67 | regrouping inverts zero-padded grouping for every byte string |
| Npub.ReadData | scripts/hermes_marmot_configure_gateway.py:77-80 | the lookup loop spells the data part, or fails if and only if a character is not in the alphabet |
| Npub.NpubToHex | scripts/hermes_marmot_configure_gateway.py:70-90 | the decoder accepts exactly the npubs and returns the key in hex |
| Npub.NpubNamesOneKey | scripts/hermes_marmot_configure_gateway.py:70-90 | a string has at most one key |
| Npub.AcceptsExactlyEncodings | scripts/hermes_marmot_configure_gateway.py:70-90 | a string is accepted for a key if and only if it is in one case and its lower-case form is the canonical encoding of that 32-byte key |
| Npub.NpubIsInjective | scripts/hermes_marmot_configure_gateway.py:70-90 | two accepted strings with the same key differ at most in case |
| Npub.EveryKeyHasAnNpub | scripts/hermes_marmot_configure_gateway.py:70-90 | every 32-byte key has an accepted encoding that decodes to it |
| Npub.MisreadNpubIsRejected | scripts/hermes_marmot_configure_gateway.py:85 | changing up to six neighbouring characters of an accepted lower-case npub never gives another accepted one |
| Npub.HexIsInjective | scripts/hermes_marmot_configure_gateway.py:90 | the hex form determines the key: distinct keys never normalise to one account id |
| SortedNames.SortedUniqueIsRight | scripts/hermes_marmot_configure_gateway.py:146 | sorting with duplicates removed gives an increasing list with the same members |
| SortedNames.IncreasingIsCanonical | scripts/hermes_marmot_configure_gateway.py:146 | order and members determine the list |
| SortedNames.MergeIsUnion | scripts/hermes_marmot_configure_gateway.py:295 | merging into a sorted list is sorting everything at once |
| EnvLayout.Survey | scripts/hermes_marmot_configure_gateway.py:219-224 | the first pass finds the last line of each managed key and its style |
| EnvLayout.Rewrite | scripts/hermes_marmot_configure_gateway.py:226-236 | the second pass rewrites the last line of each key in place and drops the earlier ones |
| EnvLayout.RenderLines | scripts/hermes_marmot_configure_gateway.py:205-241 | all passes together produce the rendering |
| EnvLayout.RenderKeepsOthers | scripts/hermes_marmot_configure_gateway.py:226-236 | rendering keeps every other line, in order |
| EnvLayout.RenderSetsAll | scripts/hermes_marmot_configure_gateway.py:237-241 | a rendered file sets every managed key |
| EnvLayout.RenderTwice | scripts/hermes_marmot_configure_gateway.py:205-241 | of two renderings only the second counts and the file does not grow |
| EnvFile.QuotedScalar | scripts/hermes_marmot_configure_gateway.py:118-127 | a quoted value is what stands between the quotes |
| EnvFile.CommentIsCut | scripts/hermes_marmot_configure_gateway.py:128-129 | a comment after white space is not part of a value, whatever white space the value itself holds |
| EnvFile.HexSpellings | scripts/hermes_marmot_configure_gateway.py:93-99 | hex in any case, with or without 0x, names one account |
| EnvFile.NpubSpelling | scripts/hermes_marmot_configure_gateway.py:93-99 | the npub of a key names the account with the key's hex id |
| EnvFile.WrittenLine | scripts/hermes_marmot_configure_gateway.py:153-171 | a written line is recognised with its key, value and export prefix |
| EnvFile.AllowedUsersReadBack | scripts/hermes_marmot_configure_gateway.py:132-146 | a rendered allowlist reads back as the same list |
| EnvFile.RenderedReadsBack | scripts/hermes_marmot_configure_gateway.py:174-241 | reading rendered lines gives back exactly the rendered settings, whatever the lines were before |
| EnvFile.RenderKeepsOtherLines | scripts/hermes_marmot_configure_gateway.py:205-241 | rendering keeps every unmanaged line, in order |
| EnvFile.RenderingTwiceIsRenderingOnce | scripts/hermes_marmot_configure_gateway.py:205-241 | a later rendering replaces an earlier one; rendering the same settings again changes nothing |
| EnvMethods.NormalizeEntry | scripts/hermes_marmot_configure_gateway.py:93-99 | an entry is stripped and decoded from npub or lower-cased without its 0x prefix |
| EnvMethods.ParseAllowedUsersValue | scripts/hermes_marmot_configure_gateway.py:132-146 | the entry loop: blank entries skipped, one bad entry an error, otherwise the sorted ids |
| EnvMethods.ReadHermesEnvAuth | scripts/hermes_marmot_configure_gateway.py:174-194 | the reading loop: the last setting of each key counts, any invalid one is an error, missing ones mean nobody and no |
| EnvMethods.RenderEnvLines | scripts/hermes_marmot_configure_gateway.py:205-241 | the renderer for the two managed keys |
| EnvRuns.PrepareHermesEnv | scripts/hermes_marmot_configure_gateway.py:278-314 | the merged settings and rendered lines, or an error exactly when the file is unreadable, a new user is invalid, or nobody would be authorised |
| EnvRuns.FileReadsBack | scripts/hermes_marmot_configure_gateway.py:244-248 | a written file reads back as the same lines, less one final blank line |
| EnvRuns.RunTakesEffect | scripts/hermes_marmot_configure_gateway.py:278-330 | a successful run leaves in force exactly what it prepared; a failing one leaves the file as it was |
| EnvRuns.RunsAccumulate | scripts/hermes_marmot_configure_gateway.py:278-314 | after any sequence of runs the users are the sorted union of the first ones and all added by valid requests, and allow-all is on if it ever was |
| EnvRuns.UnreadableFileIsUntouched | scripts/hermes_marmot_configure_gateway.py:278-314 | a file whose settings cannot be read is never changed |
| EnvRuns.RunKeepsOtherLines | scripts/hermes_marmot_configure_gateway.py:244-248 | a successful run keeps every other line but one final blank line, lost exactly if the rendered lines end in one |
| EnvRuns.RunKeepsAllLinesIff | scripts/hermes_marmot_configure_gateway.py:244-248 | it keeps all of them if and only if the file does not both end in a blank line and hold both settings already |
| EnvRuns.RunsKeepOtherLines | scripts/hermes_marmot_configure_gateway.py:205-248 | over any sequence of runs at most one final blank line is lost a run, and nothing else |
| EnvRuns.FinalBlankLineIsLost | scripts/hermes_marmot_configure_gateway.py:244-248 | for every configured state there is a file on which a run that changes no setting loses a line |
| YamlScalar.ScalarReloads | scripts/hermes_marmot_configure_gateway.py:465-540 | every scalar, whatever its text, comes back as itself with apostrophes doubled, and a float printed with an exponent as text |
| YamlScalar.ScalarSurvivesIff | scripts/hermes_marmot_configure_gateway.py:465-540 | it comes back unchanged if and only if it is not text with an apostrophe and not such a float |
| MiniYaml.SimpleYamlLoad | scripts/hermes_marmot_configure_gateway.py:493-525 | the reading loop computes the specified document, or fails where it does |
| MiniYaml.PopAndEnter | scripts/hermes_marmot_configure_gateway.py:513-523 | the popping loop closes exactly the mappings the line is outside of, then enters the key |
| MiniYaml.EmitMapping | scripts/hermes_marmot_configure_gateway.py:555-565 | appends exactly the lines of the mapping, nested mappings and lists included |
| MiniYaml.EmitSequence | scripts/hermes_marmot_configure_gateway.py:546-553 | appends exactly the lines of a list of scalars and mappings |
| YamlRoundTrip.EmitLoads | scripts/hermes_marmot_configure_gateway.py:493-568 | reading a written block, at any indentation and in any surrounding, adds its entries to the mapping it stands in |
| YamlRoundTrip.DocumentReloads | scripts/hermes_marmot_configure_gateway.py:493-568 | every nested mapping without lists, with safe keys and one-line texts, comes back as known exactly |
| YamlRoundTrip.LoadedIsProper | scripts/hermes_marmot_configure_gateway.py:493-525 | from any text the reader produces only safe keys, each once, one-line texts, floats in their printed form and no list |
| YamlRoundTrip.RoundTripIff | scripts/hermes_marmot_configure_gateway.py:493-568 | for every document: it is read back unchanged if and only if its keys are safe and not repeated, its texts are on one line without tabs and apostrophes, its floats are plain decimals and it has no list |
| YamlRoundTrip.RewritingKeepsIff | scripts/hermes_marmot_configure_gateway.py:493-568 | for any text: writing what was read and reading it again gives a known document, the same one if and only if no text has an apostrophe and every float read is printed as digits, point, digits |
| YamlRoundTrip.ExponentComesBackAsText | scripts/hermes_marmot_configure_gateway.py:486-490 | every decimal that is printed with an exponent is read as a float and comes back as text |
| YamlRoundTrip.SmallDecimalComesBackAsText | scripts/hermes_marmot_configure_gateway.py:532-533 | for instance 0.00001, printed 1e-05 |
| YamlRoundTrip.ApostropheIsNotUndone | scripts/hermes_marmot_configure_gateway.py:537 | the text it's comes back with two apostrophes |

## Left out

- Weak-memory reordering of the two driver atomics: steps are sequentially consistent.
- Wall-clock behaviour: time is a natural number supplied with each event, and timers fire at their deadline.
- Hashing, JSON and randomness: fingerprints are opaque values compared for equality, frames are counted by length, and fresh ids are arbitrary.
- The MLS engine, relays, the QUIC publisher and storage queries other than the order and limit of the replay: steps or inputs with the stated assumptions.
- File-system operations: a rename is one step, reading back a file returns what was written, and a failed write leaves the file as it was.
- Mutex poisoning, connection limits, authentication and capability checks, including `get_authorized` and `remove_authorized` of the session store.
- What a debug event holds (the delivery model has it as a fact with an id), subscription filters other than the account scope, and the projection of a record into an event.
- Storage guarantees distinct message ids only within a group; the delivery model takes ids to be distinct within a subscription's scope, as the cursor does.
- `invite_policy_allows` and the actions taken on an invite: an attempt has an outcome and a duration.
- `before_inclusive` timeline queries and the projection of timeline rows; a row is an id and a length.
- Unicode: case mapping, white space and line breaks are those of ASCII text.
- PyYAML, when it is installed, and the configuration entries that `prepare_gateway_config` sets.
- The two-file commit with rollback (`commit_env_and_config_transaction`), which is file-system bookkeeping.
- Lists inside lists in YAML, which the writer prints as one text.
- Aliasing in the YAML reader: its nested dictionaries, shared by reference between the stack and their parents, are modelled as open mappings that are entered into their parents when closed.
- Binary floats: a float is its printed form, and how a decimal is printed is a parameter about which two things are assumed: it gives plain characters that are no keyword and no integer, and a result of digits, point, digits is printed as itself (`SuchPrintingExists`: the assumptions can be met).
- Python's limit of 4300 digits, beyond which an integer is not printed and its text is not read as one.
- The closing of the event stream, after which the catch-up driver has its timer alone; an event sent while the driver waits is read at the time it is sent.
- StreamBeginStore.StreamSessionStore.ReserveStreamBegin: where an id is drawn at random, takes the draws as a list with a free id in it, because the loop that draws until one is free has no bound.
- InboundDelivery.NoSilentLoss: assumes that each lag is covered by the replay page, which `LagWithinTheLimitCanLoseARow` and `LateRowIsLost` show to be necessary, `RecoveredIffInWindow` makes exact and `ShortLagIsCovered` gives a sufficient test for.
- IdempotencyStore.SendIdempotencyStore.FromFile: starts from the parsed entry list; a missing or unreadable file, or one of another version, is an empty list.
- Bech32.Bech32Polymod: takes five-bit values, which is all the decoder passes to it.
- BitRegrouping.ConvertBits: needs a positive target width, as the loop that gives out groups never ends for zero.
