# SAPOT: a verified model

SAPOT is a messaging system for disaster response: a server with a sync protocol, an admin client that
keeps a local copy, an SMS gateway on a serial modem, and the tooling around them. This project models
the parts of it where several steps have to fit together, and proves what they guarantee.

**The serial worker** (`WorkerModel`, `WorkerInvariant`, `WorkerRuns`, `WorkerCauses`, `WorkerTime`,
`WorkerStall`, `WorkerProgress`, `SerialWorker`). Any number of callers, a sender thread, a reader thread
and a stopping thread share a bounded queue, an active slot, an in-flight slot and the completion flags
of the requests. One event is one lock-protected section of one thread, and events interleave
arbitrarily; a section that takes a second lock while it holds the first is split there, and the serial
write is a state of its own. The invariant says where every unfinished request is. On it rest: one
outcome for each request, a cause for every outcome and an effect of every cause, conservation and
capacity, order of the writes, shutdown, progress of every thread, and the bound on a caller's wait. That
bound is a request's own T + W + T if and only if no other caller asks for more than twice its timeout
(`WorkerStall.OwnBoundIff`): two slow writes in a row can otherwise keep its caller from the lock for
longer. The class `Worker` is the program's form of the same sections; each method may be called where
its event is enabled and performs exactly that event, so every state that calls lead to is one of a run.

**The wire** (`Text`, `Lines`, `Protocol`, `WireEvents`). Line reassembly, the gateway's command printer
and event parser, the virtual modem's command parser and event frames, and both ends joined in both
directions over a stream that is cut into reads at will. `WireEvents` says of every line, whoever wrote
it, which event or command it stands for.

**Sync** (`SyncPull`, `SyncConvergence`, `SyncTies`, `SyncLocalEdits`, `SyncPush`, `SyncPushGuards`,
`SyncPushAnswers`, `SyncPushEffects`, `SyncPushSafety`). The per-table page query, the client's merge,
the pagination loop with its choice of cursor, and the transactional push with guards and caches. A pull
converges whenever no chosen cursor meets a row that did not fit on its page; distinct times guarantee
that. Without them a first pull is complete if and only if no round chooses a cursor with an undelivered
live row at or behind it (`SyncTies.FirstPullMirrorsIff`), which on a server without deletions is a
matter of the times alone, and `SyncTies.TieIsLost` is an input on which a live row never arrives. A row
the client has edited and not pushed survives a pull as long as the server sends it as an update; its
first pull replaces it. For a push the exact cause of every answer is stated, which records are skipped,
and the exact row, user and guest tables it leaves; every stored record was checked against the row it
met.

**Ghost migration** (`Migration`, `MigrationLaws`, `MigrationThreads`, `ConversationIds`). The five
phases on table contents, what each table conserves, and what becomes of every conversation. The code
never compares the account with its ghost: messages are conserved if and only if the two differ or the
ghost sent nothing. Nor does it compare a thread with the direct conversation it is merged into: a merged
thread ends empty if and only if no entry at or after its last one has it as direct conversation and
something to move there. The server's own SMS ids rule that out, but a client can push a thread under any
id, and `MigrationLaws.OwnDirectThreadIsStranded` is such an input.

**Lockout and tokens** (`Lockout`, `TokenRotation`, `TokenAnswers`). Attempt counting over real time, and
refresh-token rotation step by step. "At most one new pair for a token" does not hold without
qualification: an insertion goes through if and only if, since every earlier use of the token, a clean-up
with a cut-off past its expiry has run (`TokenRotation.InsertSucceedsIff`). A call that passes the
blacklist check and then stalls past expiry and clean-up obtains a second pair, which
`TokenRotation.StalledCallRotatesTwice` shows for every token. The check itself is exact over every run:
with the cache up it refuses a token while the entry of its last answered use lives, and otherwise while
the row is stored.

**Smaller cores.** MD5 against RFC 1321 (`JsWords`, `Md5Ops`, `Md5`, `Md5Text`), cropping of a tile
pyramid (`Tiles`), schema resolution for the API fragments (`Schema`), and the SMS relay's sessions and
answers (`SmsRelay`, `RelayAnswers`).

`dafny verify dfyconfig.toml` checks everything.

## How to read the model

- The serial port, the modem, the network, the database's own rejections and the clock are inputs:
  events, parameters or fields of a message. The queue admits a request under the lifecycle lock and its
  number is its place in the order of admission.
- Time in the worker passes only while no thread has an expired wait it could act on: scheduling takes no
  time, a write takes at most `maxWrite`, and no fairness of locks is assumed. `connected` and
  `gsm_ready` are read as arbitrary booleans, because the reader changes them without a lock.
- A pull runs against a server that does not change meanwhile; a table is given in the order in which
  the query yields it. A limit of at least one is assumed for convergence, since a limit of zero fetches nothing.
- In a push, rows added earlier in the same transaction are visible to later queries, as with autoflush,
  and an explicit null or empty record id counts as malformed.
- A chunk of the serial stream is a sequence of characters.
- The MD5 script's numbers are integers, and its bit operators act on 32-bit patterns with JavaScript's
  signed results. A character is its code; strings are shorter than 2^31 - 8, beyond which the script
  would ask for an array of negative length.
- A region box is given in fractions of the map, as exact reals.
- `isdigit` is a parameter of the relay model, and each message carries what the two user queries would
  return when it arrives.

## Model

| member | source | states |
|---|---|---|
| WorkerInvariant.InvNext | GSM-module/GSM-fastapi/serial_worker.py:192-465 | every section of every thread keeps the invariant: unfinished requests are queued or held, an in-flight request is unfinished, active and written, outcomes are counted once |
| WorkerInvariant.FallbackKeeps | GSM-module/GSM-fastapi/serial_worker.py:411-430 | after the in-flight attempt missed, the direct completion never completes a request a second time although a confirmation may have slipped in between the two locks |
| WorkerRuns.OutcomeFixedOnce | GSM-module/GSM-fastapi/serial_worker.py:373-457 | in every interleaving a request's outcome is assigned at most once and never changes afterwards |
| WorkerRuns.FailuresTouchActiveOnly | GSM-module/GSM-fastapi/serial_worker.py:411-420 | a lost network, a missing SIM, a disconnect and the final stop change no request but the active one |
| WorkerRuns.UnfinishedAreHeld | GSM-module/GSM-fastapi/serial_worker.py:150-235 | every admitted unfinished request is in the queue, with the sender or with the stop drain, so at most capacity + 1 exist |
| WorkerRuns.ProxyBudgetCovers | server/app/api/gsm.py:30-31 | the proxy's budget of 21 admitted requests covers every queue the worker can be built with |
| WorkerRuns.WritesFollowAdmission | GSM-module/GSM-fastapi/serial_worker.py:192-226 | commands reach the port in the order of admission, each request at most once, and the log only grows |
| WorkerRuns.AbandonedIsNeverSent | GSM-module/GSM-fastapi/serial_worker.py:399-409 | a request its caller gave up on is never written, not even later |
| WorkerCauses.SuccessNeedsConfirmation | GSM-module/GSM-fastapi/serial_worker.py:358-371 | success is reported only for a request that was in flight when the modem confirmed its number |
| WorkerCauses.ModemFailureNeedsReport | GSM-module/GSM-fastapi/serial_worker.py:358-371 | a reason of the modem is reported only for a request that was in flight when the modem refused its number, with that reason |
| WorkerCauses.ForeignReportIsIgnored | GSM-module/GSM-fastapi/serial_worker.py:366-370 | a report that names another number, or comes when nothing is in flight, changes nothing at all |
| WorkerCauses.ReportTakesEffect | GSM-module/GSM-fastapi/serial_worker.py:437-446 | the verdict goes to the request in flight and ends it, or to nothing if that request has gone; no other request changes |
| WorkerCauses.EveryOutcomeHasACause | GSM-module/GSM-fastapi/serial_worker.py:311-457 | in every run every outcome, whatever its reason, goes back to an event that is a cause of exactly that reason for that request |
| WorkerCauses.DirectCauseActs | GSM-module/GSM-fastapi/serial_worker.py:204-234 | a refusal at the sender, a passed deadline, a failed write, a caller's timeout and the drain end their unfinished request at once with their reason |
| WorkerCauses.IndirectCauseActs | GSM-module/GSM-fastapi/serial_worker.py:311-371 | every other cause leaves its request to the reader or to a failing section, with its reason |
| WorkerCauses.FailingSectionEnds | GSM-module/GSM-fastapi/serial_worker.py:411-430 | a failing section ends its request, with its own reason unless a report came in between, and frees the active slot |
| WorkerCauses.AdmittedIff | GSM-module/GSM-fastapi/serial_worker.py:150-165 | a request is admitted exactly while the service accepts, the port is open, the modem is ready and there is room, and each refusal names the first of these that is missing |
| WorkerCauses.AdmissionAddsOne | GSM-module/GSM-fastapi/serial_worker.py:150-165 | an admitted request is last in the queue, unfinished and due after its timeout; nothing else changes, and a refused one changes nothing |
| WorkerRuns.ShutdownIsFinal | GSM-module/GSM-fastapi/serial_worker.py:123-135 | once stop has closed, drained and failed the active request, nothing is admitted or written and an unfinished request is the one just popped by the sender |
| WorkerRuns.PoppedAfterStopIsRefused | GSM-module/GSM-fastapi/serial_worker.py:204-207 | that request's next step gives it SERVICE_STOPPING without a write |
| WorkerTime.WaitIsBounded | GSM-module/GSM-fastapi/serial_worker.py:159-235 | an unfinished request is never older than one write plus the larger of the longest timeout and twice its own |
| WorkerTime.OwnBoundHolds | GSM-module/GSM-fastapi/serial_worker.py:159-235 | it is never older than its own T + W + T as long as no caller asks for more than twice its timeout |
| WorkerStall.StalledBeyondOwnBound | GSM-module/GSM-fastapi/serial_worker.py:373-409 | for every T, every longer timeout above 2T and a slow enough port, a run in which two writes in a row keep a request unfinished beyond T + W + T |
| WorkerStall.OwnBoundIff | GSM-module/GSM-fastapi/serial_worker.py:159-235 | over all runs and write times, T + W + T is a request's bound if and only if the longest timeout is at most twice its own |
| WorkerTime.GatewayWorstCase | server/app/api/gsm.py:26-29 | the proxy's 60 + 5 + 60 seconds hold for every API request even though the relay's replies queue up with 120 seconds |
| WorkerTime.OverdueCanFinish | GSM-module/GSM-fastapi/serial_worker.py:169-174 | an overdue request can be finished at once by its caller or by the sender, so the bound does not rest on a stopped clock |
| WorkerTime.HeldLocksAreReleased | GSM-module/GSM-fastapi/serial_worker.py:381-420 | a write can always end and a failing section can always go on |
| WorkerStall.OldestCanSucceed | GSM-module/GSM-fastapi/serial_worker.py:192-235 | between two sends the oldest waiting request can be written, confirmed and finished, with nothing else changed |
| WorkerProgress.SenderMovesOn | GSM-module/GSM-fastapi/serial_worker.py:198-235 | each section of the sender brings it closer to the top of its loop, with the same request: at most eight for a round |
| WorkerProgress.OthersLeaveSender | GSM-module/GSM-fastapi/serial_worker.py:373-457 | no other thread moves the sender |
| WorkerProgress.SenderCanMove | GSM-module/GSM-fastapi/serial_worker.py:198-235 | the sender is never stuck: it has a step to take unless its unfinished request's deadline lies ahead or a failing section, which can go on, holds the lock |
| WorkerProgress.StopMovesOn | GSM-module/GSM-fastapi/serial_worker.py:123-135 | once stopping has begun nothing adds to what is left of it, and each of its steps takes from it |
| WorkerProgress.StopCanMove | GSM-module/GSM-fastapi/serial_worker.py:123-135 | a stop can always go on until it is complete |
| WorkerProgress.TimeReachesDeadlines | GSM-module/GSM-fastapi/serial_worker.py:211-232 | while no lock is held time passes exactly up to the next deadline of an unfinished request |
| SerialWorker.Worker.Enqueue | GSM-module/GSM-fastapi/serial_worker.py:151-165 | the admission section, as its event in a run: its result and the new state, rejections included |
| SerialWorker.Worker.TimeoutRequest | GSM-module/GSM-fastapi/serial_worker.py:399-409 | the caller's timeout section, as its event in a run |
| SerialWorker.Worker.Loop | GSM-module/GSM-fastapi/serial_worker.py:198 | the guard of the sender's loop, as its event in a run |
| SerialWorker.Worker.Get | GSM-module/GSM-fastapi/serial_worker.py:199-202 | the sender takes the oldest queued request, as its event in a run |
| SerialWorker.Worker.Accept | GSM-module/GSM-fastapi/serial_worker.py:204-209 | the lifecycle section: refused or made active, as its event in a run |
| SerialWorker.Worker.LeaveWait | GSM-module/GSM-fastapi/serial_worker.py:211-218 | the end of the wait for the modem, as its event in a run |
| SerialWorker.Worker.CheckReady | GSM-module/GSM-fastapi/serial_worker.py:220-223 | the readiness check and the entry of its failing section, as its event in a run |
| SerialWorker.Worker.WriteBegin | GSM-module/GSM-fastapi/serial_worker.py:373-388 | the write section up to the port, as its event in a run: refused, timed out or in flight |
| SerialWorker.Worker.WriteEnd | GSM-module/GSM-fastapi/serial_worker.py:389-397 | the end of the write, as its event in a run: a write error completes the request, success renews its deadline |
| SerialWorker.Worker.WaitEnd | GSM-module/GSM-fastapi/serial_worker.py:230-234 | the end of the wait for the confirmation, as its event in a run |
| SerialWorker.Worker.ClearActiveRequest | GSM-module/GSM-fastapi/serial_worker.py:432-435 | the active slot is cleared only of the sender's own request, as its event in a run |
| SerialWorker.Worker.Confirm | GSM-module/GSM-fastapi/serial_worker.py:358-370 | the first section of the resolution: number matched against the request in flight, as its event in a run |
| SerialWorker.Worker.Resolve | GSM-module/GSM-fastapi/serial_worker.py:371 | its second section, as its event in a run |
| SerialWorker.Worker.CompleteRequest | GSM-module/GSM-fastapi/serial_worker.py:448-457 | sets the outcome exactly if none is set, and changes nothing else |
| SerialWorker.Worker.CompleteInFlight | GSM-module/GSM-fastapi/serial_worker.py:437-446 | completes exactly the request in the in-flight slot |
| SerialWorker.Worker.FailActiveRequest | GSM-module/GSM-fastapi/serial_worker.py:411-420 | the start of a failing section, as its event in a run |
| SerialWorker.Worker.ContinueFailing | GSM-module/GSM-fastapi/serial_worker.py:411-430 | its continuation at the inner lock, as its event in a run |
| SerialWorker.Worker.Close | GSM-module/GSM-fastapi/serial_worker.py:128-130 | the lifecycle section of stop, as its event in a run |
| SerialWorker.Worker.DrainOne | GSM-module/GSM-fastapi/serial_worker.py:460-465 | one round of the drain is a pop and a completion, and refuses exactly the oldest queued request |
| SerialWorker.Worker.DrainQueuedRequests | GSM-module/GSM-fastapi/serial_worker.py:459-465 | the drain loop is a sequence of pop and completion events, leaves the queue empty and every request it held completed |
| SerialWorker.Worker.FailLastRequest | GSM-module/GSM-fastapi/serial_worker.py:133 | the last failing section of stop always ends it |
| SerialWorker.Worker.Stop | GSM-module/GSM-fastapi/serial_worker.py:123-133 | stop run through is a path of events that ends stopped with every waiting request finished |
| Lines.LineBuffer.Feed | GSM-module/GSM-fastapi/serial_worker.py:284-287 | one read: the complete lines are handed on, the rest stays in the buffer |
| Lines.ReadAll | GSM-module/GSM-fastapi/serial_worker.py:278-287 | however the stream is cut into reads, lines and leftover are those of the whole stream |
| Lines.LinesAreTheStream | GSM-module/GSM-fastapi/serial_worker.py:284-287 | reassembly loses and invents nothing |
| Lines.LinesOfUnlines | GSM-module/GSM-fastapi/mock_modem.py:331-333 | it is the only way to cut a stream at its newlines |
| Protocol.CommandRoundTrip | GSM-module/GSM-fastapi/protocol.py:88-90 | the modem reads back number and newline-free body, pipes included, if and only if the number is valid and the body not blank |
| Protocol.ReceivedRoundTrip | GSM-module/GSM-fastapi/protocol.py:65-71 | a received message parses back to its body up to trailing white space, whatever pipes it holds |
| Protocol.SentRoundTrip | GSM-module/GSM-fastapi/protocol.py:73-75 | a confirmation frame parses back to its number |
| Protocol.FailedRoundTrip | GSM-module/GSM-fastapi/protocol.py:77-79 | the reason of a failure frame survives exactly if it holds no pipe and does not end in white space |
| Protocol.FailedParses | GSM-module/GSM-fastapi/protocol.py:77-79 | any failure frame parses to its number and to its reason up to the first pipe or trailing white space |
| Protocol.InboundRoundTrip | GSM-module/GSM-fastapi/mock_modem.py:126-141 | what a phone injects comes out of the gateway as one event with pipes turned to slashes |
| WireEvents.ParseLineIff | GSM-module/GSM-fastapi/protocol.py:45-85 | a line yields an event exactly when, stripped, it stands for it by the documented format, extra fields included; every other line is unknown |
| WireEvents.CommandIff | GSM-module/GSM-fastapi/mock_modem.py:47-55 | the modem takes a command from a line exactly when it is the tag, a valid number and a body that is not blank |
| WireEvents.Utf8LengthIsEncoded | GSM-module/GSM-fastapi/mock_modem.py:42-43 | the inbound limit counts the bytes of the encoding of RFC 3629, section 3 |
| Text.StripIff | GSM-module/GSM-fastapi/protocol.py:46 | stripping removes exactly the white space around a text |
| Protocol.Deliver | GSM-module/GSM-fastapi/mock_modem.py:331-338 | the modem's loop, fed any chunking of the gateway's commands, sees those commands and no others, in order |
| Protocol.Listen | GSM-module/GSM-fastapi/serial_worker.py:278-306 | the gateway's loop, fed any chunking of the modem's frames, hands on exactly their events, in order |
| SyncPull.GetTableChanges | server/app/api/sync.py:79-129 | one page of a table, split into created, updated and deleted |
| SyncPull.NextIsBounded | admin-frontend/sapot-admin/lib/sync/syncEngine.ts:36-66 | a chosen cursor never passes the snapshot's largest time, so the strictly growing cursor ends the loop |
| SyncPull.SyncClient.ApplyTableChanges | admin-frontend/sapot-admin/lib/sync/applyChanges.ts:6-53 | upserts, newer-wins merges and hard deletes of one table, equal to a function of the old table |
| SyncPull.SyncClient.ApplyChanges | admin-frontend/sapot-admin/lib/sync/applyChanges.ts:55-91 | five tables are applied and `call_participants` is not |
| SyncPull.SyncClient.Pull | admin-frontend/sapot-admin/lib/sync/syncEngine.ts:7-72 | the loop computes the whole pull and stores the time stamp of its last page; a failing page keeps the pages applied and the old cursor |
| SyncConvergence.NothingSkippedIff | server/app/api/sync.py:83-92 | a page and the next cursor leave no wanted row behind if and only if the cursor is before the first row that did not fit |
| SyncConvergence.GuardNeverFires | admin-frontend/sapot-admin/lib/sync/syncEngine.ts:41-60 | with positive times every full table offers a cursor, the least of them advances, and the no-progress guard never fires |
| SyncConvergence.SyncedAfterPage | admin-frontend/sapot-admin/lib/sync/applyChanges.ts:6-53 | after a page everything up to the next cursor is mirrored, despite redelivery and the created/updated split |
| SyncConvergence.CleanPullConverges | admin-frontend/sapot-admin/lib/sync/syncEngine.ts:17-66 | a client that agreed with the server at its cursor ends with every applied table equal to the live rows if no cursor meets a row that did not fit |
| SyncConvergence.PullConverges | admin-frontend/sapot-admin/lib/sync/syncEngine.ts:7-72 | so it does whenever times are distinct within each table the client applies |
| SyncConvergence.FailedPullIsResumable | admin-frontend/sapot-admin/lib/sync/syncEngine.ts:10-24 | a pull that fails part-way leaves a client that still agrees with the server at its old cursor |
| SyncConvergence.ServerMovesOn | server/app/api/sync.py:86-88 | a server that changes rows only with later times keeps the client in agreement at its cursor |
| SyncTies.FirstPullMirrorsIff | server/app/api/sync.py:83-92 | a first pull is complete if and only if no round chooses a cursor with an undelivered live row at or behind it |
| SyncTies.TimesDecideWithoutDeletions | server/app/api/sync.py:88-92 | on a server without deletions that is the case if and only if no chosen cursor meets a row that did not fit |
| SyncTies.SkippedIsLost | server/app/api/sync.py:88 | a row the cursor has passed without delivering it never arrives |
| SyncTies.TieIsLost | server/app/api/sync.py:88 | two rows of one millisecond across a page boundary: the second is lost |
| SyncLocalEdits.MergeNeverGoesBack | admin-frontend/sapot-admin/lib/sync/applyChanges.ts:25-43 | a merge leaves a row with the latest of its own and the updates' times, and never with an earlier one |
| SyncLocalEdits.OlderUpdatesAreIgnored | admin-frontend/sapot-admin/lib/sync/applyChanges.ts:31-37 | updates that are all older than the local row leave it as it is |
| SyncLocalEdits.MergeKeepsOtherColumns | admin-frontend/sapot-admin/lib/sync/applyChanges.ts:38-42 | an update that is not older replaces the columns it names and keeps the others |
| SyncLocalEdits.PageKeepsEditIff | admin-frontend/sapot-admin/lib/sync/applyChanges.ts:6-53 | a newer local row survives a page if and only if the page does not hold it, or holds it as an update |
| SyncLocalEdits.PullKeepsEdit | admin-frontend/sapot-admin/lib/sync/syncEngine.ts:7-72 | a pull, complete or cut short, keeps a row edited since the cursor and not pushed yet |
| SyncLocalEdits.FirstPageReplacesEdit | server/app/api/sync.py:98-110 | a client's first pull does not: every row comes as created and replaces the local one, newer or not |
| SyncPush.Store.UpsertRecords | server/app/api/sync.py:344-406 | the upsert loop, equal to a function of the session, or its abort status |
| SyncPush.Store.PushOneTable | server/app/api/sync.py:338-425 | one table with its deletions and flush |
| SyncPush.Store.PushLocalData | server/app/api/sync.py:215-453 | the whole push; any error rolls back and leaves the committed rows |
| SyncPushGuards.GuardMeans | server/app/api/sync.py:236-368 | a call, call participant or receipt is skipped exactly when the parent it names is malformed or has no row, or a receipt names none, a receipt's malformed user coming first; a record that is not brings in its unknown user as a guest |
| SyncPushGuards.UpsertMeans | server/app/api/sync.py:346-406 | a record stops the push exactly for a reason found in the rows, and otherwise is skipped, or changes its own row and no other: named columns stored, the rest as before, or absent when new |
| SyncPushAnswers.PushIsAllOrNothing | server/app/api/sync.py:235-453 | a push answers conflict, gone or error exactly for a reached record, a refused flush or a refused commit, and then leaves the database as it was |
| SyncPushSafety.PushIsOptimistic | server/app/api/sync.py:374-422 | a committed push removed no row, and each row is unchanged, was live and unchanged since the last pull, or was listed and only marked deleted |
| SyncPushSafety.PushChecksEveryRecord | server/app/api/sync.py:372-390 | every record of a committed push whose parent is in the database afterwards found its existing row live and unchanged since the last pull, also when the row is listed for deletion or gets equal values |
| SyncPushGuards.GuardSound | server/app/api/sync.py:236-368 | a guard lets a record through only with parent and user present, and every cache stays a subset of the transaction's rows |
| SyncPushSafety.UpsertSound | server/app/api/sync.py:346-406 | one record keeps caches sound, including rows inserted in the batch, and a guarded table's references closed |
| SyncPushSafety.GuardedFlushFindsRefs | server/app/api/sync.py:352-425 | in the guarded tables the flush finds every foreign key present, whatever the client sent |
| SyncPushSafety.PushKeepsReferences | server/app/api/sync.py:224-425 | closure of all foreign keys is an invariant of the database under pushes |
| SyncPushSafety.PushKeepsRequired | server/app/api/sync.py:344-425 | no push leaves a participant without user or a receipt without user or message |
| SyncPushEffects.RowAfterPush | server/app/api/sync.py:338-428 | the exact row of every id after a committed push: the records of the id whose parent the push knows, laid over the old row in their order, and marked if listed |
| SyncPushEffects.LastRecordWins | server/app/api/sync.py:346-396 | the row carries the last such record, on top of what the earlier ones left |
| SyncPushGuards.DeletionsMark | server/app/api/sync.py:409-422 | listed rows that exist are marked deleted with the current time, no other row changes |
| SyncPushEffects.PushStoresWhatItAccepts | server/app/api/sync.py:338-428 | a committed push has stored every record whose parent is in the database afterwards and that no later one replaced, unless it was also listed for deletion |
| SyncPushEffects.SkippedRecordsStoreNothing | server/app/api/sync.py:350-368 | a row all of whose records are skipped is as before, or only marked |
| SyncPushEffects.UsersAfterPush | server/app/api/sync.py:296-336 | the users afterwards are those before and those some record names, the new ones guests; a skipped record brings in nobody unless it is a receipt |
| Migration.Store.MigratePhoneUser | server/app/api/gsm.py:553-643 | the handler's outcome and the new tables |
| Migration.Store.SnapshotTargets | server/app/api/gsm.py:578-595 | the SMS threads of the ghost and their peers, before anything changes |
| Migration.Store.ReassignParticipants | server/app/api/gsm.py:597-608 | the participant loop equals the reassignment of the whole table |
| Migration.Store.ReassignMessages | server/app/api/gsm.py:610-616 | every message of the ghost and no other gets the user as sender |
| Migration.Store.UpgradeOrMerge | server/app/api/gsm.py:618-637 | the thread loop equals the fold over the snapshot |
| MigrationLaws.ParticipationConserved | server/app/api/gsm.py:597-641 | the user ends up in each conversation of the ghost, once unless it was duplicated before; nobody else's participation changes |
| MigrationLaws.NothingReferencesGhost | server/app/api/gsm.py:597-640 | when the ghost is deleted no message and no participant references it |
| MigrationLaws.MessageAfterMigration | server/app/api/gsm.py:610-634 | a message keeps its content; its sender changes only from ghost to user |
| MigrationLaws.MessagesConservedIff | server/app/api/gsm.py:563-641 | no message is lost or added if and only if the account is not its own ghost or the ghost sent nothing |
| MigrationLaws.DestIsThreadOrDirect | server/app/api/gsm.py:619-634 | a message leaves only a merged SMS thread, for the direct conversation with its peer, or onward if that is itself a merged thread; never onward when threads carry no direct ids |
| MigrationLaws.MergedThreadIsEmptied | server/app/api/gsm.py:627-637 | a merged thread ends soft-deleted, and empty unless an entry at or after its last one has it as direct conversation and something to move there |
| MigrationLaws.MergedThreadIsEmptiedIff | server/app/api/gsm.py:618-637 | whatever messages there are, it ends empty if and only if there is no such entry |
| MigrationLaws.RefilledThreadHidesMessages | server/app/api/gsm.py:618-637 | otherwise it ends soft-deleted while it holds every message the refilling entry found in its thread |
| MigrationLaws.OwnDirectThreadIsStranded | server/app/api/gsm.py:619-637 | an input: a thread under its own pair's direct id ends soft-deleted with its message in it |
| MigrationLaws.SeparateThreadsAreNotRefilled | server/app/api/gsm.py:650-671 | threads that carry no direct id are never refilled |
| MigrationLaws.UnmergedThreadIsUpgraded | server/app/api/gsm.py:623-626 | a thread without a direct conversation becomes it and keeps its messages |
| MigrationThreads.SnapshotIsComplete | server/app/api/gsm.py:578-595 | the snapshot holds exactly the SMS threads in which the ghost and somebody else take part, each with its first other participant |
| MigrationThreads.ThreadAfterMigration | server/app/api/gsm.py:618-637 | each of them ends soft-deleted if the account has a direct conversation with that peer, and as a direct conversation otherwise |
| MigrationThreads.OtherConversationsStay | server/app/api/gsm.py:618-637 | every other conversation is unchanged |
| MigrationThreads.NoThreadIsLeft | server/app/api/gsm.py:584-637 | no conversation of the ghost with somebody else is still a live SMS thread |
| MigrationThreads.MessagesFollowTheirThread | server/app/api/gsm.py:618-634 | when threads carry no direct ids, the messages of a merged thread end in the direct conversation and all others stay |
| MigrationThreads.OnlyGhostIsDeleted | server/app/api/gsm.py:639-641 | the ghost and nobody else loses its account |
| ConversationIds.DirectIdNamesThePair | server/app/api/gsm.py:650-661 | the direct id is the same from both sides and different for different pairs |
| ConversationIds.SmsIdIsNotDirect | server/app/api/gsm.py:664-671 | an SMS thread never has the id of a direct conversation |
| ConversationIds.SmsThreadsAreSeparate | server/app/api/gsm.py:650-671 | threads with SMS ids are never the direct conversation of a merge |
| Lockout.AttemptRow.CheckAndIncrement | server/app/db_operations/device_attempts.py:80-102 | one attempt: verdict and new row |
| Lockout.StepKeepsRow | server/app/db_operations/device_attempts.py:80-133 | the count stays in 0..5 and is 5 exactly while a lock is stored; the lockout count never falls and a check raises it by at most one |
| Lockout.RunKeepsRow | server/app/db_operations/device_attempts.py:80-133 | the same over any run of attempts and resets |
| Lockout.LockHoldsUntil | server/app/db_operations/device_attempts.py:80-85 | a lock denies strictly before its time and changes nothing; from then on the whole budget is there again |
| Lockout.DenialNamesLock | server/app/db_operations/device_attempts.py:80-96 | a denial names the stored lock, which lies ahead; a lockout happens at exactly the fifth attempt and lasts its tier |
| Lockout.RemainingIsExact | server/app/db_operations/device_attempts.py:87-102 | of the next attempts, whenever they come, all before the n-th are allowed and the n-th locks, when n was reported remaining |
| Lockout.AttemptsPerLockout | server/app/db_operations/device_attempts.py:87-102 | without a reset every lockout costs exactly four allowed attempts, so k lockouts allow at most 4(k + 1) |
| Lockout.LockoutsAreApart | server/app/db_operations/device_attempts.py:80-96 | two lockouts are at least the cooldown of the earlier one apart |
| Lockout.AttemptsInWindow | server/app/db_operations/device_attempts.py:9-102 | a window admits at most four attempts for each cooldown begun in it |
| Lockout.AttemptsPerDay | server/app/db_operations/device_attempts.py:9-102 | at the top tier that is four a day and four more |
| TokenRotation.InvNext | server/app/db_operations/token.py:305-397 | used and logged-out tokens stay in the table until they expire, whatever interleaves |
| TokenRotation.RowsRememberSpending | server/app/db_operations/token.py:321-326 | the table knows a token exactly when a refresh or logout spent it and no clean-up past its expiry ran since |
| TokenRotation.InsertSucceedsIff | server/app/db_operations/token.py:370-397 | an insertion goes through if and only if since every earlier refresh or logout with the token such a clean-up ran |
| TokenRotation.RotatesOnceBeforeExpiry | server/app/db_operations/token.py:370-397 | of two calls that both used one token, the later insertion came after a clean-up past the token's expiry, so after that expiry |
| TokenRotation.StalledCallRotatesTwice | server/app/db_operations/expire_announcements.py:31-34 | the qualification is needed: for every token a stalled call obtains a second pair after expiry and clean-up |
| TokenAnswers.CheckFailsIff | server/app/db_operations/token.py:305-319 | over every run the check refuses exactly while the entry of the token's last answered use lives, or, without a cache, exactly while the row of a use is stored |
| TokenAnswers.UnspentTokenPasses | server/app/db_operations/token.py:305-319 | a token that was never used passes, whatever happens to others |
| TokenAnswers.CachedTokenIsRefused | server/app/db_operations/token.py:46-49 | with the cache, a token used up by an answered refresh or a logout is refused up to a second before it expires |
| TokenAnswers.StoredTokenIsRefused | server/app/db_operations/token.py:305-319 | without a cache, a token used up is refused until it expires |
| TokenAnswers.CacheRemembersLast | server/app/db_operations/token.py:46-49 | the cache holds the entry of the last answered use, for the remaining whole seconds |
| TokenAnswers.LoggedOutIff | server/app/db_operations/token.py:328-348 | the tokens logged out are exactly those that some logout spent |
| TokenAnswers.LogoutTakesEffect | server/app/db_operations/token.py:321-348 | a logout is always possible, and a valid token is refused from then on |
| TokenRotation.TokenStore.RefreshToken | server/app/db_operations/token.py:361-397 | an uninterrupted refresh is the five steps of one call, and renews exactly for a token that has not expired, is not in the table and, with the cache up, has no live entry there |
| TokenRotation.TokenStore.AddToBlacklist | server/app/db_operations/token.py:321-326 | the primary key refuses an id already there; the cache entry lives for the remaining whole seconds, at least one |
| SmsRelay.Relay.HandleIncoming | GSM-module/GSM-fastapi/sms_handler.py:77-125 | one message: reply and new session table |
| SmsRelay.Relay.CmdSetTarget | GSM-module/GSM-fastapi/sms_handler.py:130-156 | the target command with its rejections |
| SmsRelay.Relay.DoForward | GSM-module/GSM-fastapi/sms_handler.py:159-191 | the forward with its rejections |
| SmsRelay.Relay.UpdateSession | GSM-module/GSM-fastapi/database.py:454-464 | an update of a missing row changes nothing, a field not given stays |
| SmsRelay.HandleChangesOneRow | GSM-module/GSM-fastapi/sms_handler.py:77-191 | a message touches only its sender's session, as its verdict on the command says |
| SmsRelay.StoredIsLastAccepted | GSM-module/GSM-fastapi/sms_handler.py:107-125 | in every run the stage is new, awaiting or active, active rows hold a `+digits` target other than the sender, and that is the last one accepted since the last reset |
| SmsRelay.TurnedAwayIff | GSM-module/GSM-fastapi/sms_handler.py:77-105 | a sender without an account, banned or not verified is turned away with exactly that reason, nothing is forwarded and no session changes |
| RelayAnswers.RowIsHistory | GSM-module/GSM-fastapi/sms_handler.py:107-125 | in every run the whole row of a phone, stage, target and name, is what its history since the last reset says |
| RelayAnswers.AnswerIs | GSM-module/GSM-fastapi/sms_handler.py:107-191 | the answer to a message in good standing that is no command, in every case, from the history of its sender |
| RelayAnswers.ArgumentIff | GSM-module/GSM-fastapi/sms_handler.py:132-136 | the argument of a command is exactly what follows its first word and a gap of white space |
| RelayAnswers.CommandInAnyCase | GSM-module/GSM-fastapi/sms_handler.py:111 | the tag counts in any mixture of cases |
| SmsRelay.ForwardsIff | GSM-module/GSM-fastapi/sms_handler.py:77-191 | after any history a message is forwarded exactly to the last accepted target, when sender and target are in good standing |
| SmsRelay.ForwardsReachSomeoneElse | GSM-module/GSM-fastapi/sms_handler.py:141-191 | a forwarded text goes to someone else and, for senders of at most 20 characters, fits one SMS |
| SmsRelay.ForwardFitsIff | GSM-module/GSM-fastapi/sms_handler.py:55-66 | the forwarded text fits 160 characters exactly for senders of at most 152, or 153 with nothing to say |
| SmsRelay.ForwardIsFaithful | GSM-module/GSM-fastapi/sms_handler.py:55-66 | it is the sender and the whole message, or its longest beginning that fits and an ellipsis |
| SmsRelay.RepliesFit | GSM-module/GSM-fastapi/sms_handler.py:9-52 | with the column widths of the tables no reply in any run is longer than 160 characters |
| Tiles.ParentInRange | tileserver/crop-mbtiles.py:83-95 | every tile of the box has its parent in the box one zoom lower, after the flip of the rows, for any reals |
| Tiles.PointIsCovered | tileserver/crop-mbtiles.py:69-95 | the tile under any point of the region is in range at every zoom |
| Tiles.InRangeIffTouches | tileserver/crop-mbtiles.py:69-95 | a tile is in range exactly when its square touches the box, for any reals, the truncation toward zero at the map's edge included |
| Tiles.Build | tileserver/crop-mbtiles.py:137-173 | the overview selection, the zoom loop and the deduplicated blobs give exactly the planned crop; an empty source is an error |
| Tiles.CropIsParentClosed | tileserver/crop-mbtiles.py:141-163 | a parent-closed source gives a parent-closed output down to the floor, across the overview split |
| Tiles.GroupMaxGroups | tileserver/crop-mbtiles.py:165-173 | the output has one blob row for each referenced id, holding the greatest of its blobs |
| Tiles.CropViewIsExact | tileserver/crop-mbtiles.py:106-173 | the rebuilt view returns one row for each kept map row, with a blob of its own id |
| Tiles.EachTileOnce | tileserver/crop-mbtiles.py:106-173 | with one source row for each coordinate it returns each kept coordinate exactly once |
| Schema.CollectRefs | scripts/generate_openapi_docs.py:127-137 | the collector adds exactly the names some path into the value refers to |
| Schema.TextMentionsIff | scripts/generate_openapi_docs.py:131-132 | a text refers to a schema only as a `$ref` under the prefix, and then to the one named after its last slash |
| Schema.ResolveSchemas | scripts/generate_openapi_docs.py:151-169 | on every reference graph, cyclic or not, the worklist ends with exactly the reachable defined schemas in declaration order |
| Schema.FragmentHasNoDanglingRefs | scripts/generate_openapi_docs.py:176-180 | every reference in a fragment that the full specification defines is defined in the fragment |
| Schema.ResolutionIsStable | scripts/generate_openapi_docs.py:151-169 | resolving against the fragment's own schemas gives the same fragment |
| Schema.FragmentSchemas | scripts/generate_openapi_docs.py:176-180 | the schemas key is present exactly when something defined is reachable |
| Md5Ops.SafeAddIsPlus | captive-portal/md5.js:13-18 | `safe_add` is addition modulo 2^32 for all numbers |
| Md5Ops.RolIsRotL | captive-portal/md5.js:23-26 | `rol` is the circular shift |
| Md5Ops.CodeIsOperation | captive-portal/md5.js:31-50 | each of the four round functions is one operation of RFC 1321, section 3.4 |
| Md5.FirstRound | captive-portal/md5.js:70-85 | the first sixteen unrolled operations are steps 0 to 15 of the table-driven description |
| Md5.SecondRound | captive-portal/md5.js:87-102 | the next sixteen are steps 16 to 31 |
| Md5.ThirdRound | captive-portal/md5.js:104-119 | the next sixteen are steps 32 to 47 |
| Md5.FourthRound | captive-portal/md5.js:121-136 | the last sixteen are steps 48 to 63 |
| Md5.CoreMD5 | captive-portal/md5.js:56-144 | the unrolled loop computes the digest of section 3.4 over all blocks |
| Md5Text.Str2binl | captive-portal/md5.js:181-191 | the array filled in place holds the padded blocks |
| Md5Text.PaddingIsRfcIff | captive-portal/md5.js:181-191 | the padding is that of sections 3.1 and 3.2 exactly for strings below 2^29 characters |
| Md5Text.PaddingIsInjective | captive-portal/md5.js:181-191 | no two byte strings are padded to the same blocks |
| Md5Text.Binl2hex | captive-portal/md5.js:149-159 | the words' bytes from the low end in hexadecimal |
| Md5Text.HexDecodes | captive-portal/md5.js:149-159 | decoding the hexadecimal string gives every word back |
| Md5Text.HexMd5 | captive-portal/md5.js:212 | for every string below 2^29 characters the result is the MD5 digest of its bytes |

## Left out

- SerialWorker.Worker: the thread objects and the acquisition of locks; a method is called at the point where its section holds its locks, and `Stop` and the drain are shown run through, while other interleavings are those of `WorkerModel`.
- WorkerCauses.SuccessNeedsConfirmation: matches a confirmation by number only, as the code does, so a late confirmation of an earlier send to the same number can count.
- WorkerTime.WaitIsBounded: scheduling delays, and any fairness of the active lock; the bound is what holds without it.
- Partial UTF-8 sequences across reads: the wire is modelled on characters.
- SyncConvergence.ServerMovesOn: rows pushed with a client time at or before another client's cursor break its condition and are missed by that client.
- `call_participants` is fetched but never applied by the client, so convergence is stated for the other five tables.
- SyncPush.Store.PushLocalData: the moment at which the database fills in `updated_at` of a record that does not give one is the time of the push, also for a second record of the same id.
- The hints that name a guest account created by a push, and the ownership filters of a pull.
- Migration.Store.MigratePhoneUser: calls, receipts and the other rows that reference a user, and how a query orders participants.
- ConversationIds: UUIDv5 is an uninterpreted injective function of the name.
- TokenRotation: signatures and JWT encoding, malformed token ids, and a logout's answer; a token is its id and its expiry.
- SmsRelay.Relay.DoForward: the copy to the mobile app, whose result the code ignores, and the log entries.
- Lockout: the creation of the row and which table it is stored in.
- Tiles.Build: the metadata rows, indexes and the trigonometry of the Mercator latitude.
- Schema.FragmentSchemas: security schemes, the order of the paths and the rest of the document.
- Md5Text.HexMd5: `binl2b64` and the wide-character variants.
- The WebSocket hub, the acknowledgement queue, the admin client's mutation queue, seeding, the user interfaces and the duplicate mock endpoints.
