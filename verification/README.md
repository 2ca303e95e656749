# Artifact writeback protocol and JSON document engine: a verified model

This project models the in-memory core of the Artifact features of the CatsCo server and proves what it
guarantees.

**The three-store protocol.** A user looks at an Artifact in a preview. The *context snapshot store* keeps
the current snapshot for each actor and topic, the *task store* keeps Artifact tasks from creation over
delivery to a terminal state, and the *result writeback store* issues tickets for results, tracks delivery
attempts and takes receipts. The Hub composes them: a ticket is issued, and a send is claimed, inside a
callback that runs while the snapshot or task lock is held; invalidation happens in separate steps. Each
store is modelled twice: as functions on an immutable table (`SnapshotTable`, `TaskTable`,
`WritebackTable`) and as a class that updates shared objects in place (`SnapshotStore`, `TaskStore`,
`WritebackStore`), where each method is proved to leave exactly the table the function gives. `Protocol` is the
composed system as a state machine whose steps interleave freely; `ProtocolInvariant` and `ProtocolSteps` show
that every step keeps one invariant over all stores, `ProtocolTheorems` states what holds in every run, and
`Hub` is the Hub over the three mutable stores, whose every call is proved to be steps of that machine. A Hub
method runs a handler's steps one after the other; that other handlers come in between is covered by the
machine, whose runs take the steps in any enabled order. `SecondTickets` and `SecondAttempts` say exactly which runs
give a source a second ticket and a result id a second open attempt, `ProtocolCases` takes the steps one kind at a
time, and `Witnesses` has the runs in which something less happens than one might expect.
`TaskRuns` has the theorems about runs of the task store alone. `SnapshotAnswers`, `TaskAnswers` and
`WritebackAnswers` say of each store operation, from the table before its cleanup pass, exactly when it gives which
answer and what it writes.

**The JSON engine.** `PatchSpec` is a JSON Patch subset (RFC 6902) as a fold of pure updates, `JsonPointer` is
RFC 6901 with a printer and a parser, and `PatchHeap` and `PatchApply` are the in-place patch code over nested
maps and slices with spare capacity, proved equal to the fold. A `Layout` value describes which heap objects
a document owns; a document never reaches a map or a backing array twice. `BoundedJson` is the structural
check with its shared counter, `Sanitizer` the budgeted page-context sanitizer and `TaskSchema` the schema
validator and payload checker. `PatchLaws`, `SanitizerImage` and `SchemaRules` say what these compute in terms of
their input and output alone.

**Smaller cores.** `ContextCache` is the generation-stamped cache of resolved Artifacts, `OpenBinding` the
gate that orders a revoke against a save, and `Identity` the payload of the signed cookie.

`Basics`, `Outcomes`, `Texts` and `Json` hold shared vocabulary. `dafny verify dfyconfig.toml` checks everything.

## Hypotheses

- A snapshot lives no longer than a ticket: the snapshot TTL (5 min, server/artifact_context_snapshot.go:21) is at
  most the ticket TTL (30 min, server/artifact_result_writeback.go:28); `Protocol.Config.Valid` says so.
- The request hash is injective: the hashed tuple stands for its hash.
- `Route.Matches` is runtimeRoute.matches (server/runtime_state.go:37-42): equal node and connection, both known.
- One monotone clock. A composed step reads it twice, outside and inside the callback, and the second reading
  is no earlier; "one reading per composed step" is the special case `OneReading`.
- Freshly drawn references and ids are new to the whole run. The stores' own loops that skip a colliding
  draw are modelled; the assumption is only used where it matters that a reference never comes back.
- Map iteration order and the choice among equally old eviction candidates are arbitrary.
- Two JSON values have the same encoding exactly when they are equal. Which number texts have a finite float
  value, and their order, is a parameter; so is the keyed hash of the cookie, which is never empty.
- Freshness of a cached record supposes fewer than 2^64 events since its fetch began; `GenerationsWrap` shows
  why, and `UnchangedExactly` says what holds without it.

## Where the code gives less than one might expect

- A revision is its predecessor's plus one only along an unbroken chain of replacements; it restarts at 1
  after an expiry or an invalidation (`SnapshotTable.CreateReplaces`, `Witnesses.RevisionRestarts`).
- An attempt can leave the table uncompleted, exactly when its ticket expires before its wait is over
  (`WritebackTable.ForgottenOpenExactly`).
- The invalidate handler invalidates on the writeback side whatever the snapshot store answered
  (`Hub.Hub.InvalidateSnapshot`), so a snapshot can stay active with its context closed, exactly when somebody who
  is not its owner invalidates it (`ProtocolTheorems.InvalidationMissesExactly`, `Witnesses.ForeignInvalidation`).
- observeRun answers no after it has changed the task exactly for a report in an unknown state
  (`TaskTable.ObserveRunExactly`, `TaskRuns.UnknownStateIsWritten`).
- releaseDelivery runs no cleanup, so it may leave an overdue task in place (`TaskRuns.OverdueGoesExactly`,
  `TaskRuns.ReleaseLeavesOverdue`).
- Two attempts of one result id can be open: exactly if a new ticket's submit finds the first one open past its own
  ticket's expiry, still waiting or already forgotten, and a place in the table
  (`SecondAttempts.OneOpenExactly`, `Witnesses.TwoOpenAttempts`).
- A result that the application has applied leaves its task uncompleted exactly if the task is no longer live when
  the result reaches it, or the result id is malformed (`ProtocolTheorems.AppliedCompletesExactly`,
  `Witnesses.AppliedButFailed`).
- Array index segments with a sign are accepted (`PatchSpec.IndexExactly`).
- With two clock readings a snapshot or a task can receive a second ticket. A task does as soon as the callback
  reads a clock at or past its own expiry; a snapshot when its ticket, or the tombstone of its invalidation, is
  over by then (`SecondTickets.OneTicketExactly`, `Witnesses.TaskTwice`, `Witnesses.SnapshotTwice`).

## Model

| member | source | states |
|---|---|---|
| `Hub.Hub.CompletedWasApplied` | server/artifact_result_writeback.go:186-228 | On a running Hub: a task stored as completed was delivered, and one attempt object for exactly that task and result was claimed by one call and ended as applied by a later receipt for that task and result that came in on its ticket's own preview connection and itself said applied |
| `ProtocolTheorems.CompletedMeansApplied` | server/artifact_result_writeback.go:780-791 | In every run, a completed task was delivered; some attempt for that task and that result was claimed by its own claim step while the task was delivered, live and unexpired, and a later accepted receipt for that task and result, from the ticket's exact route, has applied in its application part, which is the outcome that the attempt holds |
| `ProtocolTheorems.FencedInRun` | server/artifact_result_writeback.go:186-228 | In every run, an attempt becomes claimed only by its own claim step, while its snapshot is current at the ticket's revision or its task is writable, its ticket is live and equal to its target, and no earlier event invalidated that context or task |
| `ProtocolTheorems.Fencing` | server/artifact_result_writeback.go:396-418 | The same for one step from any state that keeps the invariant, together with: the attempt was open and stays open |
| `ProtocolTheorems.ClaimedNeverMismatched` | server/artifact_result_writeback.go:350-394 | In every reachable state no attempt is both claimed for sending and closed as target_mismatch |
| `SecondTickets.AtMostOneTicketPerSource` | server/artifact_result_writeback.go:238-336 | With one clock reading per composed step, no snapshot and no task receives two tickets in any run, neither at once nor after expiry or invalidation |
| `SecondTickets.OneTicketExactly` | server/artifact_result_writeback.go:152-184 | With two readings, a run gives every snapshot and every task at most one ticket exactly when none of its events asks for one, with room for it, for a source that had one and whose standing (end of the task, of the ticket that stands for an open context, of the tombstone of a closed one) is over at the second reading |
| `SecondTickets.SecondContextTicketExactly` | server/artifact_result_writeback.go:238-283 | In every state of a run, issuing for a current snapshot that had a ticket draws another exactly if there is room and the held ticket of an open context, or the tombstone of a closed one, is over at the second reading |
| `SecondTickets.SecondTaskTicketExactly` | server/artifact_result_writeback.go:285-336 | In every state of a run, issuing for a writable task that had a ticket draws another exactly if there is room and the task has expired at the second reading |
| `SecondTickets.RunTraced` | server/artifact_result_writeback.go:350-394 | In every run only closed sources have tombstones, and the record of every source a ticket was issued for has what a ticket needs: with the invariant, the facts the two exact conditions rest on |
| `SecondTickets.OneReadingNeverSecond` | server/artifact_result_writeback.go:152-184 | With one clock reading per composed step no event of a run meets that condition: what stands for a ticket lasts as long as its source |
| `Witnesses.SnapshotTwice` | server/artifact_result_writeback.go:152-169 | Under every configuration a run gives one snapshot two tickets: the tombstone of its invalidation ends before the second callback reads the clock |
| `Witnesses.TaskTwice` | server/artifact_result_writeback.go:171-184 | Under every configuration a run gives one task two tickets: it has just expired when the second callback reads the clock |
| `ProtocolTheorems.TicketsAreIndexed` | server/artifact_result_writeback.go:275-283 | In every reachable state each live ticket belongs to exactly one source, and live tickets are in bijection with the entries of byContext and byTask together |
| `ProtocolTheorems.AttemptPersists` | server/artifact_result_writeback.go:551-558 | Between any two states of a run an attempt keeps its identity, its claim and, once written, its outcome |
| `ProtocolTheorems.AnsweredAfterClaim` | server/artifact_result_writeback.go:483-524 | In every run, an attempt with an application status was claimed by an earlier event under a vouching source and answered by a later receipt from its own route; the outcome is the receipt's application part, or the invalid_receipt failure if that is missing or not the application's to say |
| `ProtocolTheorems.OnlyTheLastIsAnswered` | server/artifact_result_writeback.go:420-459 | In every run, of the attempts for one result id under one ticket all but the last are over without an application status: once a result ends applied, rejected or failed nothing more starts for it under that ticket, even after cleanup |
| `ProtocolTheorems.StepTouches` | server/artifact_result_writeback.go:396-418 | Every step leaves claims and application statuses alone, except a claim step for its own attempt and an accepted receipt for the attempt it names |
| `ProtocolTheorems.ClosedSince` | server/artifact_result_writeback.go:350-394 | A context or task that some event invalidated stays closed in every later state of the run |
| `ProtocolSteps.StepKeepsInv` | server/artifact_result_writeback.go:152-228 | Every step of the composed system keeps the invariant over all three stores |
| `ProtocolSteps.RunKeepsInv` | server/artifact_result_writeback.go:152-228 | Every reachable state of the composed system keeps it |
| `Hub.Hub.IssueWritebackIfCurrent` | server/artifact_result_writeback.go:152-169 | The call answers and changes the stores as one step of the state machine: a ticket is issued exactly inside a successful withCurrent |
| `Hub.Hub.IssueTaskWritebackIfActive` | server/artifact_result_writeback.go:171-184 | The same for tasks, inside withWritable |
| `Hub.Hub.ClaimDeliveryForSend` | server/artifact_result_writeback.go:186-228 | The claim happens inside the callback of the attempt's source; exactly when the source is not there, the invalidation of that source follows after the lock is released |
| `Hub.Hub.CreateSnapshotFor` | server/artifact_context_snapshot.go:499-515 | The create handler's two store calls: the new snapshot, then the invalidation of the snapshot it replaced, if any |
| `Hub.Hub.InvalidateSnapshot` | server/artifact_context_snapshot.go:541-544 | The handler's two steps with the snapshot store's answer, and afterwards the snapshot is active although its context is closed exactly if it was current and unexpired and the caller is not its owner |
| `ProtocolTheorems.InvalidationMissesExactly` | server/artifact_context_snapshot.go:541-544 | The same for the two steps of the handler from any state that keeps the invariant, at two readings of the clock |
| `Witnesses.ForeignInvalidation` | server/artifact_context_snapshot.go:541-544 | A run in which somebody else's invalidation closes the context of a snapshot that stays active |
| `Hub.Hub.ReadContext` | server/artifact_context_snapshot.go:185-206 | A reader's lookup as one step, with its answer |
| `Hub.Hub.FindTicket` | server/artifact_result_writeback.go:634-641 | The submit handler's ticket lookup: a step exactly when the reference has the shape of a ticket, and exactly a live ticket is found |
| `Hub.Hub.Start` | server/artifact_result_writeback.go:671-687 | startDelivery as one step, with each of its four answers |
| `Hub.Hub.AcceptReceiptFrom` | server/artifact_result_writeback.go:780-791 | An accepted receipt for a task is read back as what it said and that is handed to completeResult; any other receipt leaves the tasks alone; the task is completed exactly if the receipt said applied, both ids are well-formed and the task is live when the result arrives |
| `Hub.Hub.Finish` | server/artifact_result_writeback.go:732-744 | The outcome of the awaited attempt, and no other, is handed to completeResult when the attempt belongs to a task |
| `Hub.Hub.GiveUp` | server/artifact_task.go:1128-1173 | Exactly a task that could be failed is also invalidated in the writeback store; that is exactly an owner's live task that is neither claimed nor delivered, and claimed and delivered ones get their own answers |
| `Hub.Hub.ReserveDelivery` | server/artifact_task.go:397-436 | The reservation as one step, with the answers that the message and the task call for |
| `SnapshotTable.FullExactly` | server/artifact_context_snapshot.go:157-171 | create fails as full exactly when every slot holds an active snapshot of another key, and then the caller had no current snapshot to lose and the table is as cleanup left it |
| `SnapshotTable.RoomyHasRoom` | server/artifact_context_snapshot.go:168-172 | One eviction is enough, unless every slot is active and belongs to another key |
| `SnapshotTable.CreateReplaces` | server/artifact_context_snapshot.go:157-182 | A stored snapshot is current at once; its revision is its predecessor's plus one, and 1 without a predecessor |
| `Witnesses.RevisionRestarts` | server/artifact_context_snapshot.go:157-182 | Under every configuration a run stores two snapshots of one actor and topic, both with revision 1: the first had expired |
| `SnapshotTable.ActiveMeansCurrent` | server/artifact_context_snapshot.go:198-202 | In every table that keeps the invariant an active entry is the current one of its key, so the branches that retire a non-current entry are never taken |
| `SnapshotTable.CurrentIsLive` | server/artifact_context_snapshot.go:211-240 | withCurrent runs its callback only on the active, unexpired, current snapshot at exactly that revision |
| `SnapshotTable.AnswersOnlyGoForward` | server/artifact_context_snapshot.go:185-206 | Over every run the answers for one reference are ok for a while, then one fixed retired state, then not_found |
| `SnapshotTable.InvalidateMissesExactly` | server/artifact_context_snapshot.go:263-279 | invalidate leaves a snapshot active exactly if it is current and unexpired and the caller is not its owner |
| `SnapshotTable.RunKeepsInv` | server/artifact_context_snapshot.go:133-324 | After every run active entries and current are in bijection, entries are well-formed, and at most maxEntries are stored |
| `SnapshotStore.Store.Create` | server/artifact_context_snapshot.go:133-183 | The method leaves exactly the table of the specification, draws the first unused of four references and evicts only a longest-retired entry |
| `SnapshotStore.Store.MakeRoom` | server/artifact_context_snapshot.go:168-172 | The eviction loop runs at most once |
| `SnapshotStore.Store.Cleanup` | server/artifact_context_snapshot.go:281-291 | Visiting the entries in any order leaves the same table |
| `SnapshotStore.Store.Retire` | server/artifact_context_snapshot.go:293-303 | Retiring changes one entry and at most its own slot in current |
| `SnapshotStore.Store.EvictRetired` | server/artifact_context_snapshot.go:305-324 | Evicts a longest-retired entry exactly when some entry is retired |
| `SnapshotStore.Store.Lookup` | server/artifact_context_snapshot.go:185-206 | Answer, snapshot and table left behind |
| `SnapshotStore.Store.WithCurrent` | server/artifact_context_snapshot.go:211-240 | Answer, the snapshot handed to the callback and the table left behind |
| `SnapshotStore.Store.CurrentRef` | server/artifact_context_snapshot.go:242-250 | The current reference after cleanup |
| `SnapshotStore.Store.Invalidate` | server/artifact_context_snapshot.go:263-279 | Only the owner's active snapshot is retired; the answer says whether it was known |
| `SnapshotAnswers.ObserveExactly` | server/artifact_context_snapshot.go:185-206 | A lookup answers not_found for what is not remembered, the state of what is retired, expired for what is past its expiry and ok for the rest, and leaves what cleanup leaves |
| `SnapshotAnswers.WithCurrentExactly` | server/artifact_context_snapshot.go:211-240 | withCurrent runs its callback exactly for what a lookup finds, at its own revision; at another it answers replaced |
| `SnapshotAnswers.CurrentExactly` | server/artifact_context_snapshot.go:242-250 | The current reference of a key is that of its one active, unexpired snapshot, if any |
| `SnapshotAnswers.InvalidateExactly` | server/artifact_context_snapshot.go:263-279 | invalidate says yes exactly to the owner of a remembered snapshot; an active, unexpired one is then invalidated at that instant and no longer current, and nothing else happens beyond cleanup |
| `SnapshotAnswers.CreateExactly` | server/artifact_context_snapshot.go:133-183 | A stored create retires as replaced exactly the active snapshot of its own actor and topic, adds the new one for a whole ttl and changes nothing else but the entry it evicts |
| `SnapshotAnswers.EvictsExactly` | server/artifact_context_snapshot.go:305-324 | What create evicts was retired no later than any entry that stays |
| `SnapshotAnswers.RetiredFor` | server/artifact_context_snapshot.go:293-303 | In every run the state of a retired snapshot is the reason of the event that retired it: expired past its expiry, invalidated by its owner's invalidate, replaced by a create for its actor and topic |
| `SnapshotStore.FirstUnusedExactly` | server/artifact_context_snapshot.go:133-154 | The reference of a new snapshot is the first draw that no stored one has |
| `WritebackTable.ClaimFollows` | server/artifact_result_writeback.go:396-418 | A claim is granted only to the listed, open, unclaimed attempt of a live ticket that equals its target, and no other attempt becomes claimed |
| `WritebackTable.StartFollows` | server/artifact_result_writeback.go:420-459 | A handler gets the attempt for its own result id and request; a new attempt starts only under the live ticket it targets |
| `WritebackTable.CompleteReceiptFollows` | server/artifact_result_writeback.go:483-524 | A receipt is accepted only for the listed, claimed, open attempt of its result id from the ticket's own route, and ends it with an application status |
| `ProtocolTheorems.OpenAttemptsApart` | server/artifact_result_writeback.go:420-459 | In every run, if an attempt is open or answered, any later attempt for its result id started at or after the expiry of its ticket and under another ticket: so at most one is open while the first one's ticket lasts |
| `WritebackTable.SecondOpenExactly` | server/artifact_result_writeback.go:420-459 | While an attempt for the result id is open, startDelivery starts another one and leaves it open exactly if its ticket is over, its wait is not (unless the table has forgotten it), the request's own ticket is live, and the id's retained entry has the same request and is over without an answer, or there is room for a new one |
| `SecondAttempts.OneOpenExactly` | server/artifact_result_writeback.go:420-459 | A run never has two open attempts of one result id, in any state it passes through, exactly when none of its events is such a submit |
| `Witnesses.TwoOpenAttempts` | server/artifact_result_writeback.go:583-593 | A run with two open attempts of one result id: the ticket of the first ends before its wait, the table forgets it and the second starts (whenever a wait lasts longer than one tick and two snapshots fit) |
| `WritebackTable.NoRestartAfterAnswer` | server/artifact_result_writeback.go:437-447 | Once a result id was answered by the application, a new attempt for it can start only after that ticket's expiry and under another ticket |
| `WritebackTable.StartKeepsAnsweredLast` | server/artifact_result_writeback.go:420-459 | No attempt starts under a ticket while an earlier one for the same result id is open or was answered under it |
| `WritebackTable.ForgottenOpenExactly` | server/artifact_result_writeback.go:583-593 | Cleanup drops an open attempt without completing it exactly when the ticket's time is over and the attempt's own wait is not |
| `WritebackTable.AcceptedIsRead` | server/artifact_result_writeback.go:526-537 | An accepted receipt is read back through the table as its application part, or as the invalid_receipt failure if that is missing or not the application's to say |
| `WritebackAnswers.ReceiptExactly` | server/artifact_result_writeback.go:483-524 | A receipt is accepted exactly if it comes from the ticket's own connection, repeats the ticket field by field and answers the listed, claimed, open attempt of its result id; what it said then ends that attempt and nothing else changes |
| `WritebackAnswers.SameKeyExactly` | server/artifact_result_writeback.go:958-983 | Two requests conflict exactly if they differ in a field the request hash is taken over |
| `WritebackAnswers.StartExactly` | server/artifact_result_writeback.go:420-459 | When startDelivery answers conflict, an entry that stands, an expired ticket, a full store or a new attempt, told from the table before cleanup |
| `WritebackAnswers.StartWrites` | server/artifact_result_writeback.go:420-459 | It writes exactly one new attempt, for the request under its ticket, with its own wait and the ticket's expiry |
| `WritebackAnswers.ClaimExactly` | server/artifact_result_writeback.go:396-418 | A send is granted exactly if the attempt is listed, waits unclaimed and its ticket stands; if only the ticket does not, the attempt ends as artifact_preview_changed |
| `WritebackAnswers.PlatformExactly` | server/artifact_result_writeback.go:465-481 | completePlatform ends the attempt it names unless it has an outcome |
| `WritebackAnswers.IssueContextExactly` | server/artifact_result_writeback.go:238-283 | When issue answers invalid, closed, the held ticket, full or a new ticket, and every field of the ticket it answers with |
| `WritebackAnswers.IssueContextWrites` | server/artifact_result_writeback.go:275-283 | It writes exactly the new ticket, under its reference and its context |
| `WritebackAnswers.IssueTaskExactly` | server/artifact_result_writeback.go:285-336 | The same for tasks, whose tickets last as long as the task |
| `WritebackAnswers.IssueTaskWrites` | server/artifact_result_writeback.go:333-336 | It writes exactly the new ticket, under its reference and its task |
| `WritebackAnswers.InvalidateContextExactly` | server/artifact_result_writeback.go:350-371 | invalidateContext bars the context for a ticketTTL, drops its ticket and closes as artifact_preview_changed exactly its attempts that wait unclaimed |
| `WritebackAnswers.InvalidateTaskExactly` | server/artifact_result_writeback.go:373-394 | The same for a task, as artifact_task_closed |
| `WritebackAnswers.CleanupExactly` | server/artifact_result_writeback.go:560-594 | What cleanup keeps, entry by entry, and that exactly a listed open attempt whose wait is over ends as delivery_timeout |
| `WritebackTable.CleanupFollows` | server/artifact_result_writeback.go:560-594 | Cleanup keeps the invariant and undoes no claim and no outcome |
| `WritebackStore.Delivery.Complete` | server/artifact_result_writeback.go:551-558 | An outcome is written once; Done is closed exactly then and never twice |
| `WritebackStore.Store.Cleanup` | server/artifact_result_writeback.go:560-594 | The four passes, each in any order, leave the table of the specification |
| `WritebackStore.Store.Issue` | server/artifact_result_writeback.go:238-283 | Answer and table of the specification: closed, reused, full or newly drawn |
| `WritebackStore.Store.IssueForTask` | server/artifact_result_writeback.go:285-336 | The same for tasks, whose tickets last as long as the task |
| `WritebackStore.Store.FindTarget` | server/artifact_result_writeback.go:338-348 | Exactly a live ticket is found |
| `WritebackStore.Store.InvalidateContext` | server/artifact_result_writeback.go:350-371 | Tombstone, index entry and ticket change together, and exactly the listed, open, unclaimed attempts of that context are closed |
| `WritebackStore.Store.InvalidateTask` | server/artifact_result_writeback.go:373-394 | The same for a task |
| `WritebackStore.Store.ClaimForSend` | server/artifact_result_writeback.go:396-418 | Answer and table of the specification; claims by object identity |
| `WritebackStore.Store.StartFor` | server/artifact_result_writeback.go:420-459 | Conflict, reuse, expired, full or a new attempt object, as the specification says |
| `WritebackStore.Store.CompleteByPlatform` | server/artifact_result_writeback.go:465-481 | Ends the attempt unless it has an outcome |
| `WritebackStore.Store.AcceptReceipt` | server/artifact_result_writeback.go:483-524 | Answer and table of the specification |
| `WritebackStore.Store.FindOutcome` | server/artifact_result_writeback.go:526-537 | The outcome read through the table |
| `WritebackStore.Store.OutcomeFor` | server/artifact_result_writeback.go:539-549 | The outcome read from the attempt object, listed or not |
| `TaskRuns.RateLimit` | server/artifact_task.go:301-342 | In every run of the store, any half-open interval of one rate window contains at most twice actorRateMax successful creates of one actor |
| `TaskRuns.StoreBounds` | server/artifact_task.go:830-874 | In every reachable store no task is both claimed and delivered, no actor has more than actorActiveMax live tasks, and byID and byRef reach the same at most maxEntries tasks |
| `TaskRuns.OneClientConfirms` | server/artifact_task.go:460-489 | However often a task is confirmed in a run, it is by one and the same client message id |
| `TaskRuns.TerminalIsFrozen` | server/artifact_task.go:806-815 | From the moment a task is terminal its status, code, message, result and delivery never change while the store remembers it |
| `TaskRuns.OverdueGoesExactly` | server/artifact_task.go:291-874 | An operation, create among them, leaves no live task at or past ExpiresAt in any store exactly when it reaches its cleanup pass (all but releaseDelivery, creates of an invalid candidate, and calls refused for malformed arguments or answered from the reference alone); for each of the others some run ends in a store where it leaves one |
| `TaskRuns.ReleaseLeavesOverdue` | server/artifact_task.go:491-515 | A run of create, reserve and release after which a live task is at its expiry |
| `TaskRuns.ApplyChanges` | server/artifact_task.go:397-804 | Apart from its cleanup pass an operation changes at most the one task it names, and a task becomes delivered only by a confirmation under the client id that claimed it |
| `TaskRuns.RunIsSound` | server/artifact_task.go:291-874 | Every reachable store keeps the table invariant, the delivery bookkeeping and every actor's rate bookkeeping |
| `TaskTable.CreateIsSound` | server/artifact_task.go:291-344 | create keeps every cap and replaces no other task; a created task is stored as submitted with its expiry |
| `TaskTable.CompleteResultExactly` | server/artifact_task.go:705-738 | completeResult completes a task, with that result id, exactly if both ids are well-formed, the task is live (not over, not expired, within its agent's grace) and the outcome is applied; it says yes exactly for a live task and for one which that result completed before |
| `ProtocolTheorems.AppliedCompletesExactly` | server/artifact_result_writeback.go:780-791 | In every run, an applied result that reaches the task store completes its task exactly if its result id is well-formed and the task is live at that moment |
| `Witnesses.AppliedButFailed` | server/artifact_result_writeback.go:780-791 | Under every configuration a run leaves a task uncompleted although the application has applied its result: the agent's failure was reported between the send and the receipt |
| `TaskTable.WithWritableFollows` | server/artifact_task.go:641-655 | The callback sees the delivered, live, unexpired task itself; a delivered task it does not see is over |
| `TaskTable.ApplyFollows` | server/artifact_task.go:397-804 | Every operation keeps the invariant and undoes no terminal state |
| `TaskStore.Cell.Fail` | server/artifact_task.go:806-815 | failLocked: at most once, with trimmed and truncated code and message |
| `TaskStore.Cell.Converge` | server/artifact_task.go:817-828 | convergeLocked: expiry first, then the agent's grace period |
| `TaskStore.Cell.Observe` | server/artifact_task.go:670-702 | What each agent state does to the fields of a live task; the answer is yes exactly for the six known states, and run id, agent state and time of change are written in either case |
| `TaskTable.ObserveRunExactly` | server/artifact_task.go:657-703 | observeRun answers yes exactly to a report in a known state about a live, delivered task of that agent, topic and run; it answers no and leaves more than its cleanup pass does exactly for a report about such a task in an unknown state, unless the same report was written at the same instant |
| `TaskRuns.UnknownStateIsWritten` | server/artifact_task.go:657-703 | A run of create, reserve, confirm and a report in the state paused, which is answered no and stored |
| `TaskStore.Cell.Resolve` | server/artifact_task.go:716-737 | What an outcome does to a live task |
| `TaskStore.Store.Create` | server/artifact_task.go:291-344 | Answer and table of the specification, given the first unused drawn identity and a longest-unchanged terminal victim |
| `TaskStore.Store.Cleanup` | server/artifact_task.go:830-846 | The passes in any order leave the table of the specification, through shared cells |
| `TaskStore.Store.Reserve` | server/artifact_task.go:397-436 | Answer and table of the specification |
| `TaskStore.Store.Confirm` | server/artifact_task.go:460-489 | Answer and table of the specification |
| `TaskStore.Store.Release` | server/artifact_task.go:491-515 | Gives up an unconfirmed claim of its own client message only, without cleanup |
| `TaskStore.Store.FailDelivery` | server/artifact_task.go:517-548 | Answer and table of the specification |
| `TaskStore.Store.WithWritable` | server/artifact_task.go:641-655 | The task handed to the callback, and the table left behind |
| `TaskStore.Store.ObserveRun` | server/artifact_task.go:657-703 | Answer and table of the specification |
| `TaskStore.Store.CompleteResult` | server/artifact_task.go:705-738 | Answer and table of the specification |
| `TaskStore.Store.FailForActor` | server/artifact_task.go:748-804 | Answer and table of the specification, with and without respect for a pending delivery |
| `TaskStore.Store.CountActive` | server/artifact_task.go:848-856 | Counts exactly the actor's live tasks |
| `TaskStore.Store.EvictTerminal` | server/artifact_task.go:858-874 | Evicts a longest-unchanged terminal task exactly when there is one |
| `WritebackAnswers.CleanupIndices` | server/artifact_result_writeback.go:583-593 | Cleanup keeps exactly the delivery entries of attempts whose ticket's time is not over |
| `TaskAnswers.CleanedTask` | server/artifact_task.go:817-846 | What cleanup leaves of each task: a live one as it was, one past its expiry failed as task_expired, one past its agent's grace failed as result_not_applied, one that is over until its tombstone ends |
| `TaskAnswers.ReserveExactly` | server/artifact_task.go:397-436 | Reserved exactly for a message whose actor, topic and agent are those of a live task that is free or was delivered under the same client id, pending exactly for the message that has claimed it, refused otherwise; only a new claim is written |
| `TaskAnswers.ConfirmExactly` | server/artifact_task.go:460-489 | Yes exactly to a delivery made before and to the message and agent that hold the claim, and then the task is delivered |
| `TaskAnswers.ReleaseExactly` | server/artifact_task.go:491-515 | The claim is given up exactly for the message that holds it, and nothing else changes |
| `TaskAnswers.FailDeliveryExactly` | server/artifact_task.go:517-548 | The task is failed exactly for the message and agent under whose client id it stands, and its delivery is taken back |
| `TaskAnswers.WithWritableExactly` | server/artifact_task.go:641-655 | Exactly a delivered, live task under its own reference and id is handed over, as it is |
| `TaskAnswers.ObserveRunWrites` | server/artifact_task.go:657-703 | A report about a delivered, live task of the agent, topic and run is written field by field as its state demands, any other not at all |
| `TaskAnswers.CompleteResultWrites` | server/artifact_task.go:705-738 | A result for a live task ends it: completed if applied, else failed under the result's own code, or under its status if it has none |
| `TaskAnswers.FailForActorExactly` | server/artifact_task.go:748-804 | Applied exactly for the owner's live task that no preserved claim or delivery spares; the other three answers, each exactly when; and what is written |
| `TaskAnswers.CreateExactly` | server/artifact_task.go:291-342 | When create answers invalid, active cap, rate limit, store full, no identity or a new task, told from the table before cleanup |
| `TaskAnswers.CreateWrites` | server/artifact_task.go:301-342 | What a create writes: the new task as submitted, its reference, one more create in the window, and the eviction of a longest-unchanged task that is over if the store is full |
| `TaskStore.FirstUnusedExactly` | server/artifact_task.go:317-326 | The identity of a new task is the first draw of which no stored task has a part |
| `PatchApply.PatchDocument` | server/artifact_runtime_patch.go:16-45 | The in-place patch loop returns exactly the fold of pure updates, and nothing but an error if any operation fails |
| `PatchApply.PatchAndCheck` | server/artifact_runtime_patch.go:16-45 | The new document is handed out exactly when every operation succeeds and the result keeps the byte, depth, value and node bounds of a stored document |
| `PatchApply.Apply` | server/artifact_runtime_patch.go:47-118 | One operation in place: succeeds exactly when the pure update does, and leaves an owned document, with no map or backing array reachable twice, that represents it |
| `PatchApply.Parent` | server/artifact_runtime_patch.go:120-141 | The walk finds the value at a path exactly when it exists |
| `PatchApply.PutBack` | server/artifact_runtime_patch.go:143-168 | A slice that moved is put into its own parent, and the document is the old one with it in its place |
| `PatchApply.Insert` | server/artifact_runtime_patch.go:104-109 | append and copy: the elements from the index on move up by one, in place or in a new backing array |
| `PatchApply.RemoveAt` | server/artifact_runtime_patch.go:111-113 | append over the gap: the elements behind the index move down by one in the same backing array |
| `PatchSpec.IndexExactly` | server/artifact_runtime_patch.go:170-179 | Index segments in the grammar of section 4 of RFC 6901 are read as their value within the array; of all others exactly signed numbers in range are accepted |
| `PatchSpec.SignsAreAccepted` | server/artifact_runtime_patch.go:174-178 | +1 and -0 are accepted though no indices by that grammar |
| `PatchSpec.OffPath` | server/artifact_runtime_patch.go:120-168 | Values whose path leaves the updated one above its end stay as they are |
| `PatchSpec.BesideEnd` | server/artifact_runtime_patch.go:77-114 | Beside the updated value every other key keeps its value and array elements keep theirs, moved by one behind an added or removed element |
| `PatchSpec.ParentUpdated` | server/artifact_runtime_patch.go:72-118 | An update succeeds exactly when the parent exists and admits it, and the parent then is the updated one |
| `PatchSpec.AddThenRemove` | server/artifact_runtime_patch.go:77-114 | add of an absent key, at an array index or at the end, then remove at the resulting position, restores the document at any depth |
| `PatchSpec.AddThenRemoveKeyExactly` | server/artifact_runtime_patch.go:81-93 | For an object key this restores the object exactly when the key was absent |
| `PatchSpec.RemoveThenAdd` | server/artifact_runtime_patch.go:77-114 | remove, then add of the removed value, restores the document at any depth |
| `JsonPointer.ParseExactly` | server/artifact_runtime_patch.go:181-215 | A pointer parses to a segment list exactly when it is the printed form (sections 3 and 4 of RFC 6901) of that list, with at most 64 segments and 1024 bytes |
| `JsonPointer.Decode` | server/artifact_runtime_patch.go:181-215 | The loops compute that parse |
| `JsonPointer.UnescapeEscape` | server/artifact_runtime_patch.go:195-213 | Unescaping undoes escaping, for every segment |
| `PatchLaws.DecodeExactly` | server/artifact_runtime_patch.go:47-66 | An object is read as an operation exactly if it is that operation written out, with a path of at most 64 segments and 1024 bytes |
| `PatchLaws.WholeDocument` | server/artifact_runtime_patch.go:67-72 | At the empty path add and replace give their value and remove fails |
| `PatchLaws.ReplaceIsRemoveThenAdd` | server/artifact_runtime_patch.go:77-114 | replace is remove followed by add at the same place (section 4.3 of RFC 6902), at any depth |
| `PatchLaws.PatchExactly` | server/artifact_runtime_patch.go:16-45 | A patch leads to a document exactly if it is a list of 1 to 64 operations that lead there one after the other |
| `BoundedJson.Valid` | server/artifact_result_writeback.go:893-928 | The check says yes exactly when start count plus tree size is at most the node limit and all bounds hold, whatever the map order, and then the counter has grown by exactly the tree size |
| `BoundedJson.ShapelyExactly` | server/artifact_result_writeback.go:895-924 | The recursive bounds hold exactly when no value lies deeper than level 12 and every value in the tree keeps its own bounds |
| `Sanitizer.Sanitize` | server/artifact_context.go:297-362 | The method computes the specified value and leaves the specified budget |
| `SanitizerImage.SanitizedIsImage` | server/artifact_context.go:297-362 | The output is the image of the input and the visits taken are its visits: strings cut to 1000 characters, the images of the first 50 items in order, those of the first 50 harmless keys, and nothing for a value that is too deep, an unreadable number or past the visits |
| `SanitizerImage.ImageIsUnique` | server/artifact_context.go:297-362 | That image is determined by the input |
| `SanitizerImage.MissingExactly` | server/artifact_context.go:297-315 | A value is missing exactly when it is too deep, past the visits or an unreadable number |
| `SanitizerImage.LessExactly` | server/artifact_context.go:345-345 | The order of the keys: a proper prefix first, else the smaller character at the first difference |
| `Sanitizer.OutputIsClean` | server/artifact_context.go:297-362 | The output keeps the depth, item, key and string limits, has no unsafe or over-long key, and has no more values than visits used |
| `Sanitizer.CleanIsKept` | server/artifact_context.go:297-362 | A tree within the limits comes back unchanged and costs exactly its size |
| `Sanitizer.SanitizeTwice` | server/artifact_context.go:284-286 | The sanitized page context has at most 4096 values and is unchanged by sanitizing it again with a new budget |
| `Sanitizer.Sort` | server/artifact_context.go:335-348 | The keys looked at do not depend on the map order |
| `TaskSchema.ValidateNode` | server/artifact_task_manifest.go:307-426 | Accepts exactly the well-formed schemas that the node budget covers, whatever the map order, and uses one unit for each schema |
| `TaskSchema.CheckEnum` | server/artifact_task_manifest.go:347-363 | The enum loop accepts exactly non-empty lists of at most 64 distinct values of the type |
| `TaskSchema.CheckRequired` | server/artifact_task_manifest.go:383-396 | The required loop accepts exactly lists of distinct, known property names |
| `TaskSchema.Check` | server/artifact_task_manifest.go:510-592 | For an accepted schema the payload checker terminates and accepts exactly the values the schema describes |
| `TaskSchema.ValidatePayload` | server/artifact_task_manifest.go:481-498 | A schema is accepted exactly when it is well-formed to depth 8 with at most 256 nodes and 24 KiB, and a payload exactly when its schema is, it keeps the byte bounds and the bounded-JSON check, and it satisfies the schema's meaning |
| `SchemaRules.WellFormedExactly` | server/artifact_task_manifest.go:307-426 | What an accepted schema looks like, field by field in the JSON it is written in, for each of the seven types and down to level 8 |
| `SchemaRules.AdmitsExactly` | server/artifact_task_manifest.go:510-592 | What an accepted schema means is exactly what its JSON admits: type, enum, bounds, required and additional properties, and all parts |
| `Texts.TruncateExactly` | server/conversation_task_status.go:243-249 | Truncating to a positive number of characters keeps the longest prefix of at most so many |
| `Texts.TrimSpaceExactly` | server/artifact_task_manifest.go:285-286 | Trimming removes exactly the spaces at both ends |
| `Texts.ByteLenAdds` | server/artifact_task.go:398-399 | The length in bytes adds up over the characters, each taking one to four |
| `ContextCache.UnchangedExactly` | server/artifact_context.go:532-548 | The generations compare equal before and after a fetch exactly when the exact and the wildcard invalidations since it began are each a multiple of 2^64 in number |
| `ContextCache.UnchangedMeansFresh` | server/artifact_context.go:532-548 | With fewer than 2^64 events after the fetch began that means exactly that nothing was invalidated in between |
| `ContextCache.GenerationsWrap` | server/artifact_context.go:566-578 | That bound is needed: after 2^64 invalidations during one fetch the generations compare equal although the record is stale |
| `ContextCache.Cache.Cached` | server/artifact_context.go:513-530 | A cached record is handed out only before it expires, and comes from a fetch since whose start the invalidations of its key are multiples of 2^64, so none if fewer than 2^64 events happened since |
| `ContextCache.Cache.Begin` | server/artifact_context.go:500-511 | The token is the generations at the moment the fetch begins |
| `ContextCache.Cache.Store` | server/artifact_context.go:532-558 | A record is stored, and may be returned, exactly if the invalidations of its key since its fetch began are multiples of 2^64 in number: none, if fewer than 2^64 events happened since |
| `ContextCache.Cache.Invalidate` | server/artifact_context.go:560-584 | An exact invalidation drops one entry, a wildcard one all entries of that Artifact, and every remaining entry is still fresh |
| `OpenBinding.Store.Gate` | server/artifact_open_binding.go:91-99 | The gate is passed exactly by the session's own, live binding that no revoke has reached since it was issued |
| `OpenBinding.Store.SaveAndLeave` | server/artifact_open_binding.go:435-456 | A save inside the gate keeps it true that no save follows a revoke of its binding, unless the reference was issued again in between |
| `OpenBinding.Store.Lookup` | server/artifact_open_binding.go:101-121 | Lookup and revoke: answer and records, and a revoked record stays until it expires |
| `OpenBinding.Store.Issue` | server/artifact_open_binding.go:62-83 | Expired records go first; a full store refuses, and so does a draw that is stored already |
| `Identity.CookieRoundTrip` | server/artifact_identity.go:146-192 | For every positive uid, expiry and byte-string username the issued cookie is read back as exactly them until it expires |
| `Identity.PayloadHasFourFields` | server/artifact_identity.go:116-120 | A v1 payload has no dot and splits into exactly its four fields |
| `Identity.LegacyHasTwoFields` | server/artifact_identity.go:160-175 | A legacy payload splits into two fields and is never read as v1 |
| `Identity.LegacyRoundTrip` | server/artifact_identity.go:160-190 | A legacy cookie is read as its uid and expiry without a username |
| `Identity.FieldRoundTrip` | server/artifact_identity.go:81-87 | An escaped field has no dot and no colon and decodes to the bytes it came from |
| `Identity.ReadExactly` | server/artifact_identity.go:146-192 | A cookie is read as a visitor exactly if it is a payload without a dot under its own signature, with two or four fields that tell of that visitor, a positive uid and an expiry that is not past |
| `Identity.ReadIsSigned` | server/artifact_identity.go:146-192 | Only a payload under its own signature is read, with a positive uid, before its expiry |

## Left out

- HTTP handlers, status codes, logging, WebSocket routing and upstream fetches: plumbing; the order of the store
  calls is kept. The checks of HandleBotResults between the ticket lookup and startDelivery only refuse requests.
- The persistent (runtimeRuns) paths of the task store and the runtime state tables: their guarantees live in a
  database that is not part of this model.
- Randomness, hashing and signing: drawn values, the request tuple and a function parameter stand for them.
- JSON decoding and encoding; documents are decoded trees with number texts. The lengths of encodings are a
  parameter of `PatchApply.PatchAndCheck` and `TaskSchema.ValidatePayload`; the byte limits of
  normalizeBoundedArtifactJSON and of page context are left out.
- Invalid UTF-8: strings are sequences of Unicode scalar values, so the utf8.ValidString checks always hold.
- Float rounding: float bounds and the finiteness test work on an abstract reading of number texts.
- Page-context parsing apart from the sanitizer, and URL parsing; a snapshot carries its page context as opaque text.
- The contents of application receipts: a receipt carries its normalized outcome, or none if it is malformed.
- delivery, validateDelivery, forActor and forBot answer questions about one stored entry after the same cleanup
  pass; they are the read steps ReadSnapshot and DoRead, without their answers.
- The unavailable outcome of HandleBotResults: the attempt it waited for is completed on that path.
- Mutexes: each method is one critical section, and the callbacks run inside it. Deadlock freedom is not modelled.
- Timers and channel waits: a handler's wait is the enabling condition of the step that follows it.
- Panics of nil stores and nil handlers, which the code answers with errors before any state is read.
- Task artifact manifests apart from the input schema (intents, titles, runtime version): easy field checks.
- PatchApply.Apply: an operation's value is built on the heap when it is applied; that the operation list
  itself also holds on to it afterwards is not captured, since the code never reads it again.
- Cookie attributes, domains and the renewal rule of Issue: policy around the payload.
- Store counters of the invalidation maps, which have no bound in the code.
