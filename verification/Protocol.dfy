/** The Hub's composition of the three stores, as a state machine. One step is what happens inside
    the outermost critical section of one store call, including the callback that withCurrent and
    withWritable run under their lock. Steps of different requests interleave freely; `now` never
    goes back. Inside a callback the writeback store reads its own clock (`inner`), no earlier than
    the outer reading. Freshly drawn references are new to the whole history. */
module Protocol {
  import opened Basics
  import opened Outcomes
  import S = SnapshotTable
  import T = TaskTable
  import W = WritebackTable

  datatype Config = Config(snapshots: S.Config, tasks: T.Config, writebacks: W.Config) {
    /** A snapshot never outlives a ticket or a tombstone issued during its life. */
    predicate Valid() {
      snapshots.Valid() && tasks.Valid() && writebacks.Valid() && snapshots.ttl <= writebacks.ticketTTL
    }
  }

  /** An outcome on its way to completeResult. */
  datatype Verdict = Verdict(taskID: string, resultID: string, outcome: Outcome)

  /** The stores, and what the run has done so far. */
  datatype State = State(
    clock: Time, snaps: S.Table, tasks: T.Table, wb: W.Table,
    made: map<string, S.Info>,          // every snapshot ever stored
    taskMade: map<string, T.Info>,      // every task ever stored
    issued: map<string, W.Target>,      // every ticket ever issued
    closed: set<string>,                // contexts the writeback store was told to invalidate
    closedTasks: set<string>,           // tasks the writeback store was told to invalidate
    leaving: set<string>,               // tasks whose invalidation is due
    receipts: set<(string, string)>,    // accepted receipts whose outcome is still to be read
    verdicts: set<Verdict>)             // outcomes on their way to the task store

  function Start(now: Time): State {
    State(now, S.EMPTY, T.EMPTY, W.EMPTY, map[], map[], map[], {}, {}, {}, {}, {})
  }

  datatype Step =
    | CreateSnapshot(what: S.Candidate, ref: string, victim: string)
    | ReadSnapshot(ref: string)
    | RetireSnapshot(ref: string, actorUID: int)
    | IssueForContext(ref: string, revision: nat, drawn: string, inner: Time)
    | InvalidateContext(ref: string)
    | CreateTask(candidate: T.Candidate, identity: Option<T.Identity>, victim: string)
    | TaskStep(op: T.Op)
    | GiveUpTask(id: string, actorUID: int, code: string, message: string)
    | IssueForTask(taskRef: string, id: string, drawn: string, inner: Time)
    | InvalidateTask(id: string)
    | ReadTicket
    | Submit(request: W.Request, target: W.Target)
    | ClaimSend(attempt: nat, inner: Time)
    | EndByPlatform(attempt: nat, outcome: Outcome)
    | AcceptReceipt(receipt: W.Receipt, route: Route)
    | ReadOutcome(id: string, resultID: string)     // after an accepted receipt
    | ReadVerdict(attempt: nat)                     // after a submit has waited for its attempt
    | CompleteTask(verdict: Verdict)

  // Enabledness -------------------------------------------------------------

  predicate Enabled(s: State, step: Step, now: Time, c: Config) {
    s.clock <= now &&
    match step
    case CreateSnapshot(what, ref, victim) =>
      ref != "" && ref !in s.made && ref !in s.closed && S.VictimChosen(s.snaps, what, victim, now, c.snapshots)
    case IssueForContext(_, _, drawn, inner) => now <= inner && drawn != "" && drawn !in s.issued
    case CreateTask(_, identity, _) =>
      identity.Some? ==> OpaqueID("atk_", identity.value.id) && OpaqueID("atr_", identity.value.ref)
                         && identity.value.id !in s.taskMade
                         && forall id :: id in s.taskMade ==> s.taskMade[id].ref != identity.value.ref
    case TaskStep(op) => !op.DoComplete? && !(op.DoFailFor? && op.preserveClaim)
    case IssueForTask(_, _, drawn, inner) => now <= inner && drawn != "" && drawn !in s.issued
    case InvalidateTask(id) => id in s.leaving
    case Submit(request, target) => request.resultID != ""
    case ClaimSend(i, inner) => now <= inner && i < |s.wb.attempts|
    case EndByPlatform(i, outcome) => i < |s.wb.attempts| && outcome.status in {DeliveryTimeout, NotConnected}
    case ReadOutcome(id, resultID) => (id, resultID) in s.receipts
    case ReadVerdict(i) => i < |s.wb.attempts| && !s.wb.attempts[i].Open()
    case CompleteTask(verdict) => verdict in s.verdicts
    case _ => true
  }

  // Effects -----------------------------------------------------------------

  function DoCreateSnapshot(s: State, what: S.Candidate, ref: string, victim: string, now: Time, c: Config): State {
    var (after, answer) := S.Create(s.snaps, what, ref, victim, now, c.snapshots);
    s.(clock := now, snaps := after, made := if answer.Stored? then s.made[ref := answer.info] else s.made)
  }

  /** A ticket asked for inside the callback of withCurrent or withWritable. */
  function Grant(s: State, wb: W.Table, answer: W.Issue, inner: Time): State {
    s.(clock := inner, wb := wb, issued := if answer.Granted? then s.issued[answer.target.ref := answer.target] else s.issued)
  }

  function GrantContext(s: State, info: S.Info, drawn: string, inner: Time, c: Config): State {
    var (wb, answer) := W.IssueContext(s.wb, info, drawn, inner, c.writebacks);
    Grant(s, wb, answer, inner)
  }

  function GrantTask(s: State, info: T.Info, drawn: string, inner: Time, c: Config): State {
    var (wb, answer) := W.IssueTask(s.wb, info, drawn, inner, c.writebacks);
    Grant(s, wb, answer, inner)
  }

  /** issueArtifactWritebackIfCurrent */
  function DoIssueForContext(s: State, ref: string, revision: nat, drawn: string, now: Time, inner: Time, c: Config): State {
    var (snaps, status) := S.WithCurrent(s.snaps, ref, revision, now, c.snapshots);
    var mid := s.(clock := now, snaps := snaps);
    if status != S.Active || ref !in snaps.byRef then mid else GrantContext(mid, snaps.byRef[ref].info, drawn, inner, c)
  }

  /** issueArtifactTaskWritebackIfActive */
  function DoIssueForTask(s: State, taskRef: string, id: string, drawn: string, now: Time, inner: Time, c: Config): State {
    var (tasks, task) := T.WithWritable(s.tasks, taskRef, id, now, c.tasks);
    var mid := s.(clock := now, tasks := tasks);
    if task.None? then mid else GrantTask(mid, task.value.info, drawn, inner, c)
  }

  /** claimDeliveryForSend inside the callback. */
  function ClaimInside(s: State, i: nat, inner: Time): State {
    s.(clock := inner, wb := W.Claim(s.wb, i, inner).0)
  }

  /** claimArtifactResultDeliveryForSend up to the release of the outer lock. For a task that is no
      longer writable the invalidation that follows becomes due; for a snapshot, invalidateContext
      is enabled at any time. */
  function DoClaimSend(s: State, i: nat, now: Time, inner: Time, c: Config): State
    requires i < |s.wb.attempts|
  {
    var target := s.wb.attempts[i].target;
    if target.taskID != "" then
      var (tasks, task) := T.WithWritable(s.tasks, target.taskRef, target.taskID, now, c.tasks);
      var mid := s.(clock := now, tasks := tasks);
      if task.None? then mid.(leaving := s.leaving + {target.taskID})
      else ClaimInside(mid, i, inner)
    else
      var (snaps, status) := S.WithCurrent(s.snaps, target.contextRef, target.snapshotRevision, now, c.snapshots);
      var mid := s.(clock := now, snaps := snaps);
      if status != S.Active then mid else ClaimInside(mid, i, inner)
  }

  function DoGiveUpTask(s: State, id: string, actorUID: int, code: string, message: string, now: Time, c: Config): State {
    var (tasks, answer) := T.FailForActor(s.tasks, id, actorUID, code, message, true, now, c.tasks);
    s.(clock := now, tasks := tasks, leaving := if answer == T.FailApplied then s.leaving + {id} else s.leaving)
  }

  function DoCreateTask(s: State, what: T.Candidate, identity: Option<T.Identity>, victim: string, now: Time, c: Config): State {
    var (tasks, answer) := T.Create(s.tasks, what, identity, victim, now, c.tasks);
    s.(clock := now, tasks := tasks, taskMade := if answer.Made? then s.taskMade[answer.info.id := answer.info] else s.taskMade)
  }

  function DoAcceptReceipt(s: State, m: W.Receipt, route: Route, now: Time): State {
    var (wb, accepted) := W.CompleteReceipt(s.wb, m, route);
    s.(clock := now, wb := wb,
       receipts := if accepted && m.taskID != "" then s.receipts + {(m.taskID, m.resultID)} else s.receipts)
  }

  function DoReadOutcome(s: State, id: string, resultID: string, now: Time): State {
    match W.OutcomeOf(s.wb, resultID)
    case None => s.(clock := now)
    case Some(o) => s.(clock := now, verdicts := s.verdicts + {Verdict(id, resultID, o)})
  }

  function DoReadVerdict(s: State, i: nat, now: Time): State
    requires i < |s.wb.attempts| && !s.wb.attempts[i].Open()
  {
    var a := s.wb.attempts[i];
    s.(clock := now,
       verdicts := if a.key.taskID != "" then s.verdicts + {Verdict(a.key.taskID, a.resultID, a.outcome.value)} else s.verdicts)
  }

  /** What a step leads to; a step that is not enabled is never taken. */
  function Next(s: State, step: Step, now: Time, c: Config): State {
    match step
    case CreateSnapshot(what, ref, victim) => DoCreateSnapshot(s, what, ref, victim, now, c)
    case ReadSnapshot(ref) => s.(clock := now, snaps := S.Observe(s.snaps, ref, now, c.snapshots).0)
    case RetireSnapshot(ref, actorUID) => s.(clock := now, snaps := S.Invalidate(s.snaps, ref, actorUID, now, c.snapshots).0)
    case IssueForContext(ref, revision, drawn, inner) => DoIssueForContext(s, ref, revision, drawn, now, inner, c)
    case InvalidateContext(ref) =>
      s.(clock := now, wb := W.InvalidateContext(s.wb, ref, now, c.writebacks),
         closed := if ref == "" then s.closed else s.closed + {ref})
    case CreateTask(candidate, identity, victim) => DoCreateTask(s, candidate, identity, victim, now, c)
    case TaskStep(op) => s.(clock := now, tasks := T.Apply(s.tasks, op, now, c.tasks))
    case GiveUpTask(id, actorUID, code, message) => DoGiveUpTask(s, id, actorUID, code, message, now, c)
    case IssueForTask(taskRef, id, drawn, inner) => DoIssueForTask(s, taskRef, id, drawn, now, inner, c)
    case InvalidateTask(id) =>
      s.(clock := now, wb := W.InvalidateTask(s.wb, id, now, c.writebacks),
         closedTasks := if OpaqueID("atk_", id) then s.closedTasks + {id} else s.closedTasks)
    case ReadTicket => s.(clock := now, wb := W.Cleanup(s.wb, now))
    case Submit(request, target) => s.(clock := now, wb := W.StartDelivery(s.wb, request, target, now, c.writebacks).0)
    case ClaimSend(i, inner) => if i < |s.wb.attempts| then DoClaimSend(s, i, now, inner, c) else s
    case EndByPlatform(i, outcome) => s.(clock := now, wb := W.CompletePlatform(s.wb, i, outcome))
    case AcceptReceipt(m, route) => DoAcceptReceipt(s, m, route, now)
    case ReadOutcome(id, resultID) => DoReadOutcome(s, id, resultID, now)
    case ReadVerdict(i) => if i < |s.wb.attempts| && !s.wb.attempts[i].Open() then DoReadVerdict(s, i, now) else s
    case CompleteTask(v) => s.(clock := now, tasks := T.CompleteResult(s.tasks, v.taskID, v.resultID, v.outcome, now, c.tasks).0)
  }

  // Runs --------------------------------------------------------------------

  datatype Event = At(now: Time, step: Step)

  function After(start: Time, run: seq<Event>, c: Config): State {
    if run == [] then Start(start)
    else Next(After(start, run[..|run| - 1], c), run[|run| - 1].step, run[|run| - 1].now, c)
  }

  /** A finite run of the composed system, given by its events. */
  predicate IsRun(start: Time, run: seq<Event>, c: Config) {
    run == [] || (IsRun(start, run[..|run| - 1], c)
                  && Enabled(After(start, run[..|run| - 1], c), run[|run| - 1].step, run[|run| - 1].now, c))
  }
}
