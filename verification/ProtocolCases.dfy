/** Protocol's steps, one kind at a time: when a step is enabled and what it leads to. */
module ProtocolCases {
  import opened Basics
  import opened Outcomes
  import S = SnapshotTable
  import T = TaskTable
  import W = WritebackTable
  import opened Protocol

  lemma IsCreateSnapshot(s: State, what: S.Candidate, ref: string, victim: string, now: Time, c: Config)
    ensures Enabled(s, CreateSnapshot(what, ref, victim), now, c)
            <==> s.clock <= now && ref != "" && ref !in s.made && ref !in s.closed && S.VictimChosen(s.snaps, what, victim, now, c.snapshots)
    ensures Next(s, CreateSnapshot(what, ref, victim), now, c) == DoCreateSnapshot(s, what, ref, victim, now, c)
  {
    hide OpaqueID, S.VictimChosen, S.Observe, S.Invalidate, T.Apply, T.CompleteResult, W.InvalidateContext, W.InvalidateTask, W.Cleanup,
      W.StartDelivery, W.CompletePlatform, DoCreateSnapshot, DoIssueForContext, DoIssueForTask, DoClaimSend, DoGiveUpTask, DoCreateTask,
      DoAcceptReceipt, DoReadOutcome, DoReadVerdict;
  }

  lemma IsReadSnapshot(s: State, ref: string, now: Time, c: Config)
    ensures Enabled(s, ReadSnapshot(ref), now, c) <==> s.clock <= now
    ensures Next(s, ReadSnapshot(ref), now, c) == s.(clock := now, snaps := S.Observe(s.snaps, ref, now, c.snapshots).0)
  {
    hide OpaqueID, S.VictimChosen, S.Observe, S.Invalidate, T.Apply, T.CompleteResult, W.InvalidateContext, W.InvalidateTask, W.Cleanup,
      W.StartDelivery, W.CompletePlatform, DoCreateSnapshot, DoIssueForContext, DoIssueForTask, DoClaimSend, DoGiveUpTask, DoCreateTask,
      DoAcceptReceipt, DoReadOutcome, DoReadVerdict;
  }

  lemma IsRetireSnapshot(s: State, ref: string, actorUID: int, now: Time, c: Config)
    ensures Enabled(s, RetireSnapshot(ref, actorUID), now, c) <==> s.clock <= now
    ensures Next(s, RetireSnapshot(ref, actorUID), now, c) == s.(clock := now, snaps := S.Invalidate(s.snaps, ref, actorUID, now, c.snapshots).0)
  {
    hide OpaqueID, S.VictimChosen, S.Observe, S.Invalidate, T.Apply, T.CompleteResult, W.InvalidateContext, W.InvalidateTask, W.Cleanup,
      W.StartDelivery, W.CompletePlatform, DoCreateSnapshot, DoIssueForContext, DoIssueForTask, DoClaimSend, DoGiveUpTask, DoCreateTask,
      DoAcceptReceipt, DoReadOutcome, DoReadVerdict;
  }

  lemma IsIssueForContext(s: State, ref: string, revision: nat, drawn: string, now: Time, inner: Time, c: Config)
    ensures Enabled(s, IssueForContext(ref, revision, drawn, inner), now, c) <==> s.clock <= now <= inner && drawn != "" && drawn !in s.issued
    ensures Next(s, IssueForContext(ref, revision, drawn, inner), now, c) == DoIssueForContext(s, ref, revision, drawn, now, inner, c)
  {
    hide OpaqueID, S.VictimChosen, S.Observe, S.Invalidate, T.Apply, T.CompleteResult, W.InvalidateContext, W.InvalidateTask, W.Cleanup,
      W.StartDelivery, W.CompletePlatform, DoCreateSnapshot, DoIssueForContext, DoIssueForTask, DoClaimSend, DoGiveUpTask, DoCreateTask,
      DoAcceptReceipt, DoReadOutcome, DoReadVerdict;
  }

  lemma IsInvalidateContext(s: State, ref: string, now: Time, c: Config)
    ensures Enabled(s, InvalidateContext(ref), now, c) <==> s.clock <= now
    ensures Next(s, InvalidateContext(ref), now, c)
         == s.(clock := now, wb := W.InvalidateContext(s.wb, ref, now, c.writebacks), closed := if ref == "" then s.closed else s.closed + {ref})
  {
    hide OpaqueID, S.VictimChosen, S.Observe, S.Invalidate, T.Apply, T.CompleteResult, W.InvalidateContext, W.InvalidateTask, W.Cleanup,
      W.StartDelivery, W.CompletePlatform, DoCreateSnapshot, DoIssueForContext, DoIssueForTask, DoClaimSend, DoGiveUpTask, DoCreateTask,
      DoAcceptReceipt, DoReadOutcome, DoReadVerdict;
  }

  lemma IsCreateTask(s: State, what: T.Candidate, identity: Option<T.Identity>, victim: string, now: Time, c: Config)
    ensures Enabled(s, CreateTask(what, identity, victim), now, c) <==> s.clock <= now && (identity.Some? ==> NewToRun(s, identity.value))
    ensures Next(s, CreateTask(what, identity, victim), now, c) == DoCreateTask(s, what, identity, victim, now, c)
  {
    hide OpaqueID, S.VictimChosen, S.Observe, S.Invalidate, T.Apply, T.CompleteResult, W.InvalidateContext, W.InvalidateTask, W.Cleanup,
      W.StartDelivery, W.CompletePlatform, DoCreateSnapshot, DoIssueForContext, DoIssueForTask, DoClaimSend, DoGiveUpTask, DoCreateTask,
      DoAcceptReceipt, DoReadOutcome, DoReadVerdict;
  }

  /** An identity that no task of the run ever had. */
  predicate NewToRun(s: State, d: T.Identity) {
    OpaqueID("atk_", d.id) && OpaqueID("atr_", d.ref) && d.id !in s.taskMade && forall id :: id in s.taskMade ==> s.taskMade[id].ref != d.ref
  }

  lemma IsTaskStep(s: State, op: T.Op, now: Time, c: Config)
    ensures Enabled(s, TaskStep(op), now, c) <==> s.clock <= now && !op.DoComplete? && !(op.DoFailFor? && op.preserveClaim)
    ensures Next(s, TaskStep(op), now, c) == s.(clock := now, tasks := T.Apply(s.tasks, op, now, c.tasks))
  {
    hide OpaqueID, S.VictimChosen, S.Observe, S.Invalidate, T.Apply, T.CompleteResult, W.InvalidateContext, W.InvalidateTask, W.Cleanup,
      W.StartDelivery, W.CompletePlatform, DoCreateSnapshot, DoIssueForContext, DoIssueForTask, DoClaimSend, DoGiveUpTask, DoCreateTask,
      DoAcceptReceipt, DoReadOutcome, DoReadVerdict;
  }

  lemma IsGiveUpTask(s: State, id: string, actorUID: int, code: string, message: string, now: Time, c: Config)
    ensures Enabled(s, GiveUpTask(id, actorUID, code, message), now, c) <==> s.clock <= now
    ensures Next(s, GiveUpTask(id, actorUID, code, message), now, c) == DoGiveUpTask(s, id, actorUID, code, message, now, c)
  {
    hide OpaqueID, S.VictimChosen, S.Observe, S.Invalidate, T.Apply, T.CompleteResult, W.InvalidateContext, W.InvalidateTask, W.Cleanup,
      W.StartDelivery, W.CompletePlatform, DoCreateSnapshot, DoIssueForContext, DoIssueForTask, DoClaimSend, DoGiveUpTask, DoCreateTask,
      DoAcceptReceipt, DoReadOutcome, DoReadVerdict;
  }

  lemma IsIssueForTask(s: State, taskRef: string, id: string, drawn: string, now: Time, inner: Time, c: Config)
    ensures Enabled(s, IssueForTask(taskRef, id, drawn, inner), now, c) <==> s.clock <= now <= inner && drawn != "" && drawn !in s.issued
    ensures Next(s, IssueForTask(taskRef, id, drawn, inner), now, c) == DoIssueForTask(s, taskRef, id, drawn, now, inner, c)
  {
    hide OpaqueID, S.VictimChosen, S.Observe, S.Invalidate, T.Apply, T.CompleteResult, W.InvalidateContext, W.InvalidateTask, W.Cleanup,
      W.StartDelivery, W.CompletePlatform, DoCreateSnapshot, DoIssueForContext, DoIssueForTask, DoClaimSend, DoGiveUpTask, DoCreateTask,
      DoAcceptReceipt, DoReadOutcome, DoReadVerdict;
  }

  lemma IsInvalidateTask(s: State, id: string, now: Time, c: Config)
    ensures Enabled(s, InvalidateTask(id), now, c) <==> s.clock <= now && id in s.leaving
    ensures Next(s, InvalidateTask(id), now, c)
         == s.(clock := now, wb := W.InvalidateTask(s.wb, id, now, c.writebacks),
               closedTasks := if OpaqueID("atk_", id) then s.closedTasks + {id} else s.closedTasks)
  {
    hide OpaqueID, S.VictimChosen, S.Observe, S.Invalidate, T.Apply, T.CompleteResult, W.InvalidateContext, W.InvalidateTask, W.Cleanup,
      W.StartDelivery, W.CompletePlatform, DoCreateSnapshot, DoIssueForContext, DoIssueForTask, DoClaimSend, DoGiveUpTask, DoCreateTask,
      DoAcceptReceipt, DoReadOutcome, DoReadVerdict;
  }

  lemma IsReadTicket(s: State, now: Time, c: Config)
    ensures (Enabled(s, ReadTicket, now, c) <==> s.clock <= now)
            && Next(s, ReadTicket, now, c) == s.(clock := now, wb := W.Cleanup(s.wb, now))
  {
    hide OpaqueID, S.VictimChosen, S.Observe, S.Invalidate, T.Apply, T.CompleteResult, W.InvalidateContext, W.InvalidateTask, W.Cleanup,
      W.StartDelivery, W.CompletePlatform, DoCreateSnapshot, DoIssueForContext, DoIssueForTask, DoClaimSend, DoGiveUpTask, DoCreateTask,
      DoAcceptReceipt, DoReadOutcome, DoReadVerdict;
  }

  lemma IsSubmit(s: State, request: W.Request, target: W.Target, now: Time, c: Config)
    ensures Enabled(s, Submit(request, target), now, c) <==> s.clock <= now && request.resultID != ""
    ensures Next(s, Submit(request, target), now, c) == s.(clock := now, wb := W.StartDelivery(s.wb, request, target, now, c.writebacks).0)
  {
    hide OpaqueID, S.VictimChosen, S.Observe, S.Invalidate, T.Apply, T.CompleteResult, W.InvalidateContext, W.InvalidateTask, W.Cleanup,
      W.StartDelivery, W.CompletePlatform, DoCreateSnapshot, DoIssueForContext, DoIssueForTask, DoClaimSend, DoGiveUpTask, DoCreateTask,
      DoAcceptReceipt, DoReadOutcome, DoReadVerdict;
  }

  lemma IsClaimSend(s: State, i: nat, now: Time, inner: Time, c: Config)
    ensures Enabled(s, ClaimSend(i, inner), now, c) <==> s.clock <= now <= inner && i < |s.wb.attempts|
    ensures i < |s.wb.attempts| ==> Next(s, ClaimSend(i, inner), now, c) == DoClaimSend(s, i, now, inner, c)
  {
    hide OpaqueID, S.VictimChosen, S.Observe, S.Invalidate, T.Apply, T.CompleteResult, W.InvalidateContext, W.InvalidateTask, W.Cleanup,
      W.StartDelivery, W.CompletePlatform, DoCreateSnapshot, DoIssueForContext, DoIssueForTask, DoClaimSend, DoGiveUpTask, DoCreateTask,
      DoAcceptReceipt, DoReadOutcome, DoReadVerdict;
  }

  lemma IsEndByPlatform(s: State, i: nat, o: Outcome, now: Time, c: Config)
    ensures Enabled(s, EndByPlatform(i, o), now, c) <==> s.clock <= now && i < |s.wb.attempts| && o.status in {DeliveryTimeout, NotConnected}
    ensures Next(s, EndByPlatform(i, o), now, c) == s.(clock := now, wb := W.CompletePlatform(s.wb, i, o))
  {
    hide OpaqueID, S.VictimChosen, S.Observe, S.Invalidate, T.Apply, T.CompleteResult, W.InvalidateContext, W.InvalidateTask, W.Cleanup,
      W.StartDelivery, W.CompletePlatform, DoCreateSnapshot, DoIssueForContext, DoIssueForTask, DoClaimSend, DoGiveUpTask, DoCreateTask,
      DoAcceptReceipt, DoReadOutcome, DoReadVerdict;
  }

  lemma IsAcceptReceipt(s: State, m: W.Receipt, route: Route, now: Time, c: Config)
    ensures Enabled(s, AcceptReceipt(m, route), now, c) <==> s.clock <= now
    ensures Next(s, AcceptReceipt(m, route), now, c) == DoAcceptReceipt(s, m, route, now)
  {
    hide OpaqueID, S.VictimChosen, S.Observe, S.Invalidate, T.Apply, T.CompleteResult, W.InvalidateContext, W.InvalidateTask, W.Cleanup,
      W.StartDelivery, W.CompletePlatform, DoCreateSnapshot, DoIssueForContext, DoIssueForTask, DoClaimSend, DoGiveUpTask, DoCreateTask,
      DoAcceptReceipt, DoReadOutcome, DoReadVerdict;
  }

  lemma IsReadOutcome(s: State, id: string, resultID: string, now: Time, c: Config)
    ensures Enabled(s, ReadOutcome(id, resultID), now, c) <==> s.clock <= now && (id, resultID) in s.receipts
    ensures Next(s, ReadOutcome(id, resultID), now, c) == DoReadOutcome(s, id, resultID, now)
  {
    hide OpaqueID, S.VictimChosen, S.Observe, S.Invalidate, T.Apply, T.CompleteResult, W.InvalidateContext, W.InvalidateTask, W.Cleanup,
      W.StartDelivery, W.CompletePlatform, DoCreateSnapshot, DoIssueForContext, DoIssueForTask, DoClaimSend, DoGiveUpTask, DoCreateTask,
      DoAcceptReceipt, DoReadOutcome, DoReadVerdict;
  }

  lemma IsReadVerdict(s: State, i: nat, now: Time, c: Config)
    ensures Enabled(s, ReadVerdict(i), now, c) <==> s.clock <= now && i < |s.wb.attempts| && !s.wb.attempts[i].Open()
    ensures i < |s.wb.attempts| && !s.wb.attempts[i].Open() ==> Next(s, ReadVerdict(i), now, c) == DoReadVerdict(s, i, now)
  {
    hide OpaqueID, S.VictimChosen, S.Observe, S.Invalidate, T.Apply, T.CompleteResult, W.InvalidateContext, W.InvalidateTask, W.Cleanup,
      W.StartDelivery, W.CompletePlatform, DoCreateSnapshot, DoIssueForContext, DoIssueForTask, DoClaimSend, DoGiveUpTask, DoCreateTask,
      DoAcceptReceipt, DoReadOutcome, DoReadVerdict;
  }

  lemma IsCompleteTask(s: State, v: Verdict, now: Time, c: Config)
    ensures Enabled(s, CompleteTask(v), now, c) <==> s.clock <= now && v in s.verdicts
    ensures Next(s, CompleteTask(v), now, c) == s.(clock := now, tasks := T.CompleteResult(s.tasks, v.taskID, v.resultID, v.outcome, now, c.tasks).0)
  {
    hide OpaqueID, S.VictimChosen, S.Observe, S.Invalidate, T.Apply, T.CompleteResult, W.InvalidateContext, W.InvalidateTask, W.Cleanup,
      W.StartDelivery, W.CompletePlatform, DoCreateSnapshot, DoIssueForContext, DoIssueForTask, DoClaimSend, DoGiveUpTask, DoCreateTask,
      DoAcceptReceipt, DoReadOutcome, DoReadVerdict;
  }
}
