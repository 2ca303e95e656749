/** What every run of the composed system guarantees. */
module ProtocolTheorems {
  import opened Basics
  import opened Outcomes
  import S = SnapshotTable
  import T = TaskTable
  import W = WritebackTable
  import opened Protocol
  import opened ProtocolCases
  import opened ProtocolInvariant
  import opened ProtocolSteps

  // Fencing -----------------------------------------------------------------

  /** The source of a ticket vouches for it at `now`: the snapshot is current at the ticket's
      revision, or the task is delivered, live and unexpired. */
  predicate SourceVouches(s: State, x: W.Target, now: Time, c: Config) {
    if x.taskID != ""
    then T.WithWritable(s.tasks, x.taskRef, x.taskID, now, c.tasks).1.Some?
    else S.WithCurrent(s.snaps, x.contextRef, x.snapshotRevision, now, c.snapshots).1 == S.Active
  }

  /** The attempts a step claims or answers: only ClaimSend claims, and only its own attempt; only an
      accepted receipt answers one. */
  function Touched(s: State, step: Step): set<nat> {
    match step
    case ClaimSend(i, _) => {i}
    case AcceptReceipt(m, route) => if W.Accepts(s.wb, m, route) then {s.wb.deliveries[m.resultID]} else {}
    case _ => {}
  }

  lemma ContextIssueQuiet(s: State, ref: string, revision: nat, drawn: string, now: Time, inner: Time, c: Config)
    ensures W.QuietBut(s.wb, DoIssueForContext(s, ref, revision, drawn, now, inner, c).wb, {})
  {
    hide S.WithCurrent, W.IssueContext, W.Quiet;
    SameIsQuiet(s.wb);
    var snaps := S.WithCurrent(s.snaps, ref, revision, now, c.snapshots).0;
    if ref in snaps.byRef { W.IssueContextQuiet(s.wb, snaps.byRef[ref].info, drawn, inner, c.writebacks); }
  }

  lemma TaskIssueQuiet(s: State, taskRef: string, id: string, drawn: string, now: Time, inner: Time, c: Config)
    ensures W.QuietBut(s.wb, DoIssueForTask(s, taskRef, id, drawn, now, inner, c).wb, {})
  {
    hide T.WithWritable, W.IssueTask, W.Quiet;
    SameIsQuiet(s.wb);
    var task := T.WithWritable(s.tasks, taskRef, id, now, c.tasks).1;
    if task.Some? { W.IssueTaskQuiet(s.wb, task.value.info, drawn, inner, c.writebacks); }
  }

  lemma ClaimSendQuiet(s: State, i: nat, now: Time, inner: Time, c: Config)
    requires i < |s.wb.attempts|
    ensures W.QuietBut(s.wb, DoClaimSend(s, i, now, inner, c).wb, {i})
  {
    hide S.WithCurrent, T.WithWritable, W.Claim;
    W.ClaimQuiet(s.wb, i, inner);
  }

  lemma StepTouches(s: State, step: Step, now: Time, c: Config)
    requires Enabled(s, step, now, c)
    ensures W.QuietBut(s.wb, Next(s, step, now, c).wb, Touched(s, step))
  {
    hide S.Create, T.Create, T.FailForActor, DoIssueForContext, DoIssueForTask, DoClaimSend, W.Cleanup, W.StartDelivery,
      W.CompletePlatform, T.CompleteResult, T.Apply, S.VictimChosen, S.Observe, S.Invalidate, W.InvalidateContext, W.InvalidateTask,
      OpaqueID, W.Accepts, W.CompleteReceipt, W.Quiet, W.OutcomeOf;
    match step
    case InvalidateContext(ref) => W.InvalidateContextQuiet(s.wb, ref, now, c.writebacks);
    case InvalidateTask(id) => W.InvalidateTaskQuiet(s.wb, id, now, c.writebacks);
    case ReadTicket => W.CleanupQuiet(s.wb, now);
    case Submit(request, target) => W.StartQuiet(s.wb, request, target, now, c.writebacks);
    case EndByPlatform(i, outcome) => W.PlatformQuiet(s.wb, i, outcome);
    case AcceptReceipt(m, route) => W.ReceiptQuiet(s.wb, m, route);
    case ClaimSend(i, inner) => ClaimSendQuiet(s, i, now, inner, c);
    case IssueForContext(ref, revision, drawn, inner) => ContextIssueQuiet(s, ref, revision, drawn, now, inner, c);
    case IssueForTask(taskRef, id, drawn, inner) => TaskIssueQuiet(s, taskRef, id, drawn, now, inner, c);
    case _ => SameIsQuiet(s.wb);
  }

  lemma SameIsQuiet(t: W.Table)
    ensures W.QuietBut(t, t, {})
  {
  }

  // What every step keeps -----------------------------------------------------

  lemma ContextIssueFollows(s: State, ref: string, revision: nat, drawn: string, now: Time, inner: Time, c: Config)
    requires W.Inv(s.wb, s.clock) && s.clock <= now <= inner && drawn != ""
    ensures var after := DoIssueForContext(s, ref, revision, drawn, now, inner, c); W.Follows(s.wb, after.wb, after.clock)
  {
    hide S.WithCurrent, W.IssueContext, W.Inv, W.Progresses;
    W.Unchanged(s.wb, s.clock, now);
    var snaps := S.WithCurrent(s.snaps, ref, revision, now, c.snapshots).0;
    if ref in snaps.byRef { W.IssueContextFollows(s.wb, snaps.byRef[ref].info, drawn, s.clock, inner, c.writebacks); }
  }

  lemma TaskIssueFollows(s: State, taskRef: string, id: string, drawn: string, now: Time, inner: Time, c: Config)
    requires W.Inv(s.wb, s.clock) && s.clock <= now <= inner && drawn != ""
    ensures var after := DoIssueForTask(s, taskRef, id, drawn, now, inner, c); W.Follows(s.wb, after.wb, after.clock)
  {
    hide T.WithWritable, W.IssueTask, W.Inv, W.Progresses;
    W.Unchanged(s.wb, s.clock, now);
    var task := T.WithWritable(s.tasks, taskRef, id, now, c.tasks).1;
    if task.Some? { W.IssueTaskFollows(s.wb, task.value.info, drawn, s.clock, inner, c.writebacks); }
  }

  lemma ClaimSendFollows(s: State, i: nat, now: Time, inner: Time, c: Config)
    requires W.Inv(s.wb, s.clock) && s.clock <= now <= inner && i < |s.wb.attempts|
    ensures var after := DoClaimSend(s, i, now, inner, c); W.Follows(s.wb, after.wb, after.clock)
  {
    hide S.WithCurrent, T.WithWritable, W.Claim, W.Inv, W.Progresses;
    W.Unchanged(s.wb, s.clock, now);
    W.ClaimFollows(s.wb, i, s.clock, inner);
  }

  /** No step undoes what an attempt is: its outcome is written once and its claim is final. */
  lemma StepFollows(s: State, step: Step, now: Time, c: Config)
    requires Enabled(s, step, now, c) && W.Inv(s.wb, s.clock)
    ensures var after := Next(s, step, now, c); W.Follows(s.wb, after.wb, after.clock)
  {
    hide S.Create, T.Create, T.FailForActor, DoIssueForContext, DoIssueForTask, DoClaimSend, W.Cleanup, W.StartDelivery,
      W.CompletePlatform, T.CompleteResult, T.Apply, S.VictimChosen, S.Observe, S.Invalidate, W.InvalidateContext, W.InvalidateTask,
      OpaqueID, W.CompleteReceipt, W.Progresses, W.OutcomeOf, W.Inv;
    W.Unchanged(s.wb, s.clock, now);
    match step
    case InvalidateContext(ref) => W.InvalidateContextFollows(s.wb, ref, s.clock, now, c.writebacks);
    case InvalidateTask(id) => W.InvalidateTaskFollows(s.wb, id, s.clock, now, c.writebacks);
    case ReadTicket => W.CleanupFollows(s.wb, s.clock, now);
    case Submit(request, target) => W.StartFollows(s.wb, request, target, s.clock, now, c.writebacks);
    case EndByPlatform(i, outcome) => W.CompletePlatformFollows(s.wb, i, outcome, s.clock, now);
    case AcceptReceipt(m, route) => W.CompleteReceiptFollows(s.wb, m, route, s.clock, now);
    case ClaimSend(i, inner) => ClaimSendFollows(s, i, now, inner, c);
    case IssueForContext(ref, revision, drawn, inner) => ContextIssueFollows(s, ref, revision, drawn, now, inner, c);
    case IssueForTask(taskRef, id, drawn, inner) => TaskIssueFollows(s, taskRef, id, drawn, now, inner, c);
    case _ =>
  }

  // Fencing -----------------------------------------------------------------

  predicate Flips(s: State, after: State, i: nat) {
    i < |s.wb.attempts| && i < |after.wb.attempts| && !s.wb.attempts[i].sendClaimed && after.wb.attempts[i].sendClaimed
  }

  lemma AcceptedWasClaimed(t: W.Table, m: W.Receipt, route: Route)
    requires W.Accepts(t, m, route)
    ensures t.attempts[t.deliveries[m.resultID]].sendClaimed
  {
  }

  lemma FlipIsClaim(s: State, step: Step, now: Time, i: nat, c: Config)
    requires W.Inv(s.wb, s.clock) && Enabled(s, step, now, c) && Flips(s, Next(s, step, now, c), i)
    ensures step.ClaimSend? && step.attempt == i
  {
    hide Next, Enabled, W.Accepts, W.Inv;
    StepTouches(s, step, now, c);
    StepFollows(s, step, now, c);
    if step.AcceptReceipt? && W.Accepts(s.wb, step.receipt, step.route) {
      AcceptedWasClaimed(s.wb, step.receipt, step.route);
    }
  }

  lemma SourceNotClosed(s: State, x: W.Target, now: Time, c: Config)
    requires Inv(s, c) && s.clock <= now && x.ref in s.wb.tickets && s.wb.tickets[x.ref] == x && SourceVouches(s, x, now, c)
    ensures x.contextRef !in s.closed && x.taskID !in s.closedTasks
  {
    hide S.WithCurrent, T.WithWritable, S.Inv, T.Inv, W.Inv, Deliveries, TicketsSpent, ContextsBarred, Indexed, IssuedOk,
      TicketedTasksDelivered, TasksRecorded;
    assert IssuedOk(s, c, x);
    NoEmptyClosed(s);
    if x.taskID == "" {
      CurrentNotClosed(s, x, now, c);
    } else {
      TicketedNotClosed(s, x, c);
    }
  }

  lemma CurrentNotClosed(s: State, x: W.Target, now: Time, c: Config)
    requires S.Inv(s.snaps, c.snapshots) && SnapshotsRecorded(s, c) && ContextsBarred(s) && Indices(s) && s.clock <= now
    requires x.ref in s.wb.tickets && s.wb.tickets[x.ref] == x && x.taskID == "" && SourceVouches(s, x, now, c) && IssuedOk(s, c, x)
    ensures x.contextRef !in s.closed
  {
    hide S.WithCurrent, T.WithWritable, S.Inv;
    S.CurrentIsLive(s.snaps, x.contextRef, x.snapshotRevision, now, c.snapshots);
    assert Barred(s, x.contextRef);
    assert W.Source(x, W.ContextKind) == x.contextRef;
  }

  lemma TicketedNotClosed(s: State, x: W.Target, c: Config)
    requires TasksClosed(s) && ContextsBarred(s) && Indices(s) && x.ref in s.wb.tickets && s.wb.tickets[x.ref] == x
    requires x.taskID != "" && IssuedOk(s, c, x)
    ensures x.contextRef !in s.closed && x.taskID !in s.closedTasks
  {
    assert W.Source(x, W.TaskKind) == x.taskID;
  }

  /** Fencing: an attempt becomes claimed only in its own ClaimSend step, while its source vouches
      for its ticket at that instant, the ticket is live and exactly the attempt's target, and no
      earlier step invalidated the source. */
  lemma Fencing(s: State, step: Step, now: Time, i: nat, c: Config)
    requires c.Valid() && Inv(s, c) && Enabled(s, step, now, c) && Flips(s, Next(s, step, now, c), i)
    ensures var x := s.wb.attempts[i].target;
      && step.ClaimSend? && step.attempt == i && s.wb.attempts[i].Open()
      && SourceVouches(s, x, now, c)
      && x.ref in s.wb.tickets && s.wb.tickets[x.ref] == x && step.inner < x.expiresAt
      && x.contextRef !in s.closed && x.taskID !in s.closedTasks
      && Next(s, step, now, c).wb.attempts[i].Open()
  {
    hide Inv, SourceVouches, DoClaimSend, W.Inv, Next, Enabled;
    InvParts(s, c);
    FlipIsClaim(s, step, now, i, c);
    IsClaimSend(s, step.attempt, now, step.inner, c);
    ClaimedUnderSource(s, i, now, step.inner, c);
    SourceNotClosed(s, s.wb.attempts[i].target, now, c);
  }

  lemma ClaimedUnderSource(s: State, i: nat, now: Time, inner: Time, c: Config)
    requires W.Inv(s.wb, s.clock) && s.clock <= now <= inner && i < |s.wb.attempts|
    requires Flips(s, DoClaimSend(s, i, now, inner, c), i)
    ensures var x := s.wb.attempts[i].target;
      && SourceVouches(s, x, now, c) && s.wb.attempts[i].Open()
      && x.ref in s.wb.tickets && s.wb.tickets[x.ref] == x && inner < x.expiresAt
      && DoClaimSend(s, i, now, inner, c).wb.attempts[i].Open()
  {
    hide S.WithCurrent, T.WithWritable, W.Claim, W.Inv, W.Follows;
    W.ClaimFollows(s.wb, i, s.clock, inner);
  }

  lemma InvParts(s: State, c: Config)
    requires Inv(s, c)
    ensures W.Inv(s.wb, s.clock)
  {
  }

  lemma TasksOk(s: State, c: Config)
    requires Inv(s, c)
    ensures T.Inv(s.tasks, c.tasks)
  {
  }

  /** An attempt that was claimed is never closed as target_mismatch, and one closed so was never
      claimed; this holds in every reachable state. */
  lemma ClaimedNeverMismatched(start: Time, run: seq<Event>, i: nat, c: Config)
    requires c.Valid() && IsRun(start, run, c) && i < |After(start, run, c).wb.attempts|
    ensures var a := After(start, run, c).wb.attempts[i]; !(a.sendClaimed && a.EndedAs(TargetMismatch))
  {
    hide Inv, After;
    RunKeepsInv(start, run, c);
    InvParts(After(start, run, c), c);
    W.AttemptsAreOk(After(start, run, c).wb, i, After(start, run, c).clock);
  }

  // Completion --------------------------------------------------------------

  function Before(start: Time, run: seq<Event>, k: nat, c: Config): State
    requires k <= |run|
  {
    After(start, run[..k], c)
  }

  lemma {:induction false} PrefixIsRun(start: Time, run: seq<Event>, k: nat, c: Config)
    requires IsRun(start, run, c) && k <= |run|
    ensures IsRun(start, run[..k], c)
    decreases |run|
  {
    if k == |run| {
      assert run[..k] == run;
    } else {
      assert run[..|run| - 1][..k] == run[..k];
      PrefixIsRun(start, run[..|run| - 1], k, c);
    }
  }

  lemma StepAt(start: Time, run: seq<Event>, k: nat, c: Config)
    requires c.Valid() && IsRun(start, run, c) && k < |run|
    ensures Enabled(Before(start, run, k, c), run[k].step, run[k].now, c)
    ensures Before(start, run, k + 1, c) == Next(Before(start, run, k, c), run[k].step, run[k].now, c)
    ensures Inv(Before(start, run, k, c), c)
  {
    hide Inv, Enabled, Next;
    PrefixIsRun(start, run, k, c);
    PrefixIsRun(start, run, k + 1, c);
    assert run[..k + 1][..k] == run[..k];
    RunKeepsInv(start, run[..k], c);
  }

  /** Event `k` claims attempt `i` for sending. */
  predicate ClaimsAt(start: Time, run: seq<Event>, k: nat, i: nat, c: Config) {
    k < |run| && Flips(Before(start, run, k, c), Before(start, run, k + 1, c), i)
  }

  /** Event `k` brings attempt `i` the application's answer. */
  predicate AnswersAt(start: Time, run: seq<Event>, k: nat, i: nat, c: Config) {
    k < |run| && (var s := Before(start, run, k, c); var after := Before(start, run, k + 1, c);
                  i < |s.wb.attempts| && i < |after.wb.attempts|
                  && !s.wb.attempts[i].Answered() && after.wb.attempts[i].Answered())
  }

  /** Between two states of a run, an attempt keeps its identity and loses neither claim nor outcome. */
  lemma {:induction false} AttemptPersists(start: Time, run: seq<Event>, k: nat, i: nat, c: Config)
    requires c.Valid() && IsRun(start, run, c) && k <= |run| && i < |Before(start, run, k, c).wb.attempts|
    ensures var s := After(start, run, c);
      i < |s.wb.attempts| && W.Progresses(Before(start, run, k, c).wb.attempts[i], s.wb.attempts[i])
    decreases |run|
  {
    hide Inv, Next, Enabled, W.Inv;
    if k == |run| {
      assert run[..k] == run;
    } else {
      var most := run[..|run| - 1];
      assert most[..k] == run[..k];
      PrefixIsRun(start, run, |run| - 1, c);
      AttemptPersists(start, most, k, i, c);
      LastStepFollows(start, run, c);
    }
  }

  lemma LastStepFollows(start: Time, run: seq<Event>, c: Config)
    requires c.Valid() && IsRun(start, run, c) && run != []
    ensures IsRun(start, run[..|run| - 1], c)
    ensures var s := After(start, run[..|run| - 1], c); var after := After(start, run, c);
      && W.Follows(s.wb, after.wb, after.clock)
      && W.QuietBut(s.wb, after.wb, Touched(s, run[|run| - 1].step))
  {
    hide Inv, Next, Enabled, W.Inv, W.Progresses, W.Quiet, Touched;
    var last := run[|run| - 1];
    var s := After(start, run[..|run| - 1], c);
    RunKeepsInv(start, run[..|run| - 1], c);
    InvParts(s, c);
    StepFollows(s, last.step, last.now, c);
    StepTouches(s, last.step, last.now, c);
  }

  /** A claimed attempt was claimed by some event of the run. */
  lemma {:induction false} ClaimedSomewhere(start: Time, run: seq<Event>, i: nat, c: Config) returns (k: nat)
    requires c.Valid() && IsRun(start, run, c)
    requires i < |After(start, run, c).wb.attempts| && After(start, run, c).wb.attempts[i].sendClaimed
    ensures ClaimsAt(start, run, k, i, c)
    decreases |run|
  {
    hide Inv, Next, Enabled, W.Inv, W.Progresses;
    var n := |run| - 1;
    LastStepFollows(start, run, c);
    var most := run[..n];
    var s := After(start, most, c);
    if i < |s.wb.attempts| && s.wb.attempts[i].sendClaimed {
      k := ClaimedSomewhere(start, most, i, c);
      assert most[..k] == run[..k] && most[..k + 1] == run[..k + 1];
    } else {
      k := n;
      assert run[..k + 1] == run;
    }
  }

  /** An answered attempt was answered by some event of the run. */
  lemma {:induction false} AnsweredSomewhere(start: Time, run: seq<Event>, i: nat, c: Config) returns (k: nat)
    requires c.Valid() && IsRun(start, run, c)
    requires i < |After(start, run, c).wb.attempts| && After(start, run, c).wb.attempts[i].Answered()
    ensures AnswersAt(start, run, k, i, c)
    decreases |run|
  {
    hide Inv, Next, Enabled, W.Inv, W.Progresses;
    var n := |run| - 1;
    LastStepFollows(start, run, c);
    var most := run[..n];
    var s := After(start, most, c);
    if i < |s.wb.attempts| && s.wb.attempts[i].Answered() {
      k := AnsweredSomewhere(start, most, i, c);
      assert most[..k] == run[..k] && most[..k + 1] == run[..k + 1];
    } else {
      k := n;
      assert run[..k + 1] == run;
    }
  }

  /** An attempt is answered only by a receipt that its own preview connection sent, after its claim. */
  lemma AnswerIsReceipt(s: State, step: Step, now: Time, i: nat, c: Config)
    requires c.Valid() && Inv(s, c) && Enabled(s, step, now, c)
    requires var after := Next(s, step, now, c);
      i < |s.wb.attempts| && i < |after.wb.attempts| && !s.wb.attempts[i].Answered() && after.wb.attempts[i].Answered()
    ensures var before := s.wb.attempts[i];
      && step.AcceptReceipt? && before.Open() && before.sendClaimed && step.route == before.target.previewRoute
      && W.Answers(step.receipt, before.target) && step.receipt.resultID == before.resultID
      && W.Says(step.receipt, Next(s, step, now, c).wb.attempts[i].outcome.value)
  {
    hide Inv, Next, Enabled, W.Accepts, W.Inv, W.Progresses;
    InvParts(s, c);
    StepTouches(s, step, now, c);
    if step.ClaimSend? {
      IsClaimSend(s, step.attempt, now, step.inner, c);
      ClaimAnswersNothing(s, step.attempt, now, step.inner, c);
    } else {
      IsAcceptReceipt(s, step.receipt, step.route, now, c);
      AcceptedAttempt(s.wb, step.receipt, step.route, s.clock);
    }
  }

  lemma ClaimAnswersNothing(s: State, i: nat, now: Time, inner: Time, c: Config)
    requires i < |s.wb.attempts|
    ensures var after := DoClaimSend(s, i, now, inner, c);
      |after.wb.attempts| == |s.wb.attempts| && (after.wb.attempts[i].Answered() ==> s.wb.attempts[i].Answered())
  {
    hide S.WithCurrent, T.WithWritable, W.Claim;
    W.ClaimAnswersNothing(s.wb, i, inner);
  }

  lemma AcceptedAttempt(t: W.Table, m: W.Receipt, route: Route, clock: Time)
    requires W.Inv(t, clock) && W.Accepts(t, m, route)
    ensures t.attempts[t.deliveries[m.resultID]].resultID == m.resultID
    ensures var i := t.deliveries[m.resultID]; var before := t.attempts[i]; var after := W.CompleteReceipt(t, m, route).0;
      && before.Open() && before.sendClaimed && route == before.target.previewRoute && W.Answers(m, before.target)
      && i < |after.attempts| && after.attempts[i].outcome.Some? && W.Says(m, after.attempts[i].outcome.value)
  {
  }

  /** Event `k` brought attempt `i` an answer from its own preview connection, after event `j` claimed
      it under the vouching source. */
  lemma AnsweredAfterClaim(start: Time, run: seq<Event>, i: nat, c: Config) returns (j: nat, k: nat)
    requires c.Valid() && IsRun(start, run, c)
    requires i < |After(start, run, c).wb.attempts| && After(start, run, c).wb.attempts[i].Answered()
    ensures var a := After(start, run, c).wb.attempts[i];
      && j < k < |run| && ClaimsAt(start, run, j, i, c) && AnswersAt(start, run, k, i, c)
      && run[j].step.ClaimSend? && run[j].step.attempt == i && SourceVouches(Before(start, run, j, c), a.target, run[j].now, c)
      && run[k].step.AcceptReceipt? && run[k].step.route == a.target.previewRoute
      && W.Answers(run[k].step.receipt, a.target) && run[k].step.receipt.resultID == a.resultID && W.Says(run[k].step.receipt, a.outcome.value)
  {
    hide Inv, Next, Enabled, After, W.Answers, W.Says, SourceVouches, IsRun;
    k := AnsweredSomewhere(start, run, i, c);
    AttemptPersists(start, run, k, i, c);
    AttemptPersists(start, run, k + 1, i, c);
    StepAt(start, run, k, c);
    AnswerIsReceipt(Before(start, run, k, c), run[k].step, run[k].now, i, c);
    PrefixIsRun(start, run, k, c);
    j := ClaimedSomewhere(start, run[..k], i, c);
    assert run[..k][..j] == run[..j] && run[..k][..j + 1] == run[..j + 1];
    StepAt(start, run, j, c);
    AttemptPersists(start, run, j, i, c);
    Fencing(Before(start, run, j, c), run[j].step, run[j].now, i, c);
  }

  /** A completed task was delivered, and some attempt for exactly that task and result was claimed
      for sending while the task was writable and was then answered "applied" by the ticket's own
      preview connection. */
  lemma CompletedMeansApplied(start: Time, run: seq<Event>, id: string, c: Config) returns (i: nat, j: nat, k: nat)
    requires c.Valid() && IsRun(start, run, c)
    requires id in After(start, run, c).tasks.byID && After(start, run, c).tasks.byID[id].status == T.Completed
    ensures var s := After(start, run, c);
      && s.tasks.byID[id].delivered && i < |s.wb.attempts|
      && (var a := s.wb.attempts[i];
          && a.target.taskID == id && a.resultID == s.tasks.byID[id].resultID && a.EndedAs(Applied)
          && j < k < |run|
          && ClaimsAt(start, run, j, i, c) && run[j].step.ClaimSend? && run[j].step.attempt == i
          && WritableThen(Before(start, run, j, c), id, run[j].now)
          && AnswersAt(start, run, k, i, c) && run[k].step.AcceptReceipt? && run[k].step.route == a.target.previewRoute
          && run[k].step.receipt.taskID == id && run[k].step.receipt.resultID == a.resultID && run[k].step.receipt.application == a.outcome)
  {
    hide Inv, After, IsRun, ClaimsAt, AnswersAt, WritableThen;
    RunKeepsInv(start, run, c);
    i := CompletedHasAttempt(After(start, run, c), id, c);
    j, k := AppliedWhileWritable(start, run, id, i, c);
  }

  lemma AppliedWhileWritable(start: Time, run: seq<Event>, id: string, i: nat, c: Config) returns (j: nat, k: nat)
    requires c.Valid() && IsRun(start, run, c) && id != "" && i < |After(start, run, c).wb.attempts|
    requires var a := After(start, run, c).wb.attempts[i]; a.EndedAs(Applied) && a.target.taskID == id
    ensures var a := After(start, run, c).wb.attempts[i];
      && j < k < |run| && ClaimsAt(start, run, j, i, c) && run[j].step.ClaimSend? && run[j].step.attempt == i
      && WritableThen(Before(start, run, j, c), id, run[j].now)
      && AnswersAt(start, run, k, i, c) && run[k].step.AcceptReceipt? && run[k].step.route == a.target.previewRoute
      && run[k].step.receipt.taskID == id && run[k].step.receipt.resultID == a.resultID && run[k].step.receipt.application == a.outcome
  {
    hide Inv, After, IsRun, SourceVouches, ClaimsAt, AnswersAt, W.Answers, WritableThen, Enabled, Next, Before;
    j, k := AnsweredAfterClaim(start, run, i, c);
    AnswersForTask(run[k].step.receipt, After(start, run, c).wb.attempts[i].target);
    StepAt(start, run, j, c);
    VouchedTaskIsWritable(Before(start, run, j, c), After(start, run, c).wb.attempts[i].target, run[j].now, c);
  }

  lemma AnswersForTask(m: W.Receipt, x: W.Target)
    requires W.Answers(m, x)
    ensures m.taskID == x.taskID
  {
  }

  /** The task is delivered, not over and not expired at `now`. */
  predicate WritableThen(s: State, id: string, now: Time) {
    id in s.tasks.byID && s.tasks.byID[id].delivered && !s.tasks.byID[id].Over() && now < s.tasks.byID[id].info.expiresAt
  }

  lemma VouchedTaskIsWritable(s: State, x: W.Target, now: Time, c: Config)
    requires c.Valid() && Inv(s, c) && x.taskID != "" && SourceVouches(s, x, now, c)
    ensures WritableThen(s, x.taskID, now)
  {
    hide S.Inv, T.Inv, W.Inv, Tickets, Deliveries, T.WithWritable;
    T.WithWritableFollows(s.tasks, x.taskRef, x.taskID, now, c.tasks);
  }

  lemma CompletedHasAttempt(s: State, id: string, c: Config) returns (i: nat)
    requires Inv(s, c) && id in s.tasks.byID && s.tasks.byID[id].status == T.Completed
    ensures id != "" && s.tasks.byID[id].delivered
    ensures i < |s.wb.attempts|
    ensures var a := s.wb.attempts[i]; a.EndedAs(Applied) && a.target.taskID == id && a.resultID == s.tasks.byID[id].resultID
  {
    hide S.Inv, W.Inv, Tickets, SnapshotsRecorded, ReceiptsGrounded, VerdictsGrounded, AttemptsRecorded;
    assert Justified(s, s.tasks.byID[id]);
    var o;
    i, o :| Ended(s, i, s.tasks.byID[id].info.id, s.tasks.byID[id].resultID, o) && o.status == Applied;
  }

  /** An applied result completes its task exactly if its result id is well-formed and the task is live
      when the result reaches the task store; any other applied result leaves the task uncompleted, or
      completed as it was. */
  lemma AppliedCompletesExactly(start: Time, run: seq<Event>, k: nat, c: Config)
    requires c.Valid() && IsRun(start, run, c) && k < |run| && run[k].step.CompleteTask? && run[k].step.verdict.outcome.status == Applied
    ensures T.Completes(Before(start, run, k, c).tasks, Before(start, run, k + 1, c).tasks, run[k].step.verdict.taskID, run[k].step.verdict.resultID)
            <==> OpaqueID("arr_", run[k].step.verdict.resultID)
                 && T.LiveAt(Before(start, run, k, c).tasks, run[k].step.verdict.taskID, run[k].now, c.tasks)
  {
    hide Inv, Enabled, Next, After, IsRun, T.CompleteResult, T.CompletedAs, T.LiveAt, OpaqueID;
    var v := run[k].step.verdict;
    var s := Before(start, run, k, c);
    StepAt(start, run, k, c);
    IsCompleteTask(s, v, run[k].now, c);
    T.CompleteResultExactly(s.tasks, v.taskID, v.resultID, v.outcome, run[k].now, c.tasks);
    if T.LiveAt(s.tasks, v.taskID, run[k].now, c.tasks) { LiveVerdictIsOpaque(s, v, run[k].now, c); }
  }

  lemma LiveVerdictIsOpaque(s: State, v: Verdict, now: Time, c: Config)
    requires Inv(s, c) && s.clock <= now && v in s.verdicts && T.LiveAt(s.tasks, v.taskID, now, c.tasks)
    ensures OpaqueID("atk_", v.taskID)
  {
    hide S.Inv, T.Inv, W.Inv, Tickets, OpaqueID, ReceiptsGrounded, CompletionsJustified;
    assert Grounded(s, v);
    var i: nat :| Ended(s, i, v.taskID, v.resultID, v.outcome);
    TargetIsOpaque(s, i, c);
    NoEmptyMade(s);
  }

  lemma NoEmptyMade(s: State)
    requires TasksRecorded(s)
    ensures "" !in s.tasks.byID
  {
  }

  // What the history variables say about the events ---------------------------

  predicate Closes(step: Step, x: W.Target) {
    || (step.InvalidateContext? && x.contextRef != "" && step.ref == x.contextRef)
    || (step.InvalidateTask? && x.taskID != "" && step.id == x.taskID)
  }

  lemma StepRemembersClosed(s: State, step: Step, now: Time, c: Config)
    ensures var after := Next(s, step, now, c);
      && s.closed <= after.closed && s.closedTasks <= after.closedTasks
      && (step.InvalidateContext? && step.ref != "" ==> step.ref in after.closed)
      && (step.InvalidateTask? && OpaqueID("atk_", step.id) ==> step.id in after.closedTasks)
  {
    hide Enabled, DoCreateSnapshot, DoIssueForContext, DoIssueForTask, DoClaimSend, DoGiveUpTask, DoCreateTask, DoAcceptReceipt, DoReadOutcome,
      DoReadVerdict, W.Cleanup, W.StartDelivery, W.CompletePlatform, T.CompleteResult, T.Apply, S.Observe, S.Invalidate, W.InvalidateContext,
      W.InvalidateTask, OpaqueID, W.OutcomeOf;
    match step
    case CreateSnapshot(what, ref, victim) => CreateKeepsClosed(s, what, ref, victim, now, c);
    case IssueForContext(ref, revision, drawn, inner) => ContextIssueKeepsClosed(s, ref, revision, drawn, now, inner, c);
    case IssueForTask(taskRef, id, drawn, inner) => TaskIssueKeepsClosed(s, taskRef, id, drawn, now, inner, c);
    case GiveUpTask(id, actorUID, code, message) => GiveUpKeepsClosed(s, id, actorUID, code, message, now, c);
    case CreateTask(what, identity, victim) => CreateTaskKeepsClosed(s, what, identity, victim, now, c);
    case ClaimSend(i, inner) => if i < |s.wb.attempts| { ClaimKeepsClosed(s, i, now, inner, c); }
    case AcceptReceipt(m, route) => ReceiptKeepsClosed(s, m, route, now);
    case ReadOutcome(id, resultID) => OutcomeKeepsClosed(s, id, resultID, now);
    case ReadVerdict(i) => if i < |s.wb.attempts| && !s.wb.attempts[i].Open() { VerdictKeepsClosed(s, i, now); }
    case _ =>
  }

  predicate SameClosed(s: State, after: State) {
    after.closed == s.closed && after.closedTasks == s.closedTasks
  }

  lemma CreateKeepsClosed(s: State, what: S.Candidate, ref: string, victim: string, now: Time, c: Config)
    ensures SameClosed(s, DoCreateSnapshot(s, what, ref, victim, now, c))
  {
    hide S.Create;
  }

  lemma ContextIssueKeepsClosed(s: State, ref: string, revision: nat, drawn: string, now: Time, inner: Time, c: Config)
    ensures SameClosed(s, DoIssueForContext(s, ref, revision, drawn, now, inner, c))
  {
    hide S.WithCurrent, W.IssueContext;
  }

  lemma TaskIssueKeepsClosed(s: State, taskRef: string, id: string, drawn: string, now: Time, inner: Time, c: Config)
    ensures SameClosed(s, DoIssueForTask(s, taskRef, id, drawn, now, inner, c))
  {
    hide T.WithWritable, W.IssueTask;
  }

  lemma CreateTaskKeepsClosed(s: State, what: T.Candidate, identity: Option<T.Identity>, victim: string, now: Time, c: Config)
    ensures SameClosed(s, DoCreateTask(s, what, identity, victim, now, c))
  {
    hide T.Create;
  }

  lemma GiveUpKeepsClosed(s: State, id: string, actorUID: int, code: string, message: string, now: Time, c: Config)
    ensures SameClosed(s, DoGiveUpTask(s, id, actorUID, code, message, now, c))
  {
    hide T.FailForActor;
  }

  lemma OutcomeKeepsClosed(s: State, id: string, resultID: string, now: Time)
    ensures SameClosed(s, DoReadOutcome(s, id, resultID, now))
  {
    hide W.OutcomeOf;
  }

  lemma VerdictKeepsClosed(s: State, i: nat, now: Time)
    requires i < |s.wb.attempts| && !s.wb.attempts[i].Open()
    ensures SameClosed(s, DoReadVerdict(s, i, now))
  {
  }

  lemma ClaimKeepsClosed(s: State, i: nat, now: Time, inner: Time, c: Config)
    requires i < |s.wb.attempts|
    ensures SameClosed(s, DoClaimSend(s, i, now, inner, c))
  {
    hide S.WithCurrent, T.WithWritable, W.Claim;
  }

  lemma ReceiptKeepsClosed(s: State, m: W.Receipt, route: Route, now: Time)
    ensures SameClosed(s, DoAcceptReceipt(s, m, route, now))
  {
    hide W.CompleteReceipt;
  }

  lemma {:induction false} ClosedSince(start: Time, run: seq<Event>, k: nat, x: W.Target, c: Config)
    requires c.Valid() && IsRun(start, run, c) && k < |run| && Closes(run[k].step, x)
    requires x.taskID != "" ==> OpaqueID("atk_", x.taskID)
    ensures x.contextRef in After(start, run, c).closed || x.taskID in After(start, run, c).closedTasks
    decreases |run|
  {
    hide Inv, Enabled, Next, OpaqueID;
    var n := |run| - 1;
    StepRemembersClosed(After(start, run[..n], c), run[n].step, run[n].now, c);
    if k < n {
      assert run[..n][k] == run[k];
      ClosedSince(start, run[..n], k, x, c);
    }
  }

  /** Fencing over a run: an attempt is claimed by its own ClaimSend while its source vouches for
      its live ticket, and no earlier event of the run invalidated the snapshot or the task. */
  lemma FencedInRun(start: Time, run: seq<Event>, j: nat, i: nat, c: Config)
    requires c.Valid() && IsRun(start, run, c) && ClaimsAt(start, run, j, i, c)
    ensures var s := Before(start, run, j, c); var x := s.wb.attempts[i].target;
      && run[j].step.ClaimSend? && run[j].step.attempt == i && SourceVouches(s, x, run[j].now, c)
      && x.ref in s.wb.tickets && s.wb.tickets[x.ref] == x && run[j].step.inner < x.expiresAt
      && forall k :: 0 <= k < j ==> !Closes(run[k].step, x)
  {
    hide Inv, After, IsRun, SourceVouches, Closes, Next, Enabled, OpaqueID;
    var s := Before(start, run, j, c);
    var x := s.wb.attempts[i].target;
    StepAt(start, run, j, c);
    Fencing(s, run[j].step, run[j].now, i, c);
    PrefixIsRun(start, run, j, c);
    forall k | 0 <= k < j ensures !Closes(run[k].step, x) {
      if Closes(run[k].step, x) {
        TargetIsOpaque(s, i, c);
        assert run[..j][k] == run[k];
        ClosedSince(start, run[..j], k, x, c);
      }
    }
  }

  lemma TargetIsOpaque(s: State, i: nat, c: Config)
    requires Inv(s, c) && i < |s.wb.attempts|
    ensures s.wb.attempts[i].target.taskID != "" ==> OpaqueID("atk_", s.wb.attempts[i].target.taskID)
  {
    hide S.Inv, T.Inv, W.Inv, OpaqueID, Indices, TicketsSpent, ContextsBarred, TasksClosed, TicketedTasksDelivered;
    assert AttemptRecorded(s, i);
    assert IssuedOk(s, c, s.issued[s.wb.attempts[i].target.ref]);
  }

  lemma CurrentInfo(t: S.Table, ref: string, revision: nat, now: Time, config: S.Config)
    requires S.Inv(t, config) && S.WithCurrent(t, ref, revision, now, config).1 == S.Active
    ensures var after := S.WithCurrent(t, ref, revision, now, config).0;
      ref in after.byRef && ref in t.byRef && after.byRef[ref].info == t.byRef[ref].info
  {
    S.ActiveMeansCurrent(t, ref, now, config);
  }

  /** `w` as a ticket, as a context and as a task: the three maps agree on it. */
  ghost predicate MapsAgree(wb: W.Table, w: string) {
    && (w in wb.tickets ==>
          var x := wb.tickets[w];
          && (x.contextRef == "") != (x.taskID == "")
          && (x.contextRef != "" ==> x.contextRef in wb.byContext && wb.byContext[x.contextRef] == w)
          && (x.taskID != "" ==> x.taskID in wb.byTask && wb.byTask[x.taskID] == w))
    && (w in wb.byContext ==> wb.byContext[w] in wb.tickets && wb.tickets[wb.byContext[w]].contextRef == w != "")
    && (w in wb.byTask ==> wb.byTask[w] in wb.tickets && wb.tickets[wb.byTask[w]].taskID == w != "")
  }

  /** In every reachable state the live tickets are in bijection with the entries of `byContext` and
      `byTask` together. */
  lemma TicketsAreIndexed(start: Time, run: seq<Event>, c: Config, w: string)
    requires c.Valid() && IsRun(start, run, c)
    ensures MapsAgree(After(start, run, c).wb, w)
  {
    hide After, IsRun;
    RunKeepsInv(start, run, c);
    IndexedTickets(After(start, run, c), c, w);
  }

  lemma IndexedTickets(s: State, c: Config, w: string)
    requires Inv(s, c)
    ensures MapsAgree(s.wb, w)
  {
    hide S.Inv, T.Inv, Deliveries, TicketsRecorded, TicketsSpent, ContextsBarred, TasksClosed, TicketedTasksDelivered,
      W.AttemptsOk;
    if w in s.wb.tickets { assert W.TicketOk(w, s.wb.tickets[w]); }
  }

  // Attempts resolve once -----------------------------------------------------

  lemma IssuesAddNone(s: State, step: Step, now: Time, c: Config)
    requires step.IssueForContext? || step.IssueForTask?
    requires Enabled(s, step, now, c)
    ensures |Next(s, step, now, c).wb.attempts| == |s.wb.attempts|
  {
    hide S.VictimChosen, DoIssueForContext, DoIssueForTask, W.Quiet, OpaqueID, W.CompleteReceipt, DoClaimSend, DoCreateSnapshot, DoGiveUpTask,
      DoCreateTask, DoReadOutcome, DoReadVerdict, DoAcceptReceipt, S.Observe, S.Invalidate, T.Apply, T.CompleteResult, W.InvalidateContext,
      W.InvalidateTask, W.Cleanup, W.StartDelivery, W.CompletePlatform;
    match step
    case IssueForContext(ref, revision, drawn, inner) => ContextIssueAddsNone(s, ref, revision, drawn, now, inner, c);
    case IssueForTask(taskRef, id, drawn, inner) => TaskIssueAddsNone(s, taskRef, id, drawn, now, inner, c);
  }

  lemma ContextIssueAddsNone(s: State, ref: string, revision: nat, drawn: string, now: Time, inner: Time, c: Config)
    ensures |DoIssueForContext(s, ref, revision, drawn, now, inner, c).wb.attempts| == |s.wb.attempts|
  {
    hide S.WithCurrent, W.IssueContext, W.Quiet;
    var snaps := S.WithCurrent(s.snaps, ref, revision, now, c.snapshots).0;
    if ref in snaps.byRef { W.IssueContextAddsNone(s.wb, snaps.byRef[ref].info, drawn, inner, c.writebacks); }
  }

  lemma TaskIssueAddsNone(s: State, taskRef: string, id: string, drawn: string, now: Time, inner: Time, c: Config)
    ensures |DoIssueForTask(s, taskRef, id, drawn, now, inner, c).wb.attempts| == |s.wb.attempts|
  {
    hide T.WithWritable, W.IssueTask, W.Quiet;
    var task := T.WithWritable(s.tasks, taskRef, id, now, c.tasks).1;
    if task.Some? { W.IssueTaskAddsNone(s.wb, task.value.info, drawn, inner, c.writebacks); }
  }

  lemma StepAddsNone(s: State, step: Step, now: Time, c: Config)
    requires Enabled(s, step, now, c) && !step.Submit?
    ensures |Next(s, step, now, c).wb.attempts| == |s.wb.attempts|
  {
    hide S.Create, T.Create, T.FailForActor, DoIssueForContext, DoIssueForTask, W.Cleanup, T.CompleteResult, T.Apply, S.VictimChosen,
      S.Observe, S.Invalidate, W.InvalidateContext, W.InvalidateTask, OpaqueID, W.CompleteReceipt, W.CompletePlatform, W.OutcomeOf, W.Claim, S.WithCurrent,
      T.WithWritable, W.Quiet, W.Inv, W.Progresses;
    match step
    case IssueForContext(_, _, _, _) => IssuesAddNone(s, step, now, c);
    case IssueForTask(_, _, _, _) => IssuesAddNone(s, step, now, c);
    case InvalidateContext(ref) => W.InvalidateContextAddsNone(s.wb, ref, now, c.writebacks);
    case InvalidateTask(id) => W.InvalidateTaskAddsNone(s.wb, id, now, c.writebacks);
    case ReadTicket => W.CleanupQuiet(s.wb, now);
    case ClaimSend(i, inner) => W.ClaimQuiet(s.wb, i, inner);
    case AcceptReceipt(m, route) => W.ReceiptQuiet(s.wb, m, route);
    case EndByPlatform(i, outcome) => W.PlatformQuiet(s.wb, i, outcome);
    case _ =>
  }

  lemma {:induction false} AnsweredIsLastInRun(start: Time, run: seq<Event>, c: Config)
    requires c.Valid() && IsRun(start, run, c)
    ensures W.AnsweredIsLast(After(start, run, c).wb)
    decreases |run|
  {
    hide Inv, Enabled, Next, W.Inv, W.AnsweredIsLast, W.Progresses, W.Quiet, Touched;
    if run == [] {
      W.EmptyAnsweredIsLast();
    } else {
      var n := |run| - 1;
      var s := After(start, run[..n], c);
      AnsweredIsLastInRun(start, run[..n], c);
      RunKeepsInv(start, run[..n], c);
      InvParts(s, c);
      LastStepFollows(start, run, c);
      if run[n].step.Submit? {
        IsSubmit(s, run[n].step.request, run[n].step.target, run[n].now, c);
        W.StartKeepsAnsweredLast(s.wb, run[n].step.request, run[n].step.target, s.clock, run[n].now, c.writebacks);
      } else {
        StepAddsNone(s, run[n].step, run[n].now, c);
        W.FollowsKeepsAnsweredLast(s.wb, After(start, run, c).wb);
      }
    }
  }

  /** Attempts resolve once: of the attempts for one result id under one ticket, only the last can be
      open or answered by the application, in every reachable state and whatever cleanup removed. */
  lemma OnlyTheLastIsAnswered(start: Time, run: seq<Event>, i: nat, j: nat, c: Config)
    requires c.Valid() && IsRun(start, run, c) && i < j < |After(start, run, c).wb.attempts|
    requires var a := After(start, run, c).wb.attempts; a[i].resultID == a[j].resultID && a[i].target == a[j].target
    ensures var a := After(start, run, c).wb.attempts[i]; !a.Open() && !a.Answered()
  {
    hide After, IsRun;
    AnsweredIsLastInRun(start, run, c);
  }

  lemma {:induction false} ApartInRun(start: Time, run: seq<Event>, c: Config)
    requires c.Valid() && IsRun(start, run, c)
    ensures W.Apart(After(start, run, c).wb)
    decreases |run|
  {
    hide Inv, Enabled, Next, W.Inv, W.Apart, W.Progresses, W.Quiet, Touched;
    if run == [] {
      W.EmptyApart();
    } else {
      var n := |run| - 1;
      var s := After(start, run[..n], c);
      ApartInRun(start, run[..n], c);
      RunKeepsInv(start, run[..n], c);
      InvParts(s, c);
      LastStepFollows(start, run, c);
      if run[n].step.Submit? {
        IsSubmit(s, run[n].step.request, run[n].step.target, run[n].now, c);
        W.StartKeepsApart(s.wb, run[n].step.request, run[n].step.target, s.clock, run[n].now, c.writebacks);
      } else {
        StepAddsNone(s, run[n].step, run[n].now, c);
        W.FollowsKeepsApart(s.wb, After(start, run, c).wb);
      }
    }
  }

  /** In every reachable state, an attempt that is open or answered is followed by another one for its
      result id only from the expiry of its ticket on: at most one attempt of a result id is open while
      the ticket of the first lasts. */
  lemma OpenAttemptsApart(start: Time, run: seq<Event>, i: nat, j: nat, c: Config)
    requires c.Valid() && IsRun(start, run, c) && i < j < |After(start, run, c).wb.attempts|
    requires var a := After(start, run, c).wb.attempts; a[i].resultID == a[j].resultID && (a[i].Open() || a[i].Answered())
    ensures var a := After(start, run, c).wb.attempts; a[i].target.expiresAt <= a[j].createdAt && a[i].target != a[j].target
  {
    hide After, IsRun, W.Inv;
    ApartInRun(start, run, c);
    AnsweredIsLastInRun(start, run, c);
    RunKeepsInv(start, run, c);
    AttemptRetained(After(start, run, c), i, c);
  }

  lemma AttemptRetained(s: State, i: nat, c: Config)
    requires Inv(s, c) && i < |s.wb.attempts|
    ensures s.wb.attempts[i].retainUntil == s.wb.attempts[i].target.expiresAt
  {
    hide S.Inv, T.Inv, Tickets, Deliveries, SnapshotsRecorded, TasksRecorded;
    W.AttemptsAreOk(s.wb, i, s.clock);
  }

  // The invalidate handler ------------------------------------------------------

  /** After the two steps of the invalidate handler a snapshot is still active although its context is
      closed on the writeback side, exactly if it was current and unexpired and the caller is not its
      owner. */
  lemma InvalidationMissesExactly(s: State, ref: string, actorUID: int, now: Time, later: Time, c: Config)
    requires c.Valid() && Inv(s, c) && s.clock <= now <= later
    ensures var mid := Next(s, RetireSnapshot(ref, actorUID), now, c);
      var after := Next(mid, InvalidateContext(ref), later, c);
      S.StatusOf(after.snaps, ref) == S.Active && ref in after.closed
      <==> S.CurrentAt(s.snaps, ref, now) && s.snaps.byRef[ref].info.what.actorUID != actorUID
  {
    hide Next, Inv, S.Invalidate, S.CurrentAt;
    SnapshotsOk(s, c);
    S.InvalidateMissesExactly(s.snaps, ref, actorUID, now, c.snapshots);
    var mid := Next(s, RetireSnapshot(ref, actorUID), now, c);
    IsRetireSnapshot(s, ref, actorUID, now, c);
    IsInvalidateContext(mid, ref, later, c);
    if S.CurrentAt(s.snaps, ref, now) { StoredNotEmpty(s, ref, now, c); }
  }

  lemma SnapshotsOk(s: State, c: Config)
    requires Inv(s, c)
    ensures S.Inv(s.snaps, c.snapshots)
  {
  }

  lemma StoredNotEmpty(s: State, ref: string, now: Time, c: Config)
    requires Inv(s, c) && S.CurrentAt(s.snaps, ref, now)
    ensures ref != ""
  {
    hide T.Inv, W.Inv, Tickets, Deliveries;
    assert S.EntryOk(ref, s.snaps.byRef[ref], c.snapshots);
  }

}
