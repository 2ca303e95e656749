/** Every step of the composed system keeps its invariant. */
module ProtocolSteps {
  import opened Basics
  import opened Outcomes
  import S = SnapshotTable
  import T = TaskTable
  import W = WritebackTable
  import opened Protocol
  import opened ProtocolCases
  import opened ProtocolInvariant

  // Snapshots ---------------------------------------------------------------

  /** A snapshot operation that stores nothing. */
  lemma SnapshotOpStep(s: State, op: S.Op, now: Time, c: Config)
    requires c.Valid() && Inv(s, c) && s.clock <= now && !op.DoCreate?
    ensures Inv(s.(clock := now, snaps := S.Apply(s.snaps, op, now, c.snapshots)), c)
  {
    hide S.Apply, S.Inv, T.Inv, W.Inv, Tickets, Deliveries;
    TimePasses(s, now, c);
    var mid := s.(clock := now);
    var after := mid.(snaps := S.Apply(s.snaps, op, now, c.snapshots));
    S.ApplyKeepsInv(s.snaps, op, now, c.snapshots);
    forall ref | ref in after.snaps.byRef ensures ref in s.made && s.made[ref] == after.snaps.byRef[ref].info {
      S.ApplyEvolves(s.snaps, op, now, c.snapshots, ref);
    }
    SnapshotStep(mid, after, c);
  }

  lemma CreateSnapshotStep(s: State, what: S.Candidate, ref: string, victim: string, now: Time, c: Config)
    requires c.Valid() && Inv(s, c) && Enabled(s, CreateSnapshot(what, ref, victim), now, c)
    ensures Inv(DoCreateSnapshot(s, what, ref, victim, now, c), c)
  {
    hide S.Create, S.Inv, T.Inv, W.Inv, Tickets, Deliveries, S.Cleanup, S.VictimChosen;
    TimePasses(s, now, c);
    var mid := s.(clock := now);
    var after := DoCreateSnapshot(s, what, ref, victim, now, c);
    NewRefUnused(s, ref, now, c);
    S.CreateKeepsInv(s.snaps, what, ref, victim, now, c.snapshots);
    StoredInfo(s.snaps, what, ref, victim, now, c.snapshots);
    forall r | r in after.snaps.byRef ensures r in after.made && after.made[r] == after.snaps.byRef[r].info {
      if r != ref { S.CreateEvolves(s.snaps, what, ref, victim, now, c.snapshots, r); }
    }
    SnapshotStep(mid, after, c);
  }

  lemma NewRefUnused(s: State, ref: string, now: Time, c: Config)
    requires SnapshotsRecorded(s, c) && ref != "" && ref !in s.made
    ensures S.Unused(s.snaps, ref, now, c.snapshots)
  {
    S.CleanupEvolves(s.snaps, now, c.snapshots, ref);
  }

  /** What create stores under the new reference, if anything. */
  lemma StoredInfo(t: S.Table, what: S.Candidate, ref: string, victim: string, now: Time, config: S.Config)
    requires S.Unused(t, ref, now, config) && S.Inv(t, config) && config.Valid() && S.VictimChosen(t, what, victim, now, config)
    ensures var (after, made) := S.Create(t, what, ref, victim, now, config);
      && (made.Stored? ==> ref in after.byRef && after.byRef[ref].info == made.info && made.info.ref == ref
                           && made.info.createdAt == now && made.info.expiresAt == now + config.ttl)
      && (!made.Stored? ==> ref !in after.byRef)
  {
    hide S.Cleanup, S.Roomy, S.NextRevision, S.Inv;
    S.RoomyHasRoom(t, what, victim, now, config);
  }

  // Tasks -------------------------------------------------------------------

  lemma TaskOpStep(s: State, op: T.Op, now: Time, c: Config)
    requires c.Valid() && Inv(s, c) && s.clock <= now && !op.DoComplete?
    ensures Inv(s.(clock := now, tasks := T.Apply(s.tasks, op, now, c.tasks)), c)
  {
    hide T.Apply, S.Inv, T.Inv, W.Inv, Tickets, Deliveries, T.Follows;
    TimePasses(s, now, c);
    T.ApplyFollows(s.tasks, op, now, c.tasks);
    TasksFollow(s.(clock := now), T.Apply(s.tasks, op, now, c.tasks), {}, c);
  }

  lemma CreateTaskStep(s: State, what: T.Candidate, identity: Option<T.Identity>, victim: string, now: Time, c: Config)
    requires c.Valid() && Inv(s, c) && Enabled(s, CreateTask(what, identity, victim), now, c)
    ensures Inv(DoCreateTask(s, what, identity, victim, now, c), c)
  {
    hide T.Create, S.Inv, T.Inv, W.Inv, Tickets, Deliveries, T.Follows, OpaqueID;
    TimePasses(s, now, c);
    var mid := s.(clock := now);
    var after := DoCreateTask(s, what, identity, victim, now, c);
    NewIdentityIsNew(s, identity, c);
    T.CreateIsSound(s.tasks, what, identity, victim, now, c.tasks);
    var (tasks, made) := T.Create(s.tasks, what, identity, victim, now, c.tasks);
    if made.Made? {
      var added := {made.info.id};
      forall id | id in tasks.byID ensures id in after.taskMade && after.taskMade[id] == tasks.byID[id].info {
        if id !in added { assert T.Evolves(s.tasks, tasks, id); }
      }
      W.OpaqueNotEmpty("atk_", made.info.id);
      TasksStep(mid, after, added, {}, c);
    } else {
      TasksFollow(mid, tasks, {}, c);
    }
  }

  lemma NewIdentityIsNew(s: State, identity: Option<T.Identity>, c: Config)
    requires TasksRecorded(s) && T.Inv(s.tasks, c.tasks)
    requires identity.Some? ==> OpaqueID("atk_", identity.value.id) && OpaqueID("atr_", identity.value.ref)
    requires identity.Some? ==> identity.value.id !in s.taskMade
    requires identity.Some? ==> forall id :: id in s.taskMade ==> s.taskMade[id].ref != identity.value.ref
    ensures T.NewIdentity(s.tasks, identity)
  {
    hide T.Bounded, OpaqueID;
  }

  lemma GiveUpStep(s: State, id: string, actorUID: int, code: string, message: string, now: Time, c: Config)
    requires c.Valid() && Inv(s, c) && s.clock <= now
    ensures Inv(DoGiveUpTask(s, id, actorUID, code, message, now, c), c)
  {
    hide T.FailForActor, S.Inv, T.Inv, W.Inv, Tickets, Deliveries, T.Follows;
    TimePasses(s, now, c);
    T.FailForActorFollows(s.tasks, id, actorUID, code, message, true, now, c.tasks);
    var (tasks, answer) := T.FailForActor(s.tasks, id, actorUID, code, message, true, now, c.tasks);
    TasksFollow(s.(clock := now), tasks, {}, c);
    if answer == T.FailApplied {
      Leaves(s.(clock := now, tasks := tasks), id, c);
    }
  }

  /** A closed task may be marked for invalidation. */
  lemma Leaves(s: State, id: string, c: Config)
    requires Inv(s, c) && ClosedTask(s, id)
    ensures Inv(s.(leaving := s.leaving + {id}), c)
  {
    hide S.Inv, T.Inv, W.Inv, IssuedOk, Indexed, AttemptRecorded, Justified, Spent;
    var after := s.(leaving := s.leaving + {id});
    LeavesTickets(s, id, c);
    hide Tickets;
    RememberSelf(s, after);
    VerdictsPersist(s, after);
    forall i | 0 <= i < |s.wb.attempts| ensures AttemptRecorded(after, i) { SameAttemptHistory(s, after, i); }
  }

  lemma LeavesTickets(s: State, id: string, c: Config)
    requires Tickets(s, c) && ClosedTask(s, id)
    ensures Tickets(s.(leaving := s.leaving + {id}), c)
  {
    hide IssuedOk, Indexed;
    var after := s.(leaving := s.leaving + {id});
    forall w | w in s.issued ensures IssuedOk(after, c, s.issued[w]) { SameHistory(s, after, c, s.issued[w]); }
    forall t | t in after.leaving ensures ClosedTask(after, t) { assert ClosedTask(s, t); }
  }

  lemma CompleteTaskStep(s: State, v: Verdict, now: Time, c: Config)
    requires c.Valid() && Inv(s, c) && s.clock <= now && v in s.verdicts
    ensures Inv(s.(clock := now, tasks := T.CompleteResult(s.tasks, v.taskID, v.resultID, v.outcome, now, c.tasks).0), c)
  {
    hide T.CompleteResult, S.Inv, T.Inv, W.Inv, Tickets, AttemptsRecorded, T.Follows;
    TimePasses(s, now, c);
    var mid := s.(clock := now);
    T.CompleteResultFollows(s.tasks, v.taskID, v.resultID, v.outcome, now, c.tasks);
    var tasks := T.CompleteResult(s.tasks, v.taskID, v.resultID, v.outcome, now, c.tasks).0;
    T.FollowsAt(s.tasks, tasks, {v.taskID}, v.taskID, c.tasks);
    if v.taskID in tasks.byID && tasks.byID[v.taskID].status == T.Completed {
      CompletionIsJustified(mid, tasks, v, now, c);
    }
    TasksFollow(mid, tasks, {v.taskID}, c);
  }

  /** The verdict that completes a task states how an attempt ended, for a verdict that comes too
      late finds the task over; and the task is delivered, since its ticket was issued. */
  lemma CompletionIsJustified(s: State, tasks: T.Table, v: Verdict, now: Time, c: Config)
    requires Inv(s, c) && s.clock == now && v in s.verdicts && v.taskID in tasks.byID && T.Evolves(s.tasks, tasks, v.taskID)
    requires var after := tasks.byID[v.taskID];
      after.status == T.Completed && !(v.taskID in s.tasks.byID && s.tasks.byID[v.taskID].status == T.Completed) ==>
        v.outcome.status == Applied && after.resultID == v.resultID
        && v.taskID in s.tasks.byID && !s.tasks.byID[v.taskID].Over() && now < s.tasks.byID[v.taskID].info.expiresAt
        && after.delivered == s.tasks.byID[v.taskID].delivered
    requires tasks.byID[v.taskID].status == T.Completed
    ensures Justified(s.(tasks := tasks), tasks.byID[v.taskID])
  {
    hide S.Inv, T.Inv, W.Inv, Indices, Spent, Barred;
    var after := s.(tasks := tasks);
    RememberSelf(s, after);
    VerdictsPersist(s, after);
    var before := s.tasks.byID[v.taskID];
    assert Justified(s, before);
    if before.status == T.Completed {
      SameJustification(s, after, before, tasks.byID[v.taskID]);
    } else {
      assert Grounded(s, v);
      var i: nat :| Ended(s, i, v.taskID, v.resultID, v.outcome);
      assert AttemptRecorded(s, i);
      assert Ended(after, i, v.taskID, v.resultID, v.outcome);
    }
  }

  // Tickets -----------------------------------------------------------------

  /** A writeback step whose effect on tickets is that of cleanup. */
  lemma CleaningStep(s: State, after: State, c: Config)
    requires Inv(s, c) && s.clock <= after.clock && after == s.(clock := after.clock, wb := after.wb)
    requires SameTickets(W.Cleanup(s.wb, after.clock), after.wb) && W.Follows(s.wb, after.wb, after.clock)
    requires forall i :: |s.wb.attempts| <= i < |after.wb.attempts| ==> AttemptRecorded(after, i)
    ensures Inv(after, c)
  {
    hide S.Inv, T.Inv, W.Inv, Deliveries, W.Cleanup, Tickets, W.Follows, AttemptRecorded;
    TicketsCleaned(s, after, c);
    WritebackStep(s, after, c);
  }

  lemma ReadTicketStep(s: State, now: Time, c: Config)
    requires Inv(s, c) && s.clock <= now
    ensures Inv(s.(clock := now, wb := W.Cleanup(s.wb, now)), c)
  {
    hide S.Inv, T.Inv, W.Inv, Deliveries, W.Cleanup, Tickets, W.Follows, AttemptRecorded, W.QuietBut;
    W.CleanupFollows(s.wb, s.clock, now);
    W.CleanupQuiet(s.wb, now);
    CleaningStep(s, s.(clock := now, wb := W.Cleanup(s.wb, now)), c);
  }

  lemma SubmitStep(s: State, r: W.Request, target: W.Target, now: Time, c: Config)
    requires Inv(s, c) && s.clock <= now
    ensures Inv(s.(clock := now, wb := W.StartDelivery(s.wb, r, target, now, c.writebacks).0), c)
  {
    hide S.Inv, T.Inv, W.Inv, W.Cleanup, W.Follows, W.StartDelivery, Tickets, AttemptRecorded, Deliveries;
    var after := s.(clock := now, wb := W.StartDelivery(s.wb, r, target, now, c.writebacks).0);
    W.StartFollows(s.wb, r, target, s.clock, now, c.writebacks);
    StartTickets(s.wb, r, target, now, c.writebacks);
    if |after.wb.attempts| > |s.wb.attempts| {
      NewAttemptRecorded(s, after, target, c);
    }
    CleaningStep(s, after, c);
  }

  lemma NewAttemptRecorded(s: State, after: State, target: W.Target, c: Config)
    requires Tickets(s, c) && after == s.(clock := after.clock, wb := after.wb)
    requires |after.wb.attempts| == |s.wb.attempts| + 1
    requires after.wb.attempts[|s.wb.attempts|].target == target
    requires target.ref in s.wb.tickets && s.wb.tickets[target.ref] == target
    ensures AttemptRecorded(after, |s.wb.attempts|)
  {
    hide Indices, TicketsSpent, ContextsBarred, TasksClosed, TicketedTasksDelivered, IssuedOk;
  }

  lemma StartTickets(t: W.Table, r: W.Request, target: W.Target, now: Time, config: W.Config)
    ensures SameTickets(W.Cleanup(t, now), W.StartDelivery(t, r, target, now, config).0)
  {
    hide W.Cleanup;
  }

  lemma ContextGrantStep(s: State, info: S.Info, drawn: string, inner: Time, c: Config)
    requires c.Valid() && Inv(s, c) && s.clock <= inner && drawn != "" && drawn !in s.issued
    requires info.ref in s.made && s.made[info.ref] == info
    ensures Inv(GrantContext(s, info, drawn, inner, c), c)
  {
    hide S.Inv, T.Inv, W.Inv, Deliveries, W.Follows, AttemptRecorded, Tickets, W.IssueContext;
    var after := GrantContext(s, info, drawn, inner, c);
    W.IssueContextFollows(s.wb, info, drawn, s.clock, inner, c.writebacks);
    ContextGrantTickets(s, info, drawn, inner, c);
    WritebackStep(s, after, c);
  }

  lemma ContextGrantTickets(s: State, info: S.Info, drawn: string, inner: Time, c: Config)
    requires c.Valid() && Tickets(s, c) && SnapshotsRecorded(s, c) && TasksRecorded(s)
    requires s.clock <= inner && drawn != "" && drawn !in s.issued
    requires info.ref in s.made && s.made[info.ref] == info
    ensures Tickets(GrantContext(s, info, drawn, inner, c), c) && IssuedStays(s, GrantContext(s, info, drawn, inner, c))
  {
    hide Tickets, W.Cleanup, W.SnapshotIssuable, W.SameSnapshot, SnapshotsRecorded, TasksRecorded;
    if W.IssueContext(s.wb, info, drawn, inner, c.writebacks).1 == W.NotIssuable {
      TicketsKept(s, GrantContext(s, info, drawn, inner, c), c);
    } else {
      var clean := s.(clock := inner, wb := W.Cleanup(s.wb, inner));
      TicketsCleaned(s, clean, c);
      CleanupCleans(s, inner);
      SnapshotsRecordedLater(s, clean, c);
      TasksRecordedLater(s, clean);
      CleanContextGrant(s, clean, info, drawn, inner, c);
    }
  }

  /** What issue decides once the table is clean. */
  lemma CleanContextGrant(s: State, clean: State, info: S.Info, drawn: string, inner: Time, c: Config)
    requires c.Valid() && clean == s.(clock := inner, wb := W.Cleanup(s.wb, inner)) && Cleaned(clean)
    requires Tickets(clean, c) && SnapshotsRecorded(clean, c) && TasksRecorded(clean)
    requires drawn != "" && drawn !in s.issued
    requires info.ref in s.made && s.made[info.ref] == info
    requires W.IssueContext(s.wb, info, drawn, inner, c.writebacks).1 != W.NotIssuable
    ensures Tickets(GrantContext(s, info, drawn, inner, c), c) && IssuedStays(s, GrantContext(s, info, drawn, inner, c))
  {
    hide Tickets, W.Cleanup, W.IssueContext, SnapshotsRecorded, TasksRecorded, W.DrawsContext;
    W.ContextGranted(s.wb, info, drawn, inner, c.writebacks);
    var answer := W.IssueContext(s.wb, info, drawn, inner, c.writebacks).1;
    if answer.Granted? {
      if W.DrawsContext(clean.wb, info, inner) {
        DrawnForUnbarred(clean, info, inner);
        ContextTicketDrawn(clean, GrantContext(s, info, drawn, inner, c), info, answer.target, c);
      } else {
        RegrantKeeps(clean, Lookup(clean.wb.byContext, info.ref), c);
      }
    }
  }

  lemma DrawnForUnbarred(s: State, info: S.Info, now: Time)
    requires Cleaned(s) && s.clock == now && W.DrawsContext(s.wb, info, now)
    ensures W.SnapshotIssuable(info) && info.ref !in s.wb.invalidated
    ensures var held := Lookup(s.wb.byContext, info.ref);
      !(held != "" && held in s.wb.tickets && W.SameSnapshot(s.wb.tickets[held], info))
  {
    hide W.SnapshotIssuable, W.SameSnapshot;
  }

  lemma DrawnForUnbarredTask(s: State, info: T.Info, now: Time)
    requires Cleaned(s) && s.clock == now && W.DrawsTask(s.wb, info, now)
    ensures W.TaskIssuable(info)
    ensures var held := Lookup(s.wb.byTask, info.id);
      !(held != "" && held in s.wb.tickets && W.SameTask(s.wb.tickets[held], info))
  {
    hide W.TaskIssuable, W.SameTask;
  }

  lemma TasksRecordedLater(s: State, after: State)
    requires TasksRecorded(s) && after.tasks == s.tasks && after.taskMade == s.taskMade
    ensures TasksRecorded(after)
  {
  }

  lemma SnapshotsRecordedLater(s: State, after: State, c: Config)
    requires SnapshotsRecorded(s, c) && s.clock <= after.clock && after.snaps == s.snaps && after.made == s.made
    ensures SnapshotsRecorded(after, c)
  {
  }

  /** Granting a held ticket again changes nothing that is recorded. */
  lemma RegrantKeeps(s: State, held: string, c: Config)
    requires Tickets(s, c) && held in s.wb.tickets
    ensures var x := s.wb.tickets[held]; s.issued[x.ref := x] == s.issued
  {
    hide Indices, TicketsSpent, ContextsBarred, TasksClosed, TicketedTasksDelivered;
    HeldTicketIsRecorded(s, held, c);
  }

  lemma TaskGrantTickets(s: State, info: T.Info, drawn: string, inner: Time, c: Config)
    requires c.Valid() && Tickets(s, c) && TasksRecorded(s)
    requires s.clock <= inner && drawn != "" && drawn !in s.issued
    requires info.id in s.taskMade && s.taskMade[info.id] == info
    requires info.id in s.tasks.byID && s.tasks.byID[info.id].delivered && !s.tasks.byID[info.id].Over()
    ensures Tickets(GrantTask(s, info, drawn, inner, c), c) && IssuedStays(s, GrantTask(s, info, drawn, inner, c))
  {
    hide Tickets, W.Cleanup, W.TaskIssuable, W.SameTask, TasksRecorded;
    if W.IssueTask(s.wb, info, drawn, inner, c.writebacks).1 == W.NotIssuable {
      TicketsKept(s, GrantTask(s, info, drawn, inner, c), c);
    } else {
      var clean := s.(clock := inner, wb := W.Cleanup(s.wb, inner));
      TicketsCleaned(s, clean, c);
      CleanupCleans(s, inner);
      TasksRecordedLater(s, clean);
      CleanTaskGrant(s, clean, info, drawn, inner, c);
    }
  }

  lemma CleanTaskGrant(s: State, clean: State, info: T.Info, drawn: string, inner: Time, c: Config)
    requires c.Valid() && clean == s.(clock := inner, wb := W.Cleanup(s.wb, inner)) && Cleaned(clean)
    requires Tickets(clean, c) && TasksRecorded(clean) && drawn != "" && drawn !in s.issued
    requires info.id in s.taskMade && s.taskMade[info.id] == info
    requires info.id in s.tasks.byID && s.tasks.byID[info.id].delivered && !s.tasks.byID[info.id].Over()
    requires W.IssueTask(s.wb, info, drawn, inner, c.writebacks).1 != W.NotIssuable
    ensures Tickets(GrantTask(s, info, drawn, inner, c), c) && IssuedStays(s, GrantTask(s, info, drawn, inner, c))
  {
    hide Tickets, W.Cleanup, W.IssueTask, TasksRecorded, W.DrawsTask;
    W.TaskGranted(s.wb, info, drawn, inner, c.writebacks);
    var answer := W.IssueTask(s.wb, info, drawn, inner, c.writebacks).1;
    if answer.Granted? {
      if W.DrawsTask(clean.wb, info, inner) {
        DrawnForUnbarredTask(clean, info, inner);
        NotEmptyID(s, info);
        TaskTicketDrawn(clean, GrantTask(s, info, drawn, inner, c), info, answer.target, c);
      } else {
        RegrantKeeps(clean, Lookup(clean.wb.byTask, info.id), c);
      }
    }
  }

  lemma NotEmptyID(s: State, info: T.Info)
    requires W.TaskIssuable(info)
    ensures info.id != ""
  {
    hide ValidArtifactID, ValidSinkID;
  }

  lemma TaskGrantStep(s: State, info: T.Info, drawn: string, inner: Time, c: Config)
    requires c.Valid() && Inv(s, c) && s.clock <= inner && drawn != "" && drawn !in s.issued
    requires info.id in s.taskMade && s.taskMade[info.id] == info
    requires info.id in s.tasks.byID && s.tasks.byID[info.id].delivered && !s.tasks.byID[info.id].Over()
    ensures Inv(GrantTask(s, info, drawn, inner, c), c)
  {
    hide S.Inv, T.Inv, W.Inv, Deliveries, W.Follows, AttemptRecorded, Tickets, W.IssueTask;
    var after := GrantTask(s, info, drawn, inner, c);
    W.IssueTaskFollows(s.wb, info, drawn, s.clock, inner, c.writebacks);
    TaskGrantTickets(s, info, drawn, inner, c);
    WritebackStep(s, after, c);
  }

  lemma IssueForContextStep(s: State, ref: string, revision: nat, drawn: string, now: Time, inner: Time, c: Config)
    requires c.Valid() && Inv(s, c) && Enabled(s, IssueForContext(ref, revision, drawn, inner), now, c)
    ensures Inv(DoIssueForContext(s, ref, revision, drawn, now, inner, c), c)
  {
    hide S.Inv, T.Inv, W.Inv, Deliveries, Tickets, S.Observe, GrantContext;
    SnapshotOpStep(s, S.DoObserve(ref), now, c);
    var (snaps, status) := S.WithCurrent(s.snaps, ref, revision, now, c.snapshots);
    if status == S.Active && ref in snaps.byRef {
      var mid := s.(clock := now, snaps := snaps);
      assert SnapshotsRecorded(mid, c);
      ContextGrantStep(mid, snaps.byRef[ref].info, drawn, inner, c);
    }
  }

  lemma WritableMid(s: State, taskRef: string, id: string, now: Time, c: Config)
    requires c.Valid() && Inv(s, c) && s.clock <= now
    ensures var (tasks, task) := T.WithWritable(s.tasks, taskRef, id, now, c.tasks);
      var mid := s.(clock := now, tasks := tasks);
      && Inv(mid, c)
      && (task.Some? ==> id in mid.tasks.byID && mid.tasks.byID[id] == task.value && task.value.delivered && !task.value.Over()
                         && now < task.value.info.expiresAt && id in mid.taskMade && mid.taskMade[id] == task.value.info
                         && task.value.info.id == id)
      && (task.None? && id in tasks.byID && tasks.byID[id].info.ref == taskRef && tasks.byID[id].delivered ==> tasks.byID[id].Over())
  {
    hide T.WithWritable, S.Inv, T.Inv, W.Inv, Tickets, Deliveries, T.Follows, SnapshotsRecorded;
    TimePasses(s, now, c);
    T.WithWritableFollows(s.tasks, taskRef, id, now, c.tasks);
    TasksFollow(s.(clock := now), T.WithWritable(s.tasks, taskRef, id, now, c.tasks).0, {}, c);
  }

  lemma IssueForTaskStep(s: State, taskRef: string, id: string, drawn: string, now: Time, inner: Time, c: Config)
    requires c.Valid() && Inv(s, c) && Enabled(s, IssueForTask(taskRef, id, drawn, inner), now, c)
    ensures Inv(DoIssueForTask(s, taskRef, id, drawn, now, inner, c), c)
  {
    hide T.WithWritable, Inv, GrantTask;
    WritableMid(s, taskRef, id, now, c);
    var (tasks, task) := T.WithWritable(s.tasks, taskRef, id, now, c.tasks);
    if task.Some? {
      TaskGrantStep(s.(clock := now, tasks := tasks), task.value.info, drawn, inner, c);
    }
  }

  // Invalidation ------------------------------------------------------------

  lemma InvalidateContextStep(s: State, ref: string, now: Time, c: Config)
    requires c.Valid() && Inv(s, c) && s.clock <= now
    ensures Inv(Next(s, InvalidateContext(ref), now, c), c)
  {
    hide S.Inv, T.Inv, W.Inv, Deliveries, W.Follows, AttemptRecorded, Tickets, W.InvalidateContext, TasksRecorded;
    if ref == "" {
      InvalidateNothing(s.wb, now, c.writebacks);
      TimePasses(s, now, c);
    } else {
      var after := Next(s, InvalidateContext(ref), now, c);
      var clean := s.(clock := now, wb := W.Cleanup(s.wb, now));
      TicketsCleaned(s, clean, c);
      SnapshotsRecordedLater(s, clean, c);
      ContextClosing(s.wb, ref, now, c.writebacks);
      ContextClosed(clean, after, ref, now, c);
      W.InvalidateContextFollows(s.wb, ref, s.clock, now, c.writebacks);
      WritebackStep(s, after, c);
    }
  }

  lemma InvalidateNothing(t: W.Table, now: Time, config: W.Config)
    ensures W.InvalidateContext(t, "", now, config) == t
  {
  }

  lemma ContextClosing(t: W.Table, ref: string, now: Time, config: W.Config)
    requires ref != ""
    ensures var clean := W.Cleanup(t, now);
      SameTickets(W.InvalidateContext(t, ref, now, config),
                  clean.(invalidated := clean.invalidated[ref := now + config.ticketTTL],
                         byContext := clean.byContext - {ref},
                         tickets := clean.tickets - {Lookup(clean.byContext, ref)}))
  {
    hide W.Cleanup;
  }

  lemma TaskClosing(t: W.Table, id: string, now: Time, config: W.Config)
    requires OpaqueID("atk_", id)
    ensures var clean := W.Cleanup(t, now);
      SameTickets(W.InvalidateTask(t, id, now, config),
                  clean.(invalidatedTasks := clean.invalidatedTasks[id := now + config.ticketTTL],
                         byTask := clean.byTask - {id},
                         tickets := clean.tickets - {Lookup(clean.byTask, id)}))
  {
    hide W.Cleanup, OpaqueID;
  }

  lemma InvalidateTaskStep(s: State, id: string, now: Time, c: Config)
    requires c.Valid() && Inv(s, c) && Enabled(s, InvalidateTask(id), now, c)
    ensures Inv(Next(s, InvalidateTask(id), now, c), c)
  {
    hide Inv, Next, Enabled, OpaqueID, W.InvalidateTask;
    IsInvalidateTask(s, id, now, c);
    var after := Next(s, InvalidateTask(id), now, c);
    if OpaqueID("atk_", id) {
      ClosingStep(s, after, id, now, c);
    } else {
      ForeignTask(s.wb, id, now, c.writebacks);
      TimePasses(s, now, c);
    }
  }

  lemma ForeignTask(t: W.Table, id: string, now: Time, config: W.Config)
    requires !OpaqueID("atk_", id)
    ensures W.InvalidateTask(t, id, now, config) == t
  {
    hide OpaqueID, W.Cleanup;
  }

  lemma ClosingStep(s: State, after: State, id: string, now: Time, c: Config)
    requires c.Valid() && Inv(s, c) && s.clock <= now && id in s.leaving && OpaqueID("atk_", id)
    requires after == s.(clock := now, wb := W.InvalidateTask(s.wb, id, now, c.writebacks), closedTasks := s.closedTasks + {id})
    ensures Inv(after, c)
  {
    hide S.Inv, T.Inv, W.Inv, Deliveries, W.Follows, AttemptRecorded, Tickets, SnapshotsRecorded, OpaqueID, W.Cleanup, W.InvalidateTask;
    var clean := s.(clock := now, wb := W.Cleanup(s.wb, now));
    TicketsCleaned(s, clean, c);
    TaskClosing(s.wb, id, now, c.writebacks);
    W.OpaqueNotEmpty("atk_", id);
    TaskClosedInTickets(clean, after, id, now, c);
    W.InvalidateTaskFollows(s.wb, id, s.clock, now, c.writebacks);
    WritebackStep(s, after, c);
  }

  // Claims ------------------------------------------------------------------

  lemma ClaimTickets(t: W.Table, i: nat, now: Time)
    ensures SameTickets(W.Cleanup(t, now), W.Claim(t, i, now).0)
  {
    hide W.Cleanup, W.ClaimListed;
    if W.Unclaimed(W.Cleanup(t, now), i) { ListedTickets(W.Cleanup(t, now), i, now); }
  }

  lemma ListedTickets(t: W.Table, i: nat, now: Time)
    requires i < |t.attempts|
    ensures SameTickets(t, W.ClaimListed(t, i, now).0)
  {
    hide W.Live;
  }

  /** The claim inside the callback. */
  lemma ClaimInsideStep(s: State, i: nat, inner: Time, c: Config)
    requires Inv(s, c) && s.clock <= inner && i < |s.wb.attempts|
    ensures Inv(ClaimInside(s, i, inner), c)
  {
    hide S.Inv, T.Inv, W.Inv, W.Follows, AttemptRecorded, Tickets, W.Claim, W.Cleanup, Deliveries;
    W.ClaimFollows(s.wb, i, s.clock, inner);
    ClaimTickets(s.wb, i, inner);
    CleaningStep(s, ClaimInside(s, i, inner), c);
  }

  lemma ClaimSendStep(s: State, i: nat, now: Time, inner: Time, c: Config)
    requires i < |s.wb.attempts| && c.Valid() && Inv(s, c) && s.clock <= now <= inner
    ensures Inv(DoClaimSend(s, i, now, inner, c), c)
  {
    hide Inv, T.WithWritable, S.Observe, ClaimInside;
    var target := s.wb.attempts[i].target;
    if target.taskID != "" {
      WritableMid(s, target.taskRef, target.taskID, now, c);
      var (tasks, task) := T.WithWritable(s.tasks, target.taskRef, target.taskID, now, c.tasks);
      var mid := s.(clock := now, tasks := tasks);
      if task.None? {
        UnwritableIsClosed(mid, i, c);
        Leaves(mid, target.taskID, c);
      } else {
        ClaimInsideStep(mid, i, inner, c);
      }
    } else {
      SnapshotOpStep(s, S.DoObserve(target.contextRef), now, c);
      var (snaps, status) := S.WithCurrent(s.snaps, target.contextRef, target.snapshotRevision, now, c.snapshots);
      if status == S.Active {
        ClaimInsideStep(s.(clock := now, snaps := snaps), i, inner, c);
      }
    }
  }

  /** A ticketed task that is no longer writable is closed for good. */
  lemma UnwritableIsClosed(s: State, i: nat, c: Config)
    requires Inv(s, c) && i < |s.wb.attempts| && s.wb.attempts[i].target.taskID != ""
    requires var x := s.wb.attempts[i].target;
      x.taskID in s.tasks.byID && s.tasks.byID[x.taskID].info.ref == x.taskRef && s.tasks.byID[x.taskID].delivered ==>
        s.tasks.byID[x.taskID].Over()
    ensures ClosedTask(s, s.wb.attempts[i].target.taskID)
  {
    hide S.Inv, T.Inv, W.Inv, ReceiptsGrounded, VerdictsGrounded, CompletionsJustified, SnapshotsRecorded, Indices, TicketsSpent,
      ContextsBarred, TasksClosed;
    var x := s.wb.attempts[i].target;
    assert AttemptRecorded(s, i);
    assert IssuedOk(s, c, s.issued[x.ref]);
  }

  // Outcomes ----------------------------------------------------------------

  lemma PlatformStep(s: State, i: nat, o: Outcome, now: Time, c: Config)
    requires Inv(s, c) && s.clock <= now && i < |s.wb.attempts| && o.status in {DeliveryTimeout, NotConnected}
    ensures Inv(s.(clock := now, wb := W.CompletePlatform(s.wb, i, o)), c)
  {
    hide S.Inv, T.Inv, W.Inv, Deliveries, W.Follows, AttemptRecorded, Tickets, SnapshotsRecorded, TasksRecorded;
    var after := s.(clock := now, wb := W.CompletePlatform(s.wb, i, o));
    W.CompletePlatformFollows(s.wb, i, o, s.clock, now);
    W.PlatformQuiet(s.wb, i, o);
    TicketsKept(s, after, c);
    WritebackStep(s, after, c);
  }

  lemma ReceiptStep(s: State, m: W.Receipt, route: Route, now: Time, c: Config)
    requires Inv(s, c) && s.clock <= now
    ensures Inv(DoAcceptReceipt(s, m, route, now), c)
  {
    hide S.Inv, T.Inv, W.Inv, W.Follows, AttemptRecorded, Tickets, SnapshotsRecorded, TasksRecorded, W.CompleteReceipt, Deliveries;
    W.CompleteReceiptFollows(s.wb, m, route, s.clock, now);
    var (wb, accepted) := W.CompleteReceipt(s.wb, m, route);
    var mid := s.(clock := now, wb := wb);
    ReceiptTickets(s.wb, m, route);
    TicketsKept(s, mid, c);
    WritebackStep(s, mid, c);
    if accepted && m.taskID != "" {
      assert AnsweredAttempt(mid, wb.deliveries[m.resultID], m.taskID, m.resultID);
      ReceiptPending(mid, m.taskID, m.resultID, c);
    }
  }

  lemma ReceiptTickets(t: W.Table, m: W.Receipt, route: Route)
    ensures SameTickets(t, W.CompleteReceipt(t, m, route).0)
  {
  }

  /** An accepted receipt whose outcome the handler still has to read. */
  lemma ReceiptPending(s: State, id: string, resultID: string, c: Config)
    requires Inv(s, c) && id != "" && exists i: nat :: AnsweredAttempt(s, i, id, resultID)
    ensures Inv(s.(receipts := s.receipts + {(id, resultID)}), c)
  {
    hide S.Inv, T.Inv, W.Inv, AttemptRecorded, Tickets, Justified, Grounded;
    var after := s.(receipts := s.receipts + {(id, resultID)});
    var i: nat :| AnsweredAttempt(s, i, id, resultID);
    assert AnsweredAttempt(after, i, id, resultID);
    AttemptsUntouched(s, after);
    TicketsKept(s, after, c);
    RememberSelf(s, after);
    VerdictsPersist(s, after);
  }

  lemma AttemptsUntouched(s: State, after: State)
    requires AttemptsRecorded(s) && after == s.(receipts := after.receipts, verdicts := after.verdicts)
    ensures AttemptsRecorded(after)
  {
    forall i | 0 <= i < |s.wb.attempts| ensures AttemptRecorded(after, i) { SameAttemptHistory(s, after, i); }
  }

  lemma VerdictPending(s: State, v: Verdict, c: Config)
    requires Inv(s, c) && Grounded(s, v)
    ensures Inv(s.(verdicts := s.verdicts + {v}), c)
  {
    hide S.Inv, T.Inv, W.Inv, AttemptRecorded, Tickets, Justified, AnsweredAttempt, Grounded;
    var after := s.(verdicts := s.verdicts + {v});
    AttemptsUntouched(s, after);
    TicketsKept(s, after, c);
    RememberSelf(s, after);
    VerdictsPersist(s, after);
    assert Grounded(after, v) by { SameGrounds(s, after, v); }
  }

  lemma SameGrounds(s: State, after: State, v: Verdict)
    requires Grounded(s, v) && after == s.(receipts := after.receipts, verdicts := after.verdicts)
    ensures Grounded(after, v)
  {
    if HasEnded(s, v.taskID, v.resultID, v.outcome) {
      var i: nat :| Ended(s, i, v.taskID, v.resultID, v.outcome);
      assert Ended(after, i, v.taskID, v.resultID, v.outcome);
    }
  }

  /** What the receipt handler reads back through the table belongs to the receipt's own task, or the
      entry was replaced after the ticket's expiry, which is the expiry of the task. */
  lemma ReadOutcomeStep(s: State, id: string, resultID: string, now: Time, c: Config)
    requires Inv(s, c) && s.clock <= now && (id, resultID) in s.receipts
    ensures Inv(DoReadOutcome(s, id, resultID, now), c)
  {
    TimePasses(s, now, c);
    var mid := s.(clock := now);
    hide T.Inv, S.Inv;
    if W.OutcomeOf(s.wb, resultID).Some? {
      ReadBack(mid, id, resultID, c);
      VerdictPending(mid, Verdict(id, resultID, W.OutcomeOf(s.wb, resultID).value), c);
    }
  }

  lemma ReadBack(s: State, id: string, resultID: string, c: Config)
    requires Inv(s, c) && (id, resultID) in s.receipts && W.OutcomeOf(s.wb, resultID).Some?
    ensures Grounded(s, Verdict(id, resultID, W.OutcomeOf(s.wb, resultID).value))
  {
    hide T.Inv, S.Inv, VerdictsGrounded, CompletionsJustified, Indices, TicketsSpent, ContextsBarred, TasksClosed,
      TicketedTasksDelivered, SnapshotsRecorded;
    var i: nat :| AnsweredAttempt(s, i, id, resultID);
    var a := s.wb.attempts[i];
    W.AttemptsAreOk(s.wb, i, s.clock);
    assert AttemptRecorded(s, i) && IssuedOk(s, c, s.issued[a.target.ref]);
    if s.clock < a.retainUntil {
      assert Ended(s, i, id, resultID, a.outcome.value);
    }
  }

  lemma ReadVerdictStep(s: State, i: nat, now: Time, c: Config)
    requires Inv(s, c) && s.clock <= now && i < |s.wb.attempts| && !s.wb.attempts[i].Open()
    ensures Inv(DoReadVerdict(s, i, now), c)
  {
    TimePasses(s, now, c);
    hide T.Inv, S.Inv, Tickets, Deliveries, SnapshotsRecorded, TasksRecorded;
    var mid := s.(clock := now);
    var a := s.wb.attempts[i];
    W.AttemptsAreOk(s.wb, i, s.clock);
    if a.key.taskID != "" {
      assert Ended(mid, i, a.key.taskID, a.resultID, a.outcome.value);
      VerdictPending(mid, Verdict(a.key.taskID, a.resultID, a.outcome.value), c);
    }
  }

  // All steps ---------------------------------------------------------------

  lemma StepKeepsInv(s: State, step: Step, now: Time, c: Config)
    requires c.Valid() && Inv(s, c) && Enabled(s, step, now, c)
    ensures Inv(Next(s, step, now, c), c)
  {
    hide Inv, DoCreateSnapshot, DoIssueForContext, DoCreateTask, DoGiveUpTask, DoIssueForTask, DoClaimSend, DoAcceptReceipt,
      DoReadOutcome, DoReadVerdict, W.Cleanup, W.StartDelivery, W.CompletePlatform, T.CompleteResult, T.Apply, S.VictimChosen,
      S.Observe, S.Invalidate, W.InvalidateContext, W.InvalidateTask, OpaqueID;
    match step
    case CreateSnapshot(what, ref, victim) => CreateSnapshotStep(s, what, ref, victim, now, c);
    case ReadSnapshot(ref) => SnapshotOpStep(s, S.DoObserve(ref), now, c);
    case RetireSnapshot(ref, actorUID) => SnapshotOpStep(s, S.DoInvalidate(ref, actorUID), now, c);
    case IssueForContext(ref, revision, drawn, inner) => IssueForContextStep(s, ref, revision, drawn, now, inner, c);
    case InvalidateContext(ref) => InvalidateContextStep(s, ref, now, c);
    case CreateTask(candidate, identity, victim) => CreateTaskStep(s, candidate, identity, victim, now, c);
    case TaskStep(op) => TaskOpStep(s, op, now, c);
    case GiveUpTask(id, actorUID, code, message) => GiveUpStep(s, id, actorUID, code, message, now, c);
    case IssueForTask(taskRef, id, drawn, inner) => IssueForTaskStep(s, taskRef, id, drawn, now, inner, c);
    case InvalidateTask(id) => InvalidateTaskStep(s, id, now, c);
    case ReadTicket => ReadTicketStep(s, now, c);
    case Submit(request, target) => SubmitStep(s, request, target, now, c);
    case ClaimSend(i, inner) => ClaimSendStep(s, i, now, inner, c);
    case EndByPlatform(i, outcome) => PlatformStep(s, i, outcome, now, c);
    case AcceptReceipt(m, route) => ReceiptStep(s, m, route, now, c);
    case ReadOutcome(id, resultID) => ReadOutcomeStep(s, id, resultID, now, c);
    case ReadVerdict(i) => ReadVerdictStep(s, i, now, c);
    case CompleteTask(v) => CompleteTaskStep(s, v, now, c);
  }

  lemma {:induction false} RunKeepsInv(start: Time, run: seq<Event>, c: Config)
    requires c.Valid() && IsRun(start, run, c)
    ensures Inv(After(start, run, c), c)
  {
    hide Inv, Next, Enabled;
    if run == [] {
      StartInv(start, c);
    } else {
      var most := run[..|run| - 1];
      RunKeepsInv(start, most, c);
      StepKeepsInv(After(start, most, c), run[|run| - 1].step, run[|run| - 1].now, c);
    }
  }
}
