/** When exactly a source receives a second ticket. A callback reads the writeback store's clock after
    the store that runs it has vouched for the source; if that second reading comes late enough, what
    stood for the first ticket is gone: the ticket itself, or the tombstone of its invalidation. */
module SecondTickets {
  import opened Basics
  import S = SnapshotTable
  import T = TaskTable
  import W = WritebackTable
  import opened Protocol
  import opened ProtocolCases
  import opened ProtocolInvariant
  import opened ProtocolSteps
  import opened ProtocolTheorems

  // What every run keeps besides the invariant ----------------------------------------

  /** Only closed sources have tombstones. */
  predicate Tombstones(s: State) {
    s.wb.invalidated.Keys <= s.closed && s.wb.invalidatedTasks.Keys <= s.closedTasks
  }

  /** The source a ticket was issued for can be issued for. */
  predicate SourceOk(s: State, x: W.Target) {
    if x.contextRef != "" then x.contextRef in s.made && W.SnapshotIssuable(s.made[x.contextRef])
    else x.taskID in s.taskMade && W.TaskIssuable(s.taskMade[x.taskID])
  }

  predicate Issuable(s: State) {
    forall w :: w in s.issued ==> SourceOk(s, s.issued[w])
  }

  predicate Fewer(t: W.Table, after: W.Table) {
    after.invalidated.Keys <= t.invalidated.Keys && after.invalidatedTasks.Keys <= t.invalidatedTasks.Keys
  }

  lemma CleanupFewer(t: W.Table, now: Time)
    ensures Fewer(t, W.Cleanup(t, now))
  {
    hide W.LiveTickets, W.LiveIndex, W.Overdue;
  }

  lemma IssueContextFewer(t: W.Table, info: S.Info, drawn: string, now: Time, config: W.Config)
    ensures Fewer(t, W.IssueContext(t, info, drawn, now, config).0)
  {
    hide W.Cleanup, W.SnapshotIssuable, W.SameSnapshot;
    CleanupFewer(t, now);
  }

  lemma IssueTaskFewer(t: W.Table, task: T.Info, drawn: string, now: Time, config: W.Config)
    ensures Fewer(t, W.IssueTask(t, task, drawn, now, config).0)
  {
    hide W.Cleanup, W.TaskIssuable, W.SameTask;
    CleanupFewer(t, now);
  }

  lemma ClaimFewer(t: W.Table, i: nat, now: Time)
    ensures Fewer(t, W.Claim(t, i, now).0)
  {
    hide W.Cleanup, W.Live, W.Unclaimed;
    CleanupFewer(t, now);
  }

  lemma StartFewer(t: W.Table, request: W.Request, target: W.Target, now: Time, config: W.Config)
    ensures Fewer(t, W.StartDelivery(t, request, target, now, config).0)
  {
    hide W.Cleanup;
    CleanupFewer(t, now);
  }

  lemma ContextIssueStepFewer(s: State, ref: string, revision: nat, drawn: string, now: Time, inner: Time, c: Config)
    ensures Fewer(s.wb, DoIssueForContext(s, ref, revision, drawn, now, inner, c).wb)
  {
    hide S.WithCurrent, W.IssueContext;
    var snaps := S.WithCurrent(s.snaps, ref, revision, now, c.snapshots).0;
    if ref in snaps.byRef { IssueContextFewer(s.wb, snaps.byRef[ref].info, drawn, inner, c.writebacks); }
  }

  lemma TaskIssueStepFewer(s: State, taskRef: string, id: string, drawn: string, now: Time, inner: Time, c: Config)
    ensures Fewer(s.wb, DoIssueForTask(s, taskRef, id, drawn, now, inner, c).wb)
  {
    hide T.WithWritable, W.IssueTask;
    var task := T.WithWritable(s.tasks, taskRef, id, now, c.tasks).1;
    if task.Some? { IssueTaskFewer(s.wb, task.value.info, drawn, inner, c.writebacks); }
  }

  lemma ClaimStepFewer(s: State, i: nat, now: Time, inner: Time, c: Config)
    requires i < |s.wb.attempts|
    ensures Fewer(s.wb, DoClaimSend(s, i, now, inner, c).wb)
  {
    hide S.WithCurrent, T.WithWritable, W.Claim;
    ClaimFewer(s.wb, i, inner);
  }

  lemma ReceiptFewer(s: State, m: W.Receipt, route: Route, now: Time)
    ensures Fewer(s.wb, DoAcceptReceipt(s, m, route, now).wb)
  {
    hide W.Accepts, W.ReceiptOutcome;
  }

  /** A step other than an invalidation makes no tombstone. */
  lemma StepFewer(s: State, step: Step, now: Time, c: Config)
    requires !step.InvalidateContext? && !step.InvalidateTask?
    ensures Fewer(s.wb, Next(s, step, now, c).wb)
  {
    hide Enabled, S.Create, T.Create, T.FailForActor, DoIssueForContext, DoIssueForTask, DoClaimSend, DoAcceptReceipt, W.Cleanup, W.StartDelivery,
      T.CompleteResult, T.Apply, S.Observe, S.Invalidate, W.OutcomeOf;
    match step
    case ReadTicket => CleanupFewer(s.wb, now);
    case Submit(request, target) => StartFewer(s.wb, request, target, now, c.writebacks);
    case AcceptReceipt(m, route) => ReceiptFewer(s, m, route, now);
    case ClaimSend(i, inner) => if i < |s.wb.attempts| { ClaimStepFewer(s, i, now, inner, c); }
    case IssueForContext(ref, revision, drawn, inner) => ContextIssueStepFewer(s, ref, revision, drawn, now, inner, c);
    case IssueForTask(taskRef, id, drawn, inner) => TaskIssueStepFewer(s, taskRef, id, drawn, now, inner, c);
    case _ =>
  }

  lemma InvalidationTombstones(t: W.Table, ref: string, id: string, now: Time, config: W.Config)
    ensures W.InvalidateContext(t, ref, now, config).invalidated.Keys <= t.invalidated.Keys + if ref == "" then {} else {ref}
    ensures W.InvalidateContext(t, ref, now, config).invalidatedTasks.Keys <= t.invalidatedTasks.Keys
    ensures W.InvalidateTask(t, id, now, config).invalidatedTasks.Keys <= t.invalidatedTasks.Keys + if OpaqueID("atk_", id) then {id} else {}
    ensures W.InvalidateTask(t, id, now, config).invalidated.Keys <= t.invalidated.Keys
  {
    hide W.Cleanup, OpaqueID, W.Unclaimed;
    CleanupFewer(t, now);
  }

  lemma StepKeepsTombstones(s: State, step: Step, now: Time, c: Config)
    requires Tombstones(s)
    ensures Tombstones(Next(s, step, now, c))
  {
    hide Next, Enabled;
    if step.InvalidateContext? || step.InvalidateTask? {
      InvalidatedTombstones(s, step, now, c);
    } else {
      StepFewer(s, step, now, c);
      StepRemembersClosed(s, step, now, c);
    }
  }

  lemma InvalidatedTombstones(s: State, step: Step, now: Time, c: Config)
    requires Tombstones(s) && (step.InvalidateContext? || step.InvalidateTask?)
    ensures Tombstones(Next(s, step, now, c))
  {
    hide Enabled, DoCreateSnapshot, DoIssueForContext, DoIssueForTask, DoClaimSend, DoGiveUpTask, DoCreateTask, DoAcceptReceipt, DoReadOutcome,
      DoReadVerdict, W.InvalidateContext, W.InvalidateTask, OpaqueID, S.Observe, S.Invalidate, T.Apply, T.CompleteResult, W.StartDelivery,
      W.CompletePlatform, W.Cleanup;
    match step
    case InvalidateContext(ref) => InvalidationTombstones(s.wb, ref, "", now, c.writebacks);
    case InvalidateTask(id) => InvalidationTombstones(s.wb, "", id, now, c.writebacks);
  }

  // Sources ---------------------------------------------------------------------------

  predicate Remembered(s: State, after: State) {
    && (forall ref :: ref in s.made ==> ref in after.made && after.made[ref] == s.made[ref])
    && (forall id :: id in s.taskMade ==> id in after.taskMade && after.taskMade[id] == s.taskMade[id])
  }

  lemma CreateRemembers(s: State, what: S.Candidate, ref: string, victim: string, now: Time, c: Config)
    requires ref !in s.made
    ensures var after := DoCreateSnapshot(s, what, ref, victim, now, c); Remembered(s, after) && after.issued == s.issued
  {
    hide S.Cleanup, S.Roomy, S.NextRevision;
  }

  lemma CreateTaskRemembers(s: State, what: T.Candidate, identity: Option<T.Identity>, victim: string, now: Time, c: Config)
    requires identity.Some? ==> identity.value.id !in s.taskMade
    ensures var after := DoCreateTask(s, what, identity, victim, now, c); Remembered(s, after) && after.issued == s.issued
  {
    hide T.Cleanup, T.Window, T.ActiveOf, T.IsVictim, T.Insert, T.Evict, T.Candidate.Valid;
  }

  lemma ContextIssueRemembers(s: State, ref: string, revision: nat, drawn: string, now: Time, inner: Time, c: Config)
    ensures Remembered(s, DoIssueForContext(s, ref, revision, drawn, now, inner, c))
  {
    hide S.WithCurrent, W.IssueContext;
  }

  lemma TaskIssueRemembers(s: State, taskRef: string, id: string, drawn: string, now: Time, inner: Time, c: Config)
    ensures Remembered(s, DoIssueForTask(s, taskRef, id, drawn, now, inner, c))
  {
    hide T.WithWritable, W.IssueTask;
  }

  lemma ReceiptRemembers(s: State, m: W.Receipt, route: Route, now: Time)
    ensures var after := DoAcceptReceipt(s, m, route, now); Remembered(s, after) && after.issued == s.issued
  {
    hide W.CompleteReceipt;
  }

  lemma ClaimRemembers(s: State, i: nat, now: Time, inner: Time, c: Config)
    requires i < |s.wb.attempts|
    ensures var after := DoClaimSend(s, i, now, inner, c); Remembered(s, after) && after.issued == s.issued
  {
    hide S.WithCurrent, T.WithWritable, W.Claim;
  }

  lemma GiveUpRemembers(s: State, id: string, actorUID: int, code: string, message: string, now: Time, c: Config)
    ensures var after := DoGiveUpTask(s, id, actorUID, code, message, now, c); Remembered(s, after) && after.issued == s.issued
  {
    hide T.FailForActor;
  }

  /** A step forgets no source, and only the two issue steps issue tickets. */
  lemma StepRemembers(s: State, step: Step, now: Time, c: Config)
    requires Enabled(s, step, now, c)
    ensures var after := Next(s, step, now, c);
      Remembered(s, after) && (step.IssueForContext? || step.IssueForTask? || after.issued == s.issued)
  {
    hide DoCreateSnapshot, DoIssueForContext, DoIssueForTask, DoClaimSend, DoGiveUpTask, DoCreateTask, DoAcceptReceipt, W.Cleanup, W.StartDelivery,
      W.CompletePlatform, T.CompleteResult, T.Apply, S.Observe, S.Invalidate, W.InvalidateContext, W.InvalidateTask, OpaqueID, W.OutcomeOf,
      S.VictimChosen, Remembered;
    Itself(s);
    match step
    case CreateSnapshot(what, ref, victim) => CreateRemembers(s, what, ref, victim, now, c);
    case IssueForContext(ref, revision, drawn, inner) => ContextIssueRemembers(s, ref, revision, drawn, now, inner, c);
    case IssueForTask(taskRef, id, drawn, inner) => TaskIssueRemembers(s, taskRef, id, drawn, now, inner, c);
    case GiveUpTask(id, actorUID, code, message) => GiveUpRemembers(s, id, actorUID, code, message, now, c);
    case CreateTask(what, identity, victim) => CreateTaskRemembers(s, what, identity, victim, now, c);
    case ClaimSend(i, inner) => ClaimRemembers(s, i, now, inner, c);
    case AcceptReceipt(m, route) => ReceiptRemembers(s, m, route, now);
    case _ => SameSources(s, Next(s, step, now, c));
  }

  lemma Itself(s: State)
    ensures Remembered(s, s)
  {
  }

  lemma SameSources(s: State, after: State)
    requires after.made == s.made && after.taskMade == s.taskMade
    ensures Remembered(s, after)
  {
  }

  // The second ticket -----------------------------------------------------------------

  /** No source was ever given two tickets. */
  predicate OneTicketPerSource(issued: map<string, W.Target>) {
    && (forall v, w :: v in issued && w in issued && issued[v].contextRef != "" && issued[v].contextRef == issued[w].contextRef ==> v == w)
    && (forall v, w :: v in issued && w in issued && issued[v].taskID != "" && issued[v].taskID == issued[w].taskID ==> v == w)
  }

  /** Some ticket was ever issued for the source. */
  predicate HadTicket(issued: map<string, W.Target>, source: string, kind: W.Kind) {
    exists w :: w in issued && W.Source(issued[w], kind) == source
  }

  predicate Room(wb: W.Table, inner: Time, config: W.Config) {
    |W.Cleanup(wb, inner).tickets| < config.maxEntries
  }

  /** What stands for the first ticket of a context, the ticket or the tombstone, is over at `inner`. */
  predicate ContextLapsed(wb: W.Table, ref: string, inner: Time) {
    if ref in wb.byContext then wb.byContext[ref] in wb.tickets ==> wb.tickets[wb.byContext[ref]].expiresAt <= inner
    else ref in wb.invalidated ==> wb.invalidated[ref] <= inner
  }

  /** The facts about the source of a grant inside the callback of withCurrent. */
  ghost predicate ContextGrantable(s: State, info: S.Info, w: string, drawn: string, inner: Time, c: Config) {
    && c.Valid() && Tickets(s, c) && SnapshotsRecorded(s, c) && TasksRecorded(s) && Tombstones(s) && s.clock <= inner
    && info.ref in s.made && s.made[info.ref] == info && s.clock < info.expiresAt && W.SnapshotIssuable(info)
    && w in s.issued && s.issued[w].contextRef == info.ref && drawn !in s.issued
  }

  /** While a snapshot is unexpired its one ticket, once issued, is held until the context is closed. */
  lemma NoSecondContextTicket(s: State, info: S.Info, w: string, c: Config)
    requires c.Valid() && TicketsRecorded(s, c) && Indices(s) && TicketsSpent(s) && ContextsBarred(s) && SnapshotsRecorded(s, c)
    requires "" !in s.closedTasks
    requires info.ref in s.made && s.made[info.ref] == info && s.clock < info.expiresAt
    requires w in s.issued && s.issued[w].contextRef == info.ref
    requires !(info.ref in s.wb.invalidated)
    ensures w in s.wb.tickets && Lookup(s.wb.byContext, info.ref) == w
  {
    hide S.Inv;
    assert Spent(s, s.issued[w]) && IssuedOk(s, c, s.issued[w]) && Barred(s, info.ref);
  }

  lemma NoSecondTaskTicket(s: State, info: T.Info, w: string, c: Config)
    requires TicketsRecorded(s, c) && Indices(s) && TicketsSpent(s) && "" !in s.closed && TasksClosed(s)
    requires info.id in s.taskMade && s.taskMade[info.id] == info && info.id != "" && s.clock < info.expiresAt
    requires w in s.issued && s.issued[w].taskID == info.id && info.id !in s.closedTasks
    ensures w in s.wb.tickets && Lookup(s.wb.byTask, info.id) == w
  {
    assert Spent(s, s.issued[w]) && IssuedOk(s, c, s.issued[w]);
  }

  lemma LookupIn(index: map<string, string>, source: string)
    ensures Lookup(index, source) != "" ==> source in index
  {
  }

  /** A source that had a ticket is closed, with a tombstone and no ticket, or still holds its ticket. */
  lemma ContextStands(s: State, info: S.Info, w: string, drawn: string, inner: Time, c: Config)
    requires ContextGrantable(s, info, w, drawn, inner, c)
    ensures if info.ref in s.closed then info.ref in s.wb.invalidated && info.ref !in s.wb.byContext
            else info.ref !in s.wb.invalidated && info.ref in s.wb.byContext && s.wb.byContext[info.ref] == w && w in s.wb.tickets
  {
    hide S.Inv, TicketedTasksDelivered, ValidArtifactID;
    assert Spent(s, s.issued[w]) && IssuedOk(s, c, s.issued[w]) && Barred(s, info.ref);
    NoEmptyClosed(s);
    if info.ref !in s.closed {
      NoSecondContextTicket(s, info, w, c);
      LookupIn(s.wb.byContext, info.ref);
    }
  }

  lemma CleanIndexed(wb: W.Table, ref: string, inner: Time)
    requires ref in wb.byContext && wb.byContext[ref] in wb.tickets && wb.tickets[wb.byContext[ref]].contextRef == ref != ""
    ensures var clean := W.Cleanup(wb, inner); var w := wb.byContext[ref];
      if wb.tickets[w].expiresAt <= inner then ref !in clean.byContext
      else ref in clean.byContext && clean.byContext[ref] == w && w in clean.tickets && clean.tickets[w] == wb.tickets[w]
  {
    hide W.Overdue;
  }

  lemma CleanTombstone(wb: W.Table, ref: string, inner: Time)
    ensures var clean := W.Cleanup(wb, inner);
      && (ref in clean.invalidated <==> ref in wb.invalidated && inner < wb.invalidated[ref])
      && (ref in clean.invalidated ==> clean.invalidated[ref] == wb.invalidated[ref])
      && (ref !in wb.byContext ==> ref !in clean.byContext)
  {
    hide W.Overdue;
  }

  /** A context that had a ticket draws another one, room permitting, exactly when what stood for the
      first is over. */
  lemma ContextDraws(s: State, info: S.Info, w: string, drawn: string, inner: Time, c: Config)
    requires ContextGrantable(s, info, w, drawn, inner, c)
    ensures W.DrawsContext(W.Cleanup(s.wb, inner), info, inner) <==> ContextLapsed(s.wb, info.ref, inner)
  {
    hide W.Cleanup, W.SnapshotIssuable, W.SameSnapshot, Tickets, ContextGrantable;
    ContextStands(s, info, w, drawn, inner, c);
    CleanTombstone(s.wb, info.ref, inner);
    if info.ref !in s.closed {
      StandingTicket(s, info, w, drawn, inner, c);
      CleanIndexed(s.wb, info.ref, inner);
    }
    Issues(s, info, w, drawn, inner, c);
  }

  lemma Issues(s: State, info: S.Info, w: string, drawn: string, inner: Time, c: Config)
    requires ContextGrantable(s, info, w, drawn, inner, c)
    ensures W.SnapshotIssuable(info)
  {
  }

  lemma StandingTicket(s: State, info: S.Info, w: string, drawn: string, inner: Time, c: Config)
    requires ContextGrantable(s, info, w, drawn, inner, c) && info.ref !in s.closed
    ensures var wb := s.wb;
      && info.ref in wb.byContext && wb.byContext[info.ref] == w && w in wb.tickets && w != ""
      && wb.tickets[w].contextRef == info.ref != "" && W.SameSnapshot(wb.tickets[w], info)
  {
    hide TicketedTasksDelivered, ValidArtifactID, ContextsBarred, TasksClosed, TicketsSpent;
    ContextStands(s, info, w, drawn, inner, c);
    assert IssuedOk(s, c, s.issued[w]);
    HeldContextTicketMatches(s, info, w, c);
  }

  lemma IssueContextCases(t: W.Table, info: S.Info, drawn: string, now: Time, config: W.Config)
    ensures var clean := W.Cleanup(t, now); var answer := W.IssueContext(t, info, drawn, now, config).1;
      && (!W.SnapshotIssuable(info) ==> answer == W.NotIssuable)
      && (W.SnapshotIssuable(info) && W.DrawsContext(clean, info, now) ==>
            answer == if |clean.tickets| < config.maxEntries then W.Granted(W.SnapshotTarget(info, drawn, now, config)) else W.TicketsFull)
      && (W.SnapshotIssuable(info) && !W.DrawsContext(clean, info, now) ==>
            answer == W.Closed || (var held := Lookup(clean.byContext, info.ref); held in clean.tickets && answer == W.Granted(clean.tickets[held])))
  {
    hide W.Cleanup, W.SnapshotIssuable, W.SameSnapshot, W.SnapshotTarget;
  }

  /** A grant leaves the issued tickets alone or adds the drawn one, the latter exactly when it draws
      and has room. */
  lemma GrantContextShape(s: State, info: S.Info, drawn: string, inner: Time, c: Config)
    requires Tickets(s, c) && s.clock <= inner
    ensures var after := GrantContext(s, info, drawn, inner, c);
      after.issued == if W.SnapshotIssuable(info) && W.DrawsContext(W.Cleanup(s.wb, inner), info, inner) && Room(s.wb, inner, c.writebacks)
                      then s.issued[drawn := W.SnapshotTarget(info, drawn, inner, c.writebacks)] else s.issued
  {
    hide Tickets, W.Cleanup, W.SnapshotIssuable, W.DrawsContext, W.IssueContext;
    IssueContextCases(s.wb, info, drawn, inner, c.writebacks);
    var clean := s.(clock := inner, wb := W.Cleanup(s.wb, inner));
    TicketsCleaned(s, clean, c);
    var held := Lookup(clean.wb.byContext, info.ref);
    if held in clean.wb.tickets { RegrantKeeps(clean, held, c); }
  }

  lemma ContextCurrent(s: State, ref: string, revision: nat, now: Time, c: Config)
    requires Inv(s, c) && s.clock <= now && S.WithCurrent(s.snaps, ref, revision, now, c.snapshots).1 == S.Active
    ensures var snaps := S.WithCurrent(s.snaps, ref, revision, now, c.snapshots).0;
      && ref in snaps.byRef && ref in s.made && s.made[ref] == snaps.byRef[ref].info && s.made[ref].ref == ref && now < s.made[ref].expiresAt
  {
    hide S.WithCurrent, S.Inv, T.Inv, W.Inv, Tickets, Deliveries;
    S.CurrentIsLive(s.snaps, ref, revision, now, c.snapshots);
    CurrentInfo(s.snaps, ref, revision, now, c.snapshots);
  }

  lemma HadContextTicket(s: State, ref: string, c: Config) returns (w: string)
    requires HadTicket(s.issued, ref, W.ContextKind) && ref != "" && Issuable(s) && TicketsRecorded(s, c) && ref in s.made && s.made[ref].ref == ref
    ensures w in s.issued && s.issued[w].contextRef == ref && W.SnapshotIssuable(s.made[ref])
  {
    hide W.SnapshotIssuable, W.TaskIssuable, TicketsRecorded;
    w :| w in s.issued && W.Source(s.issued[w], W.ContextKind) == ref;
    assert SourceOk(s, s.issued[w]);
  }

  /** issueArtifactWritebackIfCurrent for a snapshot that is current and had a ticket: it draws a second
      one exactly when there is room and what stood for the first is over at the second reading. */
  lemma SecondContextTicketExactly(s: State, ref: string, revision: nat, drawn: string, now: Time, inner: Time, c: Config)
    requires c.Valid() && Inv(s, c) && Tombstones(s) && Issuable(s) && s.clock <= now <= inner && drawn !in s.issued
    requires S.WithCurrent(s.snaps, ref, revision, now, c.snapshots).1 == S.Active && HadTicket(s.issued, ref, W.ContextKind)
    ensures drawn in DoIssueForContext(s, ref, revision, drawn, now, inner, c).issued
            <==> Room(s.wb, inner, c.writebacks) && ContextLapsed(s.wb, ref, inner)
  {
    hide S.WithCurrent, Inv, Issuable, HadTicket, W.Cleanup, W.DrawsContext, W.SnapshotIssuable, ContextLapsed, GrantContext, Tickets, SnapshotsRecorded,
      TasksRecorded;
    ContextCurrent(s, ref, revision, now, c);
    InvTickets(s, now, c);
    var snaps := S.WithCurrent(s.snaps, ref, revision, now, c.snapshots).0;
    var mid := s.(clock := now, snaps := snaps);
    TicketsAtMid(s, mid, c);
    var w := HadContextTicket(s, ref, c);
    assert ContextGrantable(s.(clock := now), s.made[ref], w, drawn, inner, c);
    ContextDraws(s.(clock := now), s.made[ref], w, drawn, inner, c);
    GrantContextShape(mid, s.made[ref], drawn, inner, c);
  }

  lemma InvTickets(s: State, now: Time, c: Config)
    requires Inv(s, c) && s.clock <= now
    ensures var later := s.(clock := now);
      && Inv(later, c) && Tickets(later, c) && SnapshotsRecorded(later, c) && TasksRecorded(later) && TicketsRecorded(s, c) && "" !in s.made
      && "" !in s.taskMade
  {
    hide S.Inv, T.Inv, W.Inv, Deliveries, Indices, TicketsSpent, ContextsBarred, TasksClosed, TicketedTasksDelivered, OneTicketPerSource, IssuedOk;
    TimePasses(s, now, c);
  }

  /** The tickets do not depend on what the snapshot store holds. */
  lemma TicketsAtMid(s: State, mid: State, c: Config)
    requires mid == s.(clock := mid.clock, snaps := mid.snaps) && Tickets(s.(clock := mid.clock), c)
    ensures Tickets(mid, c)
  {
    hide Indexed;
    var later := s.(clock := mid.clock);
    forall w | w in s.issued ensures IssuedOk(mid, c, s.issued[w]) && Spent(mid, s.issued[w]) {
      assert IssuedOk(later, c, s.issued[w]) && Spent(later, s.issued[w]);
    }
    forall ref | ref in s.made ensures Barred(mid, ref) { assert Barred(later, ref); }
    forall id | id in s.leaving ensures ClosedTask(mid, id) { assert ClosedTask(later, id); }
  }

  // Tasks -----------------------------------------------------------------------------

  /** The facts about the source of a grant inside the callback of withWritable. */
  ghost predicate TaskGrantable(s: State, info: T.Info, w: string, c: Config) {
    && Tickets(s, c) && TasksRecorded(s) && Tombstones(s)
    && info.id in s.taskMade && s.taskMade[info.id] == info && s.clock < info.expiresAt && W.TaskIssuable(info)
    && info.id in s.tasks.byID && !s.tasks.byID[info.id].Over()
    && w in s.issued && s.issued[w].taskID == info.id
  }

  /** A live task that had a ticket has no tombstone and still holds its ticket, which ends with it. */
  lemma TaskStands(s: State, info: T.Info, w: string, c: Config)
    requires TaskGrantable(s, info, w, c)
    ensures info.id !in s.wb.invalidatedTasks && info.id in s.wb.byTask && s.wb.byTask[info.id] == w && w in s.wb.tickets && w != "" && info.id != ""
    ensures var x := s.wb.tickets[w]; x.taskID == info.id && x.expiresAt == info.expiresAt && W.SameTask(x, info)
  {
    hide W.TaskIssuable, TicketedTasksDelivered, Indexed;
    NotEmptyID(s, info);
    LiveNotLeaving(s, info.id);
    NoSecondTaskTicket(s, info, w, c);
    LookupIn(s.wb.byTask, info.id);
    HeldTaskTicketMatches(s, info, w, c);
    assert IssuedOk(s, c, s.issued[w]);
  }

  lemma CleanTaskIndex(wb: W.Table, id: string, inner: Time)
    requires id in wb.byTask && wb.byTask[id] in wb.tickets && wb.tickets[wb.byTask[id]].taskID == id != ""
    ensures var clean := W.Cleanup(wb, inner); var w := wb.byTask[id];
      && (id !in wb.invalidatedTasks ==> id !in clean.invalidatedTasks)
      && if wb.tickets[w].expiresAt <= inner then id !in clean.byTask
         else id in clean.byTask && clean.byTask[id] == w && w in clean.tickets && clean.tickets[w] == wb.tickets[w]
  {
    hide W.Overdue;
  }

  /** A live task that had a ticket draws another one, room permitting, exactly when it is over at the
      second reading. */
  lemma TaskDraws(s: State, info: T.Info, w: string, inner: Time, c: Config)
    requires TaskGrantable(s, info, w, c)
    ensures W.DrawsTask(W.Cleanup(s.wb, inner), info, inner) <==> info.expiresAt <= inner
  {
    hide W.Cleanup, W.SameTask, Tickets, TasksRecorded, OpaqueID, ValidArtifactID, ValidSinkID;
    TaskStands(s, info, w, c);
    CleanTaskIndex(s.wb, info.id, inner);
  }

  lemma IssueTaskCases(t: W.Table, info: T.Info, drawn: string, now: Time, config: W.Config)
    ensures var clean := W.Cleanup(t, now); var answer := W.IssueTask(t, info, drawn, now, config).1;
      && (!W.TaskIssuable(info) ==> answer == W.NotIssuable)
      && (W.TaskIssuable(info) && W.DrawsTask(clean, info, now) ==>
            answer == if |clean.tickets| < config.maxEntries then W.Granted(W.TaskTarget(info, drawn, now)) else W.TicketsFull)
      && (W.TaskIssuable(info) && !W.DrawsTask(clean, info, now) ==>
            answer == W.Closed || (var held := Lookup(clean.byTask, info.id); held in clean.tickets && answer == W.Granted(clean.tickets[held])))
  {
    hide W.Cleanup, W.TaskIssuable, W.SameTask, W.TaskTarget;
  }

  lemma GrantTaskShape(s: State, info: T.Info, drawn: string, inner: Time, c: Config)
    requires Tickets(s, c) && s.clock <= inner
    ensures var after := GrantTask(s, info, drawn, inner, c);
      after.issued == if W.TaskIssuable(info) && W.DrawsTask(W.Cleanup(s.wb, inner), info, inner) && Room(s.wb, inner, c.writebacks)
                      then s.issued[drawn := W.TaskTarget(info, drawn, inner)] else s.issued
  {
    hide Tickets, W.Cleanup, W.TaskIssuable, W.DrawsTask, W.IssueTask;
    IssueTaskCases(s.wb, info, drawn, inner, c.writebacks);
    var clean := s.(clock := inner, wb := W.Cleanup(s.wb, inner));
    TicketsCleaned(s, clean, c);
    var held := Lookup(clean.wb.byTask, info.id);
    if held in clean.wb.tickets { RegrantKeeps(clean, held, c); }
  }

  lemma HadTaskTicket(s: State, id: string, c: Config) returns (w: string)
    requires HadTicket(s.issued, id, W.TaskKind) && id != "" && Issuable(s) && TicketsRecorded(s, c) && id in s.taskMade && s.taskMade[id].id == id
    ensures w in s.issued && s.issued[w].taskID == id && W.TaskIssuable(s.taskMade[id])
  {
    hide W.SnapshotIssuable, W.TaskIssuable;
    w :| w in s.issued && W.Source(s.issued[w], W.TaskKind) == id;
    assert SourceOk(s, s.issued[w]) && IssuedOk(s, c, s.issued[w]);
  }

  /** issueArtifactTaskWritebackIfActive for a task that is writable and had a ticket: it draws a second
      one exactly when there is room and the task has expired at the second reading. */
  lemma SecondTaskTicketExactly(s: State, taskRef: string, id: string, drawn: string, now: Time, inner: Time, c: Config)
    requires c.Valid() && Inv(s, c) && Tombstones(s) && Issuable(s) && s.clock <= now <= inner && drawn !in s.issued
    requires T.WithWritable(s.tasks, taskRef, id, now, c.tasks).1.Some? && HadTicket(s.issued, id, W.TaskKind)
    ensures drawn in DoIssueForTask(s, taskRef, id, drawn, now, inner, c).issued
            <==> Room(s.wb, inner, c.writebacks) && T.WithWritable(s.tasks, taskRef, id, now, c.tasks).1.value.info.expiresAt <= inner
  {
    hide T.WithWritable, Inv, Issuable, HadTicket, W.Cleanup, W.DrawsTask, W.TaskIssuable, GrantTask, Tickets;
    WritableMid(s, taskRef, id, now, c);
    var (tasks, task) := T.WithWritable(s.tasks, taskRef, id, now, c.tasks);
    var mid := s.(clock := now, tasks := tasks);
    InvTickets(mid, now, c);
    SameIssuable(s, mid);
    var w := HadTaskTicket(mid, id, c);
    TaskDraws(mid, task.value.info, w, inner, c);
    GrantTaskShape(mid, task.value.info, drawn, inner, c);
  }

  lemma SameIssuable(s: State, after: State)
    requires Issuable(s) && Remembered(s, after) && after.issued == s.issued
    ensures Issuable(after)
  {
    hide W.SnapshotIssuable, W.TaskIssuable;
    forall w | w in after.issued ensures SourceOk(after, after.issued[w]) { assert SourceOk(s, s.issued[w]); }
  }

  // Steps -----------------------------------------------------------------------------

  /** Event `e` gives a source that had a ticket another one. Everything here can be told before the
      callback's store is asked. */
  predicate SecondDraw(s: State, e: Event, c: Config) {
    match e.step
    case IssueForContext(ref, revision, _, inner) =>
      && S.WithCurrent(s.snaps, ref, revision, e.now, c.snapshots).1 == S.Active && HadTicket(s.issued, ref, W.ContextKind)
      && Room(s.wb, inner, c.writebacks) && ContextLapsed(s.wb, ref, inner)
    case IssueForTask(taskRef, id, _, inner) =>
      var task := T.WithWritable(s.tasks, taskRef, id, e.now, c.tasks).1;
      && task.Some? && HadTicket(s.issued, id, W.TaskKind)
      && Room(s.wb, inner, c.writebacks) && task.value.info.expiresAt <= inner
    case _ => false
  }

  lemma UniqueGrowsExactly(issued: map<string, W.Target>, x: W.Target, kind: W.Kind)
    requires x.ref !in issued && W.Source(x, kind) != "" && (x.contextRef == "" || x.taskID == "")
    ensures OneTicketPerSource(issued[x.ref := x]) <==> OneTicketPerSource(issued) && !HadTicket(issued, W.Source(x, kind), kind)
  {
    var after := issued[x.ref := x];
    if HadTicket(issued, W.Source(x, kind), kind) {
      var w :| w in issued && W.Source(issued[w], kind) == W.Source(x, kind);
      assert after[w] == issued[w] && after[x.ref] == x;
    }
    if OneTicketPerSource(after) {
      forall w | w in issued ensures after[w] == issued[w] {
      }
    }
  }

  /** What the issue step does to the tickets ever issued. */
  lemma ContextStepShape(s: State, ref: string, revision: nat, drawn: string, now: Time, inner: Time, c: Config)
    requires c.Valid() && Inv(s, c) && s.clock <= now <= inner
    ensures var after := DoIssueForContext(s, ref, revision, drawn, now, inner, c);
      && (S.WithCurrent(s.snaps, ref, revision, now, c.snapshots).1 != S.Active ==> after.issued == s.issued)
      && (after.issued == s.issued
          || (ref != "" && ref in s.made && W.SnapshotIssuable(s.made[ref])
              && after.issued == s.issued[drawn := W.SnapshotTarget(s.made[ref], drawn, inner, c.writebacks)]
              && W.SnapshotTarget(s.made[ref], drawn, inner, c.writebacks).contextRef == ref))
  {
    hide S.WithCurrent, Inv, W.Cleanup, W.DrawsContext, W.SnapshotIssuable, GrantContext, Tickets, SnapshotsRecorded, TasksRecorded, Room;
    if S.WithCurrent(s.snaps, ref, revision, now, c.snapshots).1 == S.Active {
      ContextCurrent(s, ref, revision, now, c);
      InvTickets(s, now, c);
      var mid := s.(clock := now, snaps := S.WithCurrent(s.snaps, ref, revision, now, c.snapshots).0);
      TicketsAtMid(s, mid, c);
      GrantContextShape(mid, s.made[ref], drawn, inner, c);
    }
  }

  lemma TaskStepShape(s: State, taskRef: string, id: string, drawn: string, now: Time, inner: Time, c: Config)
    requires c.Valid() && Inv(s, c) && s.clock <= now <= inner
    ensures var after := DoIssueForTask(s, taskRef, id, drawn, now, inner, c);
      && (T.WithWritable(s.tasks, taskRef, id, now, c.tasks).1.None? ==> after.issued == s.issued)
      && (after.issued == s.issued
          || (id != "" && id in s.taskMade && W.TaskIssuable(s.taskMade[id])
              && after.issued == s.issued[drawn := W.TaskTarget(s.taskMade[id], drawn, inner)]
              && W.TaskTarget(s.taskMade[id], drawn, inner).taskID == id))
  {
    hide T.WithWritable, Inv, W.Cleanup, W.DrawsTask, W.TaskIssuable, GrantTask, Tickets, Room;
    WritableMid(s, taskRef, id, now, c);
    var (tasks, task) := T.WithWritable(s.tasks, taskRef, id, now, c.tasks);
    if task.Some? {
      var mid := s.(clock := now, tasks := tasks);
      InvTickets(mid, now, c);
      GrantTaskShape(mid, task.value.info, drawn, inner, c);
    }
  }

  lemma ContextStepSecond(s: State, ref: string, revision: nat, drawn: string, now: Time, inner: Time, c: Config)
    requires c.Valid() && Inv(s, c) && Tombstones(s) && Issuable(s) && s.clock <= now <= inner && drawn !in s.issued && drawn != ""
    ensures var after := DoIssueForContext(s, ref, revision, drawn, now, inner, c);
      && Issuable(after)
      && (OneTicketPerSource(after.issued)
          <==> OneTicketPerSource(s.issued) && !SecondDraw(s, At(now, IssueForContext(ref, revision, drawn, inner)), c))
  {
    hide S.WithCurrent, Inv, Issuable, HadTicket, Room, ContextLapsed, DoIssueForContext, OneTicketPerSource, W.SnapshotIssuable, Tombstones;
    ContextStepShape(s, ref, revision, drawn, now, inner, c);
    ContextIssueRemembers(s, ref, revision, drawn, now, inner, c);
    var after := DoIssueForContext(s, ref, revision, drawn, now, inner, c);
    if S.WithCurrent(s.snaps, ref, revision, now, c.snapshots).1 == S.Active && HadTicket(s.issued, ref, W.ContextKind) {
      SecondContextTicketExactly(s, ref, revision, drawn, now, inner, c);
    }
    if after.issued == s.issued {
      SameIssuable(s, after);
    } else {
      var x := W.SnapshotTarget(s.made[ref], drawn, inner, c.writebacks);
      UniqueGrowsExactly(s.issued, x, W.ContextKind);
      MoreIssuable(s, after, x);
    }
  }

  lemma TaskStepSecond(s: State, taskRef: string, id: string, drawn: string, now: Time, inner: Time, c: Config)
    requires c.Valid() && Inv(s, c) && Tombstones(s) && Issuable(s) && s.clock <= now <= inner && drawn !in s.issued && drawn != ""
    ensures var after := DoIssueForTask(s, taskRef, id, drawn, now, inner, c);
      && Issuable(after)
      && (OneTicketPerSource(after.issued)
          <==> OneTicketPerSource(s.issued) && !SecondDraw(s, At(now, IssueForTask(taskRef, id, drawn, inner)), c))
  {
    hide T.WithWritable, Inv, Issuable, HadTicket, Room, DoIssueForTask, OneTicketPerSource, W.TaskIssuable, Tombstones;
    TaskStepShape(s, taskRef, id, drawn, now, inner, c);
    TaskIssueRemembers(s, taskRef, id, drawn, now, inner, c);
    var after := DoIssueForTask(s, taskRef, id, drawn, now, inner, c);
    if T.WithWritable(s.tasks, taskRef, id, now, c.tasks).1.Some? && HadTicket(s.issued, id, W.TaskKind) {
      SecondTaskTicketExactly(s, taskRef, id, drawn, now, inner, c);
    }
    if after.issued == s.issued {
      SameIssuable(s, after);
    } else {
      var x := W.TaskTarget(s.taskMade[id], drawn, inner);
      UniqueGrowsExactly(s.issued, x, W.TaskKind);
      MoreIssuable(s, after, x);
    }
  }

  lemma MoreIssuable(s: State, after: State, x: W.Target)
    requires Issuable(s) && Remembered(s, after) && after.issued == s.issued[x.ref := x] && SourceOk(s, x)
    ensures Issuable(after)
  {
    hide W.SnapshotIssuable, W.TaskIssuable;
    forall w | w in after.issued ensures SourceOk(after, after.issued[w]) {
      if w != x.ref { assert SourceOk(s, s.issued[w]); }
    }
  }

  /** A step keeps what is traced, and sources keep at most one ticket unless it is a second draw. */
  lemma StepSecond(s: State, step: Step, now: Time, c: Config)
    requires c.Valid() && Inv(s, c) && Tombstones(s) && Issuable(s) && Enabled(s, step, now, c)
    ensures var after := Next(s, step, now, c);
      && Tombstones(after) && Issuable(after)
      && (OneTicketPerSource(after.issued) <==> OneTicketPerSource(s.issued) && !SecondDraw(s, At(now, step), c))
  {
    hide Inv, Issuable, Next, Enabled, OneTicketPerSource, HadTicket, S.WithCurrent, T.WithWritable, Room, ContextLapsed, Tombstones;
    StepKeepsTombstones(s, step, now, c);
    StepRemembers(s, step, now, c);
    if step.IssueForContext? || step.IssueForTask? {
      if step.IssueForContext? {
        IsIssueForContext(s, step.ref, step.revision, step.drawn, now, step.inner, c);
        ContextStepSecond(s, step.ref, step.revision, step.drawn, now, step.inner, c);
      } else {
        IsIssueForTask(s, step.taskRef, step.id, step.drawn, now, step.inner, c);
        TaskStepSecond(s, step.taskRef, step.id, step.drawn, now, step.inner, c);
      }
    } else {
      SameIssuable(s, Next(s, step, now, c));
    }
  }

  // Runs ------------------------------------------------------------------------------

  lemma {:induction false} RunTraced(start: Time, run: seq<Event>, c: Config)
    requires c.Valid() && IsRun(start, run, c)
    ensures var s := After(start, run, c); Inv(s, c) && Tombstones(s) && Issuable(s)
    decreases |run|
  {
    hide Inv, Next, Enabled, OneTicketPerSource, SecondDraw;
    RunKeepsInv(start, run, c);
    if run != [] {
      var n := |run| - 1;
      RunTraced(start, run[..n], c);
      StepSecond(After(start, run[..n], c), run[n].step, run[n].now, c);
    }
  }

  /** Event `k` of a run gives a source that had a ticket another one. */
  predicate SecondAt(start: Time, run: seq<Event>, k: nat, c: Config) {
    k < |run| && SecondDraw(After(start, run[..k], c), run[k], c)
  }

  /** A run gives every snapshot and every task at most one ticket exactly when none of its events asks
      for a ticket, with room for one, for a source that had one and whose standing is over at the second
      reading: the end of the task, of the ticket that stands for an open context, or of the tombstone
      that stands for a closed one. */
  lemma {:induction false} OneTicketExactly(start: Time, run: seq<Event>, c: Config)
    requires c.Valid() && IsRun(start, run, c)
    ensures OneTicketPerSource(After(start, run, c).issued) <==> forall k: nat :: !SecondAt(start, run, k, c)
    decreases |run|
  {
    hide Inv, Next, Enabled, SecondDraw, Issuable, Tombstones;
    if run != [] {
      hide OneTicketPerSource;
      var n := |run| - 1;
      OneTicketExactly(start, run[..n], c);
      RunTraced(start, run[..n], c);
      StepSecond(After(start, run[..n], c), run[n].step, run[n].now, c);
      SecondBefore(start, run, run[..n], c);
    }
  }

  lemma SecondBefore(start: Time, run: seq<Event>, most: seq<Event>, c: Config)
    requires run != [] && most == run[..|run| - 1]
    ensures (forall k: nat :: !SecondAt(start, run, k, c))
            <==> (forall k: nat :: !SecondAt(start, most, k, c)) && !SecondDraw(After(start, most, c), run[|run| - 1], c)
  {
    hide After, SecondDraw;
    var n := |run| - 1;
    forall k: nat | k < n ensures SecondAt(start, most, k, c) <==> SecondAt(start, run, k, c) {
      assert most[..k] == run[..k];
    }
    assert SecondAt(start, run, n, c) <==> SecondDraw(After(start, most, c), run[n], c);
  }

  // One clock reading per step ----------------------------------------------------------

  /** The callback of the step reads the same instant as the store that runs it. */
  predicate OneReading(e: Event) {
    match e.step
    case IssueForContext(_, _, _, inner) => inner == e.now
    case IssueForTask(_, _, _, inner) => inner == e.now
    case _ => true
  }

  lemma CurrentNotLapsed(s: State, ref: string, revision: nat, now: Time, c: Config)
    requires c.Valid() && Inv(s, c) && Tombstones(s) && s.clock <= now && HadTicket(s.issued, ref, W.ContextKind)
    requires S.WithCurrent(s.snaps, ref, revision, now, c.snapshots).1 == S.Active
    ensures !ContextLapsed(s.wb, ref, now)
  {
    hide S.WithCurrent, S.Inv, T.Inv, W.Inv, Deliveries, ContextsBarred, TasksClosed, TicketedTasksDelivered, TicketsSpent, Indexed;
    ContextCurrent(s, ref, revision, now, c);
    InvTickets(s, now, c);
    var w :| w in s.issued && W.Source(s.issued[w], W.ContextKind) == ref;
    assert IssuedOk(s, c, s.issued[w]);
    StandsUntilExpiry(s, s.made[ref], w, c);
  }

  /** A context that had a ticket is closed, and barred at least until its snapshot's expiry, or holds
      that ticket, which lasts as long. */
  lemma StandsUntilExpiry(s: State, info: S.Info, w: string, c: Config)
    requires c.Valid() && Tickets(s, c) && SnapshotsRecorded(s, c) && TasksRecorded(s) && Tombstones(s)
    requires info.ref in s.made && s.made[info.ref] == info && s.clock < info.expiresAt
    requires w in s.issued && s.issued[w].contextRef == info.ref
    ensures if info.ref in s.wb.byContext then s.wb.byContext[info.ref] in s.wb.tickets && info.expiresAt <= s.wb.tickets[s.wb.byContext[info.ref]].expiresAt
            else info.ref in s.wb.invalidated && info.expiresAt <= s.wb.invalidated[info.ref]
  {
    hide TicketedTasksDelivered, ValidArtifactID;
    assert Spent(s, s.issued[w]) && IssuedOk(s, c, s.issued[w]) && Barred(s, info.ref);
    NoEmptyClosed(s);
    if info.ref !in s.closed {
      NoSecondContextTicket(s, info, w, c);
      LookupIn(s.wb.byContext, info.ref);
    }
  }

  lemma OneReadingDrawsNone(s: State, e: Event, c: Config)
    requires c.Valid() && Inv(s, c) && Tombstones(s) && s.clock <= e.now && OneReading(e)
    ensures !SecondDraw(s, e, c)
  {
    hide Inv, S.WithCurrent, T.WithWritable, T.Inv, T.Follows, HadTicket, Room, ContextLapsed, Tombstones;
    match e.step
    case IssueForContext(ref, revision, _, _) =>
      if S.WithCurrent(s.snaps, ref, revision, e.now, c.snapshots).1 == S.Active && HadTicket(s.issued, ref, W.ContextKind) {
        CurrentNotLapsed(s, ref, revision, e.now, c);
      }
    case IssueForTask(taskRef, id, _, _) =>
      TasksOk(s, c);
      T.WithWritableFollows(s.tasks, taskRef, id, e.now, c.tasks);
    case _ =>
  }

  /** With one clock reading per step no event of a run draws a second ticket. */
  lemma OneReadingNeverSecond(start: Time, run: seq<Event>, k: nat, c: Config)
    requires c.Valid() && IsRun(start, run, c) && forall n :: 0 <= n < |run| ==> OneReading(run[n])
    ensures !SecondAt(start, run, k, c)
  {
    hide Inv, Enabled, Next, SecondDraw, Tombstones, Issuable, IsRun, After;
    if k < |run| {
      PrefixIsRun(start, run, k, c);
      RunTraced(start, run[..k], c);
      StepAt(start, run, k, c);
      EnabledLater(After(start, run[..k], c), run[k].step, run[k].now, c);
      assert OneReading(run[k]);
      OneReadingDrawsNone(After(start, run[..k], c), run[k], c);
    }
  }

  lemma EnabledLater(s: State, step: Step, now: Time, c: Config)
    requires Enabled(s, step, now, c)
    ensures s.clock <= now
  {
    hide S.VictimChosen, OpaqueID;
  }

  /** With one clock reading per step, no snapshot and no task ever receives two tickets. */
  lemma AtMostOneTicketPerSource(start: Time, run: seq<Event>, c: Config)
    requires c.Valid() && IsRun(start, run, c) && forall k :: 0 <= k < |run| ==> OneReading(run[k])
    ensures OneTicketPerSource(After(start, run, c).issued)
  {
    hide After, IsRun, OneTicketPerSource, SecondAt;
    OneTicketExactly(start, run, c);
    forall k: nat ensures !SecondAt(start, run, k, c) { OneReadingNeverSecond(start, run, k, c); }
  }
}
