/** The Hub over the three stores as they run. Its methods make the store calls of the handlers in
    their order, and each call is one step of Protocol's state machine: `events` records them, so what
    is proved about every run holds for every Hub. */
module Hub {
  import opened Basics
  import opened Outcomes
  import S = SnapshotTable
  import T = TaskTable
  import W = WritebackTable
  import TA = TaskAnswers
  import SnapshotStore
  import TaskStore
  import WritebackStore
  import opened Protocol
  import opened ProtocolCases
  import opened ProtocolInvariant
  import opened ProtocolSteps
  import opened ProtocolTheorems

  class Hub {
    const snapshots: SnapshotStore.Store
    const tasks: TaskStore.Store
    const writebacks: WritebackStore.Store
    ghost const config: Config
    ghost const start: Time
    ghost var events: seq<Event>      // the steps taken so far

    ghost function Repr(): set<object>
      reads this, snapshots, tasks, writebacks
    {
      {snapshots, tasks, writebacks} + snapshots.byRef.Values + tasks.byID.Values + set d | d in writebacks.all
    }

    ghost predicate StoresValid()
      reads this, Repr()
    {
      snapshots.Valid() && tasks.Valid() && writebacks.Linked()
    }

    ghost predicate Shows(s: State)
      reads this, Repr()
    {
      s.snaps == snapshots.View() && s.tasks == tasks.View() && s.wb == writebacks.View()
    }

    /** The stores are in the state to which the steps taken so far lead. */
    ghost predicate Valid()
      reads this, Repr()
    {
      StoresValid() && Configured() && Shows(Current())
    }

    ghost predicate Configured()
      reads this
    {
      config.Valid() && config == Config(snapshots.config, tasks.config, writebacks.config) && IsRun(start, events, config)
    }

    /** The state to which the steps taken so far lead. */
    ghost function Current(): State
      reads this
    {
      After(start, events, config)
    }

    ghost predicate CanTake(step: Step, now: Time)
      reads this, Repr()
    {
      Valid() && Enabled(Current(), step, now, config)
    }

    constructor (config: Config, now: Time)
      requires config.Valid()
      ensures Valid() && this.config == config && start == now && events == [] && fresh(Repr())
    {
      hide Inv, Next, Enabled, IsRun, After, SnapshotStore.Store.View, SnapshotStore.Store.Valid,
        TaskStore.Store.View, TaskStore.Store.Valid, WritebackStore.Store.View, WritebackStore.Store.Linked;
      snapshots := new SnapshotStore.Store(config.snapshots);
      tasks := new TaskStore.Store(config.tasks);
      writebacks := new WritebackStore.Store(config.writebacks);
      this.config := config;
      start, events := now, [];
      new;
      NoSteps(now, config);
    }

    /** Everything that holds in every reachable state holds of the stores. */
    lemma Reachable() returns (s: State)
      requires Valid()
      ensures s == Current() && Inv(s, config) && Shows(s)
    {
      hide Inv, After, IsRun, Enabled, Next;
      s := Current();
      RunKeepsInv(start, events, config);
    }

    /** A completed task was delivered, and one of the attempt objects, for exactly that task and result,
        was claimed for sending by one call and then ended as applied by a later receipt that came in on
        the preview connection of its ticket. */
    lemma CompletedWasApplied(id: string) returns (d: WritebackStore.Delivery, j: nat, k: nat)
      requires Valid() && id in tasks.byID && tasks.byID[id].status == T.Completed
      ensures tasks.byID[id].delivered && d in writebacks.all
      ensures d.target.taskID == id && d.resultID == tasks.byID[id].resultID && d.sendClaimed && d.completed && d.outcome.status == Applied
      ensures j < k < |events| && events[j].step.ClaimSend? && events[j].step.attempt == d.index
      ensures events[k].step.AcceptReceipt? && events[k].step.route == d.target.previewRoute
              && events[k].step.receipt.taskID == id && events[k].step.receipt.resultID == d.resultID
              && events[k].step.receipt.application == Some(d.outcome)
    {
      hide Inv, After, IsRun, Enabled, Next, ClaimsAt, AnswersAt, WritableThen;
      tasks.EntryView(id);
      tasks.SameKeys();
      var s := Reachable();
      var i;
      i, j, k := CompletedMeansApplied(start, events, id, config);
      InvParts(s, config);
      W.AttemptsAreOk(s.wb, i, s.clock);
      d := writebacks.all[i];
      writebacks.EntryView(d);
    }

    /** A step of the state machine that the stores have just taken. */
    ghost method Take(step: Step, now: Time)
      requires config.Valid() && config == Config(snapshots.config, tasks.config, writebacks.config) && StoresValid()
      requires IsRun(start, events, config) && Enabled(Current(), step, now, config)
      requires Shows(Next(Current(), step, now, config))
      modifies this`events
      ensures Valid() && events == old(events) + [At(now, step)] && Current() == Next(old(Current()), step, now, config)
    {
      hide Inv, Next, Enabled, IsRun, After, SnapshotStore.Store.View, SnapshotStore.Store.Valid,
        TaskStore.Store.View, TaskStore.Store.Valid, WritebackStore.Store.View, WritebackStore.Store.Linked;
      Extend(start, events, At(now, step), config);
      events := events + [At(now, step)];
    }

    /** issueArtifactWritebackIfCurrent: the ticket is issued inside the snapshot store's callback. */
    method IssueWritebackIfCurrent(ref: string, revision: nat, drawn: string, now: Time, inner: Time)
      returns (status: S.ContextState, answer: Option<W.Issue>)
      requires CanTake(IssueForContext(ref, revision, drawn, inner), now)
      modifies this, Repr()
      ensures Valid() && events == old(events) + [At(now, IssueForContext(ref, revision, drawn, inner))]
      ensures status == S.WithCurrent(old(snapshots.View()), ref, revision, now, snapshots.config).1
      ensures if status == S.Active
              then ref in old(snapshots.View()).byRef
                   && answer == Some(W.IssueContext(old(writebacks.View()), old(snapshots.View()).byRef[ref].info, drawn, inner, writebacks.config).1)
              else answer == None
    {
      hide Inv, Next, Enabled, IsRun, After, SnapshotStore.Store.View, SnapshotStore.Store.Valid,
        TaskStore.Store.View, TaskStore.Store.Valid, WritebackStore.Store.View, WritebackStore.Store.Linked, S.WithCurrent, W.IssueContext;
      ghost var s := Reachable();
      IssueForContextParts(s, ref, revision, drawn, now, inner, config);
      status, answer := IssueInside(ref, revision, drawn, now, inner);
      Take(IssueForContext(ref, revision, drawn, inner), now);
    }

    method IssueInside(ref: string, revision: nat, drawn: string, now: Time, inner: Time)
      returns (status: S.ContextState, answer: Option<W.Issue>)
      requires StoresValid()
      modifies snapshots, snapshots.byRef.Values, writebacks, writebacks.all
      ensures StoresValid() && tasks.View() == old(tasks.View()) && Repr() <= old(Repr())
      ensures (snapshots.View(), status) == S.WithCurrent(old(snapshots.View()), ref, revision, now, snapshots.config)
      ensures if status == S.Active
              then answer.Some? && (writebacks.View(), answer.value)
                   == W.IssueContext(old(writebacks.View()), old(snapshots.View()).byRef[ref].info, drawn, inner, writebacks.config)
              else answer.None? && writebacks.View() == old(writebacks.View())
    {
      hide Inv, Next, Enabled, IsRun, After, SnapshotStore.Store.View, SnapshotStore.Store.Valid,
        TaskStore.Store.View, TaskStore.Store.Valid, WritebackStore.Store.View, WritebackStore.Store.Linked, S.WithCurrent, W.IssueContext;
      var found;
      status, found := snapshots.WithCurrent(ref, revision, now);
      answer := None;
      if status == S.Active {
        var it := writebacks.Issue(found.value, drawn, inner);
        answer := Some(it);
      }
    }

    /** issueArtifactTaskWritebackIfActive: the ticket is issued inside the task store's callback. */
    method IssueTaskWritebackIfActive(taskRef: string, id: string, drawn: string, now: Time, inner: Time)
      returns (answer: Option<W.Issue>)
      requires CanTake(IssueForTask(taskRef, id, drawn, inner), now)
      modifies this, Repr()
      ensures Valid() && events == old(events) + [At(now, IssueForTask(taskRef, id, drawn, inner))]
      ensures match T.WithWritable(old(tasks.View()), taskRef, id, now, tasks.config).1
              case None => answer == None
              case Some(task) => answer == Some(W.IssueTask(old(writebacks.View()), task.info, drawn, inner, writebacks.config).1)
    {
      hide Inv, Next, Enabled, IsRun, After, SnapshotStore.Store.View, SnapshotStore.Store.Valid,
        TaskStore.Store.View, TaskStore.Store.Valid, WritebackStore.Store.View, WritebackStore.Store.Linked, T.WithWritable, W.IssueTask;
      ghost var s := Reachable();
      IssueForTaskParts(s, taskRef, id, drawn, now, inner, config);
      answer := IssueTaskInside(taskRef, id, drawn, now, inner);
      Take(IssueForTask(taskRef, id, drawn, inner), now);
    }

    method IssueTaskInside(taskRef: string, id: string, drawn: string, now: Time, inner: Time) returns (answer: Option<W.Issue>)
      requires StoresValid()
      modifies tasks, tasks.byID.Values, writebacks, writebacks.all
      ensures StoresValid() && snapshots.View() == old(snapshots.View()) && Repr() <= old(Repr())
      ensures tasks.View() == T.WithWritable(old(tasks.View()), taskRef, id, now, tasks.config).0
      ensures var found := T.WithWritable(old(tasks.View()), taskRef, id, now, tasks.config).1;
        if found.Some?
        then answer.Some? && (writebacks.View(), answer.value)
             == W.IssueTask(old(writebacks.View()), found.value.info, drawn, inner, writebacks.config)
        else answer.None? && writebacks.View() == old(writebacks.View())
    {
      hide Inv, Next, Enabled, IsRun, After, SnapshotStore.Store.View, SnapshotStore.Store.Valid,
        TaskStore.Store.View, TaskStore.Store.Valid, WritebackStore.Store.View, WritebackStore.Store.Linked, T.WithWritable, W.IssueTask;
      var found := tasks.WithWritable(taskRef, id, now);
      answer := None;
      if found.Some? {
        var it := writebacks.IssueForTask(found.value.info, drawn, inner);
        answer := Some(it);
      }
    }

    /** claimArtifactResultDeliveryForSend: the send is claimed inside the callback of the attempt's
        source; if the source is no longer there, its ticket is retired once the lock is released. */
    method ClaimDeliveryForSend(d: WritebackStore.Delivery, now: Time, inner: Time) returns (claimed: bool)
      requires Valid() && writebacks.Started(d) && CanTake(ClaimSend(d.index, inner), now)
      modifies this, Repr()
      ensures Valid()
      ensures var parts := ClaimParts(old(snapshots.View()), old(tasks.View()), old(writebacks.View()), d.target, d.index, now, inner,
                                      snapshots.config, tasks.config);
        && claimed == parts.4
        && events == old(events) + if parts.3 then [At(now, ClaimSend(d.index, inner))]
                                   else [At(now, ClaimSend(d.index, inner)), At(inner, Retires(d.target))]
    {
      hide Inv, Next, Enabled, IsRun, After, SnapshotStore.Store.View, SnapshotStore.Store.Valid,
        TaskStore.Store.View, TaskStore.Store.Valid, WritebackStore.Store.View, WritebackStore.Store.Linked, ClaimParts, Retires, SourceVouches, Claimed;
      ghost var s := Reachable();
      AttemptTarget(s, d);
      ClaimSendParts(s, d.index, now, inner, config);
      var active;
      active, claimed := ClaimInside(d, now, inner);
      Take(ClaimSend(d.index, inner), now);
      if !active {
        ClosingIsDue(s, d.index, now, inner, config);
        RetireSource(d, inner);
      }
    }

    lemma AttemptTarget(s: State, d: WritebackStore.Delivery)
      requires Shows(s) && writebacks.Started(d)
      ensures d.index < |s.wb.attempts| && s.wb.attempts[d.index].target == d.target
    {
      writebacks.EntryView(d);
    }

    method ClaimInside(d: WritebackStore.Delivery, now: Time, inner: Time) returns (active: bool, claimed: bool)
      requires StoresValid() && writebacks.Started(d)
      modifies Repr()
      ensures StoresValid() && Repr() <= old(Repr()) && writebacks.Started(d)
      ensures ClaimParts(old(snapshots.View()), old(tasks.View()), old(writebacks.View()), d.target, d.index, now, inner, snapshots.config, tasks.config)
              == (snapshots.View(), tasks.View(), writebacks.View(), active, claimed)
    {
      hide Inv, Next, Enabled, IsRun, After, SnapshotStore.Store.View, SnapshotStore.Store.Valid,
        TaskStore.Store.View, TaskStore.Store.Valid, WritebackStore.Store.View, WritebackStore.Store.Linked, S.WithCurrent, T.WithWritable, W.Claim;
      claimed := false;
      active := FindSource(d.target, now);
      if active {
        claimed := writebacks.ClaimForSend(d, inner);
      }
    }

    /** Whether withWritable or withCurrent of the target's source runs its callback. */
    method FindSource(x: W.Target, now: Time) returns (active: bool)
      requires snapshots.Valid() && tasks.Valid()
      modifies snapshots, snapshots.byRef.Values, tasks, tasks.byID.Values
      ensures snapshots.Valid() && tasks.Valid()
      ensures snapshots.byRef.Values <= old(snapshots.byRef.Values) && tasks.byID.Values <= old(tasks.byID.Values)
      ensures SourceParts(old(snapshots.View()), old(tasks.View()), x, now, snapshots.config, tasks.config) == (snapshots.View(), tasks.View(), active)
    {
      hide SnapshotStore.Store.View, SnapshotStore.Store.Valid, TaskStore.Store.View, TaskStore.Store.Valid, S.WithCurrent, T.WithWritable;
      if x.taskID != "" {
        var found := tasks.WithWritable(x.taskRef, x.taskID, now);
        active := found.Some?;
      } else {
        var status, found := snapshots.WithCurrent(x.contextRef, x.snapshotRevision, now);
        active := status == S.Active;
      }
    }

    method RetireSource(d: WritebackStore.Delivery, now: Time)
      requires CanTake(Retires(d.target), now)
      modifies this, Repr()
      ensures Valid() && events == old(events) + [At(now, Retires(d.target))]
    {
      hide Inv, Next, Enabled, IsRun, After, SnapshotStore.Store.View, SnapshotStore.Store.Valid,
        TaskStore.Store.View, TaskStore.Store.Valid, WritebackStore.Store.View, WritebackStore.Store.Linked, W.InvalidateContext, W.InvalidateTask, OpaqueID;
      ghost var s := Current();
      if d.target.taskID != "" {
        IsInvalidateTask(s, d.target.taskID, now, config);
        writebacks.InvalidateTask(d.target.taskID, now);
      } else {
        IsInvalidateContext(s, d.target.contextRef, now, config);
        writebacks.InvalidateContext(d.target.contextRef, now);
      }
      Take(Retires(d.target), now);
    }

    /** The create handler: the new snapshot is stored, then its predecessor is retired. */
    method CreateSnapshotFor(what: S.Candidate, draws: seq<string>, now: Time, later: Time) returns (created: S.Created, ghost victim: string)
      requires Valid() && |draws| == 4 && "" !in draws && Current().clock <= now <= later
      requires forall d :: d in draws ==> d !in Current().made && d !in Current().closed
      modifies this, Repr()
      ensures Valid() && created == S.Create(old(snapshots.View()), what, draws[0], victim, now, snapshots.config).1
      ensures var step := At(now, CreateSnapshot(what, draws[0], victim));
        if created.Stored? && created.previous != ""
        then events == old(events) + [step, At(later, InvalidateContext(created.previous))]
        else events == old(events) + [step]
    {
      hide Inv, Next, Enabled, IsRun, After, SnapshotStore.Store.View, SnapshotStore.Store.Valid,
        TaskStore.Store.View, TaskStore.Store.Valid, WritebackStore.Store.View, WritebackStore.Store.Linked, S.Create, S.Cleanup, S.VictimChosen, W.InvalidateContext, SnapshotStore.FirstUnused;
      ghost var s := Reachable();
      var answer, it := snapshots.Create(what, draws, now);
      victim := it;
      DrawIsNew(s, draws, now, config);
      created := answer.created;
      IsCreateSnapshot(s, what, draws[0], victim, now, config);
      Take(CreateSnapshot(what, draws[0], victim), now);
      if created.Stored? && created.previous != "" {
        Invalidate(created.previous, later);
      }
    }

    /** The invalidate handler tells the writeback store whatever the snapshot store answered. */
    method InvalidateSnapshot(ref: string, actorUID: int, now: Time, later: Time) returns (known: bool)
      requires Valid() && Current().clock <= now <= later
      modifies this, Repr()
      ensures Valid() && events == old(events) + [At(now, RetireSnapshot(ref, actorUID)), At(later, InvalidateContext(ref))]
      ensures known == S.Invalidate(old(snapshots.View()), ref, actorUID, now, snapshots.config).1
      ensures S.StatusOf(snapshots.View(), ref) == S.Active && ref in Current().closed
              <==> S.CurrentAt(old(snapshots.View()), ref, now) && old(snapshots.View()).byRef[ref].info.what.actorUID != actorUID
    {
      hide Inv, S.CurrentAt, S.StatusOf, Next, Enabled, IsRun, After, SnapshotStore.Store.View, SnapshotStore.Store.Valid,
        TaskStore.Store.View, TaskStore.Store.Valid, WritebackStore.Store.View, WritebackStore.Store.Linked, S.Invalidate, W.InvalidateContext;
      ghost var s := Reachable();
      InvalidationMissesExactly(s, ref, actorUID, now, later, config);
      known := snapshots.Invalidate(ref, actorUID, now);
      IsRetireSnapshot(s, ref, actorUID, now, config);
      Take(RetireSnapshot(ref, actorUID), now);
      Invalidate(ref, later);
    }

    method Invalidate(ref: string, now: Time)
      requires Valid() && Current().clock <= now
      modifies this, Repr()
      ensures Valid() && events == old(events) + [At(now, InvalidateContext(ref))]
      ensures Current() == Next(old(Current()), InvalidateContext(ref), now, config)
    {
      hide Inv, Next, Enabled, IsRun, After, SnapshotStore.Store.View, SnapshotStore.Store.Valid,
        TaskStore.Store.View, TaskStore.Store.Valid, WritebackStore.Store.View, WritebackStore.Store.Linked, W.InvalidateContext;
      ghost var s := Current();
      IsInvalidateContext(s, ref, now, config);
      writebacks.InvalidateContext(ref, now);
      Take(InvalidateContext(ref), now);
    }

    /** lookup on behalf of a reader. */
    method ReadContext(ref: string, now: Time) returns (status: S.ContextState, found: Option<S.Info>)
      requires Valid() && Current().clock <= now
      modifies this, Repr()
      ensures Valid() && events == old(events) + [At(now, ReadSnapshot(ref))]
      ensures status == S.Observe(old(snapshots.View()), ref, now, snapshots.config).1
      ensures found == if status == S.Active then Some(old(snapshots.View()).byRef[ref].info) else None
    {
      hide Inv, Next, Enabled, IsRun, After, SnapshotStore.Store.View, SnapshotStore.Store.Valid,
        TaskStore.Store.View, TaskStore.Store.Valid, WritebackStore.Store.View, WritebackStore.Store.Linked, S.Observe;
      ghost var s := Current();
      IsReadSnapshot(s, ref, now, config);
      status, found := snapshots.Lookup(ref, now);
      Take(ReadSnapshot(ref), now);
    }

    /** The submit handler reads the ticket it was given. */
    method FindTicket(ref: string, now: Time) returns (target: Option<W.Target>)
      requires Valid() && Current().clock <= now
      modifies this, Repr()
      ensures Valid() && events == old(events) + if OpaqueID("awr_", ref) then [At(now, ReadTicket)] else []
      ensures target == if OpaqueID("awr_", ref) && W.Live(old(writebacks.View()), ref, now)
                        then Some(old(writebacks.View()).tickets[ref]) else None
    {
      hide Inv, Next, Enabled, IsRun, After, SnapshotStore.Store.View, SnapshotStore.Store.Valid,
        TaskStore.Store.View, TaskStore.Store.Valid, WritebackStore.Store.View, WritebackStore.Store.Linked, W.Cleanup, OpaqueID;
      ghost var s := Current();
      IsReadTicket(s, now, config);
      target := writebacks.FindTarget(ref, now);
      if OpaqueID("awr_", ref) {
        Take(ReadTicket, now);
      }
    }

    /** startDelivery in the submit handler. */
    method Start(request: W.Request, target: W.Target, now: Time)
      returns (d: Option<WritebackStore.Delivery>, created: bool, code: string)
      requires CanTake(Submit(request, target), now)
      modifies this, Repr()
      ensures Valid() && fresh(Repr() - old(Repr())) && events == old(events) + [At(now, Submit(request, target))]
      ensures match W.StartDelivery(old(writebacks.View()), request, target, now, writebacks.config).1
              case Started(i, it) => d.Some? && writebacks.Started(d.value) && d.value.index == i && created == it && code == ""
              case Conflict => d.None? && !created && code == "result_id_conflict"
              case TargetExpired => d.None? && !created && code == "expired"
              case StoreFull => d.None? && !created && code == "unavailable"
    {
      hide Inv, Next, Enabled, IsRun, After, SnapshotStore.Store.View, SnapshotStore.Store.Valid,
        TaskStore.Store.View, TaskStore.Store.Valid, WritebackStore.Store.View, WritebackStore.Store.Linked, W.StartDelivery;
      ghost var s := Current();
      ghost var answer;
      IsSubmit(s, request, target, now, config);
      d, created, code, answer := writebacks.StartFor(request, target, now);
      Take(Submit(request, target), now);
    }

    /** completePlatform, when the send failed or the wait ran out. */
    method EndAttempt(d: WritebackStore.Delivery, outcome: Outcome, now: Time)
      requires Valid() && writebacks.Started(d) && CanTake(EndByPlatform(d.index, outcome), now)
      modifies this, Repr()
      ensures Valid() && events == old(events) + [At(now, EndByPlatform(d.index, outcome))]
    {
      hide Inv, Next, Enabled, IsRun, After, SnapshotStore.Store.View, SnapshotStore.Store.Valid,
        TaskStore.Store.View, TaskStore.Store.Valid, WritebackStore.Store.View, WritebackStore.Store.Linked, W.CompletePlatform;
      ghost var s := Current();
      IsEndByPlatform(s, d.index, outcome, now, config);
      writebacks.CompleteByPlatform(d, outcome);
      Take(EndByPlatform(d.index, outcome), now);
    }

    /** acceptArtifactResultReceipt: an accepted receipt for a task is read back through the table and
        handed to the task store. */
    method AcceptReceiptFrom(m: W.Receipt, route: Route, now: Time, read: Time, done: Time) returns (accepted: bool, ghost said: Outcome)
      requires Valid() && Current().clock <= now <= read <= done
      modifies this, Repr()
      ensures Valid() && accepted == W.CompleteReceipt(old(writebacks.View()), m, route).1
      ensures accepted ==> W.Says(m, said)
      ensures events == old(events) + if !accepted || m.taskID == "" then [At(now, AcceptReceipt(m, route))]
                                      else [At(now, AcceptReceipt(m, route)), At(read, ReadOutcome(m.taskID, m.resultID)),
                                            At(done, CompleteTask(Verdict(m.taskID, m.resultID, said)))]
      ensures !accepted || m.taskID == "" ==> tasks.View() == old(tasks.View())
      ensures accepted && m.taskID != "" ==>
                (T.Completes(old(tasks.View()), tasks.View(), m.taskID, m.resultID)
                 <==> T.TakesResult(old(tasks.View()), m.taskID, m.resultID, done, tasks.config)
                      && m.application.Some? && m.application.value.status == Applied)
    {
      hide Inv, Next, Enabled, IsRun, After, SnapshotStore.Store.View, SnapshotStore.Store.Valid,
        TaskStore.Store.View, TaskStore.Store.Valid, WritebackStore.Store.View, WritebackStore.Store.Linked, W.CompleteReceipt, W.OutcomeOf,
        T.CompleteResult, T.Completes, T.TakesResult, W.Says;
      accepted, said := TakeReceipt(m, route, now, read);
      if accepted && m.taskID != "" {
        W.AppliedIsSaid(m, said);
        T.CompleteResultExactly(tasks.View(), m.taskID, m.resultID, said, done, tasks.config);
        ForwardOutcome(m, said, read, done);
      }
    }

    /** completeReceipt */
    method TakeReceipt(m: W.Receipt, route: Route, now: Time, ghost read: Time) returns (accepted: bool, ghost said: Outcome)
      requires Valid() && Current().clock <= now <= read
      modifies this, Repr()
      ensures Valid() && Repr() <= old(Repr()) && accepted == W.CompleteReceipt(old(writebacks.View()), m, route).1
      ensures events == old(events) + [At(now, AcceptReceipt(m, route))] && tasks.View() == old(tasks.View())
      ensures accepted ==> W.OutcomeOf(writebacks.View(), m.resultID) == Some(said) && W.Says(m, said)
      ensures accepted && m.taskID != "" ==> CanTake(ReadOutcome(m.taskID, m.resultID), read)
    {
      hide Inv, Next, Enabled, IsRun, After, SnapshotStore.Store.View, SnapshotStore.Store.Valid,
        TaskStore.Store.View, TaskStore.Store.Valid, WritebackStore.Store.View, WritebackStore.Store.Linked, W.CompleteReceipt, W.OutcomeOf, W.Says;
      W.AcceptedIsRead(writebacks.View(), m, route);
      ReceiptParts(Current(), m, route, now, config);
      accepted := writebacks.AcceptReceipt(m, route);
      Take(AcceptReceipt(m, route), now);
      said := if accepted then W.OutcomeOf(writebacks.View(), m.resultID).value else W.ReceiptOutcome(m);
    }

    /** The outcome of an accepted receipt goes to the task store. */
    method ForwardOutcome(m: W.Receipt, ghost said: Outcome, read: Time, done: Time)
      requires read <= done && CanTake(ReadOutcome(m.taskID, m.resultID), read)
      requires W.OutcomeOf(writebacks.View(), m.resultID) == Some(said)
      modifies this, Repr()
      ensures Valid()
      ensures events == old(events) + [At(read, ReadOutcome(m.taskID, m.resultID)),
                                       At(done, CompleteTask(Verdict(m.taskID, m.resultID, said)))]
      ensures tasks.View() == T.CompleteResult(old(tasks.View()), m.taskID, m.resultID, said, done, tasks.config).0
    {
      hide Inv, Next, Enabled, IsRun, After, SnapshotStore.Store.View, SnapshotStore.Store.Valid,
        TaskStore.Store.View, TaskStore.Store.Valid, WritebackStore.Store.View, WritebackStore.Store.Linked, W.OutcomeOf, T.CompleteResult;
      var outcome := ReadBackOutcome(m.taskID, m.resultID, read);
      if outcome.Some? {
        Complete(Verdict(m.taskID, m.resultID, outcome.value), done);
      }
    }

    method ReadBackOutcome(id: string, resultID: string, now: Time) returns (outcome: Option<Outcome>)
      requires CanTake(ReadOutcome(id, resultID), now)
      modifies this`events
      ensures Valid() && events == old(events) + [At(now, ReadOutcome(id, resultID))]
      ensures Current().clock == now && outcome == W.OutcomeOf(writebacks.View(), resultID)
      ensures outcome.Some? ==> Verdict(id, resultID, outcome.value) in Current().verdicts
    {
      hide Inv, Next, Enabled, IsRun, After, SnapshotStore.Store.View, SnapshotStore.Store.Valid,
        TaskStore.Store.View, TaskStore.Store.Valid, WritebackStore.Store.View, WritebackStore.Store.Linked, W.OutcomeOf;
      ghost var s := Current();
      ReadParts(s, id, resultID, now, config);
      outcome := writebacks.FindOutcome(resultID);
      Take(ReadOutcome(id, resultID), now);
    }

    /** The end of the submit handler: the outcome of the attempt it waited for goes to the task store. */
    method Finish(d: WritebackStore.Delivery, now: Time, done: Time) returns (outcome: Outcome)
      requires Valid() && writebacks.Started(d) && d.completed && now <= done && CanTake(ReadVerdict(d.index), now)
      modifies this, Repr()
      ensures Valid() && outcome == old(d.outcome)
      ensures if d.key.taskID == "" then events == old(events) + [At(now, ReadVerdict(d.index))]
              else events == old(events) + [At(now, ReadVerdict(d.index)), At(done, CompleteTask(Verdict(d.key.taskID, d.resultID, outcome)))]
    {
      hide Inv, Next, Enabled, IsRun, After, SnapshotStore.Store.View, SnapshotStore.Store.Valid,
        TaskStore.Store.View, TaskStore.Store.Valid, WritebackStore.Store.View, WritebackStore.Store.Linked, T.CompleteResult;
      ghost var s := Current();
      writebacks.EntryView(d);
      VerdictParts(s, d.index, now, config);
      var o := writebacks.OutcomeFor(d);
      outcome := o.value;
      Take(ReadVerdict(d.index), now);
      if d.key.taskID != "" {
        Complete(Verdict(d.key.taskID, d.resultID, outcome), done);
      }
    }

    method Complete(v: Verdict, now: Time)
      requires Valid() && Current().clock <= now && v in Current().verdicts
      modifies this, Repr()
      ensures Valid() && events == old(events) + [At(now, CompleteTask(v))]
      ensures tasks.View() == T.CompleteResult(old(tasks.View()), v.taskID, v.resultID, v.outcome, now, tasks.config).0
    {
      hide Inv, Next, Enabled, IsRun, After, SnapshotStore.Store.View, SnapshotStore.Store.Valid,
        TaskStore.Store.View, TaskStore.Store.Valid, WritebackStore.Store.View, WritebackStore.Store.Linked, T.CompleteResult;
      ghost var s := Current();
      IsCompleteTask(s, v, now, config);
      var done := tasks.CompleteResult(v.taskID, v.resultID, v.outcome, now);
      Take(CompleteTask(v), now);
    }

    /** The delivery-failure handler: a task that could be failed has its ticket retired. */
    method GiveUp(id: string, actorUID: int, code: string, message: string, now: Time, later: Time) returns (answer: T.FailAnswer)
      requires Valid() && Current().clock <= now <= later
      modifies this, Repr()
      ensures Valid() && answer == T.FailForActor(old(tasks.View()), id, actorUID, code, message, true, now, tasks.config).1
      ensures TA.FailAnswers(old(tasks.View()), id, actorUID, true, now, tasks.config, answer)
      ensures if answer == T.FailApplied
              then events == old(events) + [At(now, GiveUpTask(id, actorUID, code, message)), At(later, InvalidateTask(id))]
              else events == old(events) + [At(now, GiveUpTask(id, actorUID, code, message))]
    {
      hide Inv, Next, Enabled, IsRun, After, SnapshotStore.Store.View, SnapshotStore.Store.Valid,
        TaskStore.Store.View, TaskStore.Store.Valid, WritebackStore.Store.View, WritebackStore.Store.Linked, T.FailForActor, W.InvalidateTask, TA.FailAnswers;
      ghost var s := Reachable();
      FailAnswered(s, id, actorUID, code, message, now, config);
      GiveUpParts(s, id, actorUID, code, message, now, config);
      answer := tasks.FailForActor(id, actorUID, code, message, true, now);
      Take(GiveUpTask(id, actorUID, code, message), now);
      if answer == T.FailApplied {
        CloseTask(id, later);
      }
    }

    method CloseTask(id: string, now: Time)
      requires CanTake(InvalidateTask(id), now)
      modifies this, Repr()
      ensures Valid() && events == old(events) + [At(now, InvalidateTask(id))]
    {
      hide Inv, Next, Enabled, IsRun, After, SnapshotStore.Store.View, SnapshotStore.Store.Valid,
        TaskStore.Store.View, TaskStore.Store.Valid, WritebackStore.Store.View, WritebackStore.Store.Linked, W.InvalidateTask;
      ghost var s := Current();
      IsInvalidateTask(s, id, now, config);
      writebacks.InvalidateTask(id, now);
      Take(InvalidateTask(id), now);
    }

    /** Task creation. */
    method CreateTaskFor(what: T.Candidate, draws: seq<T.Identity>, now: Time)
      returns (answer: T.Created, ghost identity: Option<T.Identity>, ghost victim: string)
      requires Valid() && Current().clock <= now
      requires forall d :: d in draws ==> NewToRun(Current(), d)
      modifies this, Repr()
      ensures Valid() && fresh(Repr() - old(Repr())) && events == old(events) + [At(now, CreateTask(what, identity, victim))]
      ensures answer == T.Create(old(tasks.View()), what, identity, victim, now, tasks.config).1
      ensures identity.Some? ==> identity.value in draws
    {
      hide Inv, Next, Enabled, IsRun, After, SnapshotStore.Store.View, SnapshotStore.Store.Valid,
        TaskStore.Store.View, TaskStore.Store.Valid, WritebackStore.Store.View, WritebackStore.Store.Linked, T.Create, T.Cleanup, TaskStore.FirstUnused, NewToRun;
      ghost var s := Current();
      answer, identity, victim := tasks.Create(what, draws, now);
      IsCreateTask(s, what, identity, victim, now, config);
      Take(CreateTask(what, identity, victim), now);
    }

    /** reserveDelivery */
    method ReserveDelivery(ref: string, actorUID: int, topicID: string, agentUID: int, client: string, now: Time) returns (answer: T.Reservation)
      requires Valid() && Current().clock <= now
      modifies this, Repr()
      ensures Valid() && events == old(events) + [At(now, TaskStep(T.DoReserve(ref, actorUID, topicID, agentUID, client)))]
      ensures answer == T.Reserve(old(tasks.View()), ref, actorUID, topicID, agentUID, client, now, tasks.config).1
      ensures TA.ReserveAnswers(old(tasks.View()), ref, actorUID, topicID, agentUID, client, now, tasks.config, answer)
    {
      hide Inv, Next, Enabled, IsRun, After, SnapshotStore.Store.View, SnapshotStore.Store.Valid,
        TaskStore.Store.View, TaskStore.Store.Valid, WritebackStore.Store.View, WritebackStore.Store.Linked, T.Apply, T.Reserve, T.Confirm, T.Release, T.FailDelivery, T.ObserveRun, TA.ReserveAnswers;
      ghost var s := Reachable();
      ReserveAnswered(s, ref, actorUID, topicID, agentUID, client, now, config);
      IsTaskStep(s, T.DoReserve(ref, actorUID, topicID, agentUID, client), now, config);
      answer := tasks.Reserve(ref, actorUID, topicID, agentUID, client, now);
      IsReserve(s.tasks, T.DoReserve(ref, actorUID, topicID, agentUID, client), now, config.tasks);
      Take(TaskStep(T.DoReserve(ref, actorUID, topicID, agentUID, client)), now);
    }

    /** confirmDelivery */
    method ConfirmDelivery(delivery: T.DeliveryRef, now: Time) returns (yes: bool)
      requires Valid() && Current().clock <= now
      modifies this, Repr()
      ensures Valid() && events == old(events) + [At(now, TaskStep(T.DoConfirm(delivery)))]
      ensures yes == T.Confirm(old(tasks.View()), delivery, now, tasks.config).1
    {
      hide Inv, Next, Enabled, IsRun, After, SnapshotStore.Store.View, SnapshotStore.Store.Valid,
        TaskStore.Store.View, TaskStore.Store.Valid, WritebackStore.Store.View, WritebackStore.Store.Linked, T.Apply, T.Reserve, T.Confirm, T.Release, T.FailDelivery, T.ObserveRun;
      ghost var s := Current();
      IsTaskStep(s, T.DoConfirm(delivery), now, config);
      yes := tasks.Confirm(delivery, now);
      IsConfirm(s.tasks, T.DoConfirm(delivery), now, config.tasks);
      Take(TaskStep(T.DoConfirm(delivery)), now);
    }

    /** releaseDelivery */
    method ReleaseDelivery(delivery: T.DeliveryRef, now: Time)
      requires Valid() && Current().clock <= now
      modifies this, Repr()
      ensures Valid() && events == old(events) + [At(now, TaskStep(T.DoRelease(delivery)))]
    {
      hide Inv, Next, Enabled, IsRun, After, SnapshotStore.Store.View, SnapshotStore.Store.Valid,
        TaskStore.Store.View, TaskStore.Store.Valid, WritebackStore.Store.View, WritebackStore.Store.Linked, T.Apply, T.Reserve, T.Confirm, T.Release, T.FailDelivery, T.ObserveRun;
      ghost var s := Current();
      IsTaskStep(s, T.DoRelease(delivery), now, config);
      tasks.Release(delivery, now);
      IsRelease(s.tasks, T.DoRelease(delivery), now, config.tasks);
      Take(TaskStep(T.DoRelease(delivery)), now);
    }

    /** failDelivery */
    method FailDelivery(delivery: T.DeliveryRef, code: string, message: string, now: Time) returns (failed: bool)
      requires Valid() && Current().clock <= now
      modifies this, Repr()
      ensures Valid() && events == old(events) + [At(now, TaskStep(T.DoFailDelivery(delivery, code, message)))]
      ensures failed == T.FailDelivery(old(tasks.View()), delivery, code, message, now, tasks.config).1
    {
      hide Inv, Next, Enabled, IsRun, After, SnapshotStore.Store.View, SnapshotStore.Store.Valid,
        TaskStore.Store.View, TaskStore.Store.Valid, WritebackStore.Store.View, WritebackStore.Store.Linked, T.Apply, T.Reserve, T.Confirm, T.Release, T.FailDelivery, T.ObserveRun;
      ghost var s := Current();
      IsTaskStep(s, T.DoFailDelivery(delivery, code, message), now, config);
      failed := tasks.FailDelivery(delivery, code, message, now);
      IsFailDelivery(s.tasks, T.DoFailDelivery(delivery, code, message), now, config.tasks);
      Take(TaskStep(T.DoFailDelivery(delivery, code, message)), now);
    }

    /** observeRun */
    method ObserveRun(ref: string, sourceUID: int, topicID: string, runID: string, state: string, error: string, now: Time) returns (counted: bool)
      requires Valid() && Current().clock <= now
      modifies this, Repr()
      ensures Valid() && events == old(events) + [At(now, TaskStep(T.DoObserve(ref, sourceUID, topicID, runID, state, error)))]
      ensures counted == T.ObserveRun(old(tasks.View()), ref, sourceUID, topicID, runID, state, error, now, tasks.config).1
    {
      hide Inv, Next, Enabled, IsRun, After, SnapshotStore.Store.View, SnapshotStore.Store.Valid,
        TaskStore.Store.View, TaskStore.Store.Valid, WritebackStore.Store.View, WritebackStore.Store.Linked, T.Apply, T.Reserve, T.Confirm, T.Release, T.FailDelivery, T.ObserveRun;
      ghost var s := Current();
      IsTaskStep(s, T.DoObserve(ref, sourceUID, topicID, runID, state, error), now, config);
      counted := tasks.ObserveRun(ref, sourceUID, topicID, runID, state, error, now);
      IsObserveRun(s.tasks, T.DoObserve(ref, sourceUID, topicID, runID, state, error), now, config.tasks);
      Take(TaskStep(T.DoObserve(ref, sourceUID, topicID, runID, state, error)), now);
    }
  }

  // The state machine's steps, store by store -------------------------------------------

  lemma NoSteps(start: Time, c: Config)
    ensures IsRun(start, [], c) && After(start, [], c) == Start(start)
  {
  }

  lemma Extend(start: Time, run: seq<Event>, e: Event, c: Config)
    requires IsRun(start, run, c) && Enabled(After(start, run, c), e.step, e.now, c)
    ensures IsRun(start, run + [e], c) && After(start, run + [e], c) == Next(After(start, run, c), e.step, e.now, c)
  {
    hide Enabled, Next;
    assert (run + [e])[..|run + [e]| - 1] == run;
  }

  lemma IssueForContextParts(s: State, ref: string, revision: nat, drawn: string, now: Time, inner: Time, c: Config)
    requires Inv(s, c) && Enabled(s, IssueForContext(ref, revision, drawn, inner), now, c)
    ensures var after := Next(s, IssueForContext(ref, revision, drawn, inner), now, c);
      var status := S.WithCurrent(s.snaps, ref, revision, now, c.snapshots).1;
      && after.snaps == S.WithCurrent(s.snaps, ref, revision, now, c.snapshots).0 && after.tasks == s.tasks
      && (status == S.Active ==> ref in s.snaps.byRef && after.wb == W.IssueContext(s.wb, s.snaps.byRef[ref].info, drawn, inner, c.writebacks).0)
      && (status != S.Active ==> after.wb == s.wb)
  {
    hide Enabled, Next, S.WithCurrent, W.IssueContext, S.Inv, T.Inv, Tickets, Deliveries, W.Inv, SnapshotsRecorded, TasksRecorded;
    IsIssueForContext(s, ref, revision, drawn, now, inner, c);
    if S.WithCurrent(s.snaps, ref, revision, now, c.snapshots).1 == S.Active {
      CurrentInfo(s.snaps, ref, revision, now, c.snapshots);
    }
  }

  lemma IssueForTaskParts(s: State, taskRef: string, id: string, drawn: string, now: Time, inner: Time, c: Config)
    requires Enabled(s, IssueForTask(taskRef, id, drawn, inner), now, c)
    ensures var after := Next(s, IssueForTask(taskRef, id, drawn, inner), now, c);
      var found := T.WithWritable(s.tasks, taskRef, id, now, c.tasks).1;
      && after.tasks == T.WithWritable(s.tasks, taskRef, id, now, c.tasks).0 && after.snaps == s.snaps
      && (found.Some? ==> after.wb == W.IssueTask(s.wb, found.value.info, drawn, inner, c.writebacks).0)
      && (found.None? ==> after.wb == s.wb)
  {
    hide Enabled, Next, T.WithWritable, W.IssueTask;
    IsIssueForTask(s, taskRef, id, drawn, now, inner, c);
  }

  /** The stores after withWritable or withCurrent of a target's source, and whether it was there. */
  ghost function SourceParts(snaps: S.Table, tasks: T.Table, x: W.Target, now: Time, sc: S.Config, tc: T.Config): (S.Table, T.Table, bool) {
    if x.taskID != "" then var (tasks', found) := T.WithWritable(tasks, x.taskRef, x.taskID, now, tc); (snaps, tasks', found.Some?)
    else var (snaps', status) := S.WithCurrent(snaps, x.contextRef, x.snapshotRevision, now, sc); (snaps', tasks, status == S.Active)
  }

  /** The stores after a claim, whether its source was there, and the answer. */
  ghost function ClaimParts(snaps: S.Table, tasks: T.Table, wb: W.Table, x: W.Target, i: nat, now: Time, inner: Time, sc: S.Config, tc: T.Config)
    : (S.Table, T.Table, W.Table, bool, bool)
  {
    var (snaps', tasks', active) := SourceParts(snaps, tasks, x, now, sc, tc);
    if active then (snaps', tasks', W.Claim(wb, i, inner).0, true, W.Claim(wb, i, inner).1)
    else (snaps', tasks', wb, false, false)
  }

  lemma ClaimSendParts(s: State, i: nat, now: Time, inner: Time, c: Config)
    requires Enabled(s, ClaimSend(i, inner), now, c)
    ensures i < |s.wb.attempts|
    ensures var after := Next(s, ClaimSend(i, inner), now, c);
      ClaimParts(s.snaps, s.tasks, s.wb, s.wb.attempts[i].target, i, now, inner, c.snapshots, c.tasks)
      == (after.snaps, after.tasks, after.wb, SourceVouches(s, s.wb.attempts[i].target, now, c), Claimed(s, i, now, inner, c))
  {
    hide Next, Enabled, DoClaimSend, ClaimParts, SourceVouches, Claimed;
    IsClaimSend(s, i, now, inner, c);
    if s.wb.attempts[i].target.taskID != "" { TaskClaimParts(s, i, now, inner, c); } else { ContextClaimParts(s, i, now, inner, c); }
  }

  ghost predicate Claimed(s: State, i: nat, now: Time, inner: Time, c: Config)
    requires i < |s.wb.attempts|
  {
    SourceVouches(s, s.wb.attempts[i].target, now, c) && W.Claim(s.wb, i, inner).1
  }

  lemma TaskClaimParts(s: State, i: nat, now: Time, inner: Time, c: Config)
    requires i < |s.wb.attempts| && s.wb.attempts[i].target.taskID != ""
    ensures var after := DoClaimSend(s, i, now, inner, c);
      ClaimParts(s.snaps, s.tasks, s.wb, s.wb.attempts[i].target, i, now, inner, c.snapshots, c.tasks)
      == (after.snaps, after.tasks, after.wb, SourceVouches(s, s.wb.attempts[i].target, now, c), Claimed(s, i, now, inner, c))
  {
    hide S.WithCurrent, T.WithWritable, W.Claim;
  }

  lemma ContextClaimParts(s: State, i: nat, now: Time, inner: Time, c: Config)
    requires i < |s.wb.attempts| && s.wb.attempts[i].target.taskID == ""
    ensures var after := DoClaimSend(s, i, now, inner, c);
      ClaimParts(s.snaps, s.tasks, s.wb, s.wb.attempts[i].target, i, now, inner, c.snapshots, c.tasks)
      == (after.snaps, after.tasks, after.wb, SourceVouches(s, s.wb.attempts[i].target, now, c), Claimed(s, i, now, inner, c))
  {
    hide S.WithCurrent, T.WithWritable, W.Claim;
  }

  /** The step that retires the source of a ticket. */
  function Retires(x: W.Target): Step {
    if x.taskID != "" then InvalidateTask(x.taskID) else InvalidateContext(x.contextRef)
  }

  lemma ClosingIsDue(s: State, i: nat, now: Time, inner: Time, c: Config)
    requires Enabled(s, ClaimSend(i, inner), now, c) && i < |s.wb.attempts| && !SourceVouches(s, s.wb.attempts[i].target, now, c)
    ensures Enabled(Next(s, ClaimSend(i, inner), now, c), Retires(s.wb.attempts[i].target), inner, c)
  {
    hide S.WithCurrent, T.WithWritable, W.Claim, Next, S.VictimChosen, OpaqueID;
    IsClaimSend(s, i, now, inner, c);
  }

  lemma ReceiptParts(s: State, m: W.Receipt, route: Route, now: Time, c: Config)
    requires s.clock <= now
    ensures Enabled(s, AcceptReceipt(m, route), now, c)
    ensures var after := Next(s, AcceptReceipt(m, route), now, c);
      && after.snaps == s.snaps && after.tasks == s.tasks && after.wb == W.CompleteReceipt(s.wb, m, route).0 && after.clock == now
      && (W.CompleteReceipt(s.wb, m, route).1 && m.taskID != "" ==>
            forall read: Time :: now <= read ==> Enabled(after, ReadOutcome(m.taskID, m.resultID), read, c))
  {
    hide Enabled, Next, W.CompleteReceipt;
    IsAcceptReceipt(s, m, route, now, c);
    forall read: Time | now <= read ensures W.CompleteReceipt(s.wb, m, route).1 && m.taskID != "" ==>
        Enabled(Next(s, AcceptReceipt(m, route), now, c), ReadOutcome(m.taskID, m.resultID), read, c) {
      IsReadOutcome(Next(s, AcceptReceipt(m, route), now, c), m.taskID, m.resultID, read, c);
    }
  }

  lemma ReadParts(s: State, id: string, resultID: string, now: Time, c: Config)
    requires Enabled(s, ReadOutcome(id, resultID), now, c)
    ensures var after := Next(s, ReadOutcome(id, resultID), now, c);
      && after.snaps == s.snaps && after.tasks == s.tasks && after.wb == s.wb && after.clock == now
      && (W.OutcomeOf(s.wb, resultID).Some? ==> Verdict(id, resultID, W.OutcomeOf(s.wb, resultID).value) in after.verdicts)
  {
    hide Enabled, Next, W.OutcomeOf;
    IsReadOutcome(s, id, resultID, now, c);
  }

  lemma VerdictParts(s: State, i: nat, now: Time, c: Config)
    requires Enabled(s, ReadVerdict(i), now, c)
    ensures var after := Next(s, ReadVerdict(i), now, c);
      && after.snaps == s.snaps && after.tasks == s.tasks && after.wb == s.wb && after.clock == now
      && i < |s.wb.attempts| && !s.wb.attempts[i].Open()
      && (var a := s.wb.attempts[i]; a.key.taskID != "" ==> Verdict(a.key.taskID, a.resultID, a.outcome.value) in after.verdicts)
  {
    hide Enabled, Next;
    IsReadVerdict(s, i, now, c);
  }

  lemma GiveUpParts(s: State, id: string, actorUID: int, code: string, message: string, now: Time, c: Config)
    requires s.clock <= now
    ensures Enabled(s, GiveUpTask(id, actorUID, code, message), now, c)
    ensures var after := Next(s, GiveUpTask(id, actorUID, code, message), now, c);
      var (tasks, answer) := T.FailForActor(s.tasks, id, actorUID, code, message, true, now, c.tasks);
      && after.snaps == s.snaps && after.tasks == tasks && after.wb == s.wb
      && (answer == T.FailApplied ==> forall later: Time :: now <= later ==> Enabled(after, InvalidateTask(id), later, c))
  {
    hide Enabled, Next, T.FailForActor;
    var after := Next(s, GiveUpTask(id, actorUID, code, message), now, c);
    IsGiveUpTask(s, id, actorUID, code, message, now, c);
    forall later: Time | now <= later ensures id in after.leaving ==> Enabled(after, InvalidateTask(id), later, c) {
      IsInvalidateTask(after, id, later, c);
    }
  }

  /** A reference that is new to the run is new to the store. */
  lemma DrawIsNew(s: State, draws: seq<string>, now: Time, c: Config)
    requires Inv(s, c) && |draws| == 4 && forall d :: d in draws ==> d !in s.made
    ensures SnapshotStore.FirstUnused(S.Cleanup(s.snaps, now, c.snapshots), draws) == Some(draws[0])
  {
    hide S.Inv, T.Inv, W.Inv, Tickets, Deliveries;
    assert draws[0] in draws;
  }

  lemma FailAnswered(s: State, id: string, actorUID: int, code: string, message: string, now: Time, c: Config)
    requires c.Valid() && Inv(s, c)
    ensures TA.FailAnswers(s.tasks, id, actorUID, true, now, c.tasks, T.FailForActor(s.tasks, id, actorUID, code, message, true, now, c.tasks).1)
  {
    hide Inv, T.FailForActor, TA.FailAnswers, TA.FailedAs, TA.Writes;
    TasksOk(s, c);
    TA.FailForActorExactly(s.tasks, id, actorUID, code, message, true, now, c.tasks);
  }

  lemma ReserveAnswered(s: State, ref: string, actorUID: int, topicID: string, agentUID: int, client: string, now: Time, c: Config)
    requires c.Valid() && Inv(s, c)
    ensures TA.ReserveAnswers(s.tasks, ref, actorUID, topicID, agentUID, client, now, c.tasks,
                              T.Reserve(s.tasks, ref, actorUID, topicID, agentUID, client, now, c.tasks).1)
  {
    hide Inv, T.Reserve, TA.ReserveAnswers, TA.Writes;
    TasksOk(s, c);
    TA.ReserveExactly(s.tasks, ref, actorUID, topicID, agentUID, client, now, c.tasks);
  }

  lemma IsReserve(t: T.Table, op: T.Op, now: Time, config: T.Config)
    requires op.DoReserve?
    ensures T.Apply(t, op, now, config) == T.Reserve(t, op.ref, op.actorUID, op.topicID, op.agentUID, op.client, now, config).0
  {
    hide T.Reserve;
  }

  lemma IsConfirm(t: T.Table, op: T.Op, now: Time, config: T.Config)
    requires op.DoConfirm?
    ensures T.Apply(t, op, now, config) == T.Confirm(t, op.delivery, now, config).0
  {
    hide T.Confirm;
  }

  lemma IsRelease(t: T.Table, op: T.Op, now: Time, config: T.Config)
    requires op.DoRelease?
    ensures T.Apply(t, op, now, config) == T.Release(t, op.delivery, now)
  {
    hide T.Release;
  }

  lemma IsFailDelivery(t: T.Table, op: T.Op, now: Time, config: T.Config)
    requires op.DoFailDelivery?
    ensures T.Apply(t, op, now, config) == T.FailDelivery(t, op.delivery, op.code, op.message, now, config).0
  {
    hide T.FailDelivery;
  }

  lemma IsObserveRun(t: T.Table, op: T.Op, now: Time, config: T.Config)
    requires op.DoObserve?
    ensures T.Apply(t, op, now, config) == T.ObserveRun(t, op.ref, op.sourceUID, op.topicID, op.runID, op.state, op.error, now, config).0
  {
    hide T.ObserveRun;
  }
}
