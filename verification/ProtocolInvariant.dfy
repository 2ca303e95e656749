/** The invariant of the composed system and its preservation by every step. */
module ProtocolInvariant {
  import opened Basics
  import opened Outcomes
  import S = SnapshotTable
  import T = TaskTable
  import W = WritebackTable
  import opened Protocol

  // Stores and history ------------------------------------------------------

  ghost predicate Stores(s: State, c: Config) {
    S.Inv(s.snaps, c.snapshots) && T.Inv(s.tasks, c.tasks) && W.Inv(s.wb, s.clock)
  }

  predicate SnapshotsRecorded(s: State, c: Config) {
    && (forall ref :: ref in s.snaps.byRef ==> ref in s.made && s.made[ref] == s.snaps.byRef[ref].info)
    && (forall ref :: ref in s.made ==> ref != "" && s.made[ref].ref == ref && s.made[ref].createdAt <= s.clock
                                        && s.made[ref].expiresAt == s.made[ref].createdAt + c.snapshots.ttl)
  }

  predicate TasksRecorded(s: State) {
    && (forall id :: id in s.tasks.byID ==> id in s.taskMade && s.taskMade[id] == s.tasks.byID[id].info)
    && (forall id :: id in s.taskMade ==> id != "" && s.taskMade[id].id == id)
  }

  // Tickets -----------------------------------------------------------------

  /** A ticket carries the identity of the snapshot or the task it was issued for. */
  predicate IssuedOk(s: State, c: Config, x: W.Target) {
    if x.contextRef != ""
    then && x.taskID == "" && x.contextRef in s.made && s.made[x.contextRef].createdAt <= x.createdAt
         && x == W.SnapshotTarget(s.made[x.contextRef], x.ref, x.createdAt, c.writebacks) && x.previewRoute.Known()
    else && x.taskID in s.taskMade && OpaqueID("atk_", x.taskID) && x == W.TaskTarget(s.taskMade[x.taskID], x.ref, x.createdAt) && x.previewRoute.Known()
  }

  predicate TicketsRecorded(s: State, c: Config) {
    && (forall w :: w in s.issued ==> w != "" && s.issued[w].ref == w && IssuedOk(s, c, s.issued[w]))
    && (forall w :: w in s.wb.tickets ==> w in s.issued && s.issued[w] == s.wb.tickets[w])
  }

  /** The index of one kind and the tickets of that kind are inverse to each other. */
  predicate Indexed(tickets: map<string, W.Target>, index: map<string, string>, kind: W.Kind) {
    && (forall w :: w in tickets && W.Source(tickets[w], kind) != "" ==>
                      W.Source(tickets[w], kind) in index && index[W.Source(tickets[w], kind)] == w)
    && (forall source :: source in index ==> source != "" && index[source] in tickets && W.Source(tickets[index[source]], kind) == source)
  }

  predicate Indices(s: State) {
    Indexed(s.wb.tickets, s.wb.byContext, W.ContextKind) && Indexed(s.wb.tickets, s.wb.byTask, W.TaskKind)
  }

  /** A ticket leaves the table only by invalidation of its source or by expiry. */
  predicate Spent(s: State, x: W.Target) {
    x.ref in s.wb.tickets || x.contextRef in s.closed || x.taskID in s.closedTasks || x.expiresAt <= s.clock
  }

  predicate TicketsSpent(s: State) {
    forall w :: w in s.issued ==> Spent(s, s.issued[w])
  }

  /** An invalidated context is barred until its snapshot has expired, and holds no ticket until then. */
  predicate Barred(s: State, ref: string) {
    ref in s.closed && ref in s.made ==>
      || s.made[ref].expiresAt <= s.clock
      || (ref in s.wb.invalidated && s.made[ref].expiresAt <= s.wb.invalidated[ref] && ref !in s.wb.byContext)
  }

  predicate ContextsBarred(s: State) {
    "" !in s.closed && forall ref :: ref in s.made ==> Barred(s, ref)
  }

  /** A task is closed for good once it is over or gone. */
  predicate ClosedTask(s: State, id: string) {
    id in s.taskMade && (id in s.tasks.byID ==> s.tasks.byID[id].Over())
  }

  predicate TasksClosed(s: State) {
    && s.closedTasks <= s.leaving
    && (forall id :: id in s.leaving ==> ClosedTask(s, id))
    && (forall id :: id in s.closedTasks ==> id !in s.wb.byTask)
  }

  /** A live task that was ever given a ticket is delivered. */
  predicate TicketedTasksDelivered(s: State) {
    forall w :: w in s.issued && s.issued[w].taskID in s.tasks.byID && !s.tasks.byID[s.issued[w].taskID].Over() ==>
                  s.tasks.byID[s.issued[w].taskID].delivered
  }

  // Attempts ----------------------------------------------------------------

  predicate AttemptRecorded(s: State, i: nat)
    requires i < |s.wb.attempts|
  {
    var x := s.wb.attempts[i].target;
    x.ref in s.issued && s.issued[x.ref] == x
  }

  predicate AttemptsRecorded(s: State) {
    forall i :: 0 <= i < |s.wb.attempts| ==> AttemptRecorded(s, i)
  }

  // Verdicts ----------------------------------------------------------------

  predicate Ended(s: State, i: nat, id: string, resultID: string, o: Outcome) {
    i < |s.wb.attempts| && s.wb.attempts[i].target.taskID == id && s.wb.attempts[i].resultID == resultID
    && s.wb.attempts[i].outcome == Some(o)
  }

  ghost predicate HasEnded(s: State, id: string, resultID: string, o: Outcome) {
    exists i: nat :: Ended(s, i, id, resultID, o)
  }

  predicate AnsweredAttempt(s: State, i: nat, id: string, resultID: string) {
    i < |s.wb.attempts| && s.wb.attempts[i].target.taskID == id && s.wb.attempts[i].resultID == resultID
    && s.wb.attempts[i].Answered()
  }

  ghost predicate ReceiptsGrounded(s: State) {
    forall id, resultID :: (id, resultID) in s.receipts ==> id != "" && exists i: nat :: AnsweredAttempt(s, i, id, resultID)
  }

  /** A verdict states what an attempt for that task and result ended with, or it comes too late. */
  ghost predicate Grounded(s: State, v: Verdict) {
    HasEnded(s, v.taskID, v.resultID, v.outcome) || (v.taskID in s.taskMade && s.taskMade[v.taskID].expiresAt <= s.clock)
  }

  ghost predicate VerdictsGrounded(s: State) {
    forall v :: v in s.verdicts ==> Grounded(s, v)
  }

  /** The basis of a completion: an applied attempt for that task and that result. */
  ghost predicate Justified(s: State, t: T.Task) {
    t.status == T.Completed ==>
      t.delivered && exists i: nat, o :: Ended(s, i, t.info.id, t.resultID, o) && o.status == Applied
  }

  ghost predicate CompletionsJustified(s: State) {
    forall id :: id in s.tasks.byID ==> Justified(s, s.tasks.byID[id])
  }

  ghost predicate Tickets(s: State, c: Config) {
    && TicketsRecorded(s, c) && Indices(s) && TicketsSpent(s) && ContextsBarred(s) && TasksClosed(s)
    && TicketedTasksDelivered(s)
  }

  ghost predicate Deliveries(s: State) {
    AttemptsRecorded(s) && ReceiptsGrounded(s) && VerdictsGrounded(s) && CompletionsJustified(s)
  }

  ghost predicate Inv(s: State, c: Config) {
    Stores(s, c) && SnapshotsRecorded(s, c) && TasksRecorded(s) && Tickets(s, c) && Deliveries(s)
  }

  lemma StartInv(now: Time, c: Config)
    requires c.Valid()
    ensures Inv(Start(now), c)
  {
    var s := Start(now);
    assert T.Inv(T.EMPTY, c.tasks) by {
      forall actor ensures T.Capped(T.EMPTY, c.tasks, actor) {
        assert T.ActiveOf(T.EMPTY, actor) == {};
      }
    }
  }

  // Time and snapshots --------------------------------------------------------

  lemma TimePasses(s: State, now: Time, c: Config)
    requires Inv(s, c) && s.clock <= now
    ensures Inv(s.(clock := now), c)
  {
    hide S.Inv, T.Inv, W.Inv, IssuedOk, Indexed, AttemptRecorded, Justified;
    var after := s.(clock := now);
    W.Unchanged(s.wb, s.clock, now);
    assert W.Inv(after.wb, now);
    forall w | w in s.issued ensures IssuedOk(after, c, s.issued[w]) { SameHistory(s, after, c, s.issued[w]); }
    forall i | 0 <= i < |s.wb.attempts| ensures AttemptRecorded(after, i) { SameAttemptHistory(s, after, i); }
    VerdictsPersist(s, after);
  }

  lemma SameHistory(s: State, after: State, c: Config, x: W.Target)
    requires IssuedOk(s, c, x)
    requires forall ref :: ref in s.made ==> ref in after.made && after.made[ref] == s.made[ref]
    requires forall id :: id in s.taskMade ==> id in after.taskMade && after.taskMade[id] == s.taskMade[id]
    ensures IssuedOk(after, c, x)
  {
  }

  lemma SameAttemptHistory(s: State, after: State, i: nat)
    requires i < |s.wb.attempts| && i < |after.wb.attempts| && after.wb.attempts[i].target == s.wb.attempts[i].target
    requires AttemptRecorded(s, i)
    requires forall w :: w in s.issued ==> w in after.issued && after.issued[w] == s.issued[w]
    ensures AttemptRecorded(after, i)
  {
  }

  /** `after` knows every attempt of `s`, with the outcome it has there if it has one. */
  predicate Remembers(s: State, after: State) {
    && |s.wb.attempts| <= |after.wb.attempts|
    && (forall i :: 0 <= i < |s.wb.attempts| ==> W.Progresses(s.wb.attempts[i], after.wb.attempts[i]))
    && (forall id :: id in s.taskMade ==> id in after.taskMade && after.taskMade[id] == s.taskMade[id])
    && s.clock <= after.clock
  }

  lemma EndedPersists(s: State, after: State, id: string, resultID: string, o: Outcome)
    requires Remembers(s, after) && HasEnded(s, id, resultID, o)
    ensures HasEnded(after, id, resultID, o)
  {
    var i: nat :| Ended(s, i, id, resultID, o);
    assert W.Progresses(s.wb.attempts[i], after.wb.attempts[i]);
    assert Ended(after, i, id, resultID, o);
  }

  /** Receipts, verdicts and completions that were grounded stay grounded. */
  lemma VerdictsPersist(s: State, after: State)
    requires Remembers(s, after)
    requires ReceiptsGrounded(s) && VerdictsGrounded(s)
    ensures forall id, resultID :: (id, resultID) in s.receipts ==> id != "" && exists i: nat :: AnsweredAttempt(after, i, id, resultID)
    ensures forall v :: v in s.verdicts ==> Grounded(after, v)
    ensures forall t: T.Task :: Justified(s, t) ==> Justified(after, t)
  {
    hide W.Progresses;
    forall id, resultID | (id, resultID) in s.receipts
      ensures id != "" && exists i: nat :: AnsweredAttempt(after, i, id, resultID)
    {
      var i: nat :| AnsweredAttempt(s, i, id, resultID);
      EndedPersistsAt(s, after, i);
      assert AnsweredAttempt(after, i, id, resultID);
    }
    forall v | v in s.verdicts ensures Grounded(after, v) {
      assert Grounded(s, v);
      if HasEnded(s, v.taskID, v.resultID, v.outcome) { EndedPersists(s, after, v.taskID, v.resultID, v.outcome); }
    }
    forall t: T.Task | Justified(s, t) ensures Justified(after, t) {
      if t.status == T.Completed {
        var i: nat, o :| Ended(s, i, t.info.id, t.resultID, o) && o.status == Applied;
        EndedPersistsAt(s, after, i);
        assert Ended(after, i, t.info.id, t.resultID, o);
      }
    }
  }

  lemma EndedPersistsAt(s: State, after: State, i: nat)
    requires Remembers(s, after) && i < |s.wb.attempts|
    ensures after.wb.attempts[i].target == s.wb.attempts[i].target && after.wb.attempts[i].resultID == s.wb.attempts[i].resultID
    ensures after.wb.attempts[i].key == s.wb.attempts[i].key
    ensures !s.wb.attempts[i].Open() ==> after.wb.attempts[i] == s.wb.attempts[i]
  {
    assert W.Progresses(s.wb.attempts[i], after.wb.attempts[i]);
  }

  /** A step of the snapshot store alone; it may add one snapshot under a new reference. */
  lemma SnapshotStep(s: State, after: State, c: Config)
    requires Inv(s, c)
    requires after == s.(snaps := after.snaps, made := after.made)
    requires S.Inv(after.snaps, c.snapshots) && SnapshotsRecorded(after, c)
    requires forall ref :: ref in s.made ==> ref in after.made && after.made[ref] == s.made[ref]
    requires forall ref :: ref in after.made && ref !in s.made ==> ref !in s.closed
    ensures Inv(after, c)
  {
    hide S.Inv, T.Inv, W.Inv, IssuedOk, Indexed, AttemptRecorded, Justified, SnapshotsRecorded, Spent;
    forall w | w in s.issued ensures IssuedOk(after, c, s.issued[w]) { SameHistory(s, after, c, s.issued[w]); }
    forall w | w in s.issued ensures Spent(after, s.issued[w]) { assert Spent(s, s.issued[w]); SameSpent(s, after, s.issued[w]); }
    forall i | 0 <= i < |s.wb.attempts| ensures AttemptRecorded(after, i) { SameAttemptHistory(s, after, i); }
    RememberSelf(s, after);
    VerdictsPersist(s, after);
  }

  lemma SameSpent(s: State, after: State, x: W.Target)
    requires Spent(s, x) && after.wb.tickets == s.wb.tickets && s.closed <= after.closed && s.closedTasks <= after.closedTasks
    requires s.clock <= after.clock
    ensures Spent(after, x)
  {
  }

  lemma RememberSelf(s: State, after: State)
    requires after.wb.attempts == s.wb.attempts && s.clock <= after.clock
    requires forall id :: id in s.taskMade ==> id in after.taskMade && after.taskMade[id] == s.taskMade[id]
    ensures Remembers(s, after)
  {
  }

  // Tasks -------------------------------------------------------------------

  /** A step of the task store alone. It may add tasks under the new ids `added`, and complete those
      in `done`, which the caller justifies. */
  lemma TasksStep(s: State, after: State, added: set<string>, done: set<string>, c: Config)
    requires Inv(s, c)
    requires after == s.(tasks := after.tasks, taskMade := after.taskMade)
    requires T.Inv(after.tasks, c.tasks) && TasksRecorded(after)
    requires forall id :: id in s.taskMade ==> id in after.taskMade && after.taskMade[id] == s.taskMade[id]
    requires added !! s.taskMade.Keys
    requires forall id :: id !in added ==> T.Evolves(s.tasks, after.tasks, id)
    requires forall id :: id !in added && id !in done ==> T.NotCompleted(s.tasks, after.tasks, id)
    requires forall id :: id in added && id in after.tasks.byID ==> after.tasks.byID[id].status != T.Completed
    requires forall id :: id in done && id in after.tasks.byID ==> Justified(after, after.tasks.byID[id])
    ensures Inv(after, c)
  {
    hide S.Inv, T.Inv, W.Inv, IssuedOk, Indexed, AttemptRecorded, Spent, TasksRecorded, Justified, T.Evolves, T.NotCompleted;
    forall w | w in s.issued ensures IssuedOk(after, c, s.issued[w]) { SameHistory(s, after, c, s.issued[w]); }
    forall w | w in s.issued ensures Spent(after, s.issued[w]) { assert Spent(s, s.issued[w]); SameSpent(s, after, s.issued[w]); }
    forall i | 0 <= i < |s.wb.attempts| ensures AttemptRecorded(after, i) { SameAttemptHistory(s, after, i); }
    RememberSelf(s, after);
    VerdictsPersist(s, after);
    TasksStayClosed(s, after, added);
    NoEmptyID(after);
    TicketedStayDelivered(s, after, added, c);
    CompletionsStayJustified(s, after, added, done);
  }

  lemma NoEmptyID(s: State)
    requires TasksRecorded(s)
    ensures "" !in s.tasks.byID
  {
  }

  lemma TasksStayClosed(s: State, after: State, added: set<string>)
    requires TasksClosed(s) && after == s.(tasks := after.tasks, taskMade := after.taskMade)
    requires forall id :: id in s.taskMade ==> id in after.taskMade && after.taskMade[id] == s.taskMade[id]
    requires added !! s.taskMade.Keys
    requires forall id :: id !in added ==> T.Evolves(s.tasks, after.tasks, id)
    ensures TasksClosed(after)
  {
    forall id | id in s.leaving ensures ClosedTask(after, id) {
      assert ClosedTask(s, id);
      assert T.Evolves(s.tasks, after.tasks, id);
    }
  }

  lemma TicketedStayDelivered(s: State, after: State, added: set<string>, c: Config)
    requires TicketedTasksDelivered(s) && TicketsRecorded(s, c) && after.issued == s.issued
    requires added !! s.taskMade.Keys && "" !in after.tasks.byID
    requires forall id :: id !in added ==> T.Evolves(s.tasks, after.tasks, id)
    ensures TicketedTasksDelivered(after)
  {
    hide Indexed, T.IsVictim;
    forall w | w in s.issued && s.issued[w].taskID in after.tasks.byID && !after.tasks.byID[s.issued[w].taskID].Over()
      ensures after.tasks.byID[s.issued[w].taskID].delivered
    {
      assert IssuedOk(s, c, s.issued[w]);
      assert T.Evolves(s.tasks, after.tasks, s.issued[w].taskID);
    }
  }

  lemma CompletionsStayJustified(s: State, after: State, added: set<string>, done: set<string>)
    requires CompletionsJustified(s) && after == s.(tasks := after.tasks, taskMade := after.taskMade)
    requires forall t: T.Task :: Justified(s, t) ==> Justified(after, t)
    requires forall id :: id !in added ==> T.Evolves(s.tasks, after.tasks, id)
    requires forall id :: id !in added && id !in done ==> T.NotCompleted(s.tasks, after.tasks, id)
    requires forall id :: id in added && id in after.tasks.byID ==> after.tasks.byID[id].status != T.Completed
    requires forall id :: id in done && id in after.tasks.byID ==> Justified(after, after.tasks.byID[id])
    ensures CompletionsJustified(after)
  {
    forall id | id in after.tasks.byID ensures Justified(after, after.tasks.byID[id]) {
      if id !in added && id !in done && after.tasks.byID[id].status == T.Completed {
        assert T.NotCompleted(s.tasks, after.tasks, id) && T.Evolves(s.tasks, after.tasks, id);
        SameJustification(s, after, s.tasks.byID[id], after.tasks.byID[id]);
      }
    }
  }

  lemma SameJustification(s: State, after: State, before: T.Task, now: T.Task)
    requires Justified(s, before) && Justified(after, before) && before.status == T.Completed && T.Progresses(before, now)
    ensures Justified(after, now)
  {
    var i: nat, o :| Ended(after, i, before.info.id, before.resultID, o) && o.status == Applied;
    assert Ended(after, i, now.info.id, now.resultID, o);
  }

  /** After an operation of the task store, which never changes what a task is. */
  lemma TasksFollow(s: State, tasks: T.Table, done: set<string>, c: Config)
    requires Inv(s, c) && T.Follows(s.tasks, tasks, done, c.tasks)
    requires forall id :: id in done && id in tasks.byID ==> Justified(s.(tasks := tasks), tasks.byID[id])
    ensures Inv(s.(tasks := tasks), c)
  {
    hide T.Inv, S.Inv, W.Inv, Tickets, Deliveries, SnapshotsRecorded;
    var after := s.(tasks := tasks);
    assert TasksRecorded(after) by {
      forall id | id in tasks.byID ensures id in s.taskMade && s.taskMade[id] == tasks.byID[id].info {
        assert T.Evolves(s.tasks, tasks, id);
      }
    }
    TasksStep(s, after, {}, done, c);
  }

  // Tickets -----------------------------------------------------------------

  /** The two tables agree on everything that concerns tickets. */
  predicate SameTickets(a: W.Table, b: W.Table) {
    a.tickets == b.tickets && a.byContext == b.byContext && a.byTask == b.byTask
    && a.invalidated == b.invalidated && a.invalidatedTasks == b.invalidatedTasks
  }

  lemma TicketsKept(s: State, after: State, c: Config)
    requires Tickets(s, c) && SameTickets(s.wb, after.wb) && s.clock <= after.clock
    requires after == s.(clock := after.clock, wb := after.wb, receipts := after.receipts, verdicts := after.verdicts)
    ensures Tickets(after, c)
  {
    hide IssuedOk, Indexed;
    forall w | w in s.issued ensures IssuedOk(after, c, s.issued[w]) { SameHistory(s, after, c, s.issued[w]); }
  }

  lemma CleanIndex(tickets: map<string, W.Target>, index: map<string, string>, now: Time, kind: W.Kind)
    requires Indexed(tickets, index, kind)
    ensures Indexed(W.LiveTickets(tickets, now), W.LiveIndex(tickets, index, now, kind), kind)
  {
  }

  /** Cleanup of the writeback store drops expired tickets, index entries and tombstones together. */
  lemma TicketsCleaned(s: State, after: State, c: Config)
    requires Tickets(s, c) && s.clock <= after.clock && SameTickets(W.Cleanup(s.wb, after.clock), after.wb)
    requires after == s.(clock := after.clock, wb := after.wb)
    ensures Tickets(after, c)
  {
    hide IssuedOk, Indexed, W.LiveIndex, W.Overdue;
    CleanIndex(s.wb.tickets, s.wb.byContext, after.clock, W.ContextKind);
    CleanIndex(s.wb.tickets, s.wb.byTask, after.clock, W.TaskKind);
    forall w | w in s.issued ensures IssuedOk(after, c, s.issued[w]) { SameHistory(s, after, c, s.issued[w]); }
    forall w | w in s.issued ensures Spent(after, s.issued[w]) { assert Spent(s, s.issued[w]); }
    IndexShrinks(s.wb.tickets, s.wb.byContext, after.clock, W.ContextKind);
    IndexShrinks(s.wb.tickets, s.wb.byTask, after.clock, W.TaskKind);
    forall ref | ref in s.made ensures Barred(after, ref) { assert Barred(s, ref); }
  }

  lemma IndexShrinks(tickets: map<string, W.Target>, index: map<string, string>, now: Time, kind: W.Kind)
    ensures W.LiveIndex(tickets, index, now, kind).Keys <= index.Keys
  {
  }

  /** Closing a source takes its ticket and its index entry away together. */
  lemma RemoveSource(tickets: map<string, W.Target>, index: map<string, string>, source: string, kind: W.Kind)
    requires Indexed(tickets, index, kind) && source != "" && "" !in tickets
    ensures Indexed(tickets - {Lookup(index, source)}, index - {source}, kind)
  {
  }

  lemma RemoveOther(tickets: map<string, W.Target>, index: map<string, string>, gone: string, kind: W.Kind)
    requires Indexed(tickets, index, kind) && (gone in tickets ==> W.Source(tickets[gone], kind) == "")
    ensures Indexed(tickets - {gone}, index, kind)
  {
  }

  lemma ContextClosed(s: State, after: State, ref: string, now: Time, c: Config)
    requires c.Valid() && Tickets(s, c) && s.clock == now && ref != "" && SnapshotsRecorded(s, c)
    requires after == s.(wb := after.wb, closed := s.closed + {ref})
    requires SameTickets(after.wb, s.wb.(invalidated := s.wb.invalidated[ref := now + c.writebacks.ticketTTL],
                                         byContext := s.wb.byContext - {ref},
                                         tickets := s.wb.tickets - {Lookup(s.wb.byContext, ref)}))
    ensures Tickets(after, c)
  {
    hide IssuedOk, Indexed, Barred, Spent, SnapshotsRecorded, ClosedTask;
    var held := Lookup(s.wb.byContext, ref);
    RemoveSource(s.wb.tickets, s.wb.byContext, ref, W.ContextKind);
    HeldBy(s, c, ref, held, W.ContextKind);
    RemoveOther(s.wb.tickets, s.wb.byTask, held, W.TaskKind);
    forall w | w in s.issued ensures IssuedOk(after, c, s.issued[w]) { SameHistory(s, after, c, s.issued[w]); }
    forall w | w in s.issued ensures Spent(after, s.issued[w]) {
      assert Spent(s, s.issued[w]);
      StaysSpent(s, after, s.issued[w], ref, c);
    }
    forall r | r in s.made ensures Barred(after, r) {
      assert Barred(s, r);
      StaysBarred(s, after, r, ref, now, c);
    }
    SameClosedTasks(s, after);
  }

  lemma StaysSpent(s: State, after: State, x: W.Target, ref: string, c: Config)
    requires Spent(s, x) && after.clock == s.clock && after.closed == s.closed + {ref} && after.closedTasks == s.closedTasks
    requires after.wb.tickets == s.wb.tickets - {Lookup(s.wb.byContext, ref)} && TicketsRecorded(s, c) && x.ref in s.issued && s.issued[x.ref] == x
    requires Indexed(s.wb.tickets, s.wb.byContext, W.ContextKind) && ref != "" && "" !in s.wb.tickets
    ensures Spent(after, x)
  {
    hide IssuedOk;
  }

  lemma StaysBarred(s: State, after: State, r: string, ref: string, now: Time, c: Config)
    requires c.Valid() && Barred(s, r) && SnapshotsRecorded(s, c) && r in s.made && s.clock == now
    requires after == s.(wb := after.wb, closed := s.closed + {ref})
    requires after.wb.invalidated == s.wb.invalidated[ref := now + c.writebacks.ticketTTL] && after.wb.byContext == s.wb.byContext - {ref}
    ensures Barred(after, r)
  {
    assert s.made[r].createdAt <= now;
  }

  /** The ticket an index entry names was issued for exactly that source. */
  lemma HeldBy(s: State, c: Config, source: string, held: string, kind: W.Kind)
    requires TicketsRecorded(s, c) && Indices(s) && source != ""
    requires held == Lookup(if kind == W.ContextKind then s.wb.byContext else s.wb.byTask, source)
    ensures held in s.wb.tickets ==>
              held in s.issued && s.issued[held] == s.wb.tickets[held]
              && (held != "" ==> W.Source(s.issued[held], kind) == source)
              && s.issued[held].ref == held && held != ""
              && W.Source(s.issued[held], if kind == W.ContextKind then W.TaskKind else W.ContextKind) == ""
  {
    if held in s.wb.tickets {
      assert IssuedOk(s, c, s.issued[held]);
    }
  }

  lemma TaskClosedInTickets(s: State, after: State, id: string, now: Time, c: Config)
    requires Tickets(s, c) && s.clock == now && id != "" && id in s.leaving
    requires after == s.(wb := after.wb, closedTasks := s.closedTasks + {id})
    requires SameTickets(after.wb, s.wb.(invalidatedTasks := s.wb.invalidatedTasks[id := now + c.writebacks.ticketTTL],
                                         byTask := s.wb.byTask - {id},
                                         tickets := s.wb.tickets - {Lookup(s.wb.byTask, id)}))
    ensures Tickets(after, c)
  {
    hide IssuedOk, Indexed, Spent, TasksClosed, ContextsBarred;
    var held := Lookup(s.wb.byTask, id);
    RemoveSource(s.wb.tickets, s.wb.byTask, id, W.TaskKind);
    HeldBy(s, c, id, held, W.TaskKind);
    RemoveOther(s.wb.tickets, s.wb.byContext, held, W.ContextKind);
    forall w | w in s.issued ensures IssuedOk(after, c, s.issued[w]) { SameHistory(s, after, c, s.issued[w]); }
    forall w | w in s.issued ensures Spent(after, s.issued[w]) {
      assert Spent(s, s.issued[w]);
      SpentOrRemoved(s, after, s.issued[w], id);
    }
    TaskClosedBars(s, after, id);
  }

  lemma SpentOrRemoved(s: State, after: State, x: W.Target, id: string)
    requires Spent(s, x) && id in after.closedTasks && s.closedTasks <= after.closedTasks
    requires after.closed == s.closed && after.clock == s.clock
    requires after.wb.tickets == s.wb.tickets - {Lookup(s.wb.byTask, id)}
    requires x.ref == Lookup(s.wb.byTask, id) && x.ref in s.wb.tickets ==> x.taskID == id
    ensures Spent(after, x)
  {
  }

  lemma TaskClosedBars(s: State, after: State, id: string)
    requires ContextsBarred(s) && TasksClosed(s) && id in s.leaving
    requires after == s.(wb := after.wb, closedTasks := s.closedTasks + {id})
    requires after.wb.byTask == s.wb.byTask - {id}
    requires after.wb.byContext == s.wb.byContext && after.wb.invalidated == s.wb.invalidated
    ensures ContextsBarred(after) && TasksClosed(after)
  {
    forall ref | ref in s.made ensures Barred(after, ref) { assert Barred(s, ref); }
    forall t | t in s.leaving ensures ClosedTask(after, t) { assert ClosedTask(s, t); }
  }

  // Grants ------------------------------------------------------------------

  /** A ticket that is granted again is the one already held. */
  lemma HeldTicketIsRecorded(s: State, held: string, c: Config)
    requires TicketsRecorded(s, c) && held in s.wb.tickets
    ensures held in s.issued && s.issued[held] == s.wb.tickets[held] && s.wb.tickets[held].ref == held
  {
  }

  /** The new ticket in its index. */
  lemma AddToIndex(tickets: map<string, W.Target>, index: map<string, string>, x: W.Target, kind: W.Kind)
    requires Indexed(tickets, index, kind) && x.ref !in tickets && W.Source(x, kind) != "" && W.Source(x, kind) !in index
    ensures Indexed(tickets[x.ref := x], index[W.Source(x, kind) := x.ref], kind)
  {
  }

  lemma AddToOther(tickets: map<string, W.Target>, index: map<string, string>, x: W.Target, kind: W.Kind)
    requires Indexed(tickets, index, kind) && x.ref !in tickets && W.Source(x, kind) == ""
    ensures Indexed(tickets[x.ref := x], index, kind)
  {
  }

  /** A held ticket of an unexpired source is live and matches, so it is granted again. */
  lemma HeldContextTicketMatches(s: State, info: S.Info, held: string, c: Config)
    requires TicketsRecorded(s, c) && Indices(s) && info.ref != ""
    requires info.ref in s.made && s.made[info.ref] == info && W.SnapshotIssuable(info)
    requires held == Lookup(s.wb.byContext, info.ref) && held in s.wb.tickets
    ensures W.SameSnapshot(s.wb.tickets[held], info) && held != ""
  {
    HeldBy(s, c, info.ref, held, W.ContextKind);
    assert IssuedOk(s, c, s.issued[held]);
  }

  lemma HeldTaskTicketMatches(s: State, info: T.Info, held: string, c: Config)
    requires TicketsRecorded(s, c) && Indices(s) && info.id != ""
    requires info.id in s.taskMade && s.taskMade[info.id] == info && W.TaskIssuable(info)
    requires held == Lookup(s.wb.byTask, info.id) && held in s.wb.tickets
    ensures W.SameTask(s.wb.tickets[held], info) && held != ""
  {
    HeldBy(s, c, info.id, held, W.TaskKind);
    assert IssuedOk(s, c, s.issued[held]);
  }

  /** The table has just been cleaned at the state's clock. */
  predicate Cleaned(s: State) {
    && (forall w :: w in s.wb.tickets ==> s.clock < s.wb.tickets[w].expiresAt)
    && (forall ref :: ref in s.wb.invalidated ==> s.clock < s.wb.invalidated[ref])
    && (forall id :: id in s.wb.invalidatedTasks ==> s.clock < s.wb.invalidatedTasks[id])
  }

  lemma CleanupCleans(s: State, now: Time)
    ensures Cleaned(s.(clock := now, wb := W.Cleanup(s.wb, now)))
  {
    hide W.LiveIndex, W.Overdue;
  }

  lemma IssuedGrows(s: State, after: State, x: W.Target, c: Config)
    requires TicketsRecorded(s, c) && TicketsSpent(s) && x.ref !in s.issued && x.ref != "" && IssuedOk(s, c, x)
    requires after == s.(wb := after.wb, issued := s.issued[x.ref := x])
    requires after.wb.tickets == s.wb.tickets[x.ref := x]
    ensures TicketsRecorded(after, c) && TicketsSpent(after)
  {
    hide IssuedOk;
    forall w | w in after.issued ensures IssuedOk(after, c, after.issued[w]) { SameHistory(s, after, c, after.issued[w]); }
    forall w | w in after.issued ensures Spent(after, after.issued[w]) {
      if w != x.ref { assert Spent(s, s.issued[w]); }
    }
  }

  /** Drawing a new ticket for a current snapshot. */
  lemma ContextTicketDrawn(s: State, after: State, info: S.Info, x: W.Target, c: Config)
    requires c.Valid() && Tickets(s, c) && SnapshotsRecorded(s, c) && TasksRecorded(s) && Cleaned(s)
    requires info.ref in s.made && s.made[info.ref] == info && W.SnapshotIssuable(info)
    requires x == W.SnapshotTarget(info, x.ref, s.clock, c.writebacks) && x.ref !in s.issued && x.ref != ""
    requires info.ref !in s.wb.invalidated
    requires var held := Lookup(s.wb.byContext, info.ref);
      !(held != "" && held in s.wb.tickets && W.SameSnapshot(s.wb.tickets[held], info))
    requires after == s.(wb := after.wb, issued := s.issued[x.ref := x])
    requires SameTickets(after.wb, s.wb.(tickets := s.wb.tickets[x.ref := x], byContext := s.wb.byContext[info.ref := x.ref]))
    ensures Tickets(after, c)
  {
    hide Indexed, ClosedTask, ValidArtifactID;
    assert info.ref !in s.wb.byContext by { NotIndexed(s, info, c); }
    AddToIndex(s.wb.tickets, s.wb.byContext, x, W.ContextKind);
    AddToOther(s.wb.tickets, s.wb.byTask, x, W.TaskKind);
    IssuedGrows(s, after, x, c);
    forall r | r in s.made ensures Barred(after, r) { assert Barred(s, r); }
    NoEmptyID(s);
    SameClosedTasks(s, after);
  }

  lemma NoEmptyClosed(s: State)
    requires TasksRecorded(s) && TasksClosed(s)
    ensures "" !in s.closedTasks
  {
    assert "" in s.leaving ==> ClosedTask(s, "");
  }

  lemma SameClosedTasks(s: State, after: State)
    requires TasksClosed(s) && after.tasks == s.tasks && after.taskMade == s.taskMade
    requires after.leaving == s.leaving && after.closedTasks == s.closedTasks
    requires forall id :: id in s.closedTasks ==> id !in after.wb.byTask
    ensures TasksClosed(after)
  {
    forall id | id in s.leaving ensures ClosedTask(after, id) { assert ClosedTask(s, id); }
  }

  lemma NotIndexed(s: State, info: S.Info, c: Config)
    requires TicketsRecorded(s, c) && Indices(s) && info.ref in s.made && s.made[info.ref] == info && W.SnapshotIssuable(info)
    requires var held := Lookup(s.wb.byContext, info.ref);
      !(held != "" && held in s.wb.tickets && W.SameSnapshot(s.wb.tickets[held], info))
    ensures info.ref !in s.wb.byContext
  {
    if info.ref in s.wb.byContext {
      HeldContextTicketMatches(s, info, s.wb.byContext[info.ref], c);
    }
  }

  lemma TaskNotIndexed(s: State, info: T.Info, c: Config)
    requires TicketsRecorded(s, c) && Indices(s) && info.id in s.taskMade && s.taskMade[info.id] == info && W.TaskIssuable(info)
    requires info.id != ""
    requires var held := Lookup(s.wb.byTask, info.id);
      !(held != "" && held in s.wb.tickets && W.SameTask(s.wb.tickets[held], info))
    ensures info.id !in s.wb.byTask
  {
    if info.id in s.wb.byTask {
      HeldTaskTicketMatches(s, info, s.wb.byTask[info.id], c);
    }
  }

  /** Drawing a new ticket for a writable task. */
  lemma TaskTicketDrawn(s: State, after: State, info: T.Info, x: W.Target, c: Config)
    requires c.Valid() && Tickets(s, c) && TasksRecorded(s) && Cleaned(s)
    requires info.id in s.taskMade && s.taskMade[info.id] == info && W.TaskIssuable(info) && info.id != ""
    requires info.id in s.tasks.byID && s.tasks.byID[info.id].delivered && !s.tasks.byID[info.id].Over()
    requires x == W.TaskTarget(info, x.ref, s.clock) && x.ref !in s.issued && x.ref != ""
    requires var held := Lookup(s.wb.byTask, info.id);
      !(held != "" && held in s.wb.tickets && W.SameTask(s.wb.tickets[held], info))
    requires after == s.(wb := after.wb, issued := s.issued[x.ref := x])
    requires SameTickets(after.wb, s.wb.(tickets := s.wb.tickets[x.ref := x], byTask := s.wb.byTask[info.id := x.ref]))
    ensures Tickets(after, c)
  {
    hide Indexed, ClosedTask, ValidArtifactID, ValidSinkID, OpaqueID, Barred, Spent;
    assert info.id !in s.wb.byTask by { TaskNotIndexed(s, info, c); }
    AddToIndex(s.wb.tickets, s.wb.byTask, x, W.TaskKind);
    AddToOther(s.wb.tickets, s.wb.byContext, x, W.ContextKind);
    IssuedGrows(s, after, x, c);
    SameBarred(s, after);
    LiveNotLeaving(s, info.id);
    SameClosedTasks(s, after);
  }

  lemma SameBarred(s: State, after: State)
    requires ContextsBarred(s) && after.closed == s.closed && after.made == s.made && after.clock == s.clock
    requires after.wb.invalidated == s.wb.invalidated && after.wb.byContext == s.wb.byContext
    ensures ContextsBarred(after)
  {
    forall r | r in s.made ensures Barred(after, r) { assert Barred(s, r); }
  }

  lemma LiveNotLeaving(s: State, id: string)
    requires TasksClosed(s) && id in s.tasks.byID && !s.tasks.byID[id].Over()
    ensures id !in s.leaving && id !in s.closedTasks
  {
    assert id in s.leaving ==> ClosedTask(s, id);
  }

  // Attempts ----------------------------------------------------------------

  predicate IssuedStays(s: State, after: State) {
    forall w :: w in s.issued ==> w in after.issued && after.issued[w] == s.issued[w]
  }

  lemma AttemptsStayRecorded(s: State, after: State)
    requires AttemptsRecorded(s) && IssuedStays(s, after) && |s.wb.attempts| <= |after.wb.attempts|
    requires forall i :: 0 <= i < |s.wb.attempts| ==> W.Progresses(s.wb.attempts[i], after.wb.attempts[i])
    requires forall i :: |s.wb.attempts| <= i < |after.wb.attempts| ==> AttemptRecorded(after, i)
    ensures AttemptsRecorded(after)
  {
    hide AttemptRecorded;
    forall i | 0 <= i < |after.wb.attempts| ensures AttemptRecorded(after, i) {
      if i < |s.wb.attempts| {
        assert AttemptRecorded(s, i) && W.Progresses(s.wb.attempts[i], after.wb.attempts[i]);
        SameAttemptHistory(s, after, i);
      }
    }
  }

  /** A step of the writeback store alone. */
  lemma WritebackStep(s: State, after: State, c: Config)
    requires Inv(s, c) && s.clock <= after.clock
    requires after == s.(clock := after.clock, wb := after.wb, issued := after.issued, closed := after.closed,
                         closedTasks := after.closedTasks)
    requires W.Follows(s.wb, after.wb, after.clock) && Tickets(after, c) && IssuedStays(s, after)
    requires forall i :: |s.wb.attempts| <= i < |after.wb.attempts| ==> AttemptRecorded(after, i)
    ensures Inv(after, c)
  {
    hide S.Inv, T.Inv, W.Inv, Tickets, AttemptRecorded, IssuedStays, Justified;
    AttemptsStayRecorded(s, after);
    assert Remembers(s, after);
    VerdictsPersist(s, after);
  }
}
