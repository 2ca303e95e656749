/** What each operation of the writeback store answers and writes, told from the table as it is before the
    operation's cleanup pass. */
module WritebackAnswers {
  import opened Basics
  import opened Outcomes
  import Snapshots = SnapshotTable
  import Tasks = TaskTable
  import opened WritebackTable

  // Receipts --------------------------------------------------------------------------

  /** The receipt comes from the ticket's own connection, repeats the ticket field by field, and answers
      the listed attempt of its result id, which is claimed and open. */
  predicate Fits(t: Table, m: Receipt, route: Route) {
    && m.resultID in t.deliveries && t.deliveries[m.resultID] < |t.attempts|
    && (var a := t.attempts[t.deliveries[m.resultID]]; var x := a.target;
        && a.outcome == None && a.sendClaimed
        && x.previewRoute.nodeID != "" && x.previewRoute.connectionID != "" && x.previewRoute == route
        && x.actorUID == m.actorUID && x.topicID == m.topicID && x.agentUID == m.agentUID && x.contextRef == m.contextRef
        && x.taskID == m.taskID && x.ref == m.writebackRef && x.artifactID == m.artifactID && x.displayedVersion == m.displayedVersion)
  }

  /** A receipt is accepted exactly if it fits. What it said, or the failure for a malformed one, then ends
      the attempt, and is what is read back through the table. */
  lemma ReceiptExactly(t: Table, m: Receipt, route: Route)
    ensures var (after, accepted) := CompleteReceipt(t, m, route);
      && (accepted <==> Fits(t, m, route))
      && (!accepted ==> after == t)
      && (accepted ==>
            var i := t.deliveries[m.resultID];
            && after == t.(attempts := after.attempts) && |after.attempts| == |t.attempts|
            && (forall j :: 0 <= j < |t.attempts| && j != i ==> after.attempts[j] == t.attempts[j])
            && after.attempts[i] == t.attempts[i].(outcome := after.attempts[i].outcome)
            && OutcomeOf(after, m.resultID) == after.attempts[i].outcome && after.attempts[i].outcome.Some?
            && Says(m, after.attempts[i].outcome.value))
  {
  }

  // Requests --------------------------------------------------------------------------

  /** Two requests have the same key exactly if they agree on every field that the key is taken over. */
  lemma SameKeyExactly(r: Request, x: Target, other: Request, y: Target)
    ensures KeyOf(r, x) == KeyOf(other, y)
            <==> && x.actorUID == y.actorUID && x.topicID == y.topicID && x.agentUID == y.agentUID && x.taskID == y.taskID
                 && r.artifactID == other.artifactID && r.displayedVersion == other.displayedVersion && r.sinkID == other.sinkID
                 && r.resultID == other.resultID && r.expectedStateRevision == other.expectedStateRevision && r.payload == other.payload
  {
  }

  /** The entry of the result id that outlasts the cleanup pass. */
  function Held(t: Table, id: string, now: Time): Attempt
    requires Retained(t, id, now)
  {
    t.attempts[t.deliveries[id]]
  }

  /** The retained entry is answered, or still waits. */
  predicate Stands(a: Attempt, now: Time) {
    match a.outcome
    case Some(o) => o.status in {Applied, Rejected, FailedByApp}
    case None => now < a.waitUntil
  }

  predicate TicketStands(t: Table, x: Target, now: Time) {
    x.ref in t.tickets && now < t.tickets[x.ref].expiresAt && t.tickets[x.ref] == x
  }

  predicate NoPlace(t: Table, id: string, now: Time, config: Config) {
    !Retained(t, id, now) && |Cleanup(t, now).deliveries| >= config.maxEntries
  }

  /** The answers of startDelivery, in the order in which it looks for them: a different request under the
      same result id, an entry that stands, a ticket that does not, no place; otherwise a new attempt. */
  lemma StartExactly(t: Table, r: Request, target: Target, clock: Time, now: Time, config: Config)
    requires Inv(t, clock) && clock <= now
    ensures var answer := StartDelivery(t, r, target, now, config).1;
      var held := Retained(t, r.resultID, now);
      var same := held ==> Held(t, r.resultID, now).key == KeyOf(r, target);
      var stands := held && Stands(Held(t, r.resultID, now), now);
      && (answer == Conflict <==> !same)
      && (answer.Started? && !answer.created <==> same && stands)
      && (answer.Started? && !answer.created ==> answer.attempt == t.deliveries[r.resultID])
      && (answer == TargetExpired <==> same && !stands && !TicketStands(t, target, now))
      && (answer == StoreFull <==> same && !stands && TicketStands(t, target, now) && NoPlace(t, r.resultID, now, config))
      && (answer.Started? && answer.created <==> same && !stands && TicketStands(t, target, now) && !NoPlace(t, r.resultID, now, config))
  {
    hide Cleanup, Inv, KeyOf;
    CleanLive(t, target.ref, now);
    CleanEntry(t, r.resultID, clock, now);
  }

  /** What startDelivery writes: a new attempt for the request under its ticket, and nothing else beyond
      the cleanup pass. */
  lemma StartWrites(t: Table, r: Request, target: Target, now: Time, config: Config)
    ensures var (after, answer) := StartDelivery(t, r, target, now, config); var clean := Cleanup(t, now);
      after == if answer.Started? && answer.created
               then clean.(
                 deliveries := clean.deliveries[r.resultID := |t.attempts|],
                 attempts := clean.attempts
                   + [Attempt(r.resultID, KeyOf(r, target), target, now + config.deliveryTTL, target.expiresAt, now, None, false)])
               else clean
    ensures var answer := StartDelivery(t, r, target, now, config).1; answer.Started? && answer.created ==> answer.attempt == |t.attempts|
  {
    hide Cleanup, KeyOf;
    CleanupQuiet(t, now);
  }

  // Sends -----------------------------------------------------------------------------

  /** The attempt is listed and waits, its ticket's time is not over and nobody has claimed its send. */
  predicate Sendable(t: Table, i: nat, now: Time) {
    && i < |t.attempts| && t.attempts[i].resultID in t.deliveries && t.deliveries[t.attempts[i].resultID] == i
    && t.attempts[i].outcome == None && !t.attempts[i].sendClaimed
    && now < t.attempts[i].waitUntil && now < t.attempts[i].retainUntil
  }

  /** A send is granted exactly if the attempt can be sent and its ticket stands; if only its ticket does
      not, the attempt ends as changed. */
  lemma ClaimExactly(t: Table, i: nat, now: Time)
    ensures var (after, claimed) := Claim(t, i, now); var clean := Cleanup(t, now);
      && (claimed <==> Sendable(t, i, now) && TicketStands(t, t.attempts[i].target, now))
      && after == (if !Sendable(t, i, now) then clean
                   else if claimed then clean.(attempts := clean.attempts[i := t.attempts[i].(sendClaimed := true)])
                   else clean.(attempts := clean.attempts[i := t.attempts[i].(
                                 outcome := Some(Outcome(TargetMismatch, "artifact_preview_changed", "", "")))]))
  {
    hide LiveIndex, Unexpired;
    var clean := Cleanup(t, now);
    if i < |t.attempts| { assert clean.attempts[i] == Overdue(t, i, now); }
  }

  /** completePlatform ends the attempt it names with the outcome it is given, unless it has one. */
  lemma PlatformExactly(t: Table, i: nat, o: Outcome)
    ensures CompletePlatform(t, i, o)
            == if i < |t.attempts| && t.attempts[i].outcome == None
               then t.(attempts := t.attempts[i := t.attempts[i].(outcome := Some(o))]) else t
  {
  }

  // Tickets ---------------------------------------------------------------------------

  predicate SnapshotComplete(s: Snapshots.Info) {
    && s.ref != "" && 0 < s.what.actorUID && 0 < s.what.agentUID && 0 < s.what.displayedVersion && ValidArtifactID(s.what.artifact.id)
    && s.what.previewRoute.nodeID != "" && s.what.previewRoute.connectionID != ""
  }

  /** The table names a live ticket for the snapshot that agrees with it on every field. */
  predicate HoldsForSnapshot(t: Table, s: Snapshots.Info, now: Time) {
    var w := Lookup(t.byContext, s.ref);
    && w != "" && w in t.tickets && now < t.tickets[w].expiresAt
    && (var x := t.tickets[w];
        && x.actorUID == s.what.actorUID && x.topicID == s.what.topicID && x.agentUID == s.what.agentUID
        && x.artifactID == s.what.artifact.id && x.displayedVersion == s.what.displayedVersion && x.snapshotRevision == s.revision
        && x.previewRoute.nodeID != "" && x.previewRoute.connectionID != "" && x.previewRoute == s.what.previewRoute)
  }

  predicate NoTicketLeft(t: Table, now: Time, config: Config) {
    |Cleanup(t, now).tickets| >= config.maxEntries
  }

  predicate ContextBarred(t: Table, ref: string, now: Time) {
    ref in t.invalidated && now < t.invalidated[ref]
  }

  predicate TaskBarred(t: Table, id: string, now: Time) {
    id in t.invalidatedTasks && now < t.invalidatedTasks[id]
  }

  /** The answers of issue, in the order in which it looks for them: an incomplete snapshot, a context whose
      tombstone lasts, the ticket it has, no place; otherwise a new ticket with the snapshot's own fields
      and a whole ticketTTL ahead of it. */
  lemma IssueContextExactly(t: Table, s: Snapshots.Info, drawn: string, now: Time, config: Config)
    ensures var answer := IssueContext(t, s, drawn, now, config).1;
      var barred, holds, none := ContextBarred(t, s.ref, now), HoldsForSnapshot(t, s, now), NoTicketLeft(t, now, config);
      && (answer == NotIssuable <==> !SnapshotComplete(s))
      && (answer == Closed <==> SnapshotComplete(s) && barred)
      && (answer == TicketsFull <==> SnapshotComplete(s) && !barred && !holds && none)
      && (answer.Granted? <==> SnapshotComplete(s) && !barred && (holds || !none))
      && (answer.Granted? ==>
            answer.target == if holds then t.tickets[t.byContext[s.ref]]
                             else Target(drawn, s.ref, "", "", s.what.actorUID, s.what.topicID, s.what.agentUID, s.what.artifact.id,
                                         s.what.displayedVersion, "", s.revision, s.what.previewRoute, now, now + config.ticketTTL))
  {
    hide Overdue, ValidArtifactID, LiveIndex;
    CleanIndex(t, s.ref, now);
  }

  /** What issue writes beyond its cleanup pass: the new ticket under its reference and its context. */
  lemma IssueContextWrites(t: Table, s: Snapshots.Info, drawn: string, now: Time, config: Config)
    ensures var (after, answer) := IssueContext(t, s, drawn, now, config); var clean := Cleanup(t, now);
      after == if answer == NotIssuable then t
               else if answer.Granted? && !HoldsForSnapshot(t, s, now)
               then clean.(tickets := clean.tickets[drawn := answer.target], byContext := clean.byContext[s.ref := drawn])
               else clean
  {
    hide Overdue, ValidArtifactID, LiveIndex;
    CleanIndex(t, s.ref, now);
  }

  /** A live ticket that an index names is named by it after cleanup, and no other is. */
  lemma CleanIndex(t: Table, source: string, now: Time)
    ensures var clean := Cleanup(t, now);
      && (var w := Lookup(t.byContext, source);
          w in t.tickets && now < t.tickets[w].expiresAt ==> Lookup(clean.byContext, source) == w && w in clean.tickets)
      && (var w := Lookup(clean.byContext, source); w != "" ==> Lookup(t.byContext, source) == w)
      && (var w := Lookup(t.byTask, source);
          w in t.tickets && now < t.tickets[w].expiresAt ==> Lookup(clean.byTask, source) == w && w in clean.tickets)
      && (var w := Lookup(clean.byTask, source); w != "" ==> Lookup(t.byTask, source) == w)
  {
    hide Overdue;
  }

  predicate TaskComplete(task: Tasks.Info) {
    && OpaqueID("atk_", task.id) && OpaqueID("atr_", task.ref) && 0 < task.what.actorUID && 0 < task.what.agentUID
    && task.what.topicID != "" && 0 < task.what.displayedVersion && ValidArtifactID(task.what.artifact.id)
    && ValidSinkID(task.what.intent.resultSink) && task.what.previewRoute.nodeID != "" && task.what.previewRoute.connectionID != ""
  }

  /** The table names a live ticket for the task that agrees with it on every field. */
  predicate HoldsForTask(t: Table, task: Tasks.Info, now: Time) {
    var w := Lookup(t.byTask, task.id);
    && w != "" && w in t.tickets && now < t.tickets[w].expiresAt
    && (var x := t.tickets[w];
        && x.taskRef == task.ref && x.actorUID == task.what.actorUID && x.topicID == task.what.topicID && x.agentUID == task.what.agentUID
        && x.artifactID == task.what.artifact.id && x.displayedVersion == task.what.displayedVersion
        && x.resultSink == task.what.intent.resultSink
        && x.previewRoute.nodeID != "" && x.previewRoute.connectionID != "" && x.previewRoute == task.what.previewRoute)
  }

  /** The same for a task, whose ticket lasts as long as the task. */
  lemma IssueTaskExactly(t: Table, task: Tasks.Info, drawn: string, now: Time, config: Config)
    ensures var answer := IssueTask(t, task, drawn, now, config).1;
      var barred, holds, none := TaskBarred(t, task.id, now), HoldsForTask(t, task, now), NoTicketLeft(t, now, config);
      && (answer == NotIssuable <==> !TaskComplete(task))
      && (answer == Closed <==> TaskComplete(task) && barred)
      && (answer == TicketsFull <==> TaskComplete(task) && !barred && !holds && none)
      && (answer.Granted? <==> TaskComplete(task) && !barred && (holds || !none))
      && (answer.Granted? ==>
            answer.target == if holds then t.tickets[t.byTask[task.id]]
                             else Target(drawn, "", task.id, task.ref, task.what.actorUID, task.what.topicID, task.what.agentUID,
                                         task.what.artifact.id, task.what.displayedVersion, task.what.intent.resultSink, 0,
                                         task.what.previewRoute, now, task.expiresAt))
  {
    hide Overdue, ValidArtifactID, ValidSinkID, OpaqueID, LiveIndex;
    CleanIndex(t, task.id, now);
  }

  lemma IssueTaskWrites(t: Table, task: Tasks.Info, drawn: string, now: Time, config: Config)
    ensures var (after, answer) := IssueTask(t, task, drawn, now, config); var clean := Cleanup(t, now);
      after == if answer == NotIssuable then t
               else if answer.Granted? && !HoldsForTask(t, task, now)
               then clean.(tickets := clean.tickets[drawn := answer.target], byTask := clean.byTask[task.id := drawn])
               else clean
  {
    hide Overdue, ValidArtifactID, ValidSinkID, OpaqueID, LiveIndex;
    CleanIndex(t, task.id, now);
  }

  // Invalidation ----------------------------------------------------------------------

  /** invalidateContext bars the context for a ticketTTL, drops the ticket it names and closes exactly the
      attempts of that context that wait unclaimed; everything else is as cleanup leaves it. */
  lemma InvalidateContextExactly(t: Table, ref: string, now: Time, config: Config)
    requires ref != ""
    ensures var (after, clean) := (InvalidateContext(t, ref, now, config), Cleanup(t, now));
      && after.invalidated == clean.invalidated[ref := now + config.ticketTTL] && after.invalidatedTasks == clean.invalidatedTasks
      && after.byContext == clean.byContext - {ref} && after.byTask == clean.byTask && after.deliveries == clean.deliveries
      && after.tickets == (if ref in clean.byContext then clean.tickets - {clean.byContext[ref]} else clean.tickets - {""})
      && |after.attempts| == |t.attempts| == |clean.attempts|
      && (forall i :: 0 <= i < |t.attempts| ==>
            after.attempts[i] == if Sendable(t, i, now) && t.attempts[i].target.contextRef == ref
                                 then t.attempts[i].(outcome := Some(Outcome(TargetMismatch, "artifact_preview_changed", "", "")))
                                 else clean.attempts[i])
  {
    hide LiveIndex, Unexpired, LiveTickets;
    var clean := Cleanup(t, now);
    forall i | 0 <= i < |t.attempts| ensures clean.attempts[i] == Overdue(t, i, now) && (Unclaimed(clean, i) <==> Sendable(t, i, now)) {
    }
  }

  lemma InvalidateTaskExactly(t: Table, id: string, now: Time, config: Config)
    requires OpaqueID("atk_", id)
    ensures var (after, clean) := (InvalidateTask(t, id, now, config), Cleanup(t, now));
      && after.invalidatedTasks == clean.invalidatedTasks[id := now + config.ticketTTL] && after.invalidated == clean.invalidated
      && after.byTask == clean.byTask - {id} && after.byContext == clean.byContext && after.deliveries == clean.deliveries
      && after.tickets == (if id in clean.byTask then clean.tickets - {clean.byTask[id]} else clean.tickets - {""})
      && |after.attempts| == |t.attempts| == |clean.attempts|
      && (forall i :: 0 <= i < |t.attempts| ==>
            after.attempts[i] == if Sendable(t, i, now) && t.attempts[i].target.taskID == id
                                 then t.attempts[i].(outcome := Some(Outcome(TargetMismatch, "artifact_task_closed", "", "")))
                                 else clean.attempts[i])
  {
    hide LiveIndex, Unexpired, LiveTickets, OpaqueID;
    var clean := Cleanup(t, now);
    forall i | 0 <= i < |t.attempts| ensures clean.attempts[i] == Overdue(t, i, now) && (Unclaimed(clean, i) <==> Sendable(t, i, now)) {
    }
  }

  // Cleanup ---------------------------------------------------------------------------

  /** What the cleanup pass keeps: tickets, tombstones and entries whose time is not over; a listed attempt
      whose wait is over ends as timed out. */
  lemma CleanupExactly(t: Table, now: Time)
    ensures var after := Cleanup(t, now);
      && (forall w :: w in after.tickets <==> w in t.tickets && now < t.tickets[w].expiresAt)
      && (forall w :: w in after.tickets ==> after.tickets[w] == t.tickets[w])
      && (forall ref :: ref in after.invalidated <==> ref in t.invalidated && now < t.invalidated[ref])
      && (forall ref :: ref in after.invalidated ==> after.invalidated[ref] == t.invalidated[ref])
      && (forall id :: id in after.invalidatedTasks <==> id in t.invalidatedTasks && now < t.invalidatedTasks[id])
      && (forall id :: id in after.invalidatedTasks ==> after.invalidatedTasks[id] == t.invalidatedTasks[id])
      && |after.attempts| == |t.attempts|
      && (forall i :: 0 <= i < |t.attempts| ==>
            after.attempts[i] == if t.attempts[i].resultID in t.deliveries && t.deliveries[t.attempts[i].resultID] == i
                                    && t.attempts[i].outcome == None && t.attempts[i].waitUntil <= now
                                 then t.attempts[i].(outcome := Some(Outcome(DeliveryTimeout, "artifact_result_delivery_timeout", "", "")))
                                 else t.attempts[i])
  {
    hide LiveIndex;
    var after := Cleanup(t, now);
    forall i | 0 <= i < |t.attempts| ensures after.attempts[i] == Overdue(t, i, now) {
    }
  }

  /** The index entries that cleanup drops are those of tickets whose time is over, and the delivery entries
      those of attempts whose ticket's time is over. */
  lemma CleanupIndices(t: Table, clock: Time, now: Time)
    requires Inv(t, clock)
    ensures var after := Cleanup(t, now);
      && (forall id :: id in after.deliveries <==> id in t.deliveries && now < t.attempts[t.deliveries[id]].retainUntil)
      && (forall id :: id in after.deliveries ==> after.deliveries[id] == t.deliveries[id])
  {
    hide LiveIndex, LiveTickets, Overdue;
  }
}
