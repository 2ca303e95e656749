/** What the result writeback store computes, as functions on an immutable table.
    WritebackStore.dfy updates its maps and attempts in place and is proved equal to these. */
module WritebackTable {
  import opened Basics
  import opened Outcomes
  import Snapshots = SnapshotTable
  import Tasks = TaskTable

  /** A writeback ticket: where one result of one source may be sent. */
  datatype Target = Target(
    ref: string, contextRef: string, taskID: string, taskRef: string, actorUID: int, topicID: string,
    agentUID: int, artifactID: string, displayedVersion: int, resultSink: string, snapshotRevision: nat,
    previewRoute: Route, createdAt: Time, expiresAt: Time)

  datatype Request = Request(
    writebackRef: string, taskID: string, artifactID: string, displayedVersion: int, sinkID: string,
    resultID: string, expectedStateRevision: string, payload: string)

  /** What the request hash is taken over. The hash is assumed to be injective, so the tuple itself
      stands for it. */
  datatype RequestKey = RequestKey(
    actorUID: int, topicID: string, agentUID: int, taskID: string, artifactID: string, displayedVersion: int,
    sinkID: string, resultID: string, expectedStateRevision: string, payload: string)

  function KeyOf(r: Request, target: Target): RequestKey {
    RequestKey(target.actorUID, target.topicID, target.agentUID, target.taskID, r.artifactID, r.displayedVersion,
               r.sinkID, r.resultID, r.expectedStateRevision, r.payload)
  }

  /** One delivery attempt. An attempt is completed once it has an outcome. */
  datatype Attempt = Attempt(
    resultID: string, key: RequestKey, target: Target, waitUntil: Time, retainUntil: Time, createdAt: Time,
    outcome: Option<Outcome>, sendClaimed: bool) {

    predicate Open() { outcome.None? }

    predicate EndedAs(s: DeliveryStatus) { outcome.Some? && outcome.value.status == s }

    predicate Answered() { outcome.Some? && FromApplication(outcome.value.status) }

    function CompletedAs(o: Outcome): Attempt {
      if Open() then this.(outcome := Some(o)) else this
    }
  }

  /** The receipt message a preview connection sends back. */
  datatype Receipt = Receipt(
    actorUID: int, contextRef: string, taskID: string, writebackRef: string, topicID: string, agentUID: int,
    artifactID: string, displayedVersion: int, resultID: string, application: Option<Outcome>)

  datatype Config = Config(ticketTTL: Time, deliveryTTL: Time, maxEntries: nat) {
    predicate Valid() { 0 < ticketTTL && 0 < deliveryTTL && 0 < maxEntries }
  }

  /** Attempts are objects that outlive their table entry; an attempt is named by the position at
      which it was started. */
  datatype Table = Table(
    tickets: map<string, Target>, byContext: map<string, string>, byTask: map<string, string>,
    invalidated: map<string, Time>, invalidatedTasks: map<string, Time>,
    deliveries: map<string, nat>, attempts: seq<Attempt>)

  const EMPTY: Table := Table(map[], map[], map[], map[], map[], map[], [])

  // Cleanup -----------------------------------------------------------------

  function Unexpired(m: map<string, Time>, now: Time): map<string, Time> {
    map key | key in m && now < m[key] :: m[key]
  }

  function LiveTickets(tickets: map<string, Target>, now: Time): map<string, Target> {
    map ref | ref in tickets && now < tickets[ref].expiresAt :: tickets[ref]
  }

  datatype Kind = ContextKind | TaskKind

  /** The context or the task a ticket was issued for; empty if it has none. */
  function Source(x: Target, kind: Kind): string {
    if kind == ContextKind then x.contextRef else x.taskID
  }

  /** Whether cleanup removes the ticket that `index` names, and with it the entry of `source`. */
  predicate Lapsed(tickets: map<string, Target>, index: map<string, string>, source: string, now: Time, kind: Kind) {
    source in index && index[source] in tickets && tickets[index[source]].expiresAt <= now && source != ""
    && Source(tickets[index[source]], kind) == source
  }

  function LiveIndex(tickets: map<string, Target>, index: map<string, string>, now: Time, kind: Kind): map<string, string> {
    map source | source in index && !Lapsed(tickets, index, source, now, kind) :: index[source]
  }

  function TimedOut(): Outcome {
    Outcome(DeliveryTimeout, "artifact_result_delivery_timeout", "", "")
  }

  /** Whether the attempt at position `i` is the table's entry for its result id. */
  predicate Listed(t: Table, i: nat) {
    i < |t.attempts| && t.attempts[i].resultID in t.deliveries && t.deliveries[t.attempts[i].resultID] == i
  }

  function Overdue(t: Table, i: nat, now: Time): Attempt
    requires i < |t.attempts|
  {
    if Listed(t, i) && t.attempts[i].waitUntil <= now then t.attempts[i].CompletedAs(TimedOut()) else t.attempts[i]
  }

  function Cleanup(t: Table, now: Time): Table {
    Table(LiveTickets(t.tickets, now),
          LiveIndex(t.tickets, t.byContext, now, ContextKind),
          LiveIndex(t.tickets, t.byTask, now, TaskKind),
          Unexpired(t.invalidated, now), Unexpired(t.invalidatedTasks, now),
          map id | id in t.deliveries && (t.deliveries[id] < |t.attempts| ==> now < t.attempts[t.deliveries[id]].retainUntil)
            :: t.deliveries[id],
          seq(|t.attempts|, i requires 0 <= i < |t.attempts| => Overdue(t, i, now)))
  }

  /** Cleanup forgets an open attempt without completing it exactly when its ticket's time is over
      and its own wait is not. */
  lemma ForgottenOpenExactly(t: Table, i: nat, now: Time)
    requires Listed(t, i) && t.attempts[i].Open()
    ensures var after := Cleanup(t, now);
      i < |after.attempts|
      && (!Listed(after, i) && after.attempts[i].Open() <==> t.attempts[i].retainUntil <= now < t.attempts[i].waitUntil)
      && (!after.attempts[i].Open() <==> t.attempts[i].waitUntil <= now)
  {
    var after := Cleanup(t, now);
    assert after.attempts[i] == Overdue(t, i, now);
  }

  // Tickets -----------------------------------------------------------------

  predicate SnapshotIssuable(s: Snapshots.Info) {
    && s.ref != "" && 0 < s.what.actorUID && 0 < s.what.agentUID && ValidArtifactID(s.what.artifact.id)
    && 0 < s.what.displayedVersion && s.what.previewRoute.Known()
  }

  function SnapshotTarget(s: Snapshots.Info, ref: string, now: Time, config: Config): Target {
    Target(ref, s.ref, "", "", s.what.actorUID, s.what.topicID, s.what.agentUID, s.what.artifact.id,
           s.what.displayedVersion, "", s.revision, s.what.previewRoute, now, now + config.ticketTTL)
  }

  predicate SameSnapshot(target: Target, s: Snapshots.Info) {
    && target.actorUID == s.what.actorUID && target.topicID == s.what.topicID && target.agentUID == s.what.agentUID
    && target.artifactID == s.what.artifact.id && target.displayedVersion == s.what.displayedVersion
    && target.snapshotRevision == s.revision && target.previewRoute.Matches(s.what.previewRoute)
  }

  predicate TaskIssuable(task: Tasks.Info) {
    && OpaqueID("atk_", task.id) && OpaqueID("atr_", task.ref) && 0 < task.what.actorUID && 0 < task.what.agentUID
    && task.what.topicID != "" && ValidArtifactID(task.what.artifact.id) && 0 < task.what.displayedVersion
    && ValidSinkID(task.what.intent.resultSink) && task.what.previewRoute.Known()
  }

  function TaskTarget(task: Tasks.Info, ref: string, now: Time): Target {
    Target(ref, "", task.id, task.ref, task.what.actorUID, task.what.topicID, task.what.agentUID,
           task.what.artifact.id, task.what.displayedVersion, task.what.intent.resultSink, 0,
           task.what.previewRoute, now, task.expiresAt)
  }

  predicate SameTask(target: Target, task: Tasks.Info) {
    && target.taskRef == task.ref && target.actorUID == task.what.actorUID && target.topicID == task.what.topicID
    && target.agentUID == task.what.agentUID && target.artifactID == task.what.artifact.id
    && target.displayedVersion == task.what.displayedVersion && target.resultSink == task.what.intent.resultSink
    && target.previewRoute.Matches(task.what.previewRoute)
  }

  predicate Live(t: Table, ref: string, now: Time) {
    ref in t.tickets && now < t.tickets[ref].expiresAt
  }

  datatype Issue = Granted(target: Target) | Closed | TicketsFull | NotIssuable

  /** issue, given the fresh ticket reference it would draw. */
  function IssueContext(t: Table, s: Snapshots.Info, drawn: string, now: Time, config: Config): (Table, Issue) {
    if !SnapshotIssuable(s) then (t, NotIssuable) else
    var clean := Cleanup(t, now);
    var held := Lookup(clean.byContext, s.ref);
    if s.ref in clean.invalidated && now < clean.invalidated[s.ref] then (clean, Closed)
    else if held != "" && Live(clean, held, now) && SameSnapshot(clean.tickets[held], s) then (clean, Granted(clean.tickets[held]))
    else if |clean.tickets| >= config.maxEntries then (clean, TicketsFull)
    else
      var target := SnapshotTarget(s, drawn, now, config);
      (clean.(tickets := clean.tickets[drawn := target], byContext := clean.byContext[s.ref := drawn]), Granted(target))
  }

  function IssueTask(t: Table, task: Tasks.Info, drawn: string, now: Time, config: Config): (Table, Issue) {
    if !TaskIssuable(task) then (t, NotIssuable) else
    var clean := Cleanup(t, now);
    var held := Lookup(clean.byTask, task.id);
    if task.id in clean.invalidatedTasks && now < clean.invalidatedTasks[task.id] then (clean, Closed)
    else if held != "" && Live(clean, held, now) && SameTask(clean.tickets[held], task) then (clean, Granted(clean.tickets[held]))
    else if |clean.tickets| >= config.maxEntries then (clean, TicketsFull)
    else
      var target := TaskTarget(task, drawn, now);
      (clean.(tickets := clean.tickets[drawn := target], byTask := clean.byTask[task.id := drawn]), Granted(target))
  }

  // Invalidation ------------------------------------------------------------

  function Changed(): Outcome {
    Outcome(TargetMismatch, "artifact_preview_changed", "", "")
  }

  function TaskClosed(): Outcome {
    Outcome(TargetMismatch, "artifact_task_closed", "", "")
  }

  predicate Unclaimed(t: Table, i: nat) {
    Listed(t, i) && t.attempts[i].Open() && !t.attempts[i].sendClaimed
  }

  function InvalidateContext(t: Table, contextRef: string, now: Time, config: Config): Table {
    if contextRef == "" then t else
    var clean := Cleanup(t, now);
    clean.(invalidated := clean.invalidated[contextRef := now + config.ticketTTL],
           byContext := clean.byContext - {contextRef},
           tickets := clean.tickets - {Lookup(clean.byContext, contextRef)},
           attempts := seq(|clean.attempts|, i requires 0 <= i < |clean.attempts| =>
                           if Unclaimed(clean, i) && clean.attempts[i].target.contextRef == contextRef
                           then clean.attempts[i].CompletedAs(Changed()) else clean.attempts[i]))
  }

  function InvalidateTask(t: Table, taskID: string, now: Time, config: Config): Table {
    if !OpaqueID("atk_", taskID) then t else
    var clean := Cleanup(t, now);
    clean.(invalidatedTasks := clean.invalidatedTasks[taskID := now + config.ticketTTL],
           byTask := clean.byTask - {taskID},
           tickets := clean.tickets - {Lookup(clean.byTask, taskID)},
           attempts := seq(|clean.attempts|, i requires 0 <= i < |clean.attempts| =>
                           if Unclaimed(clean, i) && clean.attempts[i].target.taskID == taskID
                           then clean.attempts[i].CompletedAs(TaskClosed()) else clean.attempts[i]))
  }

  // Attempts ----------------------------------------------------------------

  function SetAttempt(t: Table, i: nat, a: Attempt): Table
    requires i < |t.attempts|
  {
    t.(attempts := t.attempts[i := a])
  }

  /** claimDeliveryForSend; the answer says whether the send was claimed. */
  function Claim(t: Table, i: nat, now: Time): (Table, bool) {
    var clean := Cleanup(t, now);
    if !Unclaimed(clean, i) then (clean, false) else ClaimListed(clean, i, now)
  }

  /** The claim of the listed, open, unclaimed attempt `i`. */
  function ClaimListed(t: Table, i: nat, now: Time): (Table, bool)
    requires i < |t.attempts|
  {
    var a := t.attempts[i];
    if !Live(t, a.target.ref, now) || t.tickets[a.target.ref] != a.target then
      (SetAttempt(t, i, a.CompletedAs(Changed())), false)
    else (SetAttempt(t, i, a.(sendClaimed := true)), true)
  }

  datatype Start = Started(attempt: nat, created: bool) | Conflict | TargetExpired | StoreFull

  function StartDelivery(t: Table, r: Request, target: Target, now: Time, config: Config): (Table, Start) {
    var clean := Cleanup(t, now);
    var key := KeyOf(r, target);
    var listed := r.resultID in clean.deliveries && clean.deliveries[r.resultID] < |clean.attempts|;
    if listed && clean.attempts[clean.deliveries[r.resultID]].key != key then (clean, Conflict)
    else if listed && (clean.attempts[clean.deliveries[r.resultID]].Open() || clean.attempts[clean.deliveries[r.resultID]].Answered()) then
      (clean, Started(clean.deliveries[r.resultID], false))
    else if !Live(clean, target.ref, now) || clean.tickets[target.ref] != target then (clean, TargetExpired)
    else if !listed && |clean.deliveries| >= config.maxEntries then (clean, StoreFull)
    else
      var a := Attempt(r.resultID, key, target, now + config.deliveryTTL, target.expiresAt, now, None, false);
      (clean.(deliveries := clean.deliveries[r.resultID := |clean.attempts|], attempts := clean.attempts + [a]),
       Started(|clean.attempts|, true))
  }

  /** completePlatform runs no cleanup. */
  function CompletePlatform(t: Table, i: nat, o: Outcome): Table {
    if i < |t.attempts| then SetAttempt(t, i, t.attempts[i].CompletedAs(o)) else t
  }

  predicate Answers(m: Receipt, target: Target) {
    && m.actorUID == target.actorUID && m.contextRef == target.contextRef && m.taskID == target.taskID
    && m.writebackRef == target.ref && m.topicID == target.topicID && m.agentUID == target.agentUID
    && m.artifactID == target.artifactID && m.displayedVersion == target.displayedVersion
  }

  /** The outcome is what the receipt says. A receipt that says nothing well-formed, or something that is not
      the application's to say, stands for a failure. */
  predicate Says(m: Receipt, o: Outcome) {
    if m.application.Some? && m.application.value.status in {Applied, Rejected, FailedByApp}
    then m.application == Some(o)
    else o.status == FailedByApp && o.code == "invalid_receipt" && o.message == ""
  }

  /** The outcome a receipt leads to; a malformed one counts as a failure of the application. */
  function ReceiptOutcome(m: Receipt): Outcome {
    if m.application.Some? && FromApplication(m.application.value.status) then m.application.value
    else Outcome(FailedByApp, "invalid_receipt", "", "")
  }

  predicate Accepts(t: Table, m: Receipt, route: Route) {
    && m.resultID in t.deliveries && t.deliveries[m.resultID] < |t.attempts|
    && (var a := t.attempts[t.deliveries[m.resultID]];
        a.Open() && a.sendClaimed && a.target.previewRoute.Matches(route) && Answers(m, a.target))
  }

  /** completeReceipt runs no cleanup. */
  function CompleteReceipt(t: Table, m: Receipt, route: Route): (Table, bool) {
    if !Accepts(t, m, route) then (t, false) else
    var i := t.deliveries[m.resultID];
    (SetAttempt(t, i, t.attempts[i].CompletedAs(ReceiptOutcome(m))), true)
  }

  /** outcome: read through the table. */
  function OutcomeOf(t: Table, resultID: string): Option<Outcome> {
    if resultID in t.deliveries && t.deliveries[resultID] < |t.attempts| then t.attempts[t.deliveries[resultID]].outcome else None
  }

  // The invariant -----------------------------------------------------------

  predicate TicketOk(ref: string, x: Target) {
    && x.ref == ref && ref != "" && (x.contextRef == "" <==> x.taskID != "")
  }

  predicate AttemptOk(a: Attempt) {
    && a.key.taskID == a.target.taskID && a.key.resultID == a.resultID && a.retainUntil == a.target.expiresAt
    && (a.EndedAs(TargetMismatch) ==> !a.sendClaimed)
    && (a.Answered() ==> a.sendClaimed)
  }

  /** An attempt that is open, or that the application has answered, stays listed until its ticket
      would expire. */
  predicate StaysListed(t: Table, i: nat, clock: Time)
    requires i < |t.attempts|
  {
    (t.attempts[i].Open() || t.attempts[i].Answered()) && clock < t.attempts[i].retainUntil ==> Listed(t, i)
  }

  predicate TicketsOk(t: Table) {
    forall ref :: ref in t.tickets ==> TicketOk(ref, t.tickets[ref])
  }

  predicate AttemptsOk(t: Table, clock: Time) {
    && (forall id :: id in t.deliveries ==> t.deliveries[id] < |t.attempts| && t.attempts[t.deliveries[id]].resultID == id)
    && (forall i :: 0 <= i < |t.attempts| ==> AttemptOk(t.attempts[i]) && StaysListed(t, i, clock))
  }

  predicate Inv(t: Table, clock: Time) {
    TicketsOk(t) && AttemptsOk(t, clock)
  }

  /** What a step may not undo: an outcome is written once, and claims only while open. */
  predicate Progresses(before: Attempt, after: Attempt) {
    && after.resultID == before.resultID && after.key == before.key && after.target == before.target
    && after.waitUntil == before.waitUntil && after.retainUntil == before.retainUntil && after.createdAt == before.createdAt
    && (!before.Open() ==> after == before)
    && (before.sendClaimed ==> after.sendClaimed)
    && (after.sendClaimed && !before.sendClaimed ==> before.Open())
  }

  /** `after` is a sound successor of `t` at `now`. */
  predicate Follows(t: Table, after: Table, now: Time) {
    && Inv(after, now)
    && |t.attempts| <= |after.attempts|
    && (forall i :: 0 <= i < |t.attempts| ==> Progresses(t.attempts[i], after.attempts[i]))
  }

  lemma FollowsTransitively(t: Table, mid: Table, after: Table, now: Time, later: Time)
    requires Follows(t, mid, now) && Follows(mid, after, later)
    ensures Follows(t, after, later)
  {
    hide Inv;
    forall i | 0 <= i < |t.attempts| ensures Progresses(t.attempts[i], after.attempts[i]) {
      assert Progresses(t.attempts[i], mid.attempts[i]) && Progresses(mid.attempts[i], after.attempts[i]);
    }
  }

  lemma Unchanged(t: Table, clock: Time, now: Time)
    requires Inv(t, clock) && clock <= now
    ensures Follows(t, t, now)
  {
  }

  // Every operation keeps the invariant --------------------------------------

  lemma CleanupFollows(t: Table, clock: Time, now: Time)
    requires Inv(t, clock) && clock <= now
    ensures Follows(t, Cleanup(t, now), now)
  {
    hide Cleanup, AttemptsOk, TicketsOk;
    OverdueProgresses(t, now);
    OverdueOk(t, clock, now);
    CleanupTickets(t, now);
  }

  lemma CleanupTickets(t: Table, now: Time)
    ensures TicketsOk(t) ==> TicketsOk(Cleanup(t, now))
  {
    hide LiveIndex, Unexpired, Overdue;
  }

  lemma OverdueProgresses(t: Table, now: Time)
    ensures var after := Cleanup(t, now);
      && |after.attempts| == |t.attempts|
      && (forall i :: 0 <= i < |t.attempts| ==> Progresses(t.attempts[i], after.attempts[i]))
  {
    hide LiveIndex, LiveTickets, Unexpired;
    var after := Cleanup(t, now);
    forall i | 0 <= i < |t.attempts| ensures Progresses(t.attempts[i], after.attempts[i]) {
      assert after.attempts[i] == Overdue(t, i, now);
    }
  }

  lemma OverdueOk(t: Table, clock: Time, now: Time)
    requires AttemptsOk(t, clock) && clock <= now
    ensures AttemptsOk(Cleanup(t, now), now)
  {
    hide LiveIndex, LiveTickets, Unexpired;
    var after := Cleanup(t, now);
    forall i | 0 <= i < |after.attempts| ensures AttemptOk(after.attempts[i]) && StaysListed(after, i, now) {
      assert after.attempts[i] == Overdue(t, i, now);
      assert AttemptOk(t.attempts[i]) && StaysListed(t, i, clock);
    }
  }

  /** An update of one attempt. */
  lemma SetAttemptFollows(t: Table, i: nat, a: Attempt, clock: Time, now: Time)
    requires Inv(t, clock) && clock <= now && i < |t.attempts|
    requires AttemptOk(a) && Progresses(t.attempts[i], a) && (a.Answered() && clock < a.retainUntil ==> Listed(t, i))
    ensures Follows(t, SetAttempt(t, i, a), now)
  {
  }

  lemma IssueContextFollows(t: Table, s: Snapshots.Info, drawn: string, clock: Time, now: Time, config: Config)
    requires Inv(t, clock) && clock <= now && drawn != ""
    ensures Follows(t, IssueContext(t, s, drawn, now, config).0, now) && |IssueContext(t, s, drawn, now, config).0.attempts| == |t.attempts|
  {
    hide Cleanup, ValidArtifactID, AttemptOk, Progresses;
    Unchanged(t, clock, now);
    OverdueProgresses(t, now);
    CleanupFollows(t, clock, now);
  }

  lemma IssueTaskFollows(t: Table, task: Tasks.Info, drawn: string, clock: Time, now: Time, config: Config)
    requires Inv(t, clock) && clock <= now && drawn != ""
    ensures Follows(t, IssueTask(t, task, drawn, now, config).0, now) && |IssueTask(t, task, drawn, now, config).0.attempts| == |t.attempts|
  {
    hide Cleanup, ValidArtifactID, ValidSinkID, OpaqueID, AttemptOk, Progresses;
    Unchanged(t, clock, now);
    OverdueProgresses(t, now);
    CleanupFollows(t, clock, now);
    OpaqueNotEmpty("atk_", task.id);
  }

  lemma OpaqueNotEmpty(prefix: string, s: string)
    requires prefix != ""
    ensures OpaqueID(prefix, s) ==> s != ""
  {
  }

  /** The attempts after an invalidation closes those it applies to. */
  lemma ClosingFollows(t: Table, after: Table, o: Outcome, now: Time)
    requires Inv(t, now) && o.status == TargetMismatch
    requires after.tickets.Keys <= t.tickets.Keys && (forall ref :: ref in after.tickets ==> after.tickets[ref] == t.tickets[ref])
    requires after.deliveries == t.deliveries && |after.attempts| == |t.attempts|
    requires forall i :: 0 <= i < |t.attempts| ==>
               after.attempts[i] == t.attempts[i]
               || (Unclaimed(t, i) && after.attempts[i] == t.attempts[i].CompletedAs(o))
    ensures Follows(t, after, now)
  {
    forall i | 0 <= i < |t.attempts|
      ensures AttemptOk(after.attempts[i]) && StaysListed(after, i, now) && Progresses(t.attempts[i], after.attempts[i])
    {
      assert AttemptOk(t.attempts[i]) && StaysListed(t, i, now);
    }
  }

  lemma InvalidateContextFollows(t: Table, contextRef: string, clock: Time, now: Time, config: Config)
    requires Inv(t, clock) && clock <= now
    ensures Follows(t, InvalidateContext(t, contextRef, now, config), now) && |InvalidateContext(t, contextRef, now, config).attempts| == |t.attempts|
  {
    hide Cleanup, Inv, Progresses;
    Unchanged(t, clock, now);
    OverdueProgresses(t, now);
    CleanupFollows(t, clock, now);
    if contextRef != "" {
      ClosingFollows(Cleanup(t, now), InvalidateContext(t, contextRef, now, config), Changed(), now);
      FollowsTransitively(t, Cleanup(t, now), InvalidateContext(t, contextRef, now, config), now, now);
    }
  }

  lemma InvalidateTaskFollows(t: Table, taskID: string, clock: Time, now: Time, config: Config)
    requires Inv(t, clock) && clock <= now
    ensures Follows(t, InvalidateTask(t, taskID, now, config), now) && |InvalidateTask(t, taskID, now, config).attempts| == |t.attempts|
  {
    hide Cleanup, Inv, Progresses, OpaqueID;
    Unchanged(t, clock, now);
    OverdueProgresses(t, now);
    CleanupFollows(t, clock, now);
    if OpaqueID("atk_", taskID) {
      ClosingFollows(Cleanup(t, now), InvalidateTask(t, taskID, now, config), TaskClosed(), now);
      FollowsTransitively(t, Cleanup(t, now), InvalidateTask(t, taskID, now, config), now, now);
    }
  }

  /** An attempt becomes claimed only here, and only while it is the listed, open, unclaimed attempt
      of a live ticket that is still exactly its target. */
  lemma ClaimFollows(t: Table, i: nat, clock: Time, now: Time)
    requires Inv(t, clock) && clock <= now
    ensures var (after, claimed) := Claim(t, i, now);
      && Follows(t, after, now)
      && |after.attempts| == |t.attempts|
      && (forall j :: 0 <= j < |t.attempts| && after.attempts[j].sendClaimed && !t.attempts[j].sendClaimed ==> j == i && claimed)
      && (claimed ==> i < |t.attempts| && t.attempts[i].Open() && !t.attempts[i].sendClaimed
                      && Live(t, t.attempts[i].target.ref, now) && t.tickets[t.attempts[i].target.ref] == t.attempts[i].target
                      && after.attempts[i] == t.attempts[i].(sendClaimed := true) && after.tickets == LiveTickets(t.tickets, now))
  {
    hide Overdue, LiveIndex, Unexpired, Inv;
    var clean := Cleanup(t, now);
    CleanupFollows(t, clock, now);
    CleanupClaimsNothing(t, now);
    if Unclaimed(clean, i) {
      var a := clean.attempts[i];
      AttemptsAreOk(clean, i, now);
      SetAttemptFollows(clean, i, a.CompletedAs(Changed()), now, now);
      SetAttemptFollows(clean, i, a.(sendClaimed := true), now, now);
      FollowsTransitively(t, clean, SetAttempt(clean, i, a.CompletedAs(Changed())), now, now);
      FollowsTransitively(t, clean, SetAttempt(clean, i, a.(sendClaimed := true)), now, now);
    }
  }

  lemma CleanupClaimsNothing(t: Table, now: Time)
    ensures var after := Cleanup(t, now);
      && |after.attempts| == |t.attempts|
      && (forall i :: 0 <= i < |t.attempts| ==>
            && after.attempts[i].sendClaimed == t.attempts[i].sendClaimed && after.attempts[i].target == t.attempts[i].target
            && (after.attempts[i].Open() ==> t.attempts[i] == after.attempts[i]))
  {
    hide LiveIndex, LiveTickets, Unexpired;
    var after := Cleanup(t, now);
    forall i | 0 <= i < |t.attempts| ensures after.attempts[i] == Overdue(t, i, now) {
    }
  }

  lemma AttemptsAreOk(t: Table, i: nat, clock: Time)
    requires Inv(t, clock) && i < |t.attempts|
    ensures AttemptOk(t.attempts[i]) && StaysListed(t, i, clock)
  {
  }

  /** A handler is always given the attempt for its own result id and its own request. A new attempt
      starts only under the live ticket it targets. */
  lemma StartFollows(t: Table, r: Request, target: Target, clock: Time, now: Time, config: Config)
    requires Inv(t, clock) && clock <= now
    ensures var (after, answer) := StartDelivery(t, r, target, now, config);
      && Follows(t, after, now)
      && (answer.Started? ==>
            && answer.attempt < |after.attempts|
            && after.attempts[answer.attempt].resultID == r.resultID
            && after.attempts[answer.attempt].key == KeyOf(r, target))
      && (if answer.Started? && answer.created
          then && answer.attempt == |t.attempts| && |after.attempts| == |t.attempts| + 1
               && after.attempts[answer.attempt].target == target
               && Live(t, target.ref, now) && t.tickets[target.ref] == target
               && !after.attempts[answer.attempt].sendClaimed && after.attempts[answer.attempt].Open()
          else |after.attempts| == |t.attempts|)
      && after.tickets == LiveTickets(t.tickets, now)
  {
    hide Cleanup, Progresses, LiveTickets;
    var clean := Cleanup(t, now);
    CleanupFollows(t, clock, now);
    CleanupClaimsNothing(t, now);
    CleanTickets(t, now);
    var (after, answer) := StartDelivery(t, r, target, now, config);
    if answer.Started? && answer.created {
      var a := after.attempts[|t.attempts|];
      StartKeepsInv(clean, a, now);
      ProgressesReflexively(clean);
      FollowsTransitively(t, clean, after, now, now);
    }
  }

  lemma CleanTickets(t: Table, now: Time)
    ensures Cleanup(t, now).tickets == LiveTickets(t.tickets, now)
    ensures forall ref :: Live(Cleanup(t, now), ref, now) ==> Live(t, ref, now) && Cleanup(t, now).tickets[ref] == t.tickets[ref]
  {
    hide Overdue, LiveIndex, Unexpired;
  }

  lemma ProgressesReflexively(t: Table)
    ensures forall i :: 0 <= i < |t.attempts| ==> Progresses(t.attempts[i], t.attempts[i])
  {
  }

  lemma StartKeepsInv(t: Table, a: Attempt, now: Time)
    requires Inv(t, now) && AttemptOk(a)
    requires a.resultID in t.deliveries ==> !t.attempts[t.deliveries[a.resultID]].Open() && !t.attempts[t.deliveries[a.resultID]].Answered()
    ensures Inv(t.(deliveries := t.deliveries[a.resultID := |t.attempts|], attempts := t.attempts + [a]), now)
  {
    hide AttemptOk;
    var after := t.(deliveries := t.deliveries[a.resultID := |t.attempts|], attempts := t.attempts + [a]);
    forall i | 0 <= i < |after.attempts| ensures AttemptOk(after.attempts[i]) && StaysListed(after, i, now) {
      if i < |t.attempts| {
        assert AttemptOk(t.attempts[i]) && StaysListed(t, i, now);
      }
    }
  }

  lemma CompletePlatformFollows(t: Table, i: nat, o: Outcome, clock: Time, now: Time)
    requires Inv(t, clock) && clock <= now && o.status in {DeliveryTimeout, NotConnected}
    ensures Follows(t, CompletePlatform(t, i, o), now)
  {
    hide Inv;
    Unchanged(t, clock, now);
    if i < |t.attempts| {
      AttemptsAreOk(t, i, clock);
      SetAttemptFollows(t, i, t.attempts[i].CompletedAs(o), clock, now);
    }
  }

  /** A receipt is accepted only for the listed, claimed, open attempt of its result id, from exactly
      the preview connection the ticket names, and it ends the attempt with an application status. */
  lemma CompleteReceiptFollows(t: Table, m: Receipt, route: Route, clock: Time, now: Time)
    requires Inv(t, clock) && clock <= now
    ensures var (after, accepted) := CompleteReceipt(t, m, route);
      && Follows(t, after, now)
      && |after.attempts| == |t.attempts|
      && (accepted ==> m.resultID in after.deliveries && after.deliveries[m.resultID] < |after.attempts|
                       && (var i := after.deliveries[m.resultID];
                           && Listed(after, i) && after.attempts[i].resultID == m.resultID && after.attempts[i].sendClaimed
                           && after.attempts[i].Answered() && Says(m, after.attempts[i].outcome.value)
                           && after.attempts[i].target.taskID == m.taskID && after.attempts[i].target.previewRoute == route
                           && t.attempts[i].Open()))
  {
    hide Inv;
    Unchanged(t, clock, now);
    if Accepts(t, m, route) {
      var i := t.deliveries[m.resultID];
      AttemptsAreOk(t, i, clock);
      ListedIsNamed(t, m.resultID, clock);
      SetAttemptFollows(t, i, t.attempts[i].CompletedAs(ReceiptOutcome(m)), clock, now);
    }
  }

  /** An accepted receipt is read back through the table as what it said. */
  lemma AcceptedIsRead(t: Table, m: Receipt, route: Route)
    ensures var (after, accepted) := CompleteReceipt(t, m, route);
      accepted ==> OutcomeOf(after, m.resultID).Some? && Says(m, OutcomeOf(after, m.resultID).value)
  {
  }

  lemma AppliedIsSaid(m: Receipt, o: Outcome)
    requires Says(m, o)
    ensures o.status == Applied <==> m.application.Some? && m.application.value.status == Applied
  {
  }

  lemma ListedIsNamed(t: Table, resultID: string, clock: Time)
    requires Inv(t, clock) && resultID in t.deliveries
    ensures t.deliveries[resultID] < |t.attempts| && t.attempts[t.deliveries[resultID]].resultID == resultID
  {
  }

  // What this means for attempts ---------------------------------------------

  /** Cleanup keeps the entry of the result id. */
  predicate Retained(t: Table, id: string, now: Time) {
    id in t.deliveries && t.deliveries[id] < |t.attempts| && now < t.attempts[t.deliveries[id]].retainUntil
  }

  /** Attempt `i` is open, and would stay open, when the request is to start another one for its result
      id: its ticket is over, its wait is not unless the table has forgotten it, the request's own ticket
      is live, and there is room, in an entry that is over without an answer or in a new one. */
  predicate StartsBeside(t: Table, i: nat, r: Request, target: Target, now: Time, config: Config) {
    && i < |t.attempts| && t.attempts[i].resultID == r.resultID && t.attempts[i].Open()
    && t.attempts[i].retainUntil <= now && (Listed(t, i) ==> now < t.attempts[i].waitUntil)
    && Live(t, target.ref, now) && t.tickets[target.ref] == target
    && (if Retained(t, r.resultID, now)
        then var held := t.attempts[t.deliveries[r.resultID]];
          held.key == KeyOf(r, target) && !held.Answered() && (held.Open() ==> held.waitUntil <= now)
        else |Cleanup(t, now).deliveries| < config.maxEntries)
  }

  /** startDelivery starts a second attempt beside an open one exactly then. */
  lemma SecondOpenExactly(t: Table, i: nat, r: Request, target: Target, clock: Time, now: Time, config: Config)
    requires Inv(t, clock) && clock <= now && i < |t.attempts| && t.attempts[i].resultID == r.resultID && t.attempts[i].Open()
    ensures var (after, answer) := StartDelivery(t, r, target, now, config);
      i < |after.attempts| && (answer.Started? && answer.created && after.attempts[i].Open() <==> StartsBeside(t, i, r, target, now, config))
  {
    hide Cleanup, Inv, Live, KeyOf, AttemptOk, Progresses;
    var clean := Cleanup(t, now);
    CleanupFollows(t, clock, now);
    AttemptsAreOk(clean, i, now);
    CleanLive(t, target.ref, now);
    CleanAttempt(t, i, clock, now);
    CleanEntry(t, r.resultID, clock, now);
  }

  lemma CleanLive(t: Table, ref: string, now: Time)
    ensures Live(Cleanup(t, now), ref, now) <==> Live(t, ref, now)
    ensures Live(t, ref, now) ==> Cleanup(t, now).tickets[ref] == t.tickets[ref]
  {
    hide Overdue, LiveIndex, Unexpired;
  }

  lemma CleanAttempt(t: Table, i: nat, clock: Time, now: Time)
    requires Inv(t, clock) && clock <= now && i < |t.attempts|
    ensures var after := Cleanup(t, now);
      && i < |after.attempts| && after.attempts[i].retainUntil == t.attempts[i].retainUntil && after.attempts[i].resultID == t.attempts[i].resultID
      && (after.attempts[i].Open() <==> t.attempts[i].Open() && (Listed(t, i) ==> now < t.attempts[i].waitUntil))
      && (Listed(after, i) ==> now < t.attempts[i].retainUntil)
  {
    hide LiveTickets, LiveIndex, Unexpired;
    assert Cleanup(t, now).attempts[i] == Overdue(t, i, now);
  }

  /** The entry of a result id after cleanup. */
  lemma CleanEntry(t: Table, id: string, clock: Time, now: Time)
    requires Inv(t, clock) && clock <= now
    ensures var after := Cleanup(t, now);
      && |after.attempts| == |t.attempts|
      && (id in after.deliveries <==> Retained(t, id, now))
      && (Retained(t, id, now) ==>
            var d := t.deliveries[id]; var held, kept := t.attempts[d], after.attempts[d];
            && after.deliveries[id] == d && kept.key == held.key && (kept.Answered() <==> held.Answered())
            && (kept.Open() <==> held.Open() && now < held.waitUntil))
  {
    hide LiveTickets, LiveIndex, Unexpired;
    if Retained(t, id, now) {
      assert Cleanup(t, now).attempts[t.deliveries[id]] == Overdue(t, t.deliveries[id], now);
    }
  }

  /** Once the application has answered a result id, no new attempt for it starts while that ticket
      lasts, and none ever starts under that ticket again. */
  lemma NoRestartAfterAnswer(t: Table, i: nat, r: Request, target: Target, clock: Time, now: Time, config: Config)
    requires Inv(t, clock) && clock <= now && i < |t.attempts| && t.attempts[i].Answered()
    requires t.attempts[i].resultID == r.resultID
    ensures var answer := StartDelivery(t, r, target, now, config).1;
      answer.Started? && answer.created ==> t.attempts[i].target.expiresAt <= now && target != t.attempts[i].target
  {
    hide LiveIndex, Unexpired, Progresses, Overdue;
    CleanupFollows(t, clock, now);
    OverdueProgresses(t, now);
    var clean := Cleanup(t, now);
    AttemptsAreOk(clean, i, now);
    AnsweredStays(t.attempts[i], clean.attempts[i]);
  }

  lemma AnsweredStays(before: Attempt, after: Attempt)
    requires Progresses(before, after) && before.Answered()
    ensures after == before
  {
  }

  // What claims and answers an attempt ----------------------------------------

  /** A step that neither claims the attempt nor brings it an answer of the application. */
  predicate Quiet(before: Attempt, after: Attempt) {
    after.sendClaimed == before.sendClaimed && (after.Answered() ==> before.Answered())
  }

  predicate QuietBut(t: Table, after: Table, except: set<nat>) {
    && |t.attempts| <= |after.attempts|
    && (forall i :: 0 <= i < |t.attempts| && i !in except ==> Quiet(t.attempts[i], after.attempts[i]))
    && (forall i :: |t.attempts| <= i < |after.attempts| ==> !after.attempts[i].sendClaimed && !after.attempts[i].Answered())
  }

  lemma CleanupQuiet(t: Table, now: Time)
    ensures QuietBut(t, Cleanup(t, now), {}) && |Cleanup(t, now).attempts| == |t.attempts|
  {
    hide LiveIndex, LiveTickets, Unexpired;
    var after := Cleanup(t, now);
    forall i | 0 <= i < |t.attempts| ensures Quiet(t.attempts[i], after.attempts[i]) {
      assert after.attempts[i] == Overdue(t, i, now);
    }
  }

  lemma QuietTransitively(t: Table, mid: Table, after: Table, except: set<nat>)
    requires QuietBut(t, mid, {}) && |mid.attempts| == |t.attempts| && QuietBut(mid, after, except)
    ensures QuietBut(t, after, except)
  {
    forall i | 0 <= i < |t.attempts| && i !in except ensures Quiet(t.attempts[i], after.attempts[i]) {
      assert Quiet(t.attempts[i], mid.attempts[i]) && Quiet(mid.attempts[i], after.attempts[i]);
    }
  }

  lemma InvalidateContextQuiet(t: Table, contextRef: string, now: Time, config: Config)
    ensures QuietBut(t, InvalidateContext(t, contextRef, now, config), {})
  {
    hide Cleanup;
    CleanupQuiet(t, now);
    if contextRef != "" {
      assert QuietBut(Cleanup(t, now), InvalidateContext(t, contextRef, now, config), {});
      QuietTransitively(t, Cleanup(t, now), InvalidateContext(t, contextRef, now, config), {});
    }
  }

  lemma InvalidateTaskQuiet(t: Table, taskID: string, now: Time, config: Config)
    ensures QuietBut(t, InvalidateTask(t, taskID, now, config), {})
  {
    hide Cleanup, OpaqueID;
    CleanupQuiet(t, now);
    if OpaqueID("atk_", taskID) {
      assert QuietBut(Cleanup(t, now), InvalidateTask(t, taskID, now, config), {});
      QuietTransitively(t, Cleanup(t, now), InvalidateTask(t, taskID, now, config), {});
    }
  }

  lemma IssueContextQuiet(t: Table, s: Snapshots.Info, drawn: string, now: Time, config: Config)
    ensures QuietBut(t, IssueContext(t, s, drawn, now, config).0, {})
  {
    hide Cleanup, SnapshotIssuable;
    CleanupQuiet(t, now);
  }

  lemma IssueTaskQuiet(t: Table, task: Tasks.Info, drawn: string, now: Time, config: Config)
    ensures QuietBut(t, IssueTask(t, task, drawn, now, config).0, {})
  {
    hide Cleanup, TaskIssuable;
    CleanupQuiet(t, now);
  }

  lemma ClaimQuiet(t: Table, i: nat, now: Time)
    ensures QuietBut(t, Claim(t, i, now).0, if Claim(t, i, now).1 then {i} else {})
    ensures |Claim(t, i, now).0.attempts| == |t.attempts|
  {
    hide Cleanup;
    CleanupQuiet(t, now);
    var clean := Cleanup(t, now);
    var (after, claimed) := Claim(t, i, now);
    assert QuietBut(clean, after, if claimed then {i} else {});
    QuietTransitively(t, clean, after, if claimed then {i} else {});
  }

  lemma ClaimAnswersNothing(t: Table, i: nat, now: Time)
    requires i < |t.attempts|
    ensures var after := Claim(t, i, now).0;
      |after.attempts| == |t.attempts| && (after.attempts[i].Answered() ==> t.attempts[i].Answered())
  {
    hide Cleanup;
    CleanupQuiet(t, now);
  }

  lemma StartQuiet(t: Table, r: Request, target: Target, now: Time, config: Config)
    ensures QuietBut(t, StartDelivery(t, r, target, now, config).0, {})
  {
    hide Cleanup;
    CleanupQuiet(t, now);
    var clean := Cleanup(t, now);
    assert QuietBut(clean, StartDelivery(t, r, target, now, config).0, {});
    QuietTransitively(t, clean, StartDelivery(t, r, target, now, config).0, {});
  }

  lemma PlatformQuiet(t: Table, i: nat, o: Outcome)
    requires !FromApplication(o.status)
    ensures QuietBut(t, CompletePlatform(t, i, o), {}) && |CompletePlatform(t, i, o).attempts| == |t.attempts|
  {
  }

  lemma ReceiptQuiet(t: Table, m: Receipt, route: Route)
    ensures QuietBut(t, CompleteReceipt(t, m, route).0, if Accepts(t, m, route) then {t.deliveries[m.resultID]} else {})
    ensures |CompleteReceipt(t, m, route).0.attempts| == |t.attempts|
  {
  }

  // How issue decides -------------------------------------------------------

  /** Whether issue draws a new ticket, given the cleaned table. */
  predicate DrawsContext(clean: Table, s: Snapshots.Info, now: Time) {
    && SnapshotIssuable(s) && !(s.ref in clean.invalidated && now < clean.invalidated[s.ref])
    && (var held := Lookup(clean.byContext, s.ref);
        !(held != "" && Live(clean, held, now) && SameSnapshot(clean.tickets[held], s)))
  }

  predicate DrawsTask(clean: Table, task: Tasks.Info, now: Time) {
    && TaskIssuable(task) && !(task.id in clean.invalidatedTasks && now < clean.invalidatedTasks[task.id])
    && (var held := Lookup(clean.byTask, task.id);
        !(held != "" && Live(clean, held, now) && SameTask(clean.tickets[held], task)))
  }

  lemma ContextGranted(t: Table, s: Snapshots.Info, drawn: string, now: Time, config: Config)
    ensures var clean := Cleanup(t, now);
      var (after, answer) := IssueContext(t, s, drawn, now, config);
      && (answer == NotIssuable ==> after == t)
      && (answer != NotIssuable && !answer.Granted? ==> after == clean)
      && (answer.Granted? && !DrawsContext(clean, s, now) ==>
            var held := Lookup(clean.byContext, s.ref); after == clean && held in clean.tickets && answer.target == clean.tickets[held])
      && (answer.Granted? && DrawsContext(clean, s, now) ==>
            answer.target == SnapshotTarget(s, drawn, now, config)
            && after == clean.(tickets := clean.tickets[drawn := answer.target], byContext := clean.byContext[s.ref := drawn]))
  {
    hide Cleanup, SnapshotIssuable, SameSnapshot;
  }

  lemma TaskGranted(t: Table, task: Tasks.Info, drawn: string, now: Time, config: Config)
    ensures var clean := Cleanup(t, now);
      var (after, answer) := IssueTask(t, task, drawn, now, config);
      && (answer == NotIssuable ==> after == t)
      && (answer != NotIssuable && !answer.Granted? ==> after == clean)
      && (answer.Granted? && !DrawsTask(clean, task, now) ==>
            var held := Lookup(clean.byTask, task.id); after == clean && held in clean.tickets && answer.target == clean.tickets[held])
      && (answer.Granted? && DrawsTask(clean, task, now) ==>
            answer.target == TaskTarget(task, drawn, now)
            && after == clean.(tickets := clean.tickets[drawn := answer.target], byTask := clean.byTask[task.id := drawn]))
  {
    hide Cleanup, TaskIssuable, SameTask;
  }

  lemma IssueContextAddsNone(t: Table, s: Snapshots.Info, drawn: string, now: Time, config: Config)
    ensures |IssueContext(t, s, drawn, now, config).0.attempts| == |t.attempts|
  {
    hide SnapshotIssuable, SameSnapshot, LiveIndex, LiveTickets, Unexpired;
  }

  lemma IssueTaskAddsNone(t: Table, task: Tasks.Info, drawn: string, now: Time, config: Config)
    ensures |IssueTask(t, task, drawn, now, config).0.attempts| == |t.attempts|
  {
    hide TaskIssuable, SameTask, LiveIndex, LiveTickets, Unexpired;
  }

  lemma InvalidateContextAddsNone(t: Table, contextRef: string, now: Time, config: Config)
    ensures |InvalidateContext(t, contextRef, now, config).attempts| == |t.attempts|
  {
    hide Unclaimed, LiveIndex, LiveTickets, Unexpired;
  }

  lemma InvalidateTaskAddsNone(t: Table, taskID: string, now: Time, config: Config)
    ensures |InvalidateTask(t, taskID, now, config).attempts| == |t.attempts|
  {
    hide Unclaimed, LiveIndex, LiveTickets, Unexpired, OpaqueID;
  }

  // The last attempt ----------------------------------------------------------

  /** Of the attempts for one result id under one ticket, all but the last are over, and none of
      those was answered by the application. */
  predicate AnsweredIsLast(t: Table) {
    forall i, j :: 0 <= i < j < |t.attempts| && t.attempts[i].resultID == t.attempts[j].resultID
                   && t.attempts[i].target == t.attempts[j].target ==>
                     !t.attempts[i].Open() && !t.attempts[i].Answered()
  }

  lemma EmptyAnsweredIsLast()
    ensures AnsweredIsLast(EMPTY)
  {
  }

  lemma FollowsKeepsAnsweredLast(t: Table, after: Table)
    requires AnsweredIsLast(t) && |after.attempts| == |t.attempts|
    requires forall i :: 0 <= i < |t.attempts| ==> Progresses(t.attempts[i], after.attempts[i])
    ensures AnsweredIsLast(after)
  {
    forall i, j | 0 <= i < j < |after.attempts| && after.attempts[i].resultID == after.attempts[j].resultID
                  && after.attempts[i].target == after.attempts[j].target
      ensures !after.attempts[i].Open() && !after.attempts[i].Answered()
    {
      assert Progresses(t.attempts[i], after.attempts[i]) && Progresses(t.attempts[j], after.attempts[j]);
    }
  }

  /** No attempt starts under a ticket while an earlier one for the same result id is open or was
      answered under it. */
  lemma StartKeepsAnsweredLast(t: Table, r: Request, target: Target, clock: Time, now: Time, config: Config)
    requires Inv(t, clock) && clock <= now && AnsweredIsLast(t)
    ensures AnsweredIsLast(StartDelivery(t, r, target, now, config).0)
  {
    hide Cleanup, Inv, Progresses;
    var clean := Cleanup(t, now);
    var (after, answer) := StartDelivery(t, r, target, now, config);
    CleanupFollows(t, clock, now);
    OverdueProgresses(t, now);
    FollowsKeepsAnsweredLast(t, clean);
    if answer.Started? && answer.created {
      forall i | 0 <= i < |clean.attempts| && clean.attempts[i].resultID == r.resultID && clean.attempts[i].target == target
        ensures !clean.attempts[i].Open() && !clean.attempts[i].Answered()
      {
        AttemptsAreOk(clean, i, now);
      }
    }
  }

  // Attempts of one result id ---------------------------------------------------

  /** A later attempt for a result id was started only when the ticket of an earlier one that is still
      open, or was answered by the application, was over. */
  predicate Apart(t: Table) {
    forall i, j :: 0 <= i < j < |t.attempts| && t.attempts[i].resultID == t.attempts[j].resultID
                   && (t.attempts[i].Open() || t.attempts[i].Answered()) ==>
                     t.attempts[i].retainUntil <= t.attempts[j].createdAt
  }

  lemma EmptyApart()
    ensures Apart(EMPTY)
  {
  }

  lemma FollowsKeepsApart(t: Table, after: Table)
    requires Apart(t) && |after.attempts| == |t.attempts|
    requires forall i :: 0 <= i < |t.attempts| ==> Progresses(t.attempts[i], after.attempts[i])
    ensures Apart(after)
  {
    forall i, j | 0 <= i < j < |after.attempts| && after.attempts[i].resultID == after.attempts[j].resultID
                  && (after.attempts[i].Open() || after.attempts[i].Answered())
      ensures after.attempts[i].retainUntil <= after.attempts[j].createdAt
    {
      assert Progresses(t.attempts[i], after.attempts[i]) && Progresses(t.attempts[j], after.attempts[j]);
    }
  }

  lemma StartKeepsApart(t: Table, r: Request, target: Target, clock: Time, now: Time, config: Config)
    requires Inv(t, clock) && clock <= now && Apart(t)
    ensures Apart(StartDelivery(t, r, target, now, config).0)
  {
    hide Cleanup, Live;
    var clean := Cleanup(t, now);
    var (after, answer) := StartDelivery(t, r, target, now, config);
    CleanupFollows(t, clock, now);
    OverdueProgresses(t, now);
    FollowsKeepsApart(t, clean);
    if answer.Started? && answer.created {
      forall i | 0 <= i < |clean.attempts| && clean.attempts[i].resultID == r.resultID && (clean.attempts[i].Open() || clean.attempts[i].Answered())
        ensures clean.attempts[i].retainUntil <= now
      {
        AttemptsAreOk(clean, i, now);
      }
    }
  }

  /** At most one attempt of each result id is open. */
  predicate OneOpen(t: Table) {
    forall i, j :: 0 <= i < j < |t.attempts| && t.attempts[i].resultID == t.attempts[j].resultID ==>
                     !t.attempts[i].Open() || !t.attempts[j].Open()
  }

  lemma FollowsKeepsOneOpen(t: Table, after: Table)
    requires OneOpen(t) && |after.attempts| == |t.attempts|
    requires forall i :: 0 <= i < |t.attempts| ==> Progresses(t.attempts[i], after.attempts[i])
    ensures OneOpen(after)
  {
    forall i, j | 0 <= i < j < |after.attempts| && after.attempts[i].resultID == after.attempts[j].resultID
      ensures !after.attempts[i].Open() || !after.attempts[j].Open()
    {
      assert Progresses(t.attempts[i], after.attempts[i]) && Progresses(t.attempts[j], after.attempts[j]);
    }
  }

  /** Whether some open attempt would stay open beside the one the request starts. */
  predicate StartsSecond(t: Table, r: Request, target: Target, now: Time, config: Config) {
    exists i :: 0 <= i < |t.attempts| && StartsBeside(t, i, r, target, now, config)
  }

  lemma StartKeepsOneOpenExactly(t: Table, r: Request, target: Target, clock: Time, now: Time, config: Config)
    requires Inv(t, clock) && clock <= now && OneOpen(t)
    ensures OneOpen(StartDelivery(t, r, target, now, config).0) <==> !StartsSecond(t, r, target, now, config)
  {
    hide Inv, Cleanup, StartsBeside, OneOpen, Progresses, Live, KeyOf;
    var clean := Cleanup(t, now);
    var (after, answer) := StartDelivery(t, r, target, now, config);
    OverdueProgresses(t, now);
    FollowsKeepsOneOpen(t, clean);
    forall i | 0 <= i < |t.attempts|
      ensures StartsBeside(t, i, r, target, now, config)
              <==> answer.Started? && answer.created && clean.attempts[i].resultID == r.resultID && clean.attempts[i].Open()
    {
      StartsBesideExactly(t, i, r, target, clock, now, config);
    }
    if answer.Started? && answer.created { GrowsOneOpenExactly(clean, after); }
  }

  lemma StartsBesideExactly(t: Table, i: nat, r: Request, target: Target, clock: Time, now: Time, config: Config)
    requires Inv(t, clock) && clock <= now && i < |t.attempts|
    ensures var clean, answer := Cleanup(t, now), StartDelivery(t, r, target, now, config).1;
      && i < |clean.attempts|
      && (StartsBeside(t, i, r, target, now, config)
          <==> answer.Started? && answer.created && clean.attempts[i].resultID == r.resultID && clean.attempts[i].Open())
  {
    hide Inv, Cleanup, Live, KeyOf, Retained, Listed;
    CleanAttempt(t, i, clock, now);
    if t.attempts[i].resultID == r.resultID && t.attempts[i].Open() { SecondOpenExactly(t, i, r, target, clock, now, config); }
  }

  lemma GrowsOneOpenExactly(t: Table, after: Table)
    requires OneOpen(t) && |after.attempts| == |t.attempts| + 1 && after.attempts[..|t.attempts|] == t.attempts
    requires after.attempts[|t.attempts|].Open()
    ensures OneOpen(after)
            <==> forall i :: 0 <= i < |t.attempts| && t.attempts[i].resultID == after.attempts[|t.attempts|].resultID ==> !t.attempts[i].Open()
  {
    assert forall i :: 0 <= i < |t.attempts| ==> after.attempts[i] == t.attempts[i];
  }
}
