/** What each operation of the task store answers and writes, told from the table as it is before the
    operation's cleanup pass. */
module TaskAnswers {
  import opened Basics
  import opened Outcomes
  import opened Texts
  import opened TaskTable

  // What cleanup leaves ---------------------------------------------------------------

  /** The text that a failure keeps of what it is given. */
  function Kept(s: string, most: nat): string {
    Truncate(TrimSpace(s), most)
  }

  /** The task once it has failed at `now`. */
  predicate FailedAs(before: Task, after: Task, code: string, message: string, now: Time, config: Config) {
    after == before.(status := Failed, code := code, message := message, updatedAt := now, retainUntil := Some(now + config.tombstoneTTL))
  }

  lemma FailedIs(t: Task, code: string, message: string, now: Time, config: Config)
    requires !t.Over()
    ensures FailedAs(t, Fail(t, code, message, now, config), Kept(code, 64), Kept(message, 500), now, config)
  {
    hide TrimSpace, Truncate;
  }

  lemma CleanupCodes()
    ensures Kept("task_expired", 64) == "task_expired" && Kept("result_not_applied", 64) == "result_not_applied"
  {
    NoSpaces("task_expired");
    NoSpaces("result_not_applied");
  }

  lemma NoSpaces(s: string)
    requires s != "" && !IsSpace(s[0]) && !IsSpace(s[|s| - 1])
    ensures TrimSpace(s) == s
  {
  }

  /** Cleanup leaves a live task alone. One past its expiry it fails as expired, one that is only past its
      agent's grace period as not applied, and of a task that is over it keeps or drops everything. */
  lemma CleanedTask(t: Table, id: string, now: Time, config: Config)
    requires config.Valid()
    ensures var after := Cleanup(t, now, config).byID;
      && (id !in t.byID ==> id !in after)
      && (LiveAt(t, id, now, config) ==> id in after && after[id] == t.byID[id])
      && (id in t.byID && t.byID[id].Over() ==>
            (id in after <==> (t.byID[id].retainUntil.Some? ==> now < t.byID[id].retainUntil.value))
            && (id in after ==> after[id] == t.byID[id]))
      && (id in t.byID && !t.byID[id].Over() && t.byID[id].info.expiresAt <= now ==>
            id in after
            && FailedAs(t.byID[id], after[id], "task_expired", Kept("Artifact task expired before a result was applied", 500), now, config))
      && (id in t.byID && !t.byID[id].Over() && now < t.byID[id].info.expiresAt && !LiveAt(t, id, now, config) ==>
            id in after
            && FailedAs(t.byID[id], after[id], "result_not_applied", Kept("Agent turn finished without an applied Artifact result", 500), now, config))
  {
    hide TrimSpace, Truncate, Kept;
    CleanupCodes();
    if id in t.byID && !t.byID[id].Over() {
      FailedIs(t.byID[id], Expired().0, Expired().1, now, config);
      FailedIs(t.byID[id], NotApplied().0, NotApplied().1, now, config);
    }
  }

  // Tasks by reference ----------------------------------------------------------------

  /** The reference names a task that is live at `now`. */
  predicate NamesLive(t: Table, ref: string, now: Time, config: Config) {
    ref in t.byRef && LiveAt(t, t.byRef[ref], now, config)
  }

  lemma NamedAfterCleanup(t: Table, ref: string, now: Time, config: Config)
    requires config.Valid() && Inv(t, config)
    ensures var clean := Cleanup(t, now, config);
      && (NamesLive(t, ref, now, config) <==> ByRef(clean, ref).Some? && !ByRef(clean, ref).value.Over())
      && (NamesLive(t, ref, now, config) ==>
            var task := t.byID[t.byRef[ref]];
            && ByRef(clean, ref) == Some(task) && task.info.id == t.byRef[ref] && task.info.ref == ref && now < task.info.expiresAt
            && task.info.id in clean.byID && !(task.claimed && task.delivered))
  {
    hide Cleanup, Bounded, Follows;
    CleanupFollows(t, now, config);
    var clean := Cleanup(t, now, config);
    FollowsInv(t, clean, {}, config);
    if ref in t.byRef { CleanedTask(t, t.byRef[ref], now, config); }
    if ByRef(clean, ref).Some? {
      ByRefIsEntry(clean, ref, config);
      CleanedTask(t, ByRef(clean, ref).value.info.id, now, config);
      CleanupKeepsRefs(t, ref, now, config);
    }
    if NamesLive(t, ref, now, config) { RefReaches(clean, t.byRef[ref], config); }
  }

  lemma CleanupKeepsRefs(t: Table, ref: string, now: Time, config: Config)
    ensures var clean := Cleanup(t, now, config); ref in clean.byRef ==> ref in t.byRef && clean.byRef[ref] == t.byRef[ref]
  {
    hide Converge, Forgotten, LiveRates;
  }

  /** The table after a cleanup pass and the writing of one task. */
  predicate Writes(t: Table, after: Table, id: string, task: Task, now: Time, config: Config) {
    var clean := Cleanup(t, now, config);
    after.byID == clean.byID[id := task] && after.byRef == clean.byRef && after.rates == clean.rates
  }

  // Delivery --------------------------------------------------------------------------

  /** A message of this actor, topic and agent that names a live task of theirs. */
  predicate Fits(t: Table, ref: string, actorUID: int, topicID: string, agentUID: int, client: string, now: Time, config: Config) {
    && OpaqueID("atr_", ref) && TrimSpace(client) != "" && ByteLen(TrimSpace(client)) <= 128 && NamesLive(t, ref, now, config)
    && (var what := t.byID[t.byRef[ref]].info.what; what.actorUID == actorUID && what.topicID == topicID && what.agentUID == agentUID)
  }

  predicate ReserveAnswers(t: Table, ref: string, actorUID: int, topicID: string, agentUID: int, client: string, now: Time, config: Config,
                           answer: Reservation) {
    var fits, id := Fits(t, ref, actorUID, topicID, agentUID, client, now, config), TrimSpace(client);
    && (answer.Reserved? <==> fits && (var task := t.byID[t.byRef[ref]]; if task.delivered then task.clientID == id else !task.claimed))
    && (answer.Pending? <==> fits && (var task := t.byID[t.byRef[ref]]; task.claimed && task.clientID == id))
    && (answer.Reserved? ==> answer.delivery == DeliveryRef(ref, t.byRef[ref], agentUID, id, t.byID[t.byRef[ref]].delivered))
  }

  /** reserveDelivery answers with a reservation exactly for a message that fits and a task that nobody
      has claimed or that this message has delivered; pending exactly for the message that has claimed it;
      and refuses any other. Only a new claim is written. */
  lemma ReserveExactly(t: Table, ref: string, actorUID: int, topicID: string, agentUID: int, client: string, now: Time, config: Config)
    requires config.Valid() && Inv(t, config)
    ensures var (after, answer) := Reserve(t, ref, actorUID, topicID, agentUID, client, now, config);
      var id := TrimSpace(client);
      && ReserveAnswers(t, ref, actorUID, topicID, agentUID, client, now, config, answer)
      && (answer.Reserved? ==>
            var task := t.byID[t.byRef[ref]];
            (!task.delivered ==> Writes(t, after, t.byRef[ref], task.(claimed := true, clientID := id, updatedAt := now), now, config)))
      && (!(answer.Reserved? && !answer.delivery.alreadyDelivered) ==>
            after == if OpaqueID("atr_", ref) && id != "" && ByteLen(id) <= 128 then Cleanup(t, now, config) else t)
  {
    hide Cleanup, Inv, TrimSpace, ByteLen, OpaqueID, LiveAt;
    NamedAfterCleanup(t, ref, now, config);
  }

  /** The delivery names a live task of its own id and agent, under the client id that it reserved. */
  predicate Speaks(t: Table, delivery: DeliveryRef, now: Time, config: Config) {
    && NamesLive(t, delivery.ref, now, config) && t.byRef[delivery.ref] == delivery.taskID
    && t.byID[delivery.taskID].info.what.agentUID == delivery.agentUID && t.byID[delivery.taskID].clientID == delivery.clientMessageID
  }

  /** confirmDelivery says yes exactly to a delivery that was made before and to the claim's own message,
      and in the latter case the task becomes delivered. */
  lemma ConfirmExactly(t: Table, delivery: DeliveryRef, now: Time, config: Config)
    requires config.Valid() && Inv(t, config)
    ensures var (after, yes) := Confirm(t, delivery, now, config); var id := delivery.taskID;
      && (yes <==> delivery.alreadyDelivered || (Speaks(t, delivery, now, config) && t.byID[id].claimed))
      && (delivery.alreadyDelivered ==> after == t)
      && (!delivery.alreadyDelivered && yes ==>
            Writes(t, after, id, t.byID[id].(claimed := false, delivered := true, updatedAt := now), now, config))
      && (!yes ==> after == Cleanup(t, now, config))
  {
    hide Cleanup, Inv, LiveAt;
    NamedAfterCleanup(t, delivery.ref, now, config);
  }

  /** releaseDelivery gives up the claim exactly for the claim's own message, and runs no cleanup. */
  lemma ReleaseExactly(t: Table, delivery: DeliveryRef, now: Time, config: Config)
    requires Inv(t, config)
    ensures var id := delivery.taskID;
      Release(t, delivery, now)
      == if !delivery.alreadyDelivered && delivery.ref in t.byRef && t.byRef[delivery.ref] == id
            && t.byID[id].claimed && t.byID[id].clientID == delivery.clientMessageID
         then t.(byID := t.byID[id := t.byID[id].(claimed := false, clientID := "", updatedAt := now)]) else t
  {
    hide Bounded;
  }

  /** failDelivery fails the task exactly for the message under whose client id it stands, and takes the
      delivery back. */
  lemma FailDeliveryExactly(t: Table, delivery: DeliveryRef, code: string, message: string, now: Time, config: Config)
    requires config.Valid() && Inv(t, config)
    ensures var (after, yes) := FailDelivery(t, delivery, code, message, now, config); var id := delivery.taskID;
      && (yes <==> !delivery.alreadyDelivered && Speaks(t, delivery, now, config))
      && (yes ==>
            id in after.byID && Writes(t, after, id, after.byID[id], now, config)
            && FailedAs(t.byID[id].(claimed := false, delivered := false), after.byID[id], Kept(code, 64), Kept(message, 500), now, config))
      && (!yes ==> after == if delivery.alreadyDelivered then t else Cleanup(t, now, config))
  {
    hide Cleanup, Inv, Fail, Kept;
    NamedAfterCleanup(t, delivery.ref, now, config);
    if Speaks(t, delivery, now, config) {
      FailedIs(t.byID[delivery.taskID].(claimed := false, delivered := false), code, message, now, config);
    }
  }

  /** withWritable hands over exactly a delivered, live task under its own reference and id, as it is. */
  lemma WithWritableExactly(t: Table, ref: string, id: string, now: Time, config: Config)
    requires config.Valid() && Inv(t, config)
    ensures var (after, found) := WithWritable(t, ref, id, now, config);
      && after == Cleanup(t, now, config)
      && found == if NamesLive(t, ref, now, config) && t.byRef[ref] == id && t.byID[id].delivered then Some(t.byID[id]) else None
  {
    hide Cleanup, Inv, LiveAt;
    NamedAfterCleanup(t, ref, now, config);
  }

  // Endings ---------------------------------------------------------------------------

  predicate FailAnswers(t: Table, id: string, actorUID: int, preserveClaim: bool, now: Time, config: Config, answer: FailAnswer) {
    var owned := OwnedLive(t, id, actorUID, now, config);
    && (answer == FailApplied <==> owned && (preserveClaim ==> !t.byID[id].delivered && !t.byID[id].claimed))
    && (answer == FailDeliveryCommitted <==> owned && preserveClaim && t.byID[id].delivered)
    && (answer == FailDeliveryPending <==> owned && preserveClaim && t.byID[id].claimed)
    && (answer == FailNotFound <==> !owned)
  }

  /** Only the owner fails a task, and only while it is live; `preserveClaim` spares a delivery that is
      claimed or made. What is answered otherwise, and that nothing more than cleanup happens then. */
  lemma FailForActorExactly(t: Table, id: string, actorUID: int, code: string, message: string, preserveClaim: bool, now: Time, config: Config)
    requires config.Valid() && Inv(t, config)
    ensures var (after, answer) := FailForActor(t, id, actorUID, code, message, preserveClaim, now, config);
      && FailAnswers(t, id, actorUID, preserveClaim, now, config, answer)
      && (answer == FailApplied ==>
            id in t.byID && id in after.byID && Writes(t, after, id, after.byID[id], now, config)
            && FailedAs(t.byID[id], after.byID[id], Kept(code, 64), Kept(message, 500), now, config))
      && (answer != FailApplied ==> after == if OpaqueID("atk_", id) && 0 < actorUID then Cleanup(t, now, config) else t)
  {
    hide Cleanup, Bounded, OpaqueID, Fail, Kept;
    CleanedTask(t, id, now, config);
    if id in t.byID {
      assert EntryOk(id, t.byID[id], config);
      if !t.byID[id].Over() { FailedIs(t.byID[id], code, message, now, config); }
    }
  }

  /** The task is live and the actor's own. */
  predicate OwnedLive(t: Table, id: string, actorUID: int, now: Time, config: Config) {
    OpaqueID("atk_", id) && 0 < actorUID && LiveAt(t, id, now, config) && t.byID[id].info.what.actorUID == actorUID
  }

  /** The result that takes a task: an applied one completes it, any other fails it under the result's own
      code or, if it has none, under its status. */
  lemma CompleteResultWrites(t: Table, id: string, resultID: string, outcome: Outcome, now: Time, config: Config)
    requires config.Valid() && Inv(t, config)
    ensures var after := CompleteResult(t, id, resultID, outcome, now, config).0;
      && (TakesResult(t, id, resultID, now, config) ==>
            && id in t.byID && id in after.byID && Writes(t, after, id, after.byID[id], now, config)
            && EndedBy(t.byID[id].(resultID := resultID), after.byID[id], outcome, now, config))
      && (!TakesResult(t, id, resultID, now, config) ==>
            after == if OpaqueID("atk_", id) && OpaqueID("arr_", resultID) then Cleanup(t, now, config) else t)
  {
    hide Cleanup, Bounded, OpaqueID, Resolved, EndedBy;
    CleanedTask(t, id, now, config);
    if LiveAt(t, id, now, config) { ResolvedIs(t.byID[id], resultID, outcome, now, config); }
  }

  predicate EndedBy(before: Task, after: Task, outcome: Outcome, now: Time, config: Config) {
    if outcome.status == Applied
    then after == before.(status := Completed, code := "", message := "", updatedAt := now, retainUntil := Some(now + config.tombstoneTTL))
    else FailedAs(before, after, if TrimSpace(outcome.code) != "" then Kept(outcome.code, 64) else CodeOf(outcome.status), Kept(outcome.message, 500), now, config)
  }

  /** The code of a result that has none of its own. */
  function CodeOf(s: DeliveryStatus): string {
    "result_" + match s
    case Applied => "applied"
    case Rejected => "rejected"
    case FailedByApp => "failed"
    case TargetMismatch => "target_mismatch"
    case DeliveryTimeout => "delivery_timeout"
    case NotConnected => "not_connected"
    case Unavailable => "unavailable"
  }

  lemma ResolvedIs(t: Task, resultID: string, outcome: Outcome, now: Time, config: Config)
    requires !t.Over()
    ensures EndedBy(t.(resultID := resultID), Resolved(t, resultID, outcome, now, config), outcome, now, config)
  {
    hide TrimSpace, Truncate, Text, Fail, CodeOf;
    if outcome.status != Applied {
      var code := TrimSpace(outcome.code);
      FailedIs(t.(resultID := resultID, updatedAt := now), if code == "" then "result_" + Text(outcome.status) else code, outcome.message, now, config);
      TrimTwice(outcome.code);
      StatusCode(outcome.status);
    }
  }

  lemma StatusCode(s: DeliveryStatus)
    ensures Kept("result_" + Text(s), 64) == CodeOf(s)
  {
    hide TrimSpace, CodeOf;
    TextShape(s);
    hide Text;
    var code := "result_" + Text(s);
    assert code[|code| - 1] == Text(s)[|Text(s)| - 1];
    NoSpaces(code);
  }

  lemma TextShape(s: DeliveryStatus)
    ensures 0 < |Text(s)| <= 16 && !IsSpace(Text(s)[|Text(s)| - 1]) && CodeOf(s) == "result_" + Text(s)
  {
  }

  // Reports of the agent ----------------------------------------------------------------

  /** The task once its agent's run has reported `state`: known states move it on or end it. */
  predicate ReportedAs(before: Task, after: Task, runID: string, state: string, error: string, now: Time, config: Config) {
    var ends := state in {"failed", "cancelled", "stale"};
    after == before.(
      runID := if before.runID == "" then runID else before.runID, agentState := state, updatedAt := now,
      agentFinishedAt := if state == "completed" then Some(now) else before.agentFinishedAt,
      status := if ends then Failed
                else if state in {"running", "waiting"} || (state == "completed" && before.status == Submitted) then Running
                else before.status,
      code := if ends then "agent_" + state else before.code,
      message := if ends then Kept(error, 500) else before.message,
      retainUntil := if ends then Some(now + config.tombstoneTTL) else before.retainUntil)
  }

  lemma ObservedIs(t: Task, runID: string, state: string, error: string, now: Time, config: Config)
    requires !t.Over()
    ensures ReportedAs(t, Observed(t, runID, state, error, now, config).0, runID, state, error, now, config)
  {
    hide TrimSpace, Truncate, Fail, Kept;
    ObservedFields(t, runID, state, error, now, config);
    var seen := t.(runID := if t.runID == "" then runID else t.runID, agentState := state, updatedAt := now);
    if state in {"failed", "cancelled", "stale"} {
      FailedIs(seen, "agent_" + state, error, now, config);
      AgentCode(state);
      assert "agent_" + "failed" == "agent_failed" && "agent_" + "cancelled" == "agent_cancelled" && "agent_" + "stale" == "agent_stale";
    }
  }

  lemma AgentCode(state: string)
    requires state in {"failed", "cancelled", "stale"}
    ensures Kept("agent_" + state, 64) == "agent_" + state
  {
    hide TrimSpace;
    NoSpaces("agent_" + state);
  }

  /** A report about a delivered, live task of the agent, topic and run is written as it says; any other
      leaves what cleanup leaves, or everything if it is malformed. */
  lemma ObserveRunWrites(t: Table, ref: string, sourceUID: int, topicID: string, runID: string, state: string, error: string, now: Time, config: Config)
    requires config.Valid() && Inv(t, config)
    ensures var after := ObserveRun(t, ref, sourceUID, topicID, runID, state, error, now, config).0;
      var formed := OpaqueID("atr_", ref) && runID != "";
      if formed && NamesLive(t, ref, now, config) && TakesReport(t.byID[t.byRef[ref]], sourceUID, topicID, runID)
      then var id := t.byRef[ref];
        && id in after.byID && Writes(t, after, id, after.byID[id], now, config)
        && ReportedAs(t.byID[id], after.byID[id], runID, state, error, now, config)
      else after == if formed then Cleanup(t, now, config) else t
  {
    hide Cleanup, Inv, OpaqueID, Observed, ReportedAs;
    NamedAfterCleanup(t, ref, now, config);
    if NamesLive(t, ref, now, config) { ObservedIs(t.byID[t.byRef[ref]], runID, state, error, now, config); }
  }

  // create ------------------------------------------------------------------------------

  /** The actor's tasks that are live at `now`. */
  function LiveOf(t: Table, actor: int, now: Time, config: Config): set<string> {
    set id | id in t.byID && LiveAt(t, id, now, config) && t.byID[id].info.what.actorUID == actor
  }

  /** The actor's rate window still lasts at `now`. */
  predicate InWindow(t: Table, actor: int, now: Time, config: Config) {
    actor in t.rates && now < t.rates[actor].windowStart + config.rateWindow
  }

  lemma LiveAreActive(t: Table, actor: int, now: Time, config: Config)
    ensures ActiveOf(Cleanup(t, now, config), actor) == LiveOf(t, actor, now, config)
  {
    hide Cleanup;
    var clean := Cleanup(t, now, config);
    forall id ensures id in ActiveOf(clean, actor) <==> id in LiveOf(t, actor, now, config) {
      LiveAfterCleanup(t, id, now, config);
      if id in clean.byID && !clean.byID[id].Over() { CleanupKeepsLive(t, id, now, config); }
    }
  }

  lemma WindowIs(t: Table, actor: int, now: Time, config: Config)
    ensures Window(Cleanup(t, now, config).rates, actor, now, config)
            == if InWindow(t, actor, now, config) then t.rates[actor] else Rate(now, 0)
  {
    hide Converge, Forgotten;
  }

  /** What a candidate must bring along. */
  predicate Complete(what: Candidate) {
    && 0 < what.actorUID && 0 < what.agentUID && 0 < what.displayedVersion && what.topicID != "" && what.payload != ""
    && what.previewRoute.nodeID != "" && what.previewRoute.connectionID != "" && what.intent.id != "" && what.intent.resultSink != ""
    && ValidArtifactID(what.artifact.id) && TrimSpace(what.artifact.title) != "" && what.artifact.kind in {"html", "mini_app"}
  }

  /** Cleanup leaves as many tasks as the store may hold. */
  predicate IsFull(t: Table, now: Time, config: Config) {
    |Cleanup(t, now, config).byID| >= config.maxEntries
  }

  /** The eviction of create picks a longest-unchanged task that is over, if there is one. */
  predicate VictimPicked(t: Table, victim: string, now: Time, config: Config) {
    HasTerminal(Cleanup(t, now, config)) ==> IsVictim(Cleanup(t, now, config), victim)
  }

  predicate AtCap(t: Table, actor: int, now: Time, config: Config) {
    |LiveOf(t, actor, now, config)| >= config.actorActiveMax
  }

  predicate AtLimit(t: Table, actor: int, now: Time, config: Config) {
    InWindow(t, actor, now, config) && t.rates[actor].count >= config.actorRateMax
  }

  predicate Stuck(t: Table, now: Time, config: Config) {
    IsFull(t, now, config) && !HasTerminal(Cleanup(t, now, config))
  }

  /** The answers of create, in the order in which it looks for them: an incomplete candidate, too many
      live tasks, too many creates in the window, no room and nothing to evict, no identity. */
  lemma CreateExactly(t: Table, what: Candidate, identity: Option<Identity>, victim: string, now: Time, config: Config)
    requires config.Valid() && VictimPicked(t, victim, now, config)
    ensures var answer := Create(t, what, identity, victim, now, config).1;
      var capped, limited := AtCap(t, what.actorUID, now, config), AtLimit(t, what.actorUID, now, config);
      var stuck := Stuck(t, now, config);
      && (answer == Malformed <==> !Complete(what))
      && (answer == ActiveCap <==> Complete(what) && capped)
      && (answer == RateLimited <==> Complete(what) && !capped && limited)
      && (answer == StoreFull <==> Complete(what) && !capped && !limited && stuck)
      && (answer == NoIdentity <==> Complete(what) && !capped && !limited && !stuck && identity.None?)
      && (answer.Made? <==> Complete(what) && !capped && !limited && !stuck && identity.Some?)
  {
    hide Cleanup, Window, LiveAt, ActiveOf, LiveOf, ValidArtifactID, TrimSpace, HasTerminal, IsVictim;
    LiveAreActive(t, what.actorUID, now, config);
    WindowIs(t, what.actorUID, now, config);
    VictimIsOver(Cleanup(t, now, config), victim);
  }

  lemma VictimIsOver(t: Table, victim: string)
    ensures IsVictim(t, victim) ==> HasTerminal(t) && victim in t.byID
  {
  }

  /** What create writes: the new task as submitted, its reference and one more create in the window, after
      cleanup and the eviction of the victim if the store is full. */
  lemma CreateWrites(t: Table, what: Candidate, identity: Option<Identity>, victim: string, now: Time, config: Config)
    requires VictimPicked(t, victim, now, config)
    ensures var (after, answer) := Create(t, what, identity, victim, now, config); var clean := Cleanup(t, now, config);
      && (answer in {ActiveCap, RateLimited, StoreFull} ==> after == clean)
      && (answer == Malformed ==> after == t)
      && (answer.Made? ==>
            var info, full := answer.info, IsFull(t, now, config);
            var count := if InWindow(t, what.actorUID, now, config) then t.rates[what.actorUID].count else 0;
            var start := if InWindow(t, what.actorUID, now, config) then t.rates[what.actorUID].windowStart else now;
            && identity == Some(Identity(info.id, info.ref)) && info == Info(info.id, info.ref, what, now, now + config.ttl)
            && (full ==> victim in clean.byID && clean.byID[victim].Over()
                         && forall id :: id in clean.byID && clean.byID[id].Over() ==> clean.byID[victim].updatedAt <= clean.byID[id].updatedAt)
            && after.byID == (if full then clean.byID - {victim} else clean.byID)
                             [info.id := Task(info, Submitted, "", "", false, "", false, "", "", None, "", now, None)]
            && after.byRef == (if full then clean.byRef - {clean.byID[victim].info.ref} else clean.byRef)[info.ref := info.id]
            && after.rates == clean.rates[what.actorUID := Rate(start, count + 1)])
  {
    hide Cleanup, Window, LiveAt, ActiveOf, Candidate.Valid, HasTerminal;
    WindowIs(t, what.actorUID, now, config);
    VictimIsOver(Cleanup(t, now, config), victim);
  }
}
