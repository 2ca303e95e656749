/** What the artifact task store computes on its process-local paths, as functions on an
    immutable table. TaskStore.dfy updates tasks in place and is proved equal to these. */
module TaskTable {
  import opened Basics
  import opened Outcomes

  datatype Status = Submitted | Running | Completed | Failed

  predicate Terminal(s: Status) { s == Completed || s == Failed }

  datatype Intent = Intent(id: string, title: string, inputSchema: string, resultSink: string)

  datatype Candidate = Candidate(
    actorUID: int, topicID: string, agentUID: int, artifact: Artifact, displayedVersion: int,
    previewRoute: Route, intent: Intent, payload: string, pageContext: string) {

    predicate Valid() {
      && 0 < actorUID && 0 < agentUID && topicID != "" && 0 < displayedVersion && previewRoute.Known()
      && ValidArtifactID(artifact.id) && TrimSpace(artifact.title) != "" && artifact.kind in {"html", "mini_app"}
      && intent.id != "" && intent.resultSink != "" && payload != ""
    }
  }

  /** The part of a task that never changes after create. */
  datatype Info = Info(id: string, ref: string, what: Candidate, createdAt: Time, expiresAt: Time)

  datatype Task = Task(
    info: Info, status: Status, code: string, message: string,
    claimed: bool, clientID: string, delivered: bool,
    runID: string, agentState: string, agentFinishedAt: Option<Time>,
    resultID: string, updatedAt: Time, retainUntil: Option<Time>) {

    predicate Over() { Terminal(status) }
  }

  datatype Rate = Rate(windowStart: Time, count: nat)

  datatype Config = Config(
    ttl: Time, tombstoneTTL: Time, agentGrace: Time, maxEntries: nat,
    actorActiveMax: nat, actorRateMax: nat, rateWindow: Time) {

    predicate Valid() {
      0 < ttl && 0 < tombstoneTTL && 0 < agentGrace && 0 < maxEntries && 0 < actorActiveMax
      && 0 < actorRateMax && 0 < rateWindow
    }
  }

  /** `byRef` shares the task objects of `byID`; here it gives the id of the shared object. */
  datatype Table = Table(byID: map<string, Task>, byRef: map<string, string>, rates: map<int, Rate>)

  const EMPTY: Table := Table(map[], map[], map[])

  // Steps on one task -------------------------------------------------------

  function Fail(t: Task, code: string, message: string, now: Time, config: Config): Task {
    if t.Over() then t
    else t.(status := Failed, code := Truncate(TrimSpace(code), 64), message := Truncate(TrimSpace(message), 500),
            updatedAt := now, retainUntil := Some(now + config.tombstoneTTL))
  }

  function Expired(): (string, string) {
    ("task_expired", "Artifact task expired before a result was applied")
  }

  function NotApplied(): (string, string) {
    ("result_not_applied", "Agent turn finished without an applied Artifact result")
  }

  function Converge(t: Task, now: Time, config: Config): Task {
    if t.Over() then t
    else if t.info.expiresAt <= now then
      Fail(t, Expired().0, Expired().1, now, config)
    else if t.agentFinishedAt.Some? && t.agentFinishedAt.value + config.agentGrace <= now then
      Fail(t, NotApplied().0, NotApplied().1, now, config)
    else t
  }

  predicate Forgotten(t: Task, now: Time, config: Config) {
    var after := Converge(t, now, config);
    after.Over() && after.retainUntil.Some? && after.retainUntil.value <= now
  }

  /** The task once an agent has reported `state`; the answer says whether the report counted. */
  function Observed(t: Task, runID: string, state: string, error: string, now: Time, config: Config): (Task, bool) {
    var seen := t.(runID := if t.runID == "" then runID else t.runID, agentState := state, updatedAt := now);
    match state
    case "running" => (seen.(status := Running), true)
    case "waiting" => (seen.(status := Running), true)
    case "completed" =>
      (seen.(status := if t.status == Submitted then Running else t.status, agentFinishedAt := Some(now)), true)
    case "failed" => (Fail(seen, "agent_failed", error, now, config), true)
    case "cancelled" => (Fail(seen, "agent_cancelled", error, now, config), true)
    case "stale" => (Fail(seen, "agent_stale", error, now, config), true)
    case _ => (seen, false)
  }

  function Resolved(t: Task, resultID: string, outcome: Outcome, now: Time, config: Config): Task {
    var seen := t.(resultID := resultID, updatedAt := now);
    if outcome.status == Applied then
      seen.(status := Completed, code := "", message := "", retainUntil := Some(now + config.tombstoneTTL))
    else
      var code := TrimSpace(outcome.code);
      Fail(seen, if code == "" then "result_" + Text(outcome.status) else code, outcome.message, now, config)
  }

  // Operations --------------------------------------------------------------

  function LiveRates(rates: map<int, Rate>, now: Time, config: Config): map<int, Rate> {
    map actor | actor in rates && now < rates[actor].windowStart + config.rateWindow :: rates[actor]
  }

  function Cleanup(t: Table, now: Time, config: Config): Table {
    Table(map id | id in t.byID && !Forgotten(t.byID[id], now, config) :: Converge(t.byID[id], now, config),
          map ref | ref in t.byRef
                    && !(t.byRef[ref] in t.byID && t.byID[t.byRef[ref]].info.ref == ref
                         && Forgotten(t.byID[t.byRef[ref]], now, config)) :: t.byRef[ref],
          LiveRates(t.rates, now, config))
  }

  /** In-place update of the task with id `id`. */
  function Put(t: Table, id: string, task: Task): Table {
    t.(byID := t.byID[id := task])
  }

  /** The task under `ref`, as the pointer in `byRef` reaches it. */
  function ByRef(t: Table, ref: string): Option<Task> {
    if ref in t.byRef && t.byRef[ref] in t.byID then Some(t.byID[t.byRef[ref]]) else None
  }

  function ActiveOf(t: Table, actor: int): set<string> {
    set id | id in t.byID && t.byID[id].info.what.actorUID == actor && !t.byID[id].Over()
  }

  predicate IsVictim(t: Table, id: string) {
    id in t.byID && t.byID[id].Over()
    && forall other :: other in t.byID && t.byID[other].Over() ==> t.byID[id].updatedAt <= t.byID[other].updatedAt
  }

  predicate HasTerminal(t: Table) {
    exists id :: id in t.byID && t.byID[id].Over()
  }

  function Evict(t: Table, id: string): Table
    requires id in t.byID
  {
    t.(byID := t.byID - {id}, byRef := t.byRef - {t.byID[id].info.ref})
  }

  datatype Created = Made(info: Info) | ActiveCap | RateLimited | StoreFull | NoIdentity | Malformed

  /** The actor's rate window as create reads it at `now`. */
  function Window(rates: map<int, Rate>, actor: int, now: Time, config: Config): Rate {
    if actor in rates && now < rates[actor].windowStart + config.rateWindow then rates[actor] else Rate(now, 0)
  }

  datatype Identity = Identity(id: string, ref: string)

  function NewTask(info: Info): Task {
    Task(info, Submitted, "", "", false, "", false, "", "", None, "", info.createdAt, None)
  }

  function Insert(t: Table, info: Info, rate: Rate): Table {
    Table(t.byID[info.id := NewTask(info)], t.byRef[info.ref := info.id], t.rates[info.what.actorUID := rate])
  }

  /** create on the non-persistent path. `identity` is the pair its eight draws settle on, if any,
      and `victim` the terminal task its eviction picks. */
  function Create(t: Table, what: Candidate, identity: Option<Identity>, victim: string, now: Time, config: Config): (Table, Created) {
    if !what.Valid() then (t, Malformed) else
    var clean := Cleanup(t, now, config);
    var rate := Window(clean.rates, what.actorUID, now, config);
    if |ActiveOf(clean, what.actorUID)| >= config.actorActiveMax then (clean, ActiveCap)
    else if rate.count >= config.actorRateMax then (clean, RateLimited)
    else if |clean.byID| >= config.maxEntries && !IsVictim(clean, victim) then (clean, StoreFull)
    else
      var roomy := if |clean.byID| >= config.maxEntries then Evict(clean, victim) else clean;
      match identity
      case None => (roomy, NoIdentity)
      case Some(it) =>
        var info := Info(it.id, it.ref, what, now, now + config.ttl);
        (Insert(roomy, info, Rate(rate.windowStart, rate.count + 1)), Made(info))
  }

  datatype DeliveryRef = DeliveryRef(ref: string, taskID: string, agentUID: int, clientMessageID: string, alreadyDelivered: bool)

  datatype Reservation = Reserved(delivery: DeliveryRef) | Pending | Refused

  function Reserve(t: Table, ref: string, actorUID: int, topicID: string, agentUID: int, client: string, now: Time, config: Config): (Table, Reservation) {
    var clientID := TrimSpace(client);
    if !OpaqueID("atr_", ref) || clientID == "" || ByteLen(clientID) > 128 then (t, Refused) else
    var clean := Cleanup(t, now, config);
    match ByRef(clean, ref)
    case None => (clean, Refused)
    case Some(task) =>
      if task.info.what.actorUID != actorUID || task.info.what.topicID != topicID || task.info.what.agentUID != agentUID
         || task.Over() || task.info.expiresAt <= now then (clean, Refused)
      else if task.delivered then
        (clean, if task.clientID == clientID
                then Reserved(DeliveryRef(task.info.ref, task.info.id, agentUID, clientID, true)) else Refused)
      else if task.claimed then (clean, if task.clientID == clientID then Pending else Refused)
      else (Put(clean, task.info.id, task.(claimed := true, clientID := clientID, updatedAt := now)),
            Reserved(DeliveryRef(task.info.ref, task.info.id, agentUID, clientID, false)))
  }

  predicate Confirmable(task: Task, delivery: DeliveryRef, now: Time) {
    && task.info.id == delivery.taskID && task.info.what.agentUID == delivery.agentUID
    && task.claimed && task.clientID == delivery.clientMessageID && !task.Over() && now < task.info.expiresAt
  }

  function Confirm(t: Table, delivery: DeliveryRef, now: Time, config: Config): (Table, bool) {
    if delivery.alreadyDelivered then (t, true) else
    var clean := Cleanup(t, now, config);
    match ByRef(clean, delivery.ref)
    case None => (clean, false)
    case Some(task) =>
      if !Confirmable(task, delivery, now) then (clean, false)
      else (Put(clean, task.info.id, task.(claimed := false, delivered := true, updatedAt := now)), true)
  }

  /** releaseDelivery runs no cleanup. */
  function Release(t: Table, delivery: DeliveryRef, now: Time): Table {
    if delivery.alreadyDelivered then t else
    match ByRef(t, delivery.ref)
    case None => t
    case Some(task) =>
      if task.info.id != delivery.taskID || task.delivered || !task.claimed || task.clientID != delivery.clientMessageID then t
      else Put(t, task.info.id, task.(claimed := false, clientID := "", updatedAt := now))
  }

  function FailDelivery(t: Table, delivery: DeliveryRef, code: string, message: string, now: Time, config: Config): (Table, bool) {
    if delivery.alreadyDelivered then (t, false) else
    var clean := Cleanup(t, now, config);
    match ByRef(clean, delivery.ref)
    case None => (clean, false)
    case Some(task) =>
      if task.info.id != delivery.taskID || task.info.what.agentUID != delivery.agentUID
         || task.clientID != delivery.clientMessageID || task.Over() then (clean, false)
      else (Put(clean, task.info.id, Fail(task.(claimed := false, delivered := false), code, message, now, config)), true)
  }

  /** withWritable: the task handed to the callback, if the callback runs. */
  function WithWritable(t: Table, ref: string, id: string, now: Time, config: Config): (Table, Option<Task>) {
    var clean := Cleanup(t, now, config);
    match ByRef(clean, ref)
    case None => (clean, None)
    case Some(task) =>
      if task.info.id != id || !task.delivered || task.Over() || task.info.expiresAt <= now then (clean, None)
      else (clean, Some(task))
  }

  function ObserveRun(t: Table, ref: string, sourceUID: int, topicID: string, runID: string, state: string, error: string, now: Time, config: Config): (Table, bool) {
    if !OpaqueID("atr_", ref) || runID == "" then (t, false) else
    var clean := Cleanup(t, now, config);
    match ByRef(clean, ref)
    case None => (clean, false)
    case Some(task) =>
      if task.info.what.agentUID != sourceUID || task.info.what.topicID != topicID || !task.delivered || task.Over()
         || (task.runID != "" && task.runID != runID) then (clean, false)
      else
        var (seen, counted) := Observed(task, runID, state, error, now, config);
        (Put(clean, task.info.id, seen), counted)
  }

  function CompleteResult(t: Table, id: string, resultID: string, outcome: Outcome, now: Time, config: Config): (Table, bool) {
    if !OpaqueID("atk_", id) || !OpaqueID("arr_", resultID) then (t, false) else
    var clean := Cleanup(t, now, config);
    if id !in clean.byID then (clean, false) else
    var task := clean.byID[id];
    if task.status == Completed then (clean, task.resultID == resultID)
    else if task.status == Failed then (clean, false)
    else (Put(clean, id, Resolved(task, resultID, outcome, now, config)), true)
  }

  datatype FailAnswer = FailNotFound | FailApplied | FailDeliveryPending | FailDeliveryCommitted

  function FailForActor(t: Table, id: string, actorUID: int, code: string, message: string, preserveClaim: bool, now: Time, config: Config): (Table, FailAnswer) {
    if !OpaqueID("atk_", id) || actorUID <= 0 then (t, FailNotFound) else
    var clean := Cleanup(t, now, config);
    if id !in clean.byID || clean.byID[id].info.what.actorUID != actorUID || clean.byID[id].Over() then (clean, FailNotFound)
    else if preserveClaim && clean.byID[id].delivered then (clean, FailDeliveryCommitted)
    else if preserveClaim && clean.byID[id].claimed then (clean, FailDeliveryPending)
    else (Put(clean, id, Fail(clean.byID[id], code, message, now, config)), FailApplied)
  }

  // The invariant -----------------------------------------------------------

  predicate EntryOk(id: string, t: Task, config: Config) {
    && t.info.id == id && !(t.claimed && t.delivered)
    && (t.Over() <==> t.retainUntil.Some?)
    && t.info.expiresAt == t.info.createdAt + config.ttl
  }

  /** `byID` and `byRef` reach the same tasks. */
  predicate SameTasks(t: Table) {
    && (forall id :: id in t.byID ==> t.byID[id].info.ref in t.byRef && t.byRef[t.byID[id].info.ref] == id)
    && (forall ref :: ref in t.byRef ==> t.byRef[ref] in t.byID && t.byID[t.byRef[ref]].info.ref == ref)
  }

  predicate Capped(t: Table, config: Config, actor: int) {
    |ActiveOf(t, actor)| <= config.actorActiveMax
  }

  ghost predicate Bounded(t: Table, config: Config) {
    && |t.byID| <= config.maxEntries
    && (forall actor :: Capped(t, config, actor))
    && (forall actor :: actor in t.rates ==> t.rates[actor].count <= config.actorRateMax)
  }

  ghost predicate Inv(t: Table, config: Config) {
    && (forall id :: id in t.byID ==> EntryOk(id, t.byID[id], config))
    && SameTasks(t)
    && Bounded(t, config)
  }

  /** What a step on one task may not undo. */
  predicate Progresses(before: Task, after: Task) {
    && after.info == before.info
    && (before.Over() ==> after.Over() && after.status == before.status && after.code == before.code
                          && after.message == before.message && after.resultID == before.resultID
                          && after.delivered == before.delivered)
    && (before.delivered && !after.Over() ==> after.delivered)
  }

  predicate Evolves(t: Table, after: Table, id: string) {
    id in after.byID ==> id in t.byID && Progresses(t.byID[id], after.byID[id])
  }

  /** `id` is completed in `after` only if it was completed before. */
  predicate NotCompleted(t: Table, after: Table, id: string) {
    id in after.byID && after.byID[id].status == Completed ==> id in t.byID && t.byID[id].status == Completed
  }

  /** `after` is a sound successor of `t` in which only tasks in `completing` can become completed. */
  ghost predicate Follows(t: Table, after: Table, completing: set<string>, config: Config) {
    && Inv(after, config)
    && (forall id :: Evolves(t, after, id))
    && (forall id :: id !in completing ==> NotCompleted(t, after, id))
  }

  lemma FollowsTransitively(t: Table, mid: Table, after: Table, completing: set<string>, config: Config)
    requires Follows(t, mid, {}, config) && Follows(mid, after, completing, config)
    ensures Follows(t, after, completing, config)
  {
    hide Inv;
    forall id ensures Evolves(t, after, id) {
      assert Evolves(t, mid, id) && Evolves(mid, after, id);
    }
    forall id | id !in completing ensures NotCompleted(t, after, id) {
      assert NotCompleted(t, mid, id) && NotCompleted(mid, after, id);
    }
  }

  // Every operation keeps the invariant --------------------------------------

  lemma ConvergeProgresses(t: Task, now: Time, config: Config)
    requires config.Valid() && EntryOk(t.info.id, t, config)
    ensures EntryOk(t.info.id, Converge(t, now, config), config) && Progresses(t, Converge(t, now, config))
    ensures Converge(t, now, config).status == Completed ==> t.status == Completed
    ensures Converge(t, now, config).Over() || now < t.info.expiresAt
  {
    hide TrimSpace, Truncate, Expired, NotApplied;
  }

  /** Cleanup leaves a table alone in which every task is live, unexpired and unfinished and every rate
      window lasts. */
  lemma LiveStay(t: Table, now: Time, config: Config)
    requires forall id :: id in t.byID ==> !t.byID[id].Over() && now < t.byID[id].info.expiresAt && t.byID[id].agentFinishedAt.None?
    requires LiveRates(t.rates, now, config) == t.rates
    ensures Cleanup(t, now, config) == t
  {
    hide Converge, Forgotten, LiveRates;
    forall id | id in t.byID ensures Converge(t.byID[id], now, config) == t.byID[id] && !Forgotten(t.byID[id], now, config) {
      LiveTaskStays(t.byID[id], now, config);
    }
    var after := Cleanup(t, now, config);
    assert after.byID == t.byID;
    forall ref | ref in t.byRef ensures ref in after.byRef {
      var id := t.byRef[ref];
      assert id in t.byID ==> !Forgotten(t.byID[id], now, config);
    }
    assert after.byRef.Keys == t.byRef.Keys;
    assert after.byRef == t.byRef && after.rates == t.rates;
  }

  lemma LiveTaskStays(task: Task, now: Time, config: Config)
    requires !task.Over() && now < task.info.expiresAt && task.agentFinishedAt.None?
    ensures Converge(task, now, config) == task && !Forgotten(task, now, config)
  {
    hide TrimSpace, Truncate, Expired, NotApplied;
  }

  lemma CleanupSameTasks(t: Table, now: Time, config: Config)
    requires SameTasks(t)
    ensures SameTasks(Cleanup(t, now, config))
  {
    hide Forgotten, Converge;
    var after := Cleanup(t, now, config);
    forall id | id in t.byID ensures Converge(t.byID[id], now, config).info == t.byID[id].info {
      ConvergeKeepsInfo(t.byID[id], now, config);
    }
    forall id | id in after.byID
      ensures after.byID[id].info.ref in after.byRef && after.byRef[after.byID[id].info.ref] == id
    {
      assert t.byRef[t.byID[id].info.ref] == id;
    }
    forall ref | ref in after.byRef ensures after.byRef[ref] in after.byID && after.byID[after.byRef[ref]].info.ref == ref {
      assert t.byID[t.byRef[ref]].info.ref == ref;
    }
  }

  lemma ConvergeKeepsInfo(t: Task, now: Time, config: Config)
    ensures Converge(t, now, config).info == t.info
  {
    hide TrimSpace, Truncate, Expired, NotApplied;
  }

  lemma CleanupBounded(t: Table, now: Time, config: Config)
    requires Bounded(t, config)
    ensures Bounded(Cleanup(t, now, config), config)
  {
    hide IsVictim, ActiveOf, Converge, Forgotten;
    var after := Cleanup(t, now, config);
    SubsetSize(after.byID.Keys, t.byID.Keys);
    assert |after.byID.Keys| == |after.byID| && |t.byID.Keys| == |t.byID|;
    forall actor ensures Capped(after, config, actor) {
      CleanupActive(t, actor, now, config);
      assert Capped(t, config, actor);
    }
  }

  lemma CleanupActive(t: Table, actor: int, now: Time, config: Config)
    ensures |ActiveOf(Cleanup(t, now, config), actor)| <= |ActiveOf(t, actor)|
  {
    hide TrimSpace, Truncate, Expired, NotApplied, LiveRates;
    SubsetSize(ActiveOf(Cleanup(t, now, config), actor), ActiveOf(t, actor));
  }

  /** Cleanup leaves no live task at or past its expiry. */
  lemma CleanupFollows(t: Table, now: Time, config: Config)
    requires config.Valid() && Inv(t, config)
    ensures Follows(t, Cleanup(t, now, config), {}, config)
    ensures NoOverdue(Cleanup(t, now, config), now)
  {
    hide Bounded, SameTasks, Converge, EntryOk, Progresses;
    CleanupSameTasks(t, now, config);
    CleanupBounded(t, now, config);
    var after := Cleanup(t, now, config);
    forall id | id in after.byID
      ensures EntryOk(id, after.byID[id], config) && Progresses(t.byID[id], after.byID[id])
      ensures after.byID[id].status == Completed ==> t.byID[id].status == Completed
      ensures after.byID[id].Over() || now < after.byID[id].info.expiresAt
    {
      CleanedEntry(t, id, now, config);
    }
  }

  lemma CleanedEntry(t: Table, id: string, now: Time, config: Config)
    requires config.Valid() && id in Cleanup(t, now, config).byID && id in t.byID && EntryOk(id, t.byID[id], config)
    ensures var task := Cleanup(t, now, config).byID[id];
      && EntryOk(id, task, config) && Progresses(t.byID[id], task) && (task.status == Completed ==> t.byID[id].status == Completed)
      && (task.Over() || now < task.info.expiresAt)
  {
    hide Converge;
    ConvergeProgresses(t.byID[id], now, config);
  }

  predicate NoOverdue(t: Table, now: Time) {
    forall id :: id in t.byID ==> t.byID[id].Over() || now < t.byID[id].info.expiresAt
  }

  lemma PutBounded(t: Table, id: string, task: Task, config: Config)
    requires Bounded(t, config) && id in t.byID && task.info == t.byID[id].info && (t.byID[id].Over() ==> task.Over())
    ensures Bounded(Put(t, id, task), config)
  {
    hide ActiveOf;
    var after := Put(t, id, task);
    assert after.byID.Keys == t.byID.Keys;
    assert |after.byID.Keys| == |after.byID| && |t.byID.Keys| == |t.byID|;
    forall actor ensures Capped(after, config, actor) {
      PutActive(t, id, task, actor);
      assert Capped(t, config, actor);
    }
  }

  lemma PutActive(t: Table, id: string, task: Task, actor: int)
    requires id in t.byID && task.info == t.byID[id].info && (t.byID[id].Over() ==> task.Over())
    ensures |ActiveOf(Put(t, id, task), actor)| <= |ActiveOf(t, actor)|
  {
    SubsetSize(ActiveOf(Put(t, id, task), actor), ActiveOf(t, actor));
  }

  lemma PutFollows(t: Table, id: string, task: Task, completing: set<string>, config: Config)
    requires Inv(t, config) && id in t.byID
    requires EntryOk(id, task, config) && Progresses(t.byID[id], task)
    requires id in completing || (task.status == Completed ==> t.byID[id].status == Completed)
    ensures Follows(t, Put(t, id, task), completing, config)
  {
    hide Bounded, Capped, TrimSpace, Truncate, Text;
    PutBounded(t, id, task, config);
    var after := Put(t, id, task);
    PutSameTasks(t, id, task);
    hide SameTasks;
  }

  lemma PutSameTasks(t: Table, id: string, task: Task)
    requires SameTasks(t) && id in t.byID && task.info == t.byID[id].info
    ensures SameTasks(Put(t, id, task))
  {
  }

  /** The task reached through `byRef` is the table's entry under its own id. */
  lemma ByRefIsEntry(t: Table, ref: string, config: Config)
    requires Inv(t, config) && ByRef(t, ref).Some?
    ensures var task := ByRef(t, ref).value;
      && task.info.id in t.byID && t.byID[task.info.id] == task && task.info.ref == ref && EntryOk(task.info.id, task, config)
      && Lookup(t.byRef, ref) == task.info.id
  {
    hide Bounded;
  }

  /** An update of one task after a cleanup pass. */
  lemma CleanThenPut(t: Table, id: string, task: Task, completing: set<string>, now: Time, config: Config)
    requires config.Valid() && Inv(t, config)
    requires var clean := Cleanup(t, now, config);
      && id in clean.byID && EntryOk(id, task, config) && Progresses(clean.byID[id], task)
      && (id in completing || (task.status == Completed ==> clean.byID[id].status == Completed))
    ensures Follows(t, Put(Cleanup(t, now, config), id, task), completing, config)
  {
    hide Cleanup, Put, Inv;
    var clean := Cleanup(t, now, config);
    CleanupFollows(t, now, config);
    assert Inv(clean, config);
    PutFollows(clean, id, task, completing, config);
    FollowsTransitively(t, clean, Put(clean, id, task), completing, config);
  }

  lemma ReserveFollows(t: Table, ref: string, actorUID: int, topicID: string, agentUID: int, client: string, now: Time, config: Config)
    requires config.Valid() && Inv(t, config)
    ensures Follows(t, Reserve(t, ref, actorUID, topicID, agentUID, client, now, config).0, {}, config)
  {
    hide Cleanup, Put, Inv, Follows, TrimSpace, OpaqueID, ByteLen;
    Unchanged(t, config);
    CleanupFollows(t, now, config);
    var clean := Cleanup(t, now, config);
    FollowsInv(t, clean, {}, config);
    if ByRef(clean, ref).Some? {
      ByRefIsEntry(clean, ref, config);
      var task := ByRef(clean, ref).value;
      if !task.Over() && !task.delivered && !task.claimed {
        CleanThenPut(t, task.info.id, task.(claimed := true, clientID := TrimSpace(client), updatedAt := now), {}, now, config);
      }
    }
  }

  lemma ConfirmFollows(t: Table, delivery: DeliveryRef, now: Time, config: Config)
    requires config.Valid() && Inv(t, config)
    ensures Follows(t, Confirm(t, delivery, now, config).0, {}, config)
  {
    hide Cleanup, Put, Inv, Follows;
    Unchanged(t, config);
    CleanupFollows(t, now, config);
    var clean := Cleanup(t, now, config);
    FollowsInv(t, clean, {}, config);
    if ByRef(clean, delivery.ref).Some? {
      ByRefIsEntry(clean, delivery.ref, config);
      var task := ByRef(clean, delivery.ref).value;
      if Confirmable(task, delivery, now) {
        CleanThenPut(t, task.info.id, task.(claimed := false, delivered := true, updatedAt := now), {}, now, config);
      }
    }
  }

  lemma ReleaseFollows(t: Table, delivery: DeliveryRef, now: Time, config: Config)
    requires config.Valid() && Inv(t, config)
    ensures Follows(t, Release(t, delivery, now), {}, config)
  {
    hide Put, Inv, Follows;
    Unchanged(t, config);
    if ByRef(t, delivery.ref).Some? {
      ByRefIsEntry(t, delivery.ref, config);
      var task := ByRef(t, delivery.ref).value;
      if task.claimed {
        PutFollows(t, task.info.id, task.(claimed := false, clientID := "", updatedAt := now), {}, config);
      }
    }
  }

  lemma FailIsSound(t: Task, code: string, message: string, now: Time, config: Config)
    requires EntryOk(t.info.id, t, config)
    ensures var after := Fail(t, code, message, now, config);
      && EntryOk(t.info.id, after, config) && Progresses(t, after) && after.Over()
      && (after.status == Completed ==> t.status == Completed)
      && after.delivered == t.delivered && after.clientID == t.clientID
  {
    hide TrimSpace, Truncate;
  }

  lemma FailDeliveryFollows(t: Table, delivery: DeliveryRef, code: string, message: string, now: Time, config: Config)
    requires config.Valid() && Inv(t, config)
    ensures Follows(t, FailDelivery(t, delivery, code, message, now, config).0, {}, config)
  {
    hide Cleanup, Put, Inv, Follows, Fail;
    Unchanged(t, config);
    CleanupFollows(t, now, config);
    var clean := Cleanup(t, now, config);
    FollowsInv(t, clean, {}, config);
    if ByRef(clean, delivery.ref).Some? {
      ByRefIsEntry(clean, delivery.ref, config);
      var task := ByRef(clean, delivery.ref).value;
      if !task.Over() {
        FailIsSound(task.(claimed := false, delivered := false), code, message, now, config);
        CleanThenPut(t, task.info.id, Fail(task.(claimed := false, delivered := false), code, message, now, config), {}, now, config);
      }
    }
  }

  lemma ObservedIsSound(t: Task, runID: string, state: string, error: string, now: Time, config: Config)
    requires EntryOk(t.info.id, t, config) && !t.Over()
    ensures var after := Observed(t, runID, state, error, now, config).0;
      && EntryOk(t.info.id, after, config) && Progresses(t, after) && after.status != Completed
      && after.delivered == t.delivered && after.clientID == t.clientID
  {
    hide TrimSpace, Truncate;
  }

  lemma ObserveRunFollows(t: Table, ref: string, sourceUID: int, topicID: string, runID: string, state: string, error: string, now: Time, config: Config)
    requires config.Valid() && Inv(t, config)
    ensures Follows(t, ObserveRun(t, ref, sourceUID, topicID, runID, state, error, now, config).0, {}, config)
  {
    hide Cleanup, Put, Inv, Follows, Observed, OpaqueID;
    Unchanged(t, config);
    CleanupFollows(t, now, config);
    var clean := Cleanup(t, now, config);
    FollowsInv(t, clean, {}, config);
    if ByRef(clean, ref).Some? {
      ByRefIsEntry(clean, ref, config);
      var task := ByRef(clean, ref).value;
      if !task.Over() {
        ObservedIsSound(task, runID, state, error, now, config);
        CleanThenPut(t, task.info.id, Observed(task, runID, state, error, now, config).0, {}, now, config);
      }
    }
  }

  /** The states of an agent run that a report can count with. */
  predicate KnownState(state: string) {
    state in {"running", "waiting", "completed", "failed", "cancelled", "stale"}
  }

  /** The task is delivered and live, belongs to the reporting agent and topic, and to no other run. */
  predicate TakesReport(task: Task, sourceUID: int, topicID: string, runID: string) {
    && task.info.what.agentUID == sourceUID && task.info.what.topicID == topicID && task.delivered && !task.Over()
    && (task.runID == "" || task.runID == runID)
  }

  lemma ObservedAnswer(t: Task, runID: string, state: string, error: string, now: Time, config: Config)
    ensures var (after, counted) := Observed(t, runID, state, error, now, config);
      && (counted <==> KnownState(state))
      && (!counted ==> after == t.(runID := if t.runID == "" then runID else t.runID, agentState := state, updatedAt := now))
  {
    hide TrimSpace, Truncate;
  }

  /** What a report does to the fields of a live task. */
  lemma ObservedFields(t: Task, runID: string, state: string, error: string, now: Time, config: Config)
    requires !t.Over()
    ensures var (after, counted) := Observed(t, runID, state, error, now, config);
      && (counted <==> KnownState(state))
      && after.agentState == state && after.updatedAt == now && after.runID == (if t.runID == "" then runID else t.runID)
      && after.status == (if state in {"failed", "cancelled", "stale"} then Failed
                          else if state in {"running", "waiting"} || (state == "completed" && t.status == Submitted) then Running
                          else t.status)
      && after.agentFinishedAt == (if state == "completed" then Some(now) else t.agentFinishedAt)
      && after.retainUntil == (if state in {"failed", "cancelled", "stale"} then Some(now + config.tombstoneTTL) else t.retainUntil)
  {
    hide TrimSpace, Truncate;
  }

  /** observeRun says yes exactly to a report in a known state about a task that takes it. A report in
      an unknown state about such a task is answered no and yet written down, so the store has changed
      behind a no exactly then, unless the very same report was written at the same instant before. */
  lemma ObserveRunExactly(t: Table, ref: string, sourceUID: int, topicID: string, runID: string, state: string, error: string, now: Time, config: Config)
    requires config.Valid() && Inv(t, config)
    ensures var (after, yes) := ObserveRun(t, ref, sourceUID, topicID, runID, state, error, now, config);
      var clean, formed := Cleanup(t, now, config), OpaqueID("atr_", ref) && runID != "";
      var named := ByRef(clean, ref);
      var taken := formed && named.Some? && TakesReport(named.value, sourceUID, topicID, runID);
      && (yes <==> taken && KnownState(state))
      && (!formed ==> after == t)
      && (formed ==>
            (!yes && after != clean
             <==> taken && !KnownState(state)
                  && !(named.value.runID == runID && named.value.agentState == state && named.value.updatedAt == now)))
  {
    hide Cleanup, Inv, Follows, Observed, OpaqueID, KnownState, NoOverdue;
    CleanupFollows(t, now, config);
    var clean := Cleanup(t, now, config);
    FollowsInv(t, clean, {}, config);
    if ByRef(clean, ref).Some? {
      ByRefIsEntry(clean, ref, config);
      var task := ByRef(clean, ref).value;
      ObservedAnswer(task, runID, state, error, now, config);
      PutChanges(clean, task.info.id, Observed(task, runID, state, error, now, config).0);
    }
  }

  lemma PutChanges(t: Table, id: string, task: Task)
    requires id in t.byID
    ensures Put(t, id, task) == t <==> task == t.byID[id]
  {
    if task == t.byID[id] {
      assert t.byID[id := task] == t.byID;
    } else {
      assert Put(t, id, task).byID[id] == task;
    }
  }

  lemma ResolvedIsSound(t: Task, resultID: string, outcome: Outcome, now: Time, config: Config)
    requires EntryOk(t.info.id, t, config) && !t.Over()
    ensures var after := Resolved(t, resultID, outcome, now, config);
      && EntryOk(t.info.id, after, config) && Progresses(t, after) && after.Over()
      && (after.status == Completed <==> outcome.status == Applied)
      && after.resultID == resultID && after.delivered == t.delivered && after.clientID == t.clientID
  {
    hide TrimSpace, Truncate, Text;
  }

  lemma CompleteResultFollows(t: Table, id: string, resultID: string, outcome: Outcome, now: Time, config: Config)
    requires config.Valid() && Inv(t, config)
    ensures var after := CompleteResult(t, id, resultID, outcome, now, config).0;
      && Follows(t, after, {id}, config)
      && (id in after.byID && after.byID[id].status == Completed && !(id in t.byID && t.byID[id].status == Completed) ==>
            outcome.status == Applied && after.byID[id].resultID == resultID
            && id in t.byID && !t.byID[id].Over() && now < t.byID[id].info.expiresAt
            && after.byID[id].delivered == t.byID[id].delivered)
  {
    hide Cleanup, Inv, Follows, Resolved, OpaqueID;
    Unchanged(t, config);
    FollowsMore(t, t, {id}, config);
    CleanupFollows(t, now, config);
    var clean := Cleanup(t, now, config);
    FollowsMore(t, clean, {id}, config);
    if id in clean.byID {
      FollowsAt(t, clean, {}, id, config);
      EntriesOk(clean, id, config);
      var task := clean.byID[id];
      if !task.Over() {
        CleanupKeepsLive(t, id, now, config);
        ResolvedIsSound(task, resultID, outcome, now, config);
        CleanThenPut(t, id, Resolved(task, resultID, outcome, now, config), {id}, now, config);
      }
    }
  }

  /** The task is live at `now`: neither over, nor expired, nor past its agent's grace period. */
  predicate LiveAt(t: Table, id: string, now: Time, config: Config) {
    && id in t.byID && !t.byID[id].Over() && now < t.byID[id].info.expiresAt
    && (t.byID[id].agentFinishedAt.Some? ==> now < t.byID[id].agentFinishedAt.value + config.agentGrace)
  }

  predicate CompletedAs(t: Table, id: string, resultID: string) {
    id in t.byID && t.byID[id].status == Completed && t.byID[id].resultID == resultID
  }

  /** Between the two tables the task is completed with that result. */
  predicate Completes(before: Table, after: Table, id: string, resultID: string) {
    CompletedAs(after, id, resultID) && !CompletedAs(before, id, resultID)
  }

  /** A result that arrives for the task is taken: both ids are well-formed and the task is live. */
  predicate TakesResult(t: Table, id: string, resultID: string, now: Time, config: Config) {
    OpaqueID("atk_", id) && OpaqueID("arr_", resultID) && LiveAt(t, id, now, config)
  }

  /** completeResult completes a task, with that result, exactly if both ids are well-formed, the task is
      live and the outcome is applied. It says yes exactly for a live task and for one that this very
      result has completed before. */
  lemma CompleteResultExactly(t: Table, id: string, resultID: string, outcome: Outcome, now: Time, config: Config)
    ensures var (after, yes) := CompleteResult(t, id, resultID, outcome, now, config);
      && (Completes(t, after, id, resultID) <==> TakesResult(t, id, resultID, now, config) && outcome.status == Applied)
      && (yes <==> TakesResult(t, id, resultID, now, config)
                   || (OpaqueID("atk_", id) && OpaqueID("arr_", resultID) && CompletedAs(Cleanup(t, now, config), id, resultID)))
  {
    hide OpaqueID, Cleanup, TrimSpace, Truncate, Text;
    LiveAfterCleanup(t, id, now, config);
  }

  /** What cleanup leaves of a task: a live one as it was, a completed one as it was or nothing, and
      nothing that it completed itself. */
  lemma LiveAfterCleanup(t: Table, id: string, now: Time, config: Config)
    ensures var clean := Cleanup(t, now, config);
      && (id in clean.byID && !clean.byID[id].Over() <==> LiveAt(t, id, now, config))
      && (id in clean.byID && clean.byID[id].status == Completed ==> id in t.byID && clean.byID[id] == t.byID[id])
  {
    hide TrimSpace, Truncate, Expired, NotApplied;
  }

  /** A live task comes out of cleanup exactly as it went in. */
  lemma CleanupKeepsLive(t: Table, id: string, now: Time, config: Config)
    requires id in Cleanup(t, now, config).byID && !Cleanup(t, now, config).byID[id].Over()
    ensures Cleanup(t, now, config).byID[id] == t.byID[id] && now < t.byID[id].info.expiresAt
  {
    hide TrimSpace, Truncate, Expired, NotApplied;
  }

  lemma FailForActorFollows(t: Table, id: string, actorUID: int, code: string, message: string, preserveClaim: bool, now: Time, config: Config)
    requires config.Valid() && Inv(t, config)
    ensures var (after, answer) := FailForActor(t, id, actorUID, code, message, preserveClaim, now, config);
      && Follows(t, after, {}, config)
      && (answer == FailApplied ==> id in t.byID && id in after.byID && after.byID[id].Over())
  {
    hide Cleanup, Inv, Follows, Fail, OpaqueID;
    Unchanged(t, config);
    CleanupFollows(t, now, config);
    var clean := Cleanup(t, now, config);
    if id in clean.byID {
      FollowsAt(t, clean, {}, id, config);
      EntriesOk(clean, id, config);
      FailIsSound(clean.byID[id], code, message, now, config);
      CleanThenPut(t, id, Fail(clean.byID[id], code, message, now, config), {}, now, config);
    }
  }

  /** A refused or absent writable task is closed for good: it is over or gone, was never
      delivered, or the id does not belong to the reference. */
  lemma WithWritableFollows(t: Table, ref: string, id: string, now: Time, config: Config)
    requires config.Valid() && Inv(t, config)
    ensures var (after, task) := WithWritable(t, ref, id, now, config);
      && Follows(t, after, {}, config)
      && (task.Some? ==> id in t.byID && t.byID[id] == task.value && task.value.info.ref == ref && task.value.delivered
                         && !task.value.Over() && now < task.value.info.expiresAt && id in after.byID
                         && after.byID[id] == task.value)
      && (task.None? && id in after.byID && after.byID[id].info.ref == ref && after.byID[id].delivered ==> after.byID[id].Over())
  {
    hide Cleanup, Inv, Follows;
    CleanupFollows(t, now, config);
    var clean := Cleanup(t, now, config);
    FollowsInv(t, clean, {}, config);
    if ByRef(clean, ref).Some? {
      ByRefIsEntry(clean, ref, config);
    }
    if id in clean.byID && !clean.byID[id].Over() {
      CleanupKeepsLive(t, id, now, config);
      FollowsAt(t, clean, {}, id, config);
    }
    if id in clean.byID && clean.byID[id].info.ref == ref {
      RefReaches(clean, id, config);
      EntriesOk(clean, id, config);
    }
  }

  lemma RefReaches(t: Table, id: string, config: Config)
    requires Inv(t, config) && id in t.byID
    ensures ByRef(t, t.byID[id].info.ref) == Some(t.byID[id])
  {
    hide Bounded;
  }

  lemma EntriesOk(t: Table, id: string, config: Config)
    requires Inv(t, config) && id in t.byID
    ensures EntryOk(id, t.byID[id], config) && |t.byID| <= config.maxEntries
  {
  }

  lemma FollowsAt(t: Table, after: Table, completing: set<string>, id: string, config: Config)
    requires Follows(t, after, completing, config)
    ensures Inv(after, config) && Evolves(t, after, id) && (id !in completing ==> NotCompleted(t, after, id))
  {
  }

  lemma FollowsMore(t: Table, after: Table, completing: set<string>, config: Config)
    requires Follows(t, after, {}, config)
    ensures Follows(t, after, completing, config)
  {
    hide Inv;
  }

  // create ------------------------------------------------------------------

  /** The draws of create are checked against the tasks left after cleanup and eviction; here a
      fresh identity is new to the table before that. */
  predicate NewIdentity(t: Table, identity: Option<Identity>) {
    identity.Some? ==> OpaqueID("atk_", identity.value.id) && OpaqueID("atr_", identity.value.ref)
                       && identity.value.id !in t.byID && identity.value.ref !in t.byRef
  }

  lemma EvictFollows(t: Table, victim: string, config: Config)
    requires Inv(t, config) && IsVictim(t, victim)
    ensures Follows(t, Evict(t, victim), {}, config) && |Evict(t, victim).byID| == |t.byID| - 1
  {
    hide SameTasks, Bounded, IsVictim, Evolves, NotCompleted;
    VictimStored(t, victim);
    EvictSameTasks(t, victim);
    EvictBounded(t, victim, config);
    EvictEvolves(t, victim);
  }

  lemma VictimStored(t: Table, victim: string)
    requires IsVictim(t, victim)
    ensures victim in t.byID
  {
  }

  lemma EvictEvolves(t: Table, victim: string)
    requires victim in t.byID
    ensures forall id :: Evolves(t, Evict(t, victim), id) && NotCompleted(t, Evict(t, victim), id)
  {
  }

  lemma EvictBounded(t: Table, victim: string, config: Config)
    requires Bounded(t, config) && victim in t.byID
    ensures Bounded(Evict(t, victim), config) && |Evict(t, victim).byID| == |t.byID| - 1
  {
    hide SameTasks;
    var after := Evict(t, victim);
    assert after.byID.Keys == t.byID.Keys - {victim};
    assert |after.byID.Keys| == |after.byID| && |t.byID.Keys| == |t.byID|;
    forall actor ensures Capped(after, config, actor) {
      SubsetSize(ActiveOf(after, actor), ActiveOf(t, actor));
      assert Capped(t, config, actor);
    }
  }

  lemma EvictSameTasks(t: Table, victim: string)
    requires SameTasks(t) && victim in t.byID
    ensures SameTasks(Evict(t, victim))
  {
  }

  /** Room for one more task of this actor, within every cap. */
  ghost predicate HasRoom(t: Table, info: Info, rate: Rate, config: Config) {
    && info.id !in t.byID && info.ref !in t.byRef && info.expiresAt == info.createdAt + config.ttl
    && |t.byID| < config.maxEntries && |ActiveOf(t, info.what.actorUID)| < config.actorActiveMax
    && rate.count <= config.actorRateMax
  }

  lemma InsertBounded(t: Table, info: Info, rate: Rate, config: Config)
    requires Bounded(t, config) && HasRoom(t, info, rate, config)
    ensures Bounded(Insert(t, info, rate), config)
  {
    hide ActiveOf;
    var after := Insert(t, info, rate);
    assert after.byID.Keys == t.byID.Keys + {info.id};
    assert |after.byID.Keys| == |after.byID| && |t.byID.Keys| == |t.byID|;
    forall actor ensures Capped(after, config, actor) {
      assert Capped(t, config, actor);
      InsertActive(t, info, rate, actor);
    }
  }

  lemma InsertActive(t: Table, info: Info, rate: Rate, actor: int)
    ensures |ActiveOf(Insert(t, info, rate), actor)| <= |ActiveOf(t, actor)| + if actor == info.what.actorUID then 1 else 0
  {
    var more := if actor == info.what.actorUID then {info.id} else {};
    SubsetSize(ActiveOf(Insert(t, info, rate), actor), ActiveOf(t, actor) + more);
  }

  lemma InsertKeepsInv(t: Table, info: Info, rate: Rate, config: Config)
    requires Inv(t, config) && HasRoom(t, info, rate, config)
    ensures Inv(Insert(t, info, rate), config)
  {
    hide Bounded, SameTasks;
    InsertBounded(t, info, rate, config);
    InsertSameTasks(t, info, rate);
  }

  lemma InsertSameTasks(t: Table, info: Info, rate: Rate)
    requires SameTasks(t) && info.id !in t.byID && info.ref !in t.byRef
    ensures SameTasks(Insert(t, info, rate))
  {
  }

  /** create keeps every cap and leaves every other task as cleanup does; a task it makes is stored as
      submitted, with its expiry, and without one nothing but cleanup and eviction has happened. */
  lemma CreateIsSound(t: Table, what: Candidate, identity: Option<Identity>, victim: string, now: Time, config: Config)
    requires config.Valid() && Inv(t, config) && NewIdentity(t, identity)
    ensures var (after, made) := Create(t, what, identity, victim, now, config);
      && Inv(after, config)
      && (forall id :: (identity.Some? ==> id != identity.value.id) ==> Evolves(t, after, id) && NotCompleted(t, after, id))
      && (made.Made? ==> identity.Some? && made.info.id == identity.value.id && made.info.ref == identity.value.ref
                         && made.info.expiresAt == now + config.ttl
                         && made.info.id in after.byID && after.byID[made.info.id] == NewTask(made.info))
      && (!made.Made? ==> Follows(t, after, {}, config))
  {
    hide Inv, Cleanup, Evict, Insert, Window;
    Unchanged(t, config);
    CleanupFollows(t, now, config);
    var clean := Cleanup(t, now, config);
    CleanupAddsNothing(t, now, config);
    var (after, made) := Create(t, what, identity, victim, now, config);
    if what.Valid() && made !in {ActiveCap, RateLimited, StoreFull} {
      var full := |clean.byID| >= config.maxEntries;
      var roomy := if full then Evict(clean, victim) else clean;
      if full {
        assert |clean.byID| == config.maxEntries by { FollowsAt(t, clean, {}, "", config); SizeBound(clean, config); }
        EvictFollows(clean, victim, config);
        EvictOnlyRemoves(clean, victim, what.actorUID);
        FollowsTransitively(t, clean, roomy, {}, config);
      }
      if made.Made? {
        WindowBound(clean, what.actorUID, now, config);
        var rate := Window(clean.rates, what.actorUID, now, config);
        assert HasRoom(roomy, made.info, Rate(rate.windowStart, rate.count + 1), config);
        InsertKeepsInv(roomy, made.info, Rate(rate.windowStart, rate.count + 1), config);
        InsertEvolves(roomy, made.info, Rate(rate.windowStart, rate.count + 1));
        forall id | id != made.info.id ensures Evolves(t, after, id) && NotCompleted(t, after, id) {
          FollowsAt(t, roomy, {}, id, config);
          assert Evolves(roomy, after, id) && NotCompleted(roomy, after, id);
        }
      }
    }
  }

  lemma SizeBound(t: Table, config: Config)
    requires Inv(t, config)
    ensures |t.byID| <= config.maxEntries
  {
  }

  lemma WindowBound(t: Table, actor: int, now: Time, config: Config)
    requires config.Valid() && Inv(t, config)
    ensures Window(t.rates, actor, now, config).count <= config.actorRateMax
  {
  }

  lemma CleanupAddsNothing(t: Table, now: Time, config: Config)
    ensures Cleanup(t, now, config).byID.Keys <= t.byID.Keys && Cleanup(t, now, config).byRef.Keys <= t.byRef.Keys
  {
    hide Converge, Forgotten;
  }

  lemma EvictOnlyRemoves(t: Table, victim: string, actor: int)
    requires IsVictim(t, victim)
    ensures var after := Evict(t, victim);
      after.byID.Keys <= t.byID.Keys && after.byRef.Keys <= t.byRef.Keys && |ActiveOf(after, actor)| <= |ActiveOf(t, actor)|
  {
    SubsetSize(ActiveOf(Evict(t, victim), actor), ActiveOf(t, actor));
  }

  lemma InsertEvolves(t: Table, info: Info, rate: Rate)
    ensures var after := Insert(t, info, rate);
      && (forall id :: id != info.id ==> Evolves(t, after, id) && NotCompleted(t, after, id))
      && info.id in after.byID && after.byID[info.id] == NewTask(info)
  {
  }

  lemma Unchanged(t: Table, config: Config)
    requires Inv(t, config)
    ensures Follows(t, t, {}, config)
  {
  }

  lemma FollowsInv(t: Table, after: Table, completing: set<string>, config: Config)
    requires Follows(t, after, completing, config)
    ensures Inv(after, config)
  {
  }

  // Operations other than create --------------------------------------------

  datatype Op =
    | DoReserve(ref: string, actorUID: int, topicID: string, agentUID: int, client: string)
    | DoConfirm(delivery: DeliveryRef)
    | DoRelease(delivery: DeliveryRef)
    | DoFailDelivery(delivery: DeliveryRef, code: string, message: string)
    | DoObserve(ref: string, sourceUID: int, topicID: string, runID: string, state: string, error: string)
    | DoFailFor(id: string, actorUID: int, code: string, message: string, preserveClaim: bool)
    | DoComplete(id: string, resultID: string, outcome: Outcome)
    | DoRead        // validateDelivery, forActor, forBot, withWritable: nothing but cleanup

  function Apply(t: Table, op: Op, now: Time, config: Config): Table {
    match op
    case DoReserve(ref, actorUID, topicID, agentUID, client) => Reserve(t, ref, actorUID, topicID, agentUID, client, now, config).0
    case DoConfirm(delivery) => Confirm(t, delivery, now, config).0
    case DoRelease(delivery) => Release(t, delivery, now)
    case DoFailDelivery(delivery, code, message) => FailDelivery(t, delivery, code, message, now, config).0
    case DoObserve(ref, sourceUID, topicID, runID, state, error) =>
      ObserveRun(t, ref, sourceUID, topicID, runID, state, error, now, config).0
    case DoFailFor(id, actorUID, code, message, preserveClaim) =>
      FailForActor(t, id, actorUID, code, message, preserveClaim, now, config).0
    case DoComplete(id, resultID, outcome) => CompleteResult(t, id, resultID, outcome, now, config).0
    case DoRead => Cleanup(t, now, config)
  }

  function Completing(op: Op): set<string> {
    if op.DoComplete? then {op.id} else {}
  }

  lemma ApplyFollows(t: Table, op: Op, now: Time, config: Config)
    requires config.Valid() && Inv(t, config)
    ensures Follows(t, Apply(t, op, now, config), Completing(op), config)
  {
    hide Inv, Follows, Cleanup, Reserve, Confirm, Release, FailDelivery, ObserveRun, CompleteResult, FailForActor, NoOverdue;
    match op
    case DoReserve(ref, actorUID, topicID, agentUID, client) => ReserveFollows(t, ref, actorUID, topicID, agentUID, client, now, config);
    case DoConfirm(delivery) => ConfirmFollows(t, delivery, now, config);
    case DoRelease(delivery) => ReleaseFollows(t, delivery, now, config);
    case DoFailDelivery(delivery, code, message) => FailDeliveryFollows(t, delivery, code, message, now, config);
    case DoObserve(ref, sourceUID, topicID, runID, state, error) =>
      ObserveRunFollows(t, ref, sourceUID, topicID, runID, state, error, now, config);
    case DoFailFor(id, actorUID, code, message, preserveClaim) =>
      FailForActorFollows(t, id, actorUID, code, message, preserveClaim, now, config);
    case DoComplete(id, resultID, outcome) => CompleteResultFollows(t, id, resultID, outcome, now, config);
    case DoRead => CleanupFollows(t, now, config);
  }
}
