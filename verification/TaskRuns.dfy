/** What every run of the artifact task store guarantees. */
module TaskRuns {
  import opened Basics
  import opened Outcomes
  import opened TaskTable

  // What one operation changes -------------------------------------------------

  /** Whether the operation gets as far as its cleanup pass: only malformed arguments, a reference to
      an already delivered task, and releaseDelivery stop before it. */
  predicate Cleans(op: Op) {
    match op
    case DoReserve(ref, _, _, _, client) => OpaqueID("atr_", ref) && TrimSpace(client) != "" && ByteLen(TrimSpace(client)) <= 128
    case DoConfirm(delivery) => !delivery.alreadyDelivered
    case DoRelease(delivery) => false
    case DoFailDelivery(delivery, _, _) => !delivery.alreadyDelivered
    case DoObserve(ref, _, _, runID, _, _) => OpaqueID("atr_", ref) && runID != ""
    case DoFailFor(id, actorUID, _, _, _) => OpaqueID("atk_", id) && 0 < actorUID
    case DoComplete(id, resultID, _) => OpaqueID("atk_", id) && OpaqueID("arr_", resultID)
    case DoRead => true
  }

  function Base(t: Table, op: Op, now: Time, config: Config): Table {
    if Cleans(op) then Cleanup(t, now, config) else t
  }

  /** The only task the operation may change, apart from its cleanup pass. */
  function Touched(base: Table, op: Op): string {
    match op
    case DoReserve(ref, _, _, _, _) => Lookup(base.byRef, ref)
    case DoConfirm(delivery) => Lookup(base.byRef, delivery.ref)
    case DoRelease(delivery) => Lookup(base.byRef, delivery.ref)
    case DoFailDelivery(delivery, _, _) => Lookup(base.byRef, delivery.ref)
    case DoObserve(ref, _, _, _, _, _) => Lookup(base.byRef, ref)
    case DoFailFor(id, _, _, _, _) => id
    case DoComplete(id, _, _) => id
    case DoRead => ""
  }

  /** A task becomes delivered only by its own confirmation, under the client id that claimed it. */
  predicate Changes(op: Op, before: Task, after: Task, now: Time) {
    && after.info == before.info && (before.Over() ==> after.Over())
    && (before.delivered && !after.Over() ==> after.delivered)
    && (before.delivered && after.delivered ==> after.clientID == before.clientID)
    && (after.delivered && !before.delivered ==>
          op.DoConfirm? && Confirmable(before, op.delivery, now) && after.clientID == before.clientID && !after.Over())
  }

  predicate Changed(base: Table, after: Table, op: Op, now: Time) {
    var id := Touched(base, op);
    after == base
    || (id in base.byID && id in after.byID && after == Put(base, id, after.byID[id]) && Changes(op, base.byID[id], after.byID[id], now))
  }

  lemma PutChanges(base: Table, op: Op, id: string, task: Task, now: Time)
    requires id in base.byID && id == Touched(base, op) && Changes(op, base.byID[id], task, now)
    ensures Changed(base, Put(base, id, task), op, now)
  {
  }

  lemma ReserveChanges(t: Table, op: Op, now: Time, config: Config)
    requires config.Valid() && Inv(t, config) && op.DoReserve?
    ensures Changed(Base(t, op, now, config), Apply(t, op, now, config), op, now)
  {
    hide Cleanup, Inv, TrimSpace, ByteLen, OpaqueID, Changed;
    var base := Base(t, op, now, config);
    Same(base, op, now);
    CleanupInv(t, now, config);
    if ByRef(base, op.ref).Some? {
      ByRefIsEntry(base, op.ref, config);
      var task := ByRef(base, op.ref).value;
      if !task.Over() && !task.delivered {
        PutChanges(base, op, task.info.id, task.(claimed := true, clientID := TrimSpace(op.client), updatedAt := now), now);
      }
    }
  }

  lemma ConfirmChanges(t: Table, op: Op, now: Time, config: Config)
    requires config.Valid() && Inv(t, config) && op.DoConfirm?
    ensures Changed(Base(t, op, now, config), Apply(t, op, now, config), op, now)
  {
    hide Cleanup, Inv, Changed;
    var base := Base(t, op, now, config);
    Same(base, op, now);
    CleanupInv(t, now, config);
    if ByRef(base, op.delivery.ref).Some? {
      ByRefIsEntry(base, op.delivery.ref, config);
      var task := ByRef(base, op.delivery.ref).value;
      if Confirmable(task, op.delivery, now) {
        PutChanges(base, op, task.info.id, task.(claimed := false, delivered := true, updatedAt := now), now);
      }
    }
  }

  lemma ReleaseChanges(t: Table, op: Op, now: Time, config: Config)
    requires config.Valid() && Inv(t, config) && op.DoRelease?
    ensures Changed(t, Apply(t, op, now, config), op, now)
  {
    hide Inv, Changed;
    Same(t, op, now);
    if ByRef(t, op.delivery.ref).Some? {
      ByRefIsEntry(t, op.delivery.ref, config);
      var task := ByRef(t, op.delivery.ref).value;
      if !task.delivered { PutChanges(t, op, task.info.id, task.(claimed := false, clientID := "", updatedAt := now), now); }
    }
  }

  lemma FailDeliveryChanges(t: Table, op: Op, now: Time, config: Config)
    requires config.Valid() && Inv(t, config) && op.DoFailDelivery?
    ensures Changed(Base(t, op, now, config), Apply(t, op, now, config), op, now)
  {
    hide Cleanup, Inv, Changed, Fail;
    var base := Base(t, op, now, config);
    Same(base, op, now);
    CleanupInv(t, now, config);
    if ByRef(base, op.delivery.ref).Some? {
      ByRefIsEntry(base, op.delivery.ref, config);
      var task := ByRef(base, op.delivery.ref).value;
      if !task.Over() {
        FailIsSound(task.(claimed := false, delivered := false), op.code, op.message, now, config);
        PutChanges(base, op, task.info.id, Fail(task.(claimed := false, delivered := false), op.code, op.message, now, config), now);
      }
    }
  }

  lemma ObserveChanges(t: Table, op: Op, now: Time, config: Config)
    requires config.Valid() && Inv(t, config) && op.DoObserve?
    ensures Changed(Base(t, op, now, config), Apply(t, op, now, config), op, now)
  {
    hide Cleanup, Inv, Changed, Observed, OpaqueID;
    var base := Base(t, op, now, config);
    Same(base, op, now);
    CleanupInv(t, now, config);
    if ByRef(base, op.ref).Some? {
      ByRefIsEntry(base, op.ref, config);
      var task := ByRef(base, op.ref).value;
      if !task.Over() && task.delivered {
        ObservedIsSound(task, op.runID, op.state, op.error, now, config);
        PutChanges(base, op, task.info.id, Observed(task, op.runID, op.state, op.error, now, config).0, now);
      }
    }
  }

  lemma FailForChanges(t: Table, op: Op, now: Time, config: Config)
    requires config.Valid() && Inv(t, config) && op.DoFailFor?
    ensures Changed(Base(t, op, now, config), Apply(t, op, now, config), op, now)
  {
    hide Cleanup, Inv, Changed, Fail, OpaqueID;
    var base := Base(t, op, now, config);
    Same(base, op, now);
    CleanupInv(t, now, config);
    if op.id in base.byID {
      EntriesOk(base, op.id, config);
      FailIsSound(base.byID[op.id], op.code, op.message, now, config);
      PutChanges(base, op, op.id, Fail(base.byID[op.id], op.code, op.message, now, config), now);
    }
  }

  lemma CompleteChanges(t: Table, op: Op, now: Time, config: Config)
    requires config.Valid() && Inv(t, config) && op.DoComplete?
    ensures Changed(Base(t, op, now, config), Apply(t, op, now, config), op, now)
  {
    hide Cleanup, Inv, Changed, Resolved, OpaqueID;
    var base := Base(t, op, now, config);
    Same(base, op, now);
    CleanupInv(t, now, config);
    if op.id in base.byID && !base.byID[op.id].Over() {
      EntriesOk(base, op.id, config);
      ResolvedIsSound(base.byID[op.id], op.resultID, op.outcome, now, config);
      PutChanges(base, op, op.id, Resolved(base.byID[op.id], op.resultID, op.outcome, now, config), now);
    }
  }

  lemma Same(base: Table, op: Op, now: Time)
    ensures Changed(base, base, op, now)
  {
  }

  lemma CleanupInv(t: Table, now: Time, config: Config)
    requires config.Valid() && Inv(t, config)
    ensures Inv(Cleanup(t, now, config), config) && NoOverdue(Cleanup(t, now, config), now)
  {
    hide Cleanup, NoOverdue, Inv;
    CleanupFollows(t, now, config);
    FollowsInv(t, Cleanup(t, now, config), {}, config);
  }

  /** Apart from its cleanup pass, an operation changes at most the one task it names. */
  lemma ApplyChanges(t: Table, op: Op, now: Time, config: Config)
    requires config.Valid() && Inv(t, config)
    ensures Changed(Base(t, op, now, config), Apply(t, op, now, config), op, now)
  {
    hide Inv, Changed, Cleanup, Reserve, Confirm, Release, FailDelivery, ObserveRun, CompleteResult, FailForActor, OpaqueID, TrimSpace, ByteLen;
    match op
    case DoReserve(_, _, _, _, _) => ReserveChanges(t, op, now, config);
    case DoConfirm(_) => ConfirmChanges(t, op, now, config);
    case DoRelease(_) => ReleaseChanges(t, op, now, config);
    case DoFailDelivery(_, _, _) => FailDeliveryChanges(t, op, now, config);
    case DoObserve(_, _, _, _, _, _) => ObserveChanges(t, op, now, config);
    case DoFailFor(_, _, _, _, _) => FailForChanges(t, op, now, config);
    case DoComplete(_, _, _) => CompleteChanges(t, op, now, config);
    case DoRead => Same(Cleanup(t, now, config), op, now);
  }

  // Expiry ----------------------------------------------------------------------

  lemma NothingOverdueAfter(t: Table, op: Op, now: Time, config: Config)
    requires config.Valid() && Inv(t, config) && Cleans(op)
    ensures NoOverdue(Apply(t, op, now, config), now)
  {
    hide Inv, Cleanup, Apply, Cleans;
    ApplyChanges(t, op, now, config);
    CleanupInv(t, now, config);
  }

  /** The tasks create leaves once it has cleaned up. */
  lemma CreateFromClean(t: Table, what: Candidate, identity: Option<Identity>, victim: string, now: Time, config: Config)
    requires what.Valid()
    ensures var (after, answer) := Create(t, what, identity, victim, now, config);
      var clean := Cleanup(t, now, config);
      && (forall id :: id in after.byID && !(answer.Made? && id == answer.info.id) ==> id in clean.byID && after.byID[id] == clean.byID[id])
      && (answer.Made? ==> answer.info.id in after.byID && after.byID[answer.info.id] == NewTask(answer.info)
                           && answer.info.expiresAt == now + config.ttl)
  {
    hide Cleanup, Window, ActiveOf, IsVictim, Candidate.Valid;
  }

  lemma NothingOverdueAfterCreate(t: Table, what: Candidate, identity: Option<Identity>, victim: string, now: Time, config: Config)
    requires config.Valid() && Inv(t, config) && what.Valid()
    ensures NoOverdue(Create(t, what, identity, victim, now, config).0, now)
  {
    hide Inv, Cleanup, Create, Candidate.Valid;
    CleanupInv(t, now, config);
    CreateFromClean(t, what, identity, victim, now, config);
  }

  // Runs ------------------------------------------------------------------------

  /** A successful create: when it happened and the rate window it was counted in. */
  datatype Stamp = Stamp(time: Time, window: Time)

  datatype Event =
    | Creating(what: Candidate, identity: Option<Identity>, victim: string)
    | Doing(op: Op)

  /** The store and what its run has done so far. */
  datatype State = State(
    clock: Time, table: Table,
    made: set<string>,                       // ids of all tasks ever created
    log: map<int, seq<Stamp>>,               // successful creates of each actor
    handed: set<DeliveryRef>,                // references reserveDelivery handed out
    owner: map<string, string>,              // the client message that delivered a task
    confirmed: set<(string, string)>)        // (task, client message) pairs confirmDelivery said yes to

  function Start(now: Time): State {
    State(now, EMPTY, {}, map[], {}, map[], {})
  }

  function Log(s: State, actor: int): seq<Stamp> {
    if actor in s.log then s.log[actor] else []
  }

  /** Identities are drawn afresh, and a delivery reference is one that reserveDelivery handed out. */
  predicate Enabled(s: State, e: Event, now: Time) {
    s.clock <= now &&
    match e
    case Creating(_, identity, _) => NewIdentity(s.table, identity) && (identity.Some? ==> identity.value.id !in s.made)
    case Doing(DoConfirm(delivery)) => delivery in s.handed
    case Doing(DoRelease(delivery)) => delivery in s.handed
    case Doing(DoFailDelivery(delivery, _, _)) => delivery in s.handed
    case Doing(_) => true
  }

  function DoCreate(s: State, what: Candidate, identity: Option<Identity>, victim: string, now: Time, config: Config): State {
    var (after, answer) := Create(s.table, what, identity, victim, now, config);
    if !answer.Made? then s.(clock := now, table := after)
    else
      var actor := what.actorUID;
      s.(clock := now, table := after, made := s.made + {answer.info.id},
         log := s.log[actor := Log(s, actor) + [Stamp(now, if actor in after.rates then after.rates[actor].windowStart else now)]])
  }

  function Handed(t: Table, op: Op, now: Time, config: Config): set<DeliveryRef> {
    if op.DoReserve? then
      match Reserve(t, op.ref, op.actorUID, op.topicID, op.agentUID, op.client, now, config).1
      case Reserved(delivery) => {delivery}
      case _ => {}
    else {}
  }

  predicate SaysYes(t: Table, op: Op, now: Time, config: Config) {
    op.DoConfirm? && Confirm(t, op.delivery, now, config).1
  }

  function DoOp(s: State, op: Op, now: Time, config: Config): State {
    var yes := SaysYes(s.table, op, now, config);
    s.(clock := now, table := Apply(s.table, op, now, config),
       handed := s.handed + Handed(s.table, op, now, config),
       owner := if yes && !op.delivery.alreadyDelivered then s.owner[op.delivery.taskID := op.delivery.clientMessageID] else s.owner,
       confirmed := if yes then s.confirmed + {(op.delivery.taskID, op.delivery.clientMessageID)} else s.confirmed)
  }

  function Next(s: State, e: Event, now: Time, config: Config): State {
    match e
    case Creating(what, identity, victim) => DoCreate(s, what, identity, victim, now, config)
    case Doing(op) => DoOp(s, op, now, config)
  }

  datatype TimedEvent = At(now: Time, event: Event)

  function After(start: Time, run: seq<TimedEvent>, config: Config): State {
    if run == [] then Start(start)
    else Next(After(start, run[..|run| - 1], config), run[|run| - 1].event, run[|run| - 1].now, config)
  }

  predicate IsRun(start: Time, run: seq<TimedEvent>, config: Config) {
    run == [] || (IsRun(start, run[..|run| - 1], config)
                  && Enabled(After(start, run[..|run| - 1], config), run[|run| - 1].event, run[|run| - 1].now))
  }

  // Nothing overdue -----------------------------------------------------------------

  /** Whether the event gets as far as its cleanup pass; for create, only a malformed candidate stops before it. */
  predicate EventCleans(e: Event) {
    match e
    case Creating(what, _, _) => what.Valid()
    case Doing(op) => Cleans(op)
  }

  function TableAfter(t: Table, e: Event, now: Time, config: Config): Table {
    match e
    case Creating(what, identity, victim) => Create(t, what, identity, victim, now, config).0
    case Doing(op) => Apply(t, op, now, config)
  }

  function Sample(): Candidate {
    Candidate(1, "t", 1, Artifact("a", "a", "html", "https://a", 1), 1, Route("n", "c"), Intent("i", "", "", "a.v1"), "{}", "")
  }

  function SampleInfo(now: Time, config: Config): Info {
    Info(Opaque("atk_", 'A'), Opaque("atr_", 'A'), Sample(), now, now + config.ttl)
  }

  /** The store after one create at `now`. */
  function OneTask(now: Time, config: Config): Table {
    Insert(EMPTY, SampleInfo(now, config), Rate(now, 1))
  }

  function FirstCreate(now: Time): TimedEvent {
    At(now, Creating(Sample(), Some(Identity(Opaque("atk_", 'A'), Opaque("atr_", 'A'))), ""))
  }

  lemma FirstTask(now: Time, config: Config)
    requires config.Valid()
    ensures Create(EMPTY, Sample(), Some(Identity(Opaque("atk_", 'A'), Opaque("atr_", 'A'))), "", now, config)
            == (OneTask(now, config), Made(SampleInfo(now, config)))
  {
    hide Opaque, OpaqueID, Cleanup;
    LiveStay(EMPTY, now, config);
    assert ActiveOf(EMPTY, 1) == {};
    SampleValid();
  }

  lemma SampleValid()
    ensures Sample().Valid()
  {
    assert TrimSpace("a") == "a";
  }

  lemma FirstRun(now: Time, config: Config)
    requires config.Valid()
    ensures var run := [FirstCreate(now)];
      IsRun(now, run, config) && After(now, run, config).table == OneTask(now, config) && After(now, run, config).clock == now
      && After(now, run, config).handed == {}
  {
    hide Opaque, Create, OneTask, Sample;
    FirstTask(now, config);
    Extended(now, [], FirstCreate(now), config);
    assert [] + [FirstCreate(now)] == [FirstCreate(now)];
  }

  lemma Extended(start: Time, run: seq<TimedEvent>, e: TimedEvent, config: Config)
    requires IsRun(start, run, config) && Enabled(After(start, run, config), e.event, e.now)
    ensures IsRun(start, run + [e], config) && After(start, run + [e], config) == Next(After(start, run, config), e.event, e.now, config)
  {
    hide Enabled, Next;
    assert (run + [e])[..|run + [e]| - 1] == run;
  }

  predicate LeavesOverdue(start: Time, run: seq<TimedEvent>, e: Event, now: Time, config: Config) {
    IsRun(start, run, config) && After(start, run, config).clock <= now && !NoOverdue(TableAfter(After(start, run, config).table, e, now, config), now)
  }

  /** An event that reaches its cleanup pass, create among them, leaves no live task at or past its expiry,
      whatever sound table it finds; any other leaves one in the store of some run. */
  lemma OverdueGoesExactly(e: Event, now: Time, config: Config)
    requires config.Valid()
    ensures EventCleans(e) ==> forall t :: Inv(t, config) ==> NoOverdue(TableAfter(t, e, now, config), now)
    ensures EventCleans(e) <==> forall start, run :: !LeavesOverdue(start, run, e, now, config)
  {
    hide Inv, Apply, Create, NoOverdue, Cleans, Candidate.Valid;
    if EventCleans(e) {
      forall t | Inv(t, config) ensures NoOverdue(TableAfter(t, e, now, config), now) {
        match e
        case Creating(what, identity, victim) => NothingOverdueAfterCreate(t, what, identity, victim, now, config);
        case Doing(op) => NothingOverdueAfter(t, op, now, config);
      }
      forall start, run | IsRun(start, run, config) ensures Inv(After(start, run, config).table, config) {
        RunKeepsTable(start, run, config);
      }
    } else {
      FirstRun(now - config.ttl, config);
      OverdueStays(e, now, config);
      assert LeavesOverdue(now - config.ttl, [FirstCreate(now - config.ttl)], e, now, config);
    }
  }

  lemma RunKeepsTable(start: Time, run: seq<TimedEvent>, config: Config)
    requires config.Valid() && IsRun(start, run, config)
    ensures Inv(After(start, run, config).table, config)
  {
    hide Inv, Enabled, Next, OwnersOk, HandedOk, After, IsRun;
    RunIsSound(start, run, config);
  }

  lemma OverdueStays(e: Event, now: Time, config: Config)
    requires config.Valid() && !EventCleans(e)
    ensures !NoOverdue(TableAfter(OneTask(now - config.ttl, config), e, now, config), now)
  {
    hide Cleanup, OpaqueID, TrimSpace, ByteLen, Opaque, Candidate.Valid, ActiveOf, Window;
    var t := OneTask(now - config.ttl, config);
    assert Opaque("atk_", 'A') in t.byID;
  }

  /** A run that ends with releaseDelivery and leaves a live task at its expiry in the store. */
  lemma ReleaseLeavesOverdue(config: Config) returns (run: seq<TimedEvent>)
    requires config.Valid()
    ensures IsRun(0, run, config) && |run| == 3 && run[2].event.Doing? && run[2].event.op.DoRelease?
    ensures !NoOverdue(After(0, run, config).table, run[2].now)
  {
    hide Opaque, Apply, OneTask, ReservedTask, NoOverdue, IsRun, After;
    var reserve := DoReserve(Opaque("atr_", 'A'), 1, "t", 1, "m");
    var delivery := SampleDelivery();
    FirstRun(0, config);
    run := [FirstCreate(0)];
    ReservesFirst(config);
    ReleasedIsOverdue(config);
    Extended(0, run, At(0, Doing(reserve)), config);
    run := run + [At(0, Doing(reserve))];
    Extended(0, run, At(config.ttl, Doing(DoRelease(delivery))), config);
    run := run + [At(config.ttl, Doing(DoRelease(delivery)))];
  }

  function ReservedTask(config: Config): Table {
    Put(OneTask(0, config), Opaque("atk_", 'A'), NewTask(SampleInfo(0, config)).(claimed := true, clientID := "m"))
  }

  function SampleDelivery(): DeliveryRef {
    DeliveryRef(Opaque("atr_", 'A'), Opaque("atk_", 'A'), 1, "m", false)
  }

  lemma ReservesFirst(config: Config)
    requires config.Valid()
    ensures var reserve := DoReserve(Opaque("atr_", 'A'), 1, "t", 1, "m");
      && Apply(OneTask(0, config), reserve, 0, config) == ReservedTask(config)
      && Handed(OneTask(0, config), reserve, 0, config) == {SampleDelivery()}
  {
    hide Opaque, OpaqueID, Cleanup;
    LiveStay(OneTask(0, config), 0, config);
    assert TrimSpace("m") == "m" && ByteLen("m") == 1;
  }

  function DeliveredSample(config: Config): Task {
    NewTask(SampleInfo(0, config)).(delivered := true, clientID := "m")
  }

  function DeliveredTask(config: Config): Table {
    Put(OneTask(0, config), Opaque("atk_", 'A'), DeliveredSample(config))
  }

  lemma ConfirmsFirst(config: Config)
    requires config.Valid()
    ensures Apply(ReservedTask(config), DoConfirm(SampleDelivery()), 0, config) == DeliveredTask(config)
    ensures Cleanup(DeliveredTask(config), 0, config) == DeliveredTask(config)
  {
    hide Opaque, OpaqueID, Cleanup;
    LiveStay(ReservedTask(config), 0, config);
    LiveStay(DeliveredTask(config), 0, config);
  }

  /** A run that ends with a report in the state "paused": the answer is no, and the task has changed. */
  lemma UnknownStateIsWritten(config: Config) returns (run: seq<TimedEvent>)
    requires config.Valid()
    ensures IsRun(0, run, config) && |run| == 4
    ensures var report := DoObserve(Opaque("atr_", 'A'), 1, "t", "run", "paused", "");
      var before := After(0, run[..3], config).table;
      && run[3] == At(0, Doing(report))
      && After(0, run, config).table == Apply(before, report, 0, config)
      && After(0, run, config).table != Cleanup(before, 0, config)
      && !ObserveRun(before, report.ref, report.sourceUID, report.topicID, report.runID, report.state, report.error, 0, config).1
  {
    hide Opaque, OpaqueID, Apply, Cleanup, ObserveRun, OneTask, ReservedTask, DeliveredTask, IsRun, After;
    var report := DoObserve(Opaque("atr_", 'A'), 1, "t", "run", "paused", "");
    run := DeliveringRun(config);
    PausedIsWritten(config);
    ConfirmsFirst(config);
    Extended(0, run, At(0, Doing(report)), config);
    var most := run;
    run := run + [At(0, Doing(report))];
    assert run[..3] == most;
  }

  /** A run that creates, reserves and confirms a task. */
  lemma DeliveringRun(config: Config) returns (run: seq<TimedEvent>)
    requires config.Valid()
    ensures IsRun(0, run, config) && |run| == 3 && After(0, run, config).table == DeliveredTask(config) && After(0, run, config).clock == 0
  {
    hide Opaque, Apply, OneTask, ReservedTask, DeliveredTask, IsRun, After;
    var reserve, confirm := DoReserve(Opaque("atr_", 'A'), 1, "t", 1, "m"), DoConfirm(SampleDelivery());
    FirstRun(0, config);
    ReservesFirst(config);
    ConfirmsFirst(config);
    run := [FirstCreate(0)];
    Extended(0, run, At(0, Doing(reserve)), config);
    run := run + [At(0, Doing(reserve))];
    Extended(0, run, At(0, Doing(confirm)), config);
    run := run + [At(0, Doing(confirm))];
  }

  lemma PausedIsWritten(config: Config)
    requires config.Valid()
    ensures var t := DeliveredTask(config);
      var (after, yes) := ObserveRun(t, Opaque("atr_", 'A'), 1, "t", "run", "paused", "", 0, config);
      && !yes && after != t && after == Apply(t, DoObserve(Opaque("atr_", 'A'), 1, "t", "run", "paused", ""), 0, config)
  {
    hide Opaque, OpaqueID, Cleanup;
    ConfirmsFirst(config);
    ObservedAnswer(DeliveredSample(config), "run", "paused", "", 0, config);
  }

  lemma ReleasedIsOverdue(config: Config)
    requires config.Valid()
    ensures !NoOverdue(Apply(ReservedTask(config), DoRelease(SampleDelivery()), config.ttl, config), config.ttl)
  {
    hide Opaque, OpaqueID, NoOverdue;
    var after := Apply(ReservedTask(config), DoRelease(SampleDelivery()), config.ttl, config);
    OverdueTask(after, Opaque("atk_", 'A'), config.ttl);
  }

  lemma OverdueTask(t: Table, id: string, now: Time)
    requires id in t.byID && !t.byID[id].Over() && t.byID[id].info.expiresAt <= now
    ensures !NoOverdue(t, now)
  {
  }

  // The rate limit ----------------------------------------------------------------

  predicate Stamped(log: seq<Stamp>, clock: Time, config: Config) {
    forall i :: 0 <= i < |log| ==> log[i].window <= log[i].time <= clock && log[i].time < log[i].window + config.rateWindow
  }

  /** Different windows do not overlap. */
  predicate Spaced(log: seq<Stamp>, config: Config) {
    forall i, j :: 0 <= i < j < |log| ==> log[i].window == log[j].window || log[i].window + config.rateWindow <= log[j].window
  }

  /** No window holds more than `actorRateMax` creates. */
  predicate Filled(log: seq<Stamp>, config: Config) {
    forall i, j :: 0 <= i && i + config.actorRateMax <= j < |log| ==> log[i].window + config.rateWindow <= log[j].window
  }

  /** The stored rate counts the creates of its window; without one, every window has passed. */
  predicate Counted(log: seq<Stamp>, rates: map<int, Rate>, actor: int, clock: Time, config: Config) {
    if actor in rates
    then var rate := rates[actor];
      && 0 < rate.count <= |log| && rate.count <= config.actorRateMax && rate.windowStart <= clock
      && (forall i :: |log| - rate.count <= i < |log| ==> log[i].window == rate.windowStart)
      && (forall i :: 0 <= i < |log| - rate.count ==> log[i].window + config.rateWindow <= rate.windowStart)
    else forall i :: 0 <= i < |log| ==> log[i].window + config.rateWindow <= clock
  }

  predicate RateOk(log: seq<Stamp>, rates: map<int, Rate>, actor: int, clock: Time, config: Config) {
    Stamped(log, clock, config) && Spaced(log, config) && Filled(log, config) && Counted(log, rates, actor, clock, config)
  }

  lemma CleanupKeepsRates(log: seq<Stamp>, rates: map<int, Rate>, actor: int, clock: Time, now: Time, config: Config)
    requires config.Valid() && RateOk(log, rates, actor, clock, config) && clock <= now
    ensures RateOk(log, rates, actor, now, config) && RateOk(log, LiveRates(rates, now, config), actor, now, config)
  {
  }

  /** One more create in the window that create reads. */
  lemma CountKeepsRates(log: seq<Stamp>, rates: map<int, Rate>, actor: int, now: Time, config: Config)
    requires config.Valid() && RateOk(log, LiveRates(rates, now, config), actor, now, config)
    requires Window(LiveRates(rates, now, config), actor, now, config).count < config.actorRateMax
    ensures var rate := Window(LiveRates(rates, now, config), actor, now, config);
      forall after: map<int, Rate> :: actor in after && after[actor] == Rate(rate.windowStart, rate.count + 1) ==>
                     RateOk(log + [Stamp(now, rate.windowStart)], after, actor, now, config)
  {
  }

  lemma OtherRates(log: seq<Stamp>, rates: map<int, Rate>, after: map<int, Rate>, actor: int, clock: Time, config: Config)
    requires RateOk(log, rates, actor, clock, config)
    requires (actor in after) == (actor in rates) && (actor in rates ==> after[actor] == rates[actor])
    ensures RateOk(log, after, actor, clock, config)
  {
  }

  lemma CreateRates(t: Table, what: Candidate, identity: Option<Identity>, victim: string, now: Time, config: Config)
    ensures var (after, answer) := Create(t, what, identity, victim, now, config);
      var live := LiveRates(t.rates, now, config);
      && (!answer.Made? ==> after.rates == t.rates || after.rates == live)
      && (answer.Made? ==>
            var rate := Window(live, what.actorUID, now, config);
            rate.count < config.actorRateMax && after.rates == live[what.actorUID := Rate(rate.windowStart, rate.count + 1)])
  {
    hide Converge, Forgotten, ActiveOf, IsVictim, Window, LiveRates;
  }

  lemma OpRates(t: Table, op: Op, now: Time, config: Config)
    requires config.Valid() && Inv(t, config)
    ensures var after := Apply(t, op, now, config); after.rates == t.rates || after.rates == LiveRates(t.rates, now, config)
  {
    hide Inv, Apply, Cleans, Converge, Forgotten, LiveRates;
    ApplyChanges(t, op, now, config);
  }

  lemma StepKeepsRates(s: State, e: Event, now: Time, actor: int, config: Config)
    requires config.Valid() && Inv(s.table, config) && Enabled(s, e, now)
    requires RateOk(Log(s, actor), s.table.rates, actor, s.clock, config)
    ensures var after := Next(s, e, now, config); RateOk(Log(after, actor), after.table.rates, actor, now, config)
  {
    hide Inv, Create, Apply, RateOk, LiveRates, Handed, SaysYes, Window, NewIdentity;
    CleanupKeepsRates(Log(s, actor), s.table.rates, actor, s.clock, now, config);
    match e
    case Doing(op) => OpRates(s.table, op, now, config);
    case Creating(what, identity, victim) =>
      CreateRates(s.table, what, identity, victim, now, config);
      var live := LiveRates(s.table.rates, now, config);
      var after := Next(s, e, now, config);
      if what.actorUID != actor {
        if after.table.rates != s.table.rates && after.table.rates != live {
          OtherRates(Log(s, actor), live, after.table.rates, actor, now, config);
        }
      } else if Create(s.table, what, identity, victim, now, config).1.Made? {
        CountKeepsRates(Log(s, actor), s.table.rates, actor, now, config);
      }
  }

  // Delivery ----------------------------------------------------------------------

  predicate OwnersOk(s: State) {
    && (forall id :: id in s.table.byID ==> id in s.made)
    && (forall id :: id in s.owner ==> id in s.made)
    && (forall id :: id in s.table.byID && s.table.byID[id].delivered ==>
                       id in s.owner && s.owner[id] == s.table.byID[id].clientID)
    && (forall id :: id in s.owner && id in s.table.byID && !s.table.byID[id].Over() ==> s.table.byID[id].delivered)
  }

  predicate HandedOk(s: State) {
    && (forall d :: d in s.handed && d.alreadyDelivered ==> d.taskID in s.owner && s.owner[d.taskID] == d.clientMessageID)
    && (forall p :: p in s.confirmed ==> p.0 in s.owner && s.owner[p.0] == p.1)
  }

  lemma ConvergeKeepsDelivery(t: Task, now: Time, config: Config)
    ensures var after := Converge(t, now, config);
      && after.delivered == t.delivered && after.clientID == t.clientID && after.claimed == t.claimed && after.info == t.info
      && (t.Over() ==> after.Over()) && (!after.Over() ==> after == t)
  {
    hide TrimSpace, Truncate, Expired, NotApplied;
  }

  predicate SameDelivery(before: Task, after: Task) {
    after.delivered == before.delivered && after.clientID == before.clientID && (before.Over() ==> after.Over())
  }

  lemma CleanupKeepsOwners(s: State, now: Time, config: Config)
    requires OwnersOk(s)
    ensures OwnersOk(s.(clock := now, table := Cleanup(s.table, now, config)))
  {
    hide Converge, Forgotten, LiveRates;
    forall id | id in s.table.byID ensures SameDelivery(s.table.byID[id], Converge(s.table.byID[id], now, config)) {
      ConvergeKeepsDelivery(s.table.byID[id], now, config);
    }
  }

  /** What confirmDelivery does when it says yes, and that it changes nothing when it says no. */
  lemma ConfirmAnswer(t: Table, op: Op, now: Time, config: Config)
    requires config.Valid() && Inv(t, config) && op.DoConfirm?
    ensures var d := op.delivery; var base := Base(t, op, now, config); var after := Apply(t, op, now, config);
      && (!SaysYes(t, op, now, config) || d.alreadyDelivered ==> after == base)
      && (SaysYes(t, op, now, config) && !d.alreadyDelivered ==>
            d.taskID in base.byID && Confirmable(base.byID[d.taskID], d, now)
            && after == Put(base, d.taskID, base.byID[d.taskID].(claimed := false, delivered := true, updatedAt := now)))
  {
    hide Cleanup, Inv;
    CleanupInv(t, now, config);
    var base := Base(t, op, now, config);
    if ByRef(base, op.delivery.ref).Some? {
      ByRefIsEntry(base, op.delivery.ref, config);
    }
  }

  lemma PutKeepsOwners(s: State, id: string, task: Task)
    requires OwnersOk(s) && id in s.table.byID && SameDeliveryOrLess(s.table.byID[id], task)
    ensures OwnersOk(s.(table := Put(s.table, id, task)))
  {
  }

  predicate SameDeliveryOrLess(before: Task, after: Task) {
    && (before.Over() ==> after.Over()) && (before.delivered && !after.Over() ==> after.delivered)
    && (after.delivered ==> before.delivered && after.clientID == before.clientID)
  }

  /** The state between the cleanup pass of an operation and the rest of it. */
  function Cleaned(s: State, op: Op, now: Time, config: Config): State {
    s.(clock := now, table := Base(s.table, op, now, config))
  }

  lemma CleanedOk(s: State, op: Op, now: Time, config: Config)
    requires config.Valid() && Inv(s.table, config) && OwnersOk(s) && HandedOk(s)
    ensures var mid := Cleaned(s, op, now, config); Inv(mid.table, config) && OwnersOk(mid) && HandedOk(mid)
  {
    hide Inv, Cleanup, Cleans;
    CleanupKeepsOwners(s, now, config);
    CleanupInv(s.table, now, config);
  }

  lemma ConfirmKeepsDelivery(s: State, op: Op, now: Time, config: Config)
    requires config.Valid() && Inv(s.table, config) && OwnersOk(s) && HandedOk(s)
    requires op.DoConfirm? && op.delivery in s.handed
    ensures var after := DoOp(s, op, now, config); OwnersOk(after) && HandedOk(after)
  {
    hide Inv, Cleanup, Apply, Cleans, SaysYes, OwnersOk, HandedOk;
    var mid := Cleaned(s, op, now, config);
    CleanedOk(s, op, now, config);
    ConfirmAnswer(s.table, op, now, config);
    var after := DoOp(s, op, now, config);
    assert after.handed == s.handed;
    var d := op.delivery;
    if SaysYes(s.table, op, now, config) && !d.alreadyDelivered {
      DeliverKeepsOwners(mid, after, d, now, config);
      DeliverKeepsHanded(s, after, d);
    } else {
      SameOwners(s, mid, after);
      YesAgain(s, after, op, now, config);
    }
  }

  lemma DeliverKeepsOwners(mid: State, after: State, d: DeliveryRef, now: Time, config: Config)
    requires Inv(mid.table, config) && OwnersOk(mid) && d.taskID in mid.table.byID && Confirmable(mid.table.byID[d.taskID], d, now)
    requires after.made == mid.made && after.owner == mid.owner[d.taskID := d.clientMessageID]
    requires after.table == Put(mid.table, d.taskID, mid.table.byID[d.taskID].(claimed := false, delivered := true, updatedAt := now))
    ensures d.taskID !in mid.owner && OwnersOk(after)
  {
    hide Inv;
    EntriesOk(mid.table, d.taskID, config);
  }

  lemma DeliverKeepsHanded(s: State, after: State, d: DeliveryRef)
    requires HandedOk(s) && d.taskID !in s.owner && after.owner == s.owner[d.taskID := d.clientMessageID]
    requires after.handed == s.handed && after.confirmed == s.confirmed + {(d.taskID, d.clientMessageID)}
    ensures HandedOk(after)
  {
  }

  lemma SameOwners(s: State, mid: State, after: State)
    requires OwnersOk(mid) && mid.owner == s.owner && mid.made == s.made
    requires after.table == mid.table && after.owner == s.owner && after.made == s.made
    ensures OwnersOk(after)
  {
  }

  /** A confirmation of a task that was already delivered, or a refused one. */
  lemma YesAgain(s: State, after: State, op: Op, now: Time, config: Config)
    requires HandedOk(s) && op.DoConfirm? && op.delivery in s.handed && after == DoOp(s, op, now, config)
    requires !SaysYes(s.table, op, now, config) || op.delivery.alreadyDelivered
    ensures HandedOk(after)
  {
    hide Apply, SaysYes, HandedOk;
    assert after.handed == s.handed;
    if SaysYes(s.table, op, now, config) {
      ConfirmedAgain(s, after, op.delivery);
    } else {
      SameHanded(s, after);
    }
  }

  lemma ConfirmedAgain(s: State, after: State, d: DeliveryRef)
    requires HandedOk(s) && d in s.handed && d.alreadyDelivered && after.handed == s.handed && after.owner == s.owner
    requires after.confirmed == s.confirmed + {(d.taskID, d.clientMessageID)}
    ensures HandedOk(after)
  {
  }

  lemma ReserveAnswer(t: Table, op: Op, now: Time, config: Config)
    requires config.Valid() && Inv(t, config) && op.DoReserve?
    ensures var base := Base(t, op, now, config);
      forall d :: d in Handed(t, op, now, config) && d.alreadyDelivered ==>
                    d.taskID in base.byID && base.byID[d.taskID].delivered && base.byID[d.taskID].clientID == d.clientMessageID
  {
    hide Cleanup, Inv, TrimSpace, ByteLen, OpaqueID;
    CleanupInv(t, now, config);
    var base := Base(t, op, now, config);
    if ByRef(base, op.ref).Some? {
      ByRefIsEntry(base, op.ref, config);
    }
  }

  lemma OpKeepsDelivery(s: State, op: Op, now: Time, config: Config)
    requires config.Valid() && Inv(s.table, config) && OwnersOk(s) && HandedOk(s)
    requires !op.DoConfirm?
    ensures var after := DoOp(s, op, now, config); OwnersOk(after) && HandedOk(after)
  {
    hide Inv, Cleanup, Apply, Cleans, Reserve, OwnersOk, HandedOk, Handed, Confirm;
    var mid := Cleaned(s, op, now, config);
    CleanedOk(s, op, now, config);
    ApplyChanges(s.table, op, now, config);
    var table := Apply(s.table, op, now, config);
    if table != mid.table {
      PutKeepsOwners(mid, Touched(mid.table, op), table.byID[Touched(mid.table, op)]);
    }
    var after := DoOp(s, op, now, config);
    SameOwners(s, mid.(table := table), after);
    HandedFollows(s, mid, after, op, now, config);
  }

  lemma HandedFollows(s: State, mid: State, after: State, op: Op, now: Time, config: Config)
    requires config.Valid() && Inv(s.table, config) && OwnersOk(mid) && HandedOk(s) && !op.DoConfirm?
    requires mid == Cleaned(s, op, now, config) && after == DoOp(s, op, now, config)
    ensures HandedOk(after)
  {
    hide Inv, Cleanup, Apply, Cleans, Reserve, Confirm;
    if op.DoReserve? {
      ReserveAnswer(s.table, op, now, config);
    }
  }

  lemma CreateKeepsDelivery(s: State, what: Candidate, identity: Option<Identity>, victim: string, now: Time, config: Config)
    requires config.Valid() && Inv(s.table, config) && OwnersOk(s) && HandedOk(s)
    requires Enabled(s, Creating(what, identity, victim), now)
    ensures var after := DoCreate(s, what, identity, victim, now, config); OwnersOk(after) && HandedOk(after)
  {
    hide Inv, Cleanup, Create, OpaqueID, HandedOk;
    CleanupKeepsOwners(s, now, config);
    CreateTable(s.table, what, identity, victim, now, config);
    SameHanded(s, DoCreate(s, what, identity, victim, now, config));
  }

  lemma SameHanded(s: State, after: State)
    requires HandedOk(s) && after.handed == s.handed && after.owner == s.owner && after.confirmed == s.confirmed
    ensures HandedOk(after)
  {
  }

  /** The tasks create leaves: those of a cleaned table, perhaps without one, perhaps with a new one. */
  lemma CreateTable(t: Table, what: Candidate, identity: Option<Identity>, victim: string, now: Time, config: Config)
    ensures var (after, answer) := Create(t, what, identity, victim, now, config);
      var clean := Cleanup(t, now, config);
      && (forall id :: id in after.byID && !(answer.Made? && id == answer.info.id) ==>
            (id in t.byID && after.byID[id] == t.byID[id]) || (id in clean.byID && after.byID[id] == clean.byID[id]))
      && (answer.Made? ==> identity.Some? && answer.info.id == identity.value.id && answer.info.id in after.byID
                           && after.byID[answer.info.id] == NewTask(answer.info))
  {
    hide Cleanup, Window, ActiveOf, IsVictim;
  }

  // What every run keeps ------------------------------------------------------------

  ghost predicate Sound(s: State, config: Config) {
    Inv(s.table, config) && OwnersOk(s) && HandedOk(s)
    && forall actor :: RateOk(Log(s, actor), s.table.rates, actor, s.clock, config)
  }

  lemma StepKeepsTable(s: State, e: Event, now: Time, config: Config)
    requires config.Valid() && Inv(s.table, config) && Enabled(s, e, now)
    ensures Inv(Next(s, e, now, config).table, config)
  {
    hide Inv, Apply, Create, Handed, SaysYes, NewIdentity;
    match e
    case Creating(what, identity, victim) => CreateIsSound(s.table, what, identity, victim, now, config);
    case Doing(op) =>
      ApplyFollows(s.table, op, now, config);
      FollowsInv(s.table, Apply(s.table, op, now, config), Completing(op), config);
  }

  lemma StepKeepsDelivery(s: State, e: Event, now: Time, config: Config)
    requires config.Valid() && Inv(s.table, config) && OwnersOk(s) && HandedOk(s) && Enabled(s, e, now)
    ensures var after := Next(s, e, now, config); OwnersOk(after) && HandedOk(after)
  {
    hide Inv, OwnersOk, HandedOk, DoCreate, DoOp;
    match e
    case Creating(what, identity, victim) => CreateKeepsDelivery(s, what, identity, victim, now, config);
    case Doing(op) =>
      if op.DoConfirm? { ConfirmKeepsDelivery(s, op, now, config); } else { OpKeepsDelivery(s, op, now, config); }
  }

  lemma StepKeepsSound(s: State, e: Event, now: Time, config: Config)
    requires config.Valid() && Sound(s, config) && Enabled(s, e, now)
    ensures Sound(Next(s, e, now, config), config)
  {
    hide Inv, RateOk, OwnersOk, HandedOk, Next, Enabled, Log;
    StepKeepsTable(s, e, now, config);
    StepKeepsDelivery(s, e, now, config);
    ClockOfNext(s, e, now, config);
    forall actor ensures RateOk(Log(Next(s, e, now, config), actor), Next(s, e, now, config).table.rates, actor, now, config) {
      StepKeepsRates(s, e, now, actor, config);
    }
  }

  lemma ClockOfNext(s: State, e: Event, now: Time, config: Config)
    ensures Next(s, e, now, config).clock == now
  {
  }

  lemma StartSound(now: Time, config: Config)
    requires config.Valid()
    ensures Sound(Start(now), config)
  {
    forall actor ensures Capped(EMPTY, config, actor) {
      assert ActiveOf(EMPTY, actor) == {};
    }
  }

  lemma {:induction false} RunIsSound(start: Time, run: seq<TimedEvent>, config: Config)
    requires config.Valid() && IsRun(start, run, config)
    ensures Sound(After(start, run, config), config)
    decreases |run|
  {
    hide Sound, Enabled, Next;
    if run == [] {
      StartSound(start, config);
    } else {
      RunIsSound(start, run[..|run| - 1], config);
      StepKeepsSound(After(start, run[..|run| - 1], config), run[|run| - 1].event, run[|run| - 1].now, config);
    }
  }

  // Theorems over runs ----------------------------------------------------------------

  /** Any half-open interval as long as one rate window contains at most twice `actorRateMax` of an
      actor's successful creates. */
  lemma RateLimit(start: Time, run: seq<TimedEvent>, actor: int, from: Time, config: Config)
    requires config.Valid() && IsRun(start, run, config)
    ensures var log := Log(After(start, run, config), actor);
      |set k | 0 <= k < |log| && from <= log[k].time < from + config.rateWindow| <= 2 * config.actorRateMax
  {
    hide Inv, OwnersOk, HandedOk, After, IsRun, Log;
    RunIsSound(start, run, config);
    var log := Log(After(start, run, config), actor);
    assert RateOk(log, After(start, run, config).table.rates, actor, After(start, run, config).clock, config);
    var inside := set k | 0 <= k < |log| && from <= log[k].time < from + config.rateWindow;
    if inside != {} {
      var first := 0;
      while first !in inside
        invariant 0 <= first <= |log| && forall k :: k in inside ==> first <= k
        decreases |log| - first
      {
        first := first + 1;
      }
      var range := Range(first, 2 * config.actorRateMax);
      forall k | k in inside ensures k in range {
        if first + 2 * config.actorRateMax <= k { FarApart(log, first, k, config); }
      }
      SubsetSize(inside, range);
    }
  }

  function Range(first: int, n: nat): (s: set<int>)
    ensures |s| == n && forall k :: k in s <==> first <= k < first + n
  {
    if n == 0 then {} else Range(first, n - 1) + {first + n - 1}
  }

  /** Two creates of one actor with 2 * actorRateMax - 1 or more between them are more than a window apart. */
  lemma FarApart(log: seq<Stamp>, i: int, k: int, config: Config)
    requires config.Valid() && Filled(log, config) && 0 <= i && i + 2 * config.actorRateMax <= k < |log|
    requires forall j :: 0 <= j < |log| ==> log[j].window <= log[j].time < log[j].window + config.rateWindow
    ensures log[i].time + config.rateWindow < log[k].time
  {
    var mid := i + config.actorRateMax;
    assert log[i].window + config.rateWindow <= log[mid].window;
    assert log[mid].window + config.rateWindow <= log[k].window;
  }

  /** Event `k` says yes to a confirmation. */
  predicate ConfirmsAt(start: Time, run: seq<TimedEvent>, k: nat, config: Config) {
    k < |run| && run[k].event.Doing?
    && SaysYes(After(start, run[..k], config).table, run[k].event.op, run[k].now, config)
  }

  lemma {:induction false} ConfirmedStays(start: Time, run: seq<TimedEvent>, k: nat, config: Config)
    requires ConfirmsAt(start, run, k, config)
    ensures var d := run[k].event.op.delivery; (d.taskID, d.clientMessageID) in After(start, run, config).confirmed
    decreases |run|
  {
    hide Apply, Create, Handed;
    var n := |run| - 1;
    if k < n {
      assert run[..n][..k] == run[..k] && run[..n][k] == run[k];
      ConfirmedStays(start, run[..n], k, config);
    } else {
      assert run[..n] == run[..k];
    }
  }

  /** However often a task is confirmed in a run, it is by one and the same client message. */
  lemma OneClientConfirms(start: Time, run: seq<TimedEvent>, j: nat, k: nat, config: Config)
    requires config.Valid() && IsRun(start, run, config)
    requires ConfirmsAt(start, run, j, config) && ConfirmsAt(start, run, k, config)
    requires run[j].event.op.delivery.taskID == run[k].event.op.delivery.taskID
    ensures run[j].event.op.delivery.clientMessageID == run[k].event.op.delivery.clientMessageID
  {
    hide Inv, RateOk, After, IsRun, ConfirmsAt, OwnersOk;
    RunIsSound(start, run, config);
    ConfirmsIsConfirm(start, run, j, config);
    ConfirmsIsConfirm(start, run, k, config);
    ConfirmedStays(start, run, j, config);
    ConfirmedStays(start, run, k, config);
  }

  lemma ConfirmsIsConfirm(start: Time, run: seq<TimedEvent>, k: nat, config: Config)
    requires ConfirmsAt(start, run, k, config)
    ensures k < |run| && run[k].event.Doing? && run[k].event.op.DoConfirm?
  {
  }

  /** In every reachable store, no task is both claimed and delivered, no actor has more live tasks
      than the cap, and `byID` and `byRef` reach the same at most maxEntries tasks. */
  lemma StoreBounds(start: Time, run: seq<TimedEvent>, id: string, ref: string, actor: int, config: Config)
    requires config.Valid() && IsRun(start, run, config)
    ensures var t := After(start, run, config).table;
      && |t.byID| <= config.maxEntries && |ActiveOf(t, actor)| <= config.actorActiveMax
      && (id in t.byID ==> !(t.byID[id].claimed && t.byID[id].delivered)
                           && t.byID[id].info.ref in t.byRef && t.byRef[t.byID[id].info.ref] == id)
      && (ref in t.byRef ==> t.byRef[ref] in t.byID && t.byID[t.byRef[ref]].info.ref == ref)
  {
    hide After, IsRun, RateOk, OwnersOk, HandedOk;
    RunIsSound(start, run, config);
    var t := After(start, run, config).table;
    assert Capped(t, config, actor);
    if id in t.byID { assert EntryOk(id, t.byID[id], config); }
  }

  /** Once created, a task is never replaced by another one, and a task that is over stays exactly as it ended. */
  lemma StepEvolves(s: State, e: Event, now: Time, id: string, config: Config)
    requires config.Valid() && Inv(s.table, config) && Enabled(s, e, now) && id in s.made
    ensures Evolves(s.table, Next(s, e, now, config).table, id) && id in Next(s, e, now, config).made
  {
    hide Inv, Apply, Create, Handed, SaysYes, NewIdentity, Evolves;
    match e
    case Creating(what, identity, victim) =>
      CreateIsSound(s.table, what, identity, victim, now, config);
      assert Evolves(s.table, Create(s.table, what, identity, victim, now, config).0, id);
    case Doing(op) =>
      ApplyFollows(s.table, op, now, config);
      FollowsAt(s.table, Apply(s.table, op, now, config), Completing(op), id, config);
  }

  predicate Frozen(before: Task, after: Task) {
    && after.info == before.info && after.status == before.status && after.code == before.code && after.message == before.message
    && after.resultID == before.resultID && after.delivered == before.delivered
  }

  /** From the moment a task is over, its status, code, message, result and delivery never change for
      as long as the store remembers it. */
  lemma {:induction false} TerminalIsFrozen(start: Time, run: seq<TimedEvent>, k: nat, id: string, config: Config)
    requires config.Valid() && IsRun(start, run, config) && k <= |run| && IsRun(start, run[..k], config)
    requires id in After(start, run[..k], config).table.byID && After(start, run[..k], config).table.byID[id].Over()
    ensures var was := After(start, run[..k], config).table; var t := After(start, run, config).table;
      && id in After(start, run, config).made
      && (id in t.byID ==> t.byID[id].Over() && Frozen(was.byID[id], t.byID[id]))
    decreases |run|
  {
    hide Inv, RateOk, Next, Enabled, HandedOk;
    var n := |run| - 1;
    if k == |run| {
      assert run[..k] == run;
      RunIsSound(start, run, config);
    } else {
      assert run[..n][..k] == run[..k];
      TerminalIsFrozen(start, run[..n], k, id, config);
      RunIsSound(start, run[..n], config);
      StepEvolves(After(start, run[..n], config), run[n].event, run[n].now, id, config);
    }
  }
}
