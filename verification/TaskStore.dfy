/** The artifact task store as it runs, on its process-local paths: two maps that share one mutable
    cell per task, and the actors' rate windows. Every method is one critical section; `now` is its
    clock reading. Each leaves exactly the table that TaskTable computes. */
module TaskStore {
  import opened Basics
  import opened Outcomes
  import opened TaskTable

  class Cell {
    const info: Info
    var status: Status
    var code: string
    var message: string
    var claimed: bool
    var clientID: string
    var delivered: bool
    var runID: string
    var agentState: string
    var agentFinishedAt: Option<Time>
    var resultID: string
    var updatedAt: Time
    var retainUntil: Option<Time>

    constructor (info: Info)
      ensures this.info == info && View() == NewTask(info)
    {
      this.info := info;
      status, code, message, claimed, clientID, delivered := Submitted, "", "", false, "", false;
      runID, agentState, agentFinishedAt, resultID, updatedAt, retainUntil := "", "", None, "", info.createdAt, None;
    }

    ghost function View(): Task
      reads this
    {
      Task(info, status, code, message, claimed, clientID, delivered, runID, agentState, agentFinishedAt,
           resultID, updatedAt, retainUntil)
    }

    /** failLocked */
    method Fail(code: string, message: string, now: Time, config: Config)
      modifies this
      ensures View() == TaskTable.Fail(old(View()), code, message, now, config)
    {
      if Terminal(status) {
        return;
      }
      status, updatedAt, retainUntil := Failed, now, Some(now + config.tombstoneTTL);
      this.code, this.message := Truncate(TrimSpace(code), 64), Truncate(TrimSpace(message), 500);
    }

    /** convergeLocked */
    method Converge(now: Time, config: Config)
      modifies this
      ensures View() == TaskTable.Converge(old(View()), now, config)
    {
      hide TaskTable.Fail, Expired, NotApplied;
      if Terminal(status) {
        return;
      }
      if info.expiresAt <= now {
        Fail(Expired().0, Expired().1, now, config);
        return;
      }
      if agentFinishedAt.Some? && agentFinishedAt.value + config.agentGrace <= now {
        Fail(NotApplied().0, NotApplied().1, now, config);
      }
    }

    /** What an agent's report does to a live task. */
    method Observe(runID: string, state: string, error: string, now: Time, config: Config) returns (counted: bool)
      requires !Terminal(status)
      modifies this
      ensures (View(), counted) == Observed(old(View()), runID, state, error, now, config)
      ensures counted <==> KnownState(state)
      ensures agentState == state && updatedAt == now && this.runID == if old(this.runID) == "" then runID else old(this.runID)
      ensures status == if state in {"failed", "cancelled", "stale"} then Failed
                        else if state in {"running", "waiting"} || (state == "completed" && old(status) == Submitted) then Running
                        else old(status)
      ensures agentFinishedAt == if state == "completed" then Some(now) else old(agentFinishedAt)
      ensures retainUntil == if state in {"failed", "cancelled", "stale"} then Some(now + config.tombstoneTTL) else old(retainUntil)
    {
      hide TaskTable.Fail, KnownState;
      ObservedFields(View(), runID, state, error, now, config);
      if this.runID == "" {
        this.runID := runID;
      }
      agentState, updatedAt := state, now;
      counted := true;
      match state
      case "running" => status := Running;
      case "waiting" => status := Running;
      case "completed" =>
        if status == Submitted {
          status := Running;
        }
        agentFinishedAt := Some(now);
      case "failed" => Fail("agent_failed", error, now, config);
      case "cancelled" => Fail("agent_cancelled", error, now, config);
      case "stale" => Fail("agent_stale", error, now, config);
      case _ => counted := false;
    }

    /** What a result does to a live task. */
    method Resolve(resultID: string, outcome: Outcome, now: Time, config: Config)
      modifies this
      ensures View() == Resolved(old(View()), resultID, outcome, now, config)
    {
      hide TaskTable.Fail, Text, TrimSpace;
      this.resultID, updatedAt := resultID, now;
      if outcome.status == Applied {
        status, code, message, retainUntil := Completed, "", "", Some(now + config.tombstoneTTL);
        return;
      }
      var why := TrimSpace(outcome.code);
      if why == "" {
        why := "result_" + Text(outcome.status);
      }
      Fail(why, outcome.message, now, config);
    }
  }

  class Store {
    const config: Config
    var byID: map<string, Cell>
    var byRef: map<string, Cell>
    var rates: map<int, Rate>

    /** Cells sit under their own id and reference, and the two maps share them. */
    ghost predicate Linked()
      reads this
    {
      && (forall id :: id in byID ==> byID[id].info.id == id && byID[id].info.ref in byRef && byRef[byID[id].info.ref] == byID[id])
      && (forall ref :: ref in byRef ==> byRef[ref].info.ref == ref && byRef[ref].info.id in byID && byID[byRef[ref].info.id] == byRef[ref])
    }

    ghost function View(): Table
      reads this, byID.Values
    {
      Table(map id | id in byID :: byID[id].View(), map ref | ref in byRef :: byRef[ref].info.id, rates)
    }

    ghost predicate Valid()
      reads this, byID.Values
    {
      config.Valid() && Linked() && Inv(View(), config)
    }

    constructor (config: Config)
      requires config.Valid()
      ensures Valid() && this.config == config && View() == EMPTY && byID == map[]
    {
      this.config, byID, byRef, rates := config, map[], map[], map[];
      new;
      EmptyInv(config);
    }

    /** A change of one cell is a change of one entry. */
    twostate lemma CellChanged(cell: Cell)
      requires old(Linked()) && byID == old(byID) && byRef == old(byRef) && rates == old(rates)
      requires cell.info.id in byID && byID[cell.info.id] == cell
      requires forall id :: id in byID && byID[id] != cell ==> byID[id].View() == old(byID[id].View())
      ensures Linked() && View() == Put(old(View()), cell.info.id, cell.View())
    {
      IDChanged(cell);
    }

    twostate lemma IDChanged(cell: Cell)
      requires byID == old(byID) && cell.info.id in byID && byID[cell.info.id] == cell
      requires forall id :: id in byID && byID[id] != cell ==> byID[id].View() == old(byID[id].View())
      requires forall id :: id in byID ==> byID[id].info.id == id
      ensures View().byID == old(View()).byID[cell.info.id := cell.View()]
    {
      hide Cell.View;
    }

    /** cleanupLocked: three passes, each in whatever order the map yields its entries. */
    method Cleanup(now: Time)
      requires Valid()
      modifies this`byID, this`byRef, this`rates, byID.Values
      ensures Valid() && byID.Values <= old(byID.Values) && View() == TaskTable.Cleanup(old(View()), now, config)
    {
      hide Inv, Store.View, Store.Linked, SameTasks, TaskTable.Cleanup, ConvergedIn, Dropped, LiveRates, NoOverdue, Follows;
      ghost var before := View();
      SameKeys();
      ConvergeAll(now);
      SameKeys();
      DropOver(now);
      TrimRates(now);
      ThreePasses(before, now, config);
      CleanupFollows(before, now, config);
      FollowsInv(before, TaskTable.Cleanup(before, now, config), {}, config);
    }

    method TrimRates(now: Time)
      requires Linked()
      modifies this`rates
      ensures Linked() && View() == old(View()).(rates := LiveRates(old(rates), now, config))
    {
      rates := LiveRates(rates, now, config);
    }

    method ConvergeAll(now: Time)
      requires Linked()
      modifies byID.Values
      ensures Linked() && View() == ConvergedIn(old(View()), old(View()).byID.Keys, now, config)
    {
      hide Store.View, ConvergedIn, TaskTable.Converge, Cell.View, Put;
      ghost var before := View();
      var todo := byID.Keys;
      SameKeys();
      NoneConverged(before, now, config);
      assert before.byID.Keys - todo == {};
      while todo != {}
        invariant Linked() && todo <= byID.Keys == before.byID.Keys && View() == ConvergedIn(before, before.byID.Keys - todo, now, config)
        decreases todo
      {
        var id :| id in todo;
        ghost var done := before.byID.Keys - todo;
        ConvergeOne(before, done, id, now, config);
        VisitCell(id, now);
        todo := todo - {id};
        assert before.byID.Keys - todo == done + {id};
      }
      assert before.byID.Keys - todo == before.byID.Keys;
    }

    /** One visit of the first pass. */
    method VisitCell(id: string, now: Time)
      requires Linked() && id in byID
      modifies byID[id]
      ensures Linked() && id in old(View()).byID
      ensures View() == Put(old(View()), id, TaskTable.Converge(old(View()).byID[id], now, config))
    {
      hide Store.View, TaskTable.Converge, Cell.View, Put;
      EntryView(id);
      SameKeys();
      label visit:
      byID[id].Converge(now, config);
      CellChanged@visit(byID[id]);
    }

    method DropOver(now: Time)
      requires Linked()
      modifies this`byID, this`byRef
      ensures Linked() && byID.Values <= old(byID.Values) && View() == Dropped(old(View()), old(View()).byID.Keys, now)
    {
      hide Store.View, Store.Linked, Dropped, DropOne, SameTasks;
      ghost var before := View();
      var todo := byID.Keys;
      SameKeys();
      LinkedSame();
      NoneDropped(before, now);
      assert before.byID.Keys - todo == {};
      while todo != {}
        invariant Linked() && byID.Values <= old(byID.Values) && todo <= byID.Keys && todo <= before.byID.Keys
        invariant View() == Dropped(before, before.byID.Keys - todo, now)
        decreases todo
      {
        var id :| id in todo;
        ghost var done := before.byID.Keys - todo;
        DropNext(before, done, id, now);
        Drop(id, now);
        todo := todo - {id};
        assert before.byID.Keys - todo == done + {id};
      }
      assert before.byID.Keys - todo == before.byID.Keys;
    }

    method Drop(id: string, now: Time)
      requires Linked() && id in byID
      modifies this`byID, this`byRef
      ensures Linked() && (byID == old(byID) || byID == old(byID) - {id}) && View() == DropOne(old(View()), id, now)
    {
      var task := byID[id];
      if Terminal(task.status) && task.retainUntil.Some? && task.retainUntil.value <= now {
        Remove(task);
      }
    }

    method Remove(task: Cell)
      requires Linked() && task.info.id in byID && byID[task.info.id] == task
      modifies this`byID, this`byRef
      ensures Linked() && byID == old(byID) - {task.info.id} && View() == Evict(old(View()), task.info.id)
    {
      hide Store.View, Cell.View, Evict;
      label drop:
      byID := byID - {task.info.id};
      byRef := byRef - {task.info.ref};
      CellRemoved@drop(task);
    }

    twostate lemma CellRemoved(task: Cell)
      requires old(Linked()) && task.info.id in old(byID) && old(byID)[task.info.id] == task
      requires byID == old(byID) - {task.info.id} && byRef == old(byRef) - {task.info.ref} && rates == old(rates)
      requires forall id :: id in old(byID) ==> old(byID)[id].View() == old(byID[id].View())
      ensures View() == Evict(old(View()), task.info.id)
    {
      IDRemoved(task);
      RefRemoved(task);
    }

    twostate lemma IDRemoved(task: Cell)
      requires byID == old(byID) - {task.info.id}
      requires forall id :: id in old(byID) ==> old(byID)[id].View() == old(byID[id].View())
      ensures View().byID == old(View()).byID - {task.info.id}
    {
      hide Cell.View;
    }

    twostate lemma RefRemoved(task: Cell)
      requires old(Linked()) && task.info.id in old(byID) && old(byID)[task.info.id] == task
      requires byRef == old(byRef) - {task.info.ref}
      ensures View().byRef == old(View()).byRef - {task.info.ref}
    {
      hide Cell.View;
    }

    lemma SameKeys()
      ensures View().byID.Keys == byID.Keys && |View().byID| == |byID| && View().rates == rates
    {
      var t := View().byID;
      assert t.Keys == byID.Keys;
      assert |t| == |t.Keys| && |byID| == |byID.Keys|;
    }

    lemma LinkedSame()
      requires Linked()
      ensures SameTasks(View())
    {
    }

    lemma EntryView(id: string)
      requires id in byID
      ensures View().byID[id] == byID[id].View()
    {
    }

    /** The cell under `ref`; the maps share it. */
    method Find(ref: string) returns (task: Option<Cell>)
      requires Linked()
      ensures task.Some? == ByRef(View(), ref).Some?
      ensures task.Some? ==> task.value.info.id in byID && byID[task.value.info.id] == task.value
                             && ByRef(View(), ref) == Some(task.value.View()) && task.value.info.ref == ref
    {
      task := if ref in byRef then Some(byRef[ref]) else None;
    }

    method Reserve(ref: string, actorUID: int, topicID: string, agentUID: int, client: string, now: Time) returns (answer: Reservation)
      requires Valid()
      modifies this`byID, this`byRef, this`rates, byID.Values
      ensures Valid() && byID.Values <= old(byID.Values)
      ensures (View(), answer) == TaskTable.Reserve(old(View()), ref, actorUID, topicID, agentUID, client, now, config)
    {
      hide Inv, Store.View, Store.Linked, TaskTable.Cleanup, Follows, OpaqueID, TrimSpace, ByteLen, Put, ByRef;
      ReserveFollows(View(), ref, actorUID, topicID, agentUID, client, now, config);
      FollowsInv(View(), TaskTable.Reserve(View(), ref, actorUID, topicID, agentUID, client, now, config).0, {}, config);
      var clientID := TrimSpace(client);
      if !OpaqueID("atr_", ref) || clientID == "" || ByteLen(clientID) > 128 {
        return Refused;
      }
      Cleanup(now);
      var found := Find(ref);
      if found.None? {
        return Refused;
      }
      var task := found.value;
      if task.info.what.actorUID != actorUID || task.info.what.topicID != topicID || task.info.what.agentUID != agentUID
         || Terminal(task.status) || task.info.expiresAt <= now
      {
        return Refused;
      }
      if task.delivered {
        if task.clientID == clientID {
          return Reserved(DeliveryRef(task.info.ref, task.info.id, agentUID, clientID, true));
        }
        return Refused;
      }
      if task.claimed {
        return if task.clientID == clientID then Pending else Refused;
      }
      label claim:
      task.claimed, task.clientID, task.updatedAt := true, clientID, now;
      CellChanged@claim(task);
      answer := Reserved(DeliveryRef(task.info.ref, task.info.id, agentUID, clientID, false));
    }

    method Confirm(delivery: DeliveryRef, now: Time) returns (yes: bool)
      requires Valid()
      modifies this`byID, this`byRef, this`rates, byID.Values
      ensures Valid() && byID.Values <= old(byID.Values)
      ensures (View(), yes) == TaskTable.Confirm(old(View()), delivery, now, config)
    {
      hide Inv, Store.View, Store.Linked, TaskTable.Cleanup, Follows, Put, ByRef;
      ConfirmFollows(View(), delivery, now, config);
      FollowsInv(View(), TaskTable.Confirm(View(), delivery, now, config).0, {}, config);
      if delivery.alreadyDelivered {
        return true;
      }
      Cleanup(now);
      var found := Find(delivery.ref);
      if found.None? {
        return false;
      }
      var task := found.value;
      if task.info.id != delivery.taskID || task.info.what.agentUID != delivery.agentUID
         || !task.claimed || task.clientID != delivery.clientMessageID || Terminal(task.status) || task.info.expiresAt <= now
      {
        return false;
      }
      label confirm:
      task.claimed, task.delivered, task.updatedAt := false, true, now;
      CellChanged@confirm(task);
      yes := true;
    }

    /** releaseDelivery runs no cleanup. */
    method Release(delivery: DeliveryRef, now: Time)
      requires Valid()
      modifies this`byID, this`byRef, this`rates, byID.Values
      ensures Valid() && byID.Values <= old(byID.Values)
      ensures View() == TaskTable.Release(old(View()), delivery, now)
    {
      hide Inv, Store.View, Store.Linked, Follows, Put, ByRef;
      ReleaseFollows(View(), delivery, now, config);
      FollowsInv(View(), TaskTable.Release(View(), delivery, now), {}, config);
      if delivery.alreadyDelivered {
        return;
      }
      var found := Find(delivery.ref);
      if found.None? {
        return;
      }
      var task := found.value;
      if task.info.id != delivery.taskID || task.delivered || !task.claimed || task.clientID != delivery.clientMessageID {
        return;
      }
      label release:
      task.claimed, task.clientID, task.updatedAt := false, "", now;
      CellChanged@release(task);
    }

    method FailDelivery(delivery: DeliveryRef, code: string, message: string, now: Time) returns (failed: bool)
      requires Valid()
      modifies this`byID, this`byRef, this`rates, byID.Values
      ensures Valid() && byID.Values <= old(byID.Values)
      ensures (View(), failed) == TaskTable.FailDelivery(old(View()), delivery, code, message, now, config)
    {
      hide Inv, Store.View, Store.Linked, TaskTable.Cleanup, Follows, Put, ByRef, TaskTable.Fail;
      FailDeliveryFollows(View(), delivery, code, message, now, config);
      FollowsInv(View(), TaskTable.FailDelivery(View(), delivery, code, message, now, config).0, {}, config);
      if delivery.alreadyDelivered {
        return false;
      }
      Cleanup(now);
      var found := Find(delivery.ref);
      if found.None? {
        return false;
      }
      var task := found.value;
      if task.info.id != delivery.taskID || task.info.what.agentUID != delivery.agentUID
         || task.clientID != delivery.clientMessageID || Terminal(task.status)
      {
        return false;
      }
      label failing:
      task.claimed, task.delivered := false, false;
      task.Fail(code, message, now, config);
      CellChanged@failing(task);
      failed := true;
    }

    /** withWritable: `found` is the task handed to the callback, if the callback runs. */
    method WithWritable(ref: string, id: string, now: Time) returns (found: Option<Task>)
      requires Valid()
      modifies this`byID, this`byRef, this`rates, byID.Values
      ensures Valid() && byID.Values <= old(byID.Values)
      ensures (View(), found) == TaskTable.WithWritable(old(View()), ref, id, now, config)
    {
      hide Inv, Store.View, Store.Linked, TaskTable.Cleanup, Follows, ByRef;
      Cleanup(now);
      var cell := Find(ref);
      if cell.None? {
        return None;
      }
      var task := cell.value;
      if task.info.id != id || !task.delivered || Terminal(task.status) || task.info.expiresAt <= now {
        return None;
      }
      found := Some(Task(task.info, task.status, task.code, task.message, task.claimed, task.clientID, task.delivered, task.runID,
                         task.agentState, task.agentFinishedAt, task.resultID, task.updatedAt, task.retainUntil));
    }

    method ObserveRun(ref: string, sourceUID: int, topicID: string, runID: string, state: string, error: string, now: Time) returns (counted: bool)
      requires Valid()
      modifies this`byID, this`byRef, this`rates, byID.Values
      ensures Valid() && byID.Values <= old(byID.Values)
      ensures (View(), counted) == TaskTable.ObserveRun(old(View()), ref, sourceUID, topicID, runID, state, error, now, config)
    {
      hide Inv, Store.View, Store.Linked, TaskTable.Cleanup, Follows, Put, ByRef, Observed, OpaqueID;
      ObserveRunFollows(View(), ref, sourceUID, topicID, runID, state, error, now, config);
      FollowsInv(View(), TaskTable.ObserveRun(View(), ref, sourceUID, topicID, runID, state, error, now, config).0, {}, config);
      if !OpaqueID("atr_", ref) || runID == "" {
        return false;
      }
      Cleanup(now);
      var found := Find(ref);
      if found.None? {
        return false;
      }
      var task := found.value;
      if task.info.what.agentUID != sourceUID || task.info.what.topicID != topicID || !task.delivered || Terminal(task.status)
         || (task.runID != "" && task.runID != runID)
      {
        return false;
      }
      label observe:
      counted := task.Observe(runID, state, error, now, config);
      CellChanged@observe(task);
    }

    method CompleteResult(id: string, resultID: string, outcome: Outcome, now: Time) returns (done: bool)
      requires Valid()
      modifies this`byID, this`byRef, this`rates, byID.Values
      ensures Valid() && byID.Values <= old(byID.Values)
      ensures (View(), done) == TaskTable.CompleteResult(old(View()), id, resultID, outcome, now, config)
    {
      hide Inv, Store.View, TaskTable.Cleanup, Follows, Put, Resolved, OpaqueID;
      CompleteResultFollows(View(), id, resultID, outcome, now, config);
      FollowsInv(View(), TaskTable.CompleteResult(View(), id, resultID, outcome, now, config).0, {id}, config);
      if !OpaqueID("atk_", id) || !OpaqueID("arr_", resultID) {
        return false;
      }
      Cleanup(now);
      SameKeys();
      if id !in byID {
        return false;
      }
      EntryView(id);
      var task := byID[id];
      if task.status == Completed {
        return task.resultID == resultID;
      }
      if task.status == Failed {
        return false;
      }
      label resolve:
      task.Resolve(resultID, outcome, now, config);
      CellChanged@resolve(task);
      done := true;
    }

    method FailForActor(id: string, actorUID: int, code: string, message: string, preserveClaim: bool, now: Time) returns (answer: FailAnswer)
      requires Valid()
      modifies this`byID, this`byRef, this`rates, byID.Values
      ensures Valid() && byID.Values <= old(byID.Values)
      ensures (View(), answer) == TaskTable.FailForActor(old(View()), id, actorUID, code, message, preserveClaim, now, config)
    {
      hide Inv, Store.View, TaskTable.Cleanup, Follows, Put, TaskTable.Fail, OpaqueID;
      FailForActorFollows(View(), id, actorUID, code, message, preserveClaim, now, config);
      FollowsInv(View(), TaskTable.FailForActor(View(), id, actorUID, code, message, preserveClaim, now, config).0, {}, config);
      if !OpaqueID("atk_", id) || actorUID <= 0 {
        return FailNotFound;
      }
      Cleanup(now);
      SameKeys();
      if id !in byID {
        return FailNotFound;
      }
      EntryView(id);
      var task := byID[id];
      if task.info.what.actorUID != actorUID || Terminal(task.status) {
        return FailNotFound;
      }
      if preserveClaim {
        if task.delivered {
          return FailDeliveryCommitted;
        }
        if task.claimed {
          return FailDeliveryPending;
        }
      }
      label failing:
      task.Fail(code, message, now, config);
      CellChanged@failing(task);
      answer := FailApplied;
    }

    /** activeForActorLocked */
    method CountActive(actorUID: int) returns (count: nat)
      ensures count == |ActiveOf(View(), actorUID)|
    {
      hide Store.View, ActiveOf;
      ghost var t := View();
      SameKeys();
      count := 0;
      var todo := byID.Keys;
      ActiveAreKeys(t, actorUID);
      assert ActiveOf(t, actorUID) - todo == {};
      while todo != {}
        invariant todo <= byID.Keys && count == |ActiveOf(t, actorUID) - todo|
        decreases todo
      {
        var id :| id in todo;
        EntryView(id);
        CountOne(t, actorUID, todo, id);
        todo := todo - {id};
        if byID[id].info.what.actorUID == actorUID && !Terminal(byID[id].status) {
          count := count + 1;
        }
      }
      assert ActiveOf(t, actorUID) - todo == ActiveOf(t, actorUID);
    }

    /** The loop of evictTerminalLocked. */
    method OldestTerminal() returns (candidate: Option<string>)
      requires Linked()
      ensures if candidate.Some? then IsVictim(View(), candidate.value) else !HasTerminal(View())
    {
      ghost var t := View();
      candidate := None;
      var todo := byID.Keys;
      while todo != {}
        invariant todo <= byID.Keys && OldestOf(t, byID.Keys - todo, candidate)
        decreases todo
      {
        var id :| id in todo;
        todo := todo - {id};
        EntryView(id);
        assert candidate.Some? ==> t.byID[candidate.value] == byID[candidate.value].View();
        if Terminal(byID[id].status) && (candidate.None? || byID[id].updatedAt < byID[candidate.value].updatedAt) {
          candidate := Some(id);
        }
      }
      AllVisited(t, byID.Keys, candidate);
    }

    /** evictTerminalLocked */
    method EvictTerminal() returns (evicted: bool, ghost victim: string)
      requires Linked()
      modifies this`byID, this`byRef
      ensures Linked() && byID.Values <= old(byID.Values)
      ensures evicted == HasTerminal(old(View()))
      ensures if evicted then IsVictim(old(View()), victim) && View() == Evict(old(View()), victim) else View() == old(View())
    {
      hide IsVictim, Store.View, Evict, HasTerminal;
      ghost var before := View();
      var candidate := OldestTerminal();
      if candidate.None? {
        return false, "";
      }
      victim := candidate.value;
      VictimIsTerminal(before, victim);
      SameKeys();
      Remove(byID[candidate.value]);
      evicted := true;
    }

    method Draw(draws: seq<Identity>) returns (identity: Option<Identity>)
      ensures identity == FirstUnused(View(), draws)
    {
      hide Store.Linked;
      var k := 0;
      while k < |draws|
        invariant k <= |draws| && FirstUnused(View(), draws[k..]) == FirstUnused(View(), draws)
      {
        if draws[k].id !in byID && draws[k].ref !in byRef {
          return Some(draws[k]);
        }
        assert draws[k..][1..] == draws[k + 1..];
        k := k + 1;
      }
      identity := None;
    }

    method Add(info: Info, rate: Rate)
      requires Linked() && info.id !in byID && info.ref !in byRef
      modifies this`byID, this`byRef, this`rates
      ensures Linked() && View() == Insert(old(View()), info, rate) && fresh(byID.Values - old(byID.Values))
    {
      var cell := new Cell(info);
      byID, byRef := byID[info.id := cell], byRef[info.ref := cell];
      rates := rates[info.what.actorUID := rate];
      CellAdded(cell);
    }

    twostate lemma CellAdded(new cell: Cell)
      requires byID == old(byID)[cell.info.id := cell] && byRef == old(byRef)[cell.info.ref := cell] && cell.View() == NewTask(cell.info)
      requires cell.info.id !in old(byID)
      requires forall id :: id in old(byID) ==> old(byID)[id].View() == old(byID[id].View())
      ensures View().byID == old(View()).byID[cell.info.id := NewTask(cell.info)]
      ensures View().byRef == old(View()).byRef[cell.info.ref := cell.info.id]
    {
      IDAdded(cell);
      RefAdded(cell);
    }

    twostate lemma IDAdded(new cell: Cell)
      requires byID == old(byID)[cell.info.id := cell] && cell.info.id !in old(byID)
      requires forall id :: id in old(byID) ==> old(byID)[id].View() == old(byID[id].View())
      ensures View().byID == old(View()).byID[cell.info.id := cell.View()]
    {
      hide Cell.View;
    }

    twostate lemma RefAdded(new cell: Cell)
      requires byRef == old(byRef)[cell.info.ref := cell]
      ensures View().byRef == old(View()).byRef[cell.info.ref := cell.info.id]
    {
      hide Cell.View;
    }

    /** create on the non-persistent path, given what its eight draws yield. */
    method Create(what: Candidate, draws: seq<Identity>, now: Time) returns (answer: Created, ghost identity: Option<Identity>, ghost victim: string)
      requires Valid()
      modifies this`byID, this`byRef, this`rates, byID.Values
      ensures Valid() && fresh(byID.Values - old(byID.Values))
      ensures (View(), answer) == TaskTable.Create(old(View()), what, identity, victim, now, config)
      ensures var clean := TaskTable.Cleanup(old(View()), now, config);
        answer !in {Malformed, ActiveCap, RateLimited} ==>
          ChosenWell(clean, victim, config) && identity == FirstUnused(RoomyFor(clean, victim, config), draws)
      ensures identity.Some? ==> identity.value in draws
    {
      hide Inv, Store.View, Store.Linked, TaskTable.Cleanup, Follows, Evict, Insert, FirstUnused, HasTerminal, IsVictim, ActiveOf, Candidate.Valid, RoomyFor, Placed, ChosenWell, TaskTable.Create;
      identity, victim := None, "";
      BlockedIsCreate(View(), what, identity, victim, now, config);
      if !what.Valid() {
        return Malformed, identity, victim;
      }
      Cleanup(now);
      SameKeys();
      var active := CountActive(what.actorUID);
      if active >= config.actorActiveMax {
        return ActiveCap, identity, victim;
      }
      var rate := if what.actorUID in rates && now < rates[what.actorUID].windowStart + config.rateWindow
                  then rates[what.actorUID] else Rate(now, 0);
      if rate.count >= config.actorRateMax {
        return RateLimited, identity, victim;
      }
      ghost var before := old(View());
      answer, identity, victim := Place(what, rate, draws, now);
      PlacedIsCreate(before, what, identity, victim, now, config);
    }

    /** The eviction of create, if it has to evict: `roomy` says whether there is room then. */
    method MakeRoom(actor: int) returns (roomy: bool, ghost victim: string)
      requires Valid()
      modifies this`byID, this`byRef
      ensures Valid() && byID.Values <= old(byID.Values)
      ensures ChosenWell(old(View()), victim, config)
      ensures roomy == (|old(View()).byID| < config.maxEntries || IsVictim(old(View()), victim))
      ensures View() == if roomy then RoomyFor(old(View()), victim, config) else old(View())
      ensures roomy ==> |View().byID| < config.maxEntries && |ActiveOf(View(), actor)| <= |ActiveOf(old(View()), actor)|
    {
      hide Inv, Store.View, Store.Linked, Evict, HasTerminal, IsVictim, ActiveOf;
      ghost var clean := View();
      victim := "";
      SameKeys();
      SizeBound(clean, config);
      if |byID| < config.maxEntries {
        return true, victim;
      }
      roomy, victim := EvictTerminal();
      if roomy {
        VictimIsTerminal(clean, victim);
        EvictFollows(clean, victim, config);
        FollowsInv(clean, View(), {}, config);
        EvictOnlyRemoves(clean, victim, actor);
      } else {
        NothingToEvict(clean, victim);
      }
    }

    /** The part of create that follows the actor's limits. */
    method Place(what: Candidate, rate: Rate, draws: seq<Identity>, now: Time)
      returns (answer: Created, ghost identity: Option<Identity>, ghost victim: string)
      requires Valid() && |ActiveOf(View(), what.actorUID)| < config.actorActiveMax && rate.count < config.actorRateMax
      modifies this`byID, this`byRef, this`rates
      ensures Valid() && fresh(byID.Values - old(byID.Values))
      ensures (View(), answer) == Placed(old(View()), what, rate, identity, victim, now, config)
      ensures ChosenWell(old(View()), victim, config) && identity == FirstUnused(RoomyFor(old(View()), victim, config), draws)
    {
      hide Inv, Store.View, Store.Linked, Insert, FirstUnused, IsVictim, ActiveOf, RoomyFor, ChosenWell;
      ghost var clean := View();
      var roomy, it := MakeRoom(what.actorUID);
      victim := it;
      if !roomy {
        identity := FirstUnused(RoomyFor(clean, victim, config), draws);
        return StoreFull, identity, victim;
      }
      SameKeys();
      var drawn := Draw(draws);
      identity := drawn;
      if drawn.None? {
        return NoIdentity, identity, victim;
      }
      var info := Info(drawn.value.id, drawn.value.ref, what, now, now + config.ttl);
      InsertKeepsInv(View(), info, Rate(rate.windowStart, rate.count + 1), config);
      SameRefs();
      Add(info, Rate(rate.windowStart, rate.count + 1));
      answer := Made(info);
    }

    lemma SameRefs()
      ensures View().byRef.Keys == byRef.Keys
    {
    }
  }

  // The passes of cleanup ---------------------------------------------------------

  ghost function ConvergedIn(t: Table, done: set<string>, now: Time, config: Config): Table {
    t.(byID := map id | id in t.byID :: if id in done then Converge(t.byID[id], now, config) else t.byID[id])
  }

  predicate Retained(task: Task, now: Time) {
    !(task.Over() && task.retainUntil.Some? && task.retainUntil.value <= now)
  }

  ghost function Dropped(t: Table, done: set<string>, now: Time): Table {
    t.(byID := map id | id in t.byID && !(id in done && !Retained(t.byID[id], now)) :: t.byID[id],
       byRef := map ref | ref in t.byRef && !(t.byRef[ref] in done && t.byRef[ref] in t.byID && t.byID[t.byRef[ref]].info.ref == ref
                                              && !Retained(t.byID[t.byRef[ref]], now)) :: t.byRef[ref])
  }

  ghost function DropOne(t: Table, id: string, now: Time): Table
    requires id in t.byID
  {
    if Retained(t.byID[id], now) then t else Evict(t, id)
  }

  lemma NoneConverged(t: Table, now: Time, config: Config)
    ensures ConvergedIn(t, {}, now, config) == t
  {
    assert ConvergedIn(t, {}, now, config).byID == t.byID;
  }

  lemma ConvergeOne(t: Table, done: set<string>, id: string, now: Time, config: Config)
    requires id in t.byID && id !in done
    ensures var mid := ConvergedIn(t, done, now, config);
      && id in mid.byID && mid.byID[id] == t.byID[id]
      && ConvergedIn(t, done + {id}, now, config) == Put(mid, id, Converge(t.byID[id], now, config))
  {
    hide Converge;
    var mid := ConvergedIn(t, done, now, config);
    assert ConvergedIn(t, done + {id}, now, config).byID == mid.byID[id := Converge(t.byID[id], now, config)];
  }

  lemma NoneDropped(t: Table, now: Time)
    ensures Dropped(t, {}, now) == t
  {
    assert Dropped(t, {}, now).byID == t.byID;
    assert Dropped(t, {}, now).byRef == t.byRef;
  }

  lemma DropNext(t: Table, done: set<string>, id: string, now: Time)
    requires SameTasks(t) && id in t.byID && id !in done
    ensures id in Dropped(t, done, now).byID && Dropped(t, done + {id}, now) == DropOne(Dropped(t, done, now), id, now)
  {
    hide Retained, SameTasks;
    var mid := Dropped(t, done, now);
    var next := Dropped(t, done + {id}, now);
    assert next.byID == DropOne(mid, id, now).byID;
    DropNextRef(t, done, id, now);
  }

  lemma DropNextRef(t: Table, done: set<string>, id: string, now: Time)
    requires SameTasks(t) && id in t.byID && id !in done
    ensures id in Dropped(t, done, now).byID && Dropped(t, done + {id}, now).byRef == DropOne(Dropped(t, done, now), id, now).byRef
  {
    hide Retained;
    var mid := Dropped(t, done, now).byRef;
    var next := Dropped(t, done + {id}, now).byRef;
    forall ref | ref in t.byRef
      ensures ref in next <==> ref in mid && (Retained(t.byID[id], now) || ref != t.byID[id].info.ref)
    {
      assert t.byID[t.byRef[ref]].info.ref == ref;
    }
    assert next == if Retained(t.byID[id], now) then mid else mid - {t.byID[id].info.ref};
  }

  lemma ThreePasses(t: Table, now: Time, config: Config)
    ensures var mid := ConvergedIn(t, t.byID.Keys, now, config);
      TaskTable.Cleanup(t, now, config) == Dropped(mid, mid.byID.Keys, now).(rates := LiveRates(t.rates, now, config))
  {
    hide Converge, Forgotten, Retained, LiveRates;
    forall id | id in t.byID
      ensures Converge(t.byID[id], now, config).info == t.byID[id].info
      ensures Forgotten(t.byID[id], now, config) == !Retained(Converge(t.byID[id], now, config), now)
    {
      ForgottenIsNotRetained(t.byID[id], now, config);
    }
    var mid := ConvergedIn(t, t.byID.Keys, now, config);
    var after := Dropped(mid, mid.byID.Keys, now);
    var clean := TaskTable.Cleanup(t, now, config);
    assert clean.byID == after.byID;
    assert clean.byRef == after.byRef;
  }

  lemma ForgottenIsNotRetained(task: Task, now: Time, config: Config)
    ensures Converge(task, now, config).info == task.info
    ensures Forgotten(task, now, config) == !Retained(Converge(task, now, config), now)
  {
    hide Converge;
    ConvergeKeepsInfo(task, now, config);
  }

  // Eviction and draws --------------------------------------------------------------

  /** The first of the drawn identities that no stored task shares a part with. */
  function FirstUnused(t: Table, draws: seq<Identity>): (r: Option<Identity>)
    ensures r.Some? ==> r.value in draws && r.value.id !in t.byID && r.value.ref !in t.byRef
    ensures r.None? ==> forall d :: d in draws ==> d.id in t.byID || d.ref in t.byRef
  {
    if draws == [] then None
    else if draws[0].id !in t.byID && draws[0].ref !in t.byRef then Some(draws[0])
    else FirstUnused(t, draws[1..])
  }

  /** The identity has a part that some stored task has. */
  predicate Taken(t: Table, d: Identity) {
    d.id in t.byID || d.ref in t.byRef
  }

  lemma {:induction false} FirstUnusedExactly(t: Table, draws: seq<Identity>, it: Identity)
    ensures FirstUnused(t, draws) == Some(it)
            <==> exists i :: 0 <= i < |draws| && draws[i] == it && !Taken(t, it) && forall k :: 0 <= k < i ==> Taken(t, draws[k])
  {
    if draws != [] && Taken(t, draws[0]) {
      FirstUnusedExactly(t, draws[1..], it);
      if i :| 0 <= i < |draws| && draws[i] == it && !Taken(t, it) && forall k :: 0 <= k < i ==> Taken(t, draws[k]) {
        assert draws[1..][i - 1] == it;
      }
      if i :| 0 <= i < |draws[1..]| && draws[1..][i] == it && !Taken(t, it) && forall k :: 0 <= k < i ==> Taken(t, draws[1..][k]) {
        assert draws[i + 1] == it;
        forall k | 0 <= k < i + 1 ensures Taken(t, draws[k]) {
          if k > 0 { assert draws[1..][k - 1] == draws[k]; }
        }
      }
    }
  }

  /** If create has to evict, it evicts the longest-unchanged task that is over. */
  ghost predicate ChosenWell(clean: Table, victim: string, config: Config) {
    |clean.byID| >= config.maxEntries && HasTerminal(clean) ==> IsVictim(clean, victim)
  }

  function RoomyFor(clean: Table, victim: string, config: Config): Table {
    if |clean.byID| >= config.maxEntries && victim in clean.byID then Evict(clean, victim) else clean
  }

  /** What create does once the actor's limits have let it pass. */
  ghost function Placed(clean: Table, what: Candidate, rate: Rate, identity: Option<Identity>, victim: string, now: Time, config: Config)
    : (Table, Created)
  {
    if |clean.byID| >= config.maxEntries && !IsVictim(clean, victim) then (clean, StoreFull)
    else
      var roomy := RoomyFor(clean, victim, config);
      match identity
      case None => (roomy, NoIdentity)
      case Some(it) =>
        var info := Info(it.id, it.ref, what, now, now + config.ttl);
        (Insert(roomy, info, Rate(rate.windowStart, rate.count + 1)), Made(info))
  }

  lemma PlacedIsCreate(t: Table, what: Candidate, identity: Option<Identity>, victim: string, now: Time, config: Config)
    requires var clean := TaskTable.Cleanup(t, now, config);
      what.Valid() && |ActiveOf(clean, what.actorUID)| < config.actorActiveMax
      && Window(clean.rates, what.actorUID, now, config).count < config.actorRateMax
    ensures var clean := TaskTable.Cleanup(t, now, config);
      TaskTable.Create(t, what, identity, victim, now, config)
      == Placed(clean, what, Window(clean.rates, what.actorUID, now, config), identity, victim, now, config)
  {
    hide TaskTable.Cleanup, Window, ActiveOf, Candidate.Valid, IsVictim, Evict, Insert;
    if IsVictim(TaskTable.Cleanup(t, now, config), victim) {
      VictimStored(TaskTable.Cleanup(t, now, config), victim);
    }
  }

  lemma BlockedIsCreate(t: Table, what: Candidate, identity: Option<Identity>, victim: string, now: Time, config: Config)
    ensures var clean := TaskTable.Cleanup(t, now, config);
      var (after, answer) := TaskTable.Create(t, what, identity, victim, now, config);
      && (!what.Valid() ==> after == t && answer == Malformed)
      && (what.Valid() && |ActiveOf(clean, what.actorUID)| >= config.actorActiveMax ==> after == clean && answer == ActiveCap)
      && ((what.Valid() && |ActiveOf(clean, what.actorUID)| < config.actorActiveMax
           && Window(clean.rates, what.actorUID, now, config).count >= config.actorRateMax) ==>
            after == clean && answer == RateLimited)
  {
    hide TaskTable.Cleanup, Window, ActiveOf, Candidate.Valid;
  }

  lemma ActiveAreKeys(t: Table, actor: int)
    ensures ActiveOf(t, actor) <= t.byID.Keys
  {
  }

  lemma CountOne(t: Table, actor: int, todo: set<string>, id: string)
    requires id in todo && id in t.byID
    ensures |ActiveOf(t, actor) - (todo - {id})|
            == |ActiveOf(t, actor) - todo| + if t.byID[id].info.what.actorUID == actor && !t.byID[id].Over() then 1 else 0
  {
    var active := ActiveOf(t, actor);
    if id in active {
      assert active - (todo - {id}) == (active - todo) + {id};
    } else {
      assert active - (todo - {id}) == active - todo;
    }
  }

  lemma NothingToEvict(t: Table, victim: string)
    requires !HasTerminal(t)
    ensures !IsVictim(t, victim)
  {
  }

  ghost predicate OldestOf(t: Table, done: set<string>, candidate: Option<string>) {
    && done <= t.byID.Keys
    && (candidate.Some? ==> candidate.value in done && t.byID[candidate.value].Over())
    && forall id :: id in done && t.byID[id].Over() ==>
                      candidate.Some? && t.byID[candidate.value].updatedAt <= t.byID[id].updatedAt
  }

  lemma AllVisited(t: Table, done: set<string>, candidate: Option<string>)
    requires OldestOf(t, done, candidate) && done == t.byID.Keys
    ensures if candidate.Some? then IsVictim(t, candidate.value) else !HasTerminal(t)
  {
  }

  lemma VictimIsTerminal(t: Table, victim: string)
    requires IsVictim(t, victim)
    ensures victim in t.byID && HasTerminal(t)
  {
  }

  lemma EmptyInv(config: Config)
    requires config.Valid()
    ensures Inv(EMPTY, config)
  {
    forall actor ensures Capped(EMPTY, config, actor) {
      assert ActiveOf(EMPTY, actor) == {};
    }
  }
}
