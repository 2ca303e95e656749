/** The result writeback store as it runs: maps of tickets and tombstones, and one mutable object per
    delivery attempt, which handlers keep after the table has dropped it. Every method is one critical
    section; `now` is its clock reading. Each leaves exactly the table that WritebackTable computes. */
module WritebackStore {
  import opened Basics
  import opened Outcomes
  import opened WritebackTable
  import Snapshots = SnapshotTable
  import Tasks = TaskTable

  /** One delivery attempt. `doneClosed` is the Done channel that waiting handlers watch. */
  class Delivery {
    const resultID: string
    const key: RequestKey
    const target: Target
    const waitUntil: Time
    const retainUntil: Time
    const createdAt: Time
    ghost const index: nat      // its position among all attempts ever started
    var completed: bool
    var outcome: Outcome
    var doneClosed: bool
    var sendClaimed: bool

    constructor (a: Attempt, ghost index: nat)
      requires a.Open() && !a.sendClaimed
      ensures View() == a && this.index == index && Settled() && this.resultID == a.resultID
    {
      resultID, key, target := a.resultID, a.key, a.target;
      waitUntil, retainUntil, createdAt := a.waitUntil, a.retainUntil, a.createdAt;
      this.index := index;
      completed, outcome, doneClosed, sendClaimed := false, Outcome(Unavailable, "", "", ""), false, false;
    }

    ghost function View(): Attempt
      reads this
    {
      Attempt(resultID, key, target, waitUntil, retainUntil, createdAt, if completed then Some(outcome) else None, sendClaimed)
    }

    /** Done is closed exactly when the attempt is completed. */
    ghost predicate Settled()
      reads this
    {
      doneClosed == completed
    }

    /** completeLocked: an attempt completes once, and its channel is closed once. */
    method Complete(o: Outcome)
      requires Settled()
      modifies this
      ensures Settled() && completed && View() == old(View()).CompletedAs(o)
    {
      if completed {
        return;
      }
      outcome, completed := o, true;
      Close();
    }

    /** Closing a channel twice would panic. */
    method Close()
      requires !doneClosed
      modifies this`doneClosed
      ensures doneClosed
    {
      doneClosed := true;
    }
  }

  class Store {
    const config: Config
    var tickets: map<string, Target>
    var byContext: map<string, string>
    var byTask: map<string, string>
    var invalidated: map<string, Time>
    var invalidatedTasks: map<string, Time>
    var deliveries: map<string, Delivery>
    ghost var all: seq<Delivery>      // every attempt ever started, in order

    ghost predicate Linked()
      reads this, all
    {
      && (forall i :: 0 <= i < |all| ==> all[i].index == i && all[i].Settled())
      && (forall id :: id in deliveries ==> Started(deliveries[id]) && deliveries[id].resultID == id)
    }

    ghost predicate Started(d: Delivery)
      reads this
    {
      d.index < |all| && all[d.index] == d
    }

    ghost function View(): Table
      reads this, all
    {
      Table(tickets, byContext, byTask, invalidated, invalidatedTasks,
            map id | id in deliveries :: deliveries[id].index, seq(|all|, i requires 0 <= i < |all| reads this, all => all[i].View()))
    }

    constructor (config: Config)
      ensures Linked() && this.config == config && View() == EMPTY && all == []
    {
      this.config := config;
      tickets, byContext, byTask, invalidated, invalidatedTasks, deliveries := map[], map[], map[], map[], map[], map[];
      all := [];
    }

    /** A change of one attempt is a change of one element. */
    twostate lemma DeliveryChanged(d: Delivery)
      requires old(Linked()) && all == old(all) && deliveries == old(deliveries) && d.Settled()
      requires tickets == old(tickets) && byContext == old(byContext) && byTask == old(byTask)
      requires invalidated == old(invalidated) && invalidatedTasks == old(invalidatedTasks)
      requires d.index < |all| && all[d.index] == d
      requires forall i :: 0 <= i < |all| && i != d.index ==> all[i].View() == old(all[i].View()) && all[i].Settled()
      ensures Linked() && View() == SetAttempt(old(View()), d.index, d.View())
    {
    }

    lemma SameKeys()
      ensures View().deliveries.Keys == deliveries.Keys && |View().deliveries| == |deliveries| && |View().attempts| == |all|
      ensures forall id :: id in deliveries ==> View().deliveries[id] == deliveries[id].index
    {
      var m := View().deliveries;
      assert m.Keys == deliveries.Keys;
      assert |m| == |m.Keys| && |deliveries| == |deliveries.Keys|;
    }

    /** cleanupLocked: four passes, each in whatever order the map yields its entries. */
    method Cleanup(now: Time)
      requires Linked()
      modifies this, all
      ensures Linked() && all == old(all) && View() == WritebackTable.Cleanup(old(View()), now)
    {
      hide Store.View, Store.Linked, EntriesNamed, Unexpired, SweptTickets, SweptDeliveries, WritebackTable.Cleanup;
      ghost var before := View();
      NamesItsEntry();
      ExpireTombstones(now);
      SweepTickets(now);
      SweepDeliveries(now);
      Passes(before, now);
    }

    method ExpireTombstones(now: Time)
      requires Linked()
      modifies this`invalidated, this`invalidatedTasks
      ensures Linked()
      ensures View() == old(View()).(invalidated := Unexpired(old(View()).invalidated, now),
                                     invalidatedTasks := Unexpired(old(View()).invalidatedTasks, now))
    {
      hide Unexpired;
      invalidated := Expire(invalidated, now);
      invalidatedTasks := Expire(invalidatedTasks, now);
    }

    method SweepTickets(now: Time)
      requires Linked()
      modifies this`tickets, this`byContext, this`byTask
      ensures Linked() && View() == SweptTickets(old(View()), old(View()).tickets.Keys, now)
    {
      hide Store.Linked, SweptTickets, SweepTicket;
      ghost var before := View();
      var todo := tickets.Keys;
      NoTicketSwept(before, now);
      assert before.tickets.Keys - todo == {};
      while todo != {}
        invariant Linked() && todo <= tickets.Keys && todo <= before.tickets.Keys
        invariant View() == SweptTickets(before, before.tickets.Keys - todo, now)
        decreases todo
      {
        var ref :| ref in todo;
        ghost var done := before.tickets.Keys - todo;
        SweepOneTicket(before, done, ref, now);
        VisitTicket(ref, now);
        todo := todo - {ref};
        assert before.tickets.Keys - todo == done + {ref};
      }
      assert before.tickets.Keys - todo == before.tickets.Keys;
    }

    method VisitTicket(ref: string, now: Time)
      requires Linked() && ref in tickets
      modifies this`tickets, this`byContext, this`byTask
      ensures Linked() && (tickets == old(tickets) || tickets == old(tickets) - {ref}) && View() == SweepTicket(old(View()), ref, now)
    {
      hide Delivery.View;
      var target := tickets[ref];
      if now < target.expiresAt {
        return;
      }
      tickets := tickets - {ref};
      if target.contextRef != "" && Lookup(byContext, target.contextRef) == ref {
        byContext := byContext - {target.contextRef};
      }
      if target.taskID != "" && Lookup(byTask, target.taskID) == ref {
        byTask := byTask - {target.taskID};
      }
    }

    method SweepDeliveries(now: Time)
      requires Linked()
      modifies this`deliveries, all
      ensures Linked() && all == old(all) && View() == SweptDeliveries(old(View()), old(View()).deliveries.Keys, now)
    {
      hide Store.View, Store.Linked, SweptDeliveries, SweepDelivery, EntriesNamed;
      ghost var before := View();
      var todo := deliveries.Keys;
      SameKeys();
      NamesItsEntry();
      NoDeliverySwept(before, now);
      assert before.deliveries.Keys - todo == {};
      while todo != {}
        invariant Linked() && all == old(all) && todo <= deliveries.Keys && todo <= before.deliveries.Keys
        invariant View() == SweptDeliveries(before, before.deliveries.Keys - todo, now)
        decreases todo
      {
        var id :| id in todo;
        ghost var done := before.deliveries.Keys - todo;
        SameKeys();
        SweepOneDelivery(before, done, id, now);
        VisitDelivery(id, now);
        todo := todo - {id};
        assert before.deliveries.Keys - todo == done + {id};
      }
      assert before.deliveries.Keys - todo == before.deliveries.Keys;
    }

    method VisitDelivery(id: string, now: Time)
      requires Linked() && id in deliveries
      modifies this`deliveries, all
      ensures Linked() && all == old(all) && (deliveries == old(deliveries) || deliveries == old(deliveries) - {id})
      ensures View() == SweepDelivery(old(View()), id, now)
    {
      hide Store.View;
      var d := deliveries[id];
      ghost var before := View();
      EntryView(d);
      SameKeys();
      if !d.completed && d.waitUntil <= now {
        label complete:
        d.Complete(TimedOut());
        DeliveryChanged@complete(d);
      }
      SameKeys();
      if d.retainUntil <= now {
        Forget(id);
      }
    }

    method Forget(id: string)
      requires Linked()
      modifies this`deliveries
      ensures Linked() && deliveries == old(deliveries) - {id} && View() == old(View()).(deliveries := old(View()).deliveries - {id})
    {
      deliveries := deliveries - {id};
    }

    lemma EntryView(d: Delivery)
      requires Started(d)
      ensures d.index < |View().attempts| && View().attempts[d.index] == d.View()
    {
    }

    /** Entries and attempts agree on the result id. */
    lemma NamesItsEntry()
      requires Linked()
      ensures EntriesNamed(View())
    {
    }

    /** issue, given the ticket reference it would draw. */
    method Issue(snapshot: Snapshots.Info, drawn: string, now: Time) returns (answer: Issue)
      requires Linked()
      modifies this, all
      ensures Linked() && all == old(all) && (View(), answer) == IssueContext(old(View()), snapshot, drawn, now, config)
    {
      hide WritebackTable.Cleanup, SnapshotIssuable, SameSnapshot, SnapshotTarget;
      if !SnapshotIssuable(snapshot) {
        return NotIssuable;
      }
      Cleanup(now);
      if snapshot.ref in invalidated && now < invalidated[snapshot.ref] {
        return Closed;
      }
      var held := Lookup(byContext, snapshot.ref);
      if held != "" {
        if held in tickets && now < tickets[held].expiresAt && SameSnapshot(tickets[held], snapshot) {
          return Granted(tickets[held]);
        }
      }
      if |tickets| >= config.maxEntries {
        return TicketsFull;
      }
      var target := SnapshotTarget(snapshot, drawn, now, config);
      ghost var clean := View();
      tickets, byContext := tickets[drawn := target], byContext[snapshot.ref := drawn];
      assert View() == clean.(tickets := clean.tickets[drawn := target], byContext := clean.byContext[snapshot.ref := drawn]);
      answer := Granted(target);
    }

    method IssueForTask(task: Tasks.Info, drawn: string, now: Time) returns (answer: Issue)
      requires Linked()
      modifies this, all
      ensures Linked() && all == old(all) && (View(), answer) == IssueTask(old(View()), task, drawn, now, config)
    {
      hide WritebackTable.Cleanup, TaskIssuable, SameTask, TaskTarget;
      if !TaskIssuable(task) {
        return NotIssuable;
      }
      Cleanup(now);
      if task.id in invalidatedTasks && now < invalidatedTasks[task.id] {
        return Closed;
      }
      var held := Lookup(byTask, task.id);
      if held != "" {
        if held in tickets && now < tickets[held].expiresAt && SameTask(tickets[held], task) {
          return Granted(tickets[held]);
        }
      }
      if |tickets| >= config.maxEntries {
        return TicketsFull;
      }
      var target := TaskTarget(task, drawn, now);
      ghost var clean := View();
      tickets, byTask := tickets[drawn := target], byTask[task.id := drawn];
      assert View() == clean.(tickets := clean.tickets[drawn := target], byTask := clean.byTask[task.id := drawn]);
      answer := Granted(target);
    }

    /** target: the ticket under `ref`, if it is live. */
    method FindTarget(ref: string, now: Time) returns (target: Option<Target>)
      requires Linked()
      modifies this, all
      ensures Linked() && all == old(all)
      ensures if !OpaqueID("awr_", ref) then target == None && View() == old(View())
              else View() == WritebackTable.Cleanup(old(View()), now)
                   && target == if Live(old(View()), ref, now) then Some(old(View()).tickets[ref]) else None
    {
      hide LiveIndex, Unexpired, Overdue, OpaqueID;
      if !OpaqueID("awr_", ref) {
        return None;
      }
      Cleanup(now);
      target := if ref in tickets && now < tickets[ref].expiresAt then Some(tickets[ref]) else None;
    }

    /** The loop that closes the attempts which an invalidation applies to. */
    method CloseAll(kind: Kind, source: string, o: Outcome)
      requires Linked()
      modifies all
      ensures Linked() && View() == ClosedAll(old(View()), old(View()).deliveries.Keys, kind, source, o)
    {
      hide Store.View, Store.Linked, ClosedAll, CloseOne, EntriesNamed;
      ghost var before := View();
      var todo := deliveries.Keys;
      SameKeys();
      NamesItsEntry();
      NoneClosed(before, kind, source, o);
      assert before.deliveries.Keys - todo == {};
      while todo != {}
        invariant Linked() && todo <= deliveries.Keys && deliveries.Keys == before.deliveries.Keys
        invariant View() == ClosedAll(before, before.deliveries.Keys - todo, kind, source, o)
        decreases todo
      {
        var id :| id in todo;
        ghost var done := before.deliveries.Keys - todo;
        SameKeys();
        CloseNext(before, done, id, kind, source, o);
        CloseEntry(id, kind, source, o);
        todo := todo - {id};
        assert before.deliveries.Keys - todo == done + {id};
      }
      assert before.deliveries.Keys - todo == before.deliveries.Keys;
    }

    method CloseEntry(id: string, kind: Kind, source: string, o: Outcome)
      requires Linked() && id in deliveries
      modifies all
      ensures Linked() && View() == CloseOne(old(View()), id, kind, source, o)
    {
      hide Store.View;
      var d := deliveries[id];
      EntryView(d);
      SameKeys();
      if d.completed || d.sendClaimed || Source(d.target, kind) != source {
        return;
      }
      label closing:
      d.Complete(o);
      DeliveryChanged@closing(d);
    }

    method InvalidateContext(contextRef: string, now: Time)
      requires Linked()
      modifies this, all
      ensures Linked() && all == old(all) && View() == WritebackTable.InvalidateContext(old(View()), contextRef, now, config)
    {
      hide WritebackTable.Cleanup, Unclaimed, ClosedAll, Changed, EntriesNamed;
      if contextRef == "" {
        return;
      }
      Cleanup(now);
      NamesItsEntry();
      ghost var clean := View();
      invalidated := invalidated[contextRef := now + config.ticketTTL];
      var ref := Lookup(byContext, contextRef);
      byContext, tickets := byContext - {contextRef}, tickets - {ref};
      ghost var mid := View();
      CloseAll(ContextKind, contextRef, Changed());
      ClosedAllIs(clean, mid, ContextKind, contextRef, Changed());
    }

    method InvalidateTask(taskID: string, now: Time)
      requires Linked()
      modifies this, all
      ensures Linked() && all == old(all) && View() == WritebackTable.InvalidateTask(old(View()), taskID, now, config)
    {
      hide WritebackTable.Cleanup, Unclaimed, ClosedAll, TaskClosed, EntriesNamed, OpaqueID;
      if !OpaqueID("atk_", taskID) {
        return;
      }
      Cleanup(now);
      NamesItsEntry();
      ghost var clean := View();
      invalidatedTasks := invalidatedTasks[taskID := now + config.ticketTTL];
      var ref := Lookup(byTask, taskID);
      byTask, tickets := byTask - {taskID}, tickets - {ref};
      ghost var mid := View();
      CloseAll(TaskKind, taskID, TaskClosed());
      ClosedAllIs(clean, mid, TaskKind, taskID, TaskClosed());
    }

    /** claimDeliveryForSend; a claimed attempt is sent to its own target. */
    method ClaimForSend(d: Delivery, now: Time) returns (claimed: bool)
      requires Linked() && Started(d)
      modifies this, all
      ensures Linked() && all == old(all) && (View(), claimed) == Claim(old(View()), d.index, now)
    {
      hide Store.View, WritebackTable.Cleanup, ClaimListed;
      Cleanup(now);
      EntryView(d);
      SameKeys();
      if d.resultID !in deliveries || deliveries[d.resultID] != d || d.completed || d.sendClaimed {
        return false;
      }
      claimed := ClaimEntry(d, now);
    }

    method ClaimEntry(d: Delivery, now: Time) returns (claimed: bool)
      requires Linked() && Started(d) && !d.completed
      modifies all
      ensures Linked() && d.index < |old(View()).attempts| && (View(), claimed) == ClaimListed(old(View()), d.index, now)
    {
      hide Store.View, Changed;
      EntryView(d);
      SameTickets();
      label claim:
      if d.target.ref !in tickets || tickets[d.target.ref].expiresAt <= now || tickets[d.target.ref] != d.target {
        d.Complete(Changed());
        DeliveryChanged@claim(d);
        return false;
      }
      d.sendClaimed := true;
      DeliveryChanged@claim(d);
      claimed := true;
    }

    lemma SameTickets()
      ensures View().tickets == tickets
    {
    }

    /** startDelivery; the caller gets the attempt to wait on. */
    method StartFor(r: Request, target: Target, now: Time)
      returns (d: Option<Delivery>, created: bool, code: string, ghost answer: Start)
      requires Linked()
      modifies this, all
      ensures Linked() && old(all) <= all && (View(), answer) == StartDelivery(old(View()), r, target, now, config)
      ensures forall x :: x in all && x !in old(all) ==> fresh(x)
      ensures match answer
              case Started(i, it) => d.Some? && Started(d.value) && d.value.index == i && created == it && code == ""
              case Conflict => d.None? && !created && code == "result_id_conflict"
              case TargetExpired => d.None? && !created && code == "expired"
              case StoreFull => d.None? && !created && code == "unavailable"
    {
      hide Store.View, WritebackTable.Cleanup, KeyOf, FromApplication;
      Cleanup(now);
      SameKeys();
      SameTickets();
      var key := KeyOf(r, target);
      var existing := r.resultID in deliveries;
      if existing {
        var held := deliveries[r.resultID];
        EntryView(held);
        if held.key != key {
          return None, false, "result_id_conflict", Conflict;
        }
        if !held.completed || FromApplication(held.outcome.status) {
          return Some(held), false, "", Start.Started(held.index, false);
        }
      }
      if target.ref !in tickets || tickets[target.ref].expiresAt <= now || tickets[target.ref] != target {
        return None, false, "expired", TargetExpired;
      }
      if !existing && |deliveries| >= config.maxEntries {
        return None, false, "unavailable", StoreFull;
      }
      var a := Attempt(r.resultID, key, target, now + config.deliveryTTL, target.expiresAt, now, None, false);
      var it := Append(a);
      d, created, code, answer := Some(it), true, "", Start.Started(it.index, true);
    }

    method Append(a: Attempt) returns (d: Delivery)
      requires Linked() && a.Open() && !a.sendClaimed
      modifies this`deliveries, this`all
      ensures Linked() && fresh(d) && all == old(all) + [d] && Started(d) && d.index == |old(all)|
      ensures View() == old(View()).(deliveries := old(View()).deliveries[a.resultID := |old(View()).attempts|],
                                     attempts := old(View()).attempts + [a])
    {
      d := new Delivery(a, |all|);
      deliveries, all := deliveries[a.resultID := d], all + [d];
      DeliveryAdded(d);
    }

    twostate lemma DeliveryAdded(new d: Delivery)
      requires old(Linked()) && all == old(all) + [d] && deliveries == old(deliveries)[d.resultID := d] && d.index == |old(all)|
      requires forall i :: 0 <= i < |old(all)| ==> old(all)[i].View() == old(all[i].View())
      ensures View().deliveries == old(View()).deliveries[d.resultID := |old(View()).attempts|]
      ensures View().attempts == old(View()).attempts + [d.View()]
    {
    }

    /** completePlatform runs no cleanup. */
    method CompleteByPlatform(d: Delivery, o: Outcome)
      requires Linked() && Started(d)
      modifies all
      ensures Linked() && View() == CompletePlatform(old(View()), d.index, o)
    {
      hide Store.View;
      EntryView(d);
      label complete:
      if !d.completed {
        d.Complete(o);
      }
      DeliveryChanged@complete(d);
    }

    /** completeReceipt runs no cleanup; `route` is the connection the receipt came in on. */
    method AcceptReceipt(m: Receipt, route: Route) returns (accepted: bool)
      requires Linked()
      modifies all
      ensures Linked() && (View(), accepted) == CompleteReceipt(old(View()), m, route)
    {
      hide Store.View;
      SameKeys();
      if m.resultID !in deliveries {
        return false;
      }
      var d := deliveries[m.resultID];
      EntryView(d);
      if d.completed || !d.sendClaimed || !d.target.previewRoute.Matches(route) || !Answers(m, d.target) {
        return false;
      }
      label complete:
      d.Complete(ReceiptOutcome(m));
      DeliveryChanged@complete(d);
      accepted := true;
    }

    /** outcome */
    method FindOutcome(resultID: string) returns (o: Option<Outcome>)
      requires Linked()
      ensures o == OutcomeOf(View(), resultID)
    {
      hide Store.View;
      SameKeys();
      if resultID !in deliveries {
        return None;
      }
      EntryView(deliveries[resultID]);
      o := if deliveries[resultID].completed then Some(deliveries[resultID].outcome) else None;
    }

    /** outcomeFor: read from the attempt itself, whether or not the table still lists it. */
    method OutcomeFor(d: Delivery) returns (o: Option<Outcome>)
      requires Linked() && Started(d)
      ensures d.index < |View().attempts| && o == View().attempts[d.index].outcome
    {
      EntryView(d);
      o := if d.completed then Some(d.outcome) else None;
    }
  }

  /** The tombstones a cleanup pass leaves. */
  method Expire(m: map<string, Time>, now: Time) returns (r: map<string, Time>)
    ensures r == Unexpired(m, now)
  {
    r := m;
    var todo := m.Keys;
    while todo != {}
      invariant todo <= m.Keys && r.Keys <= m.Keys
      invariant forall key :: key in m ==> (key in r <==> key in todo || now < m[key])
      invariant forall key :: key in r ==> r[key] == m[key]
      decreases todo
    {
      var key :| key in todo;
      if m[key] <= now {
        r := r - {key};
      }
      todo := todo - {key};
    }
  }

  // The passes of cleanup -----------------------------------------------------------

  ghost function SweptIndex(t: Table, index: map<string, string>, done: set<string>, now: Time, kind: Kind): map<string, string> {
    map x | x in index && !(index[x] in done && Lapsed(t.tickets, index, x, now, kind)) :: index[x]
  }

  ghost function SweptTickets(t: Table, done: set<string>, now: Time): Table {
    t.(tickets := map ref | ref in t.tickets && !(ref in done && t.tickets[ref].expiresAt <= now) :: t.tickets[ref],
       byContext := SweptIndex(t, t.byContext, done, now, ContextKind),
       byTask := SweptIndex(t, t.byTask, done, now, TaskKind))
  }

  ghost function Unindexed(index: map<string, string>, x: Target, kind: Kind): map<string, string> {
    if Source(x, kind) != "" && Lookup(index, Source(x, kind)) == x.ref then index - {Source(x, kind)} else index
  }

  ghost function SweepTicket(t: Table, ref: string, now: Time): Table
    requires ref in t.tickets
  {
    var x := t.tickets[ref].(ref := ref);
    if now < x.expiresAt then t
    else t.(tickets := t.tickets - {ref}, byContext := Unindexed(t.byContext, x, ContextKind), byTask := Unindexed(t.byTask, x, TaskKind))
  }

  lemma NoTicketSwept(t: Table, now: Time)
    ensures SweptTickets(t, {}, now) == t
  {
    hide Lapsed;
    assert SweptTickets(t, {}, now).tickets == t.tickets;
    assert SweptTickets(t, {}, now).byContext == t.byContext;
    assert SweptTickets(t, {}, now).byTask == t.byTask;
  }

  lemma SweepOneIndex(t: Table, index: map<string, string>, done: set<string>, ref: string, now: Time, kind: Kind)
    requires ref in t.tickets && ref !in done
    ensures SweptIndex(t, index, done + {ref}, now, kind)
            == if t.tickets[ref].expiresAt <= now then Unindexed(SweptIndex(t, index, done, now, kind), t.tickets[ref].(ref := ref), kind)
               else SweptIndex(t, index, done, now, kind)
  {
    var mid := SweptIndex(t, index, done, now, kind);
    var next := SweptIndex(t, index, done + {ref}, now, kind);
    var x := t.tickets[ref].(ref := ref);
    if t.tickets[ref].expiresAt <= now {
      assert next == Unindexed(mid, x, kind);
    } else {
      assert next == mid;
    }
  }

  lemma SweepOneTicket(t: Table, done: set<string>, ref: string, now: Time)
    requires ref in t.tickets && ref !in done
    ensures var mid := SweptTickets(t, done, now);
      ref in mid.tickets && SweptTickets(t, done + {ref}, now) == SweepTicket(mid, ref, now)
  {
    SweepOneIndex(t, t.byContext, done, ref, now, ContextKind);
    SweepOneIndex(t, t.byTask, done, ref, now, TaskKind);
    hide SweptIndex, Unindexed;
    var mid := SweptTickets(t, done, now);
    assert SweptTickets(t, done + {ref}, now).tickets == SweepTicket(mid, ref, now).tickets;
  }

  predicate EntriesNamed(t: Table) {
    forall id :: id in t.deliveries ==> t.deliveries[id] < |t.attempts| && t.attempts[t.deliveries[id]].resultID == id
  }

  ghost function SweptAttempts(t: Table, done: set<string>, now: Time): seq<Attempt> {
    seq(|t.attempts|, i requires 0 <= i < |t.attempts| => if t.attempts[i].resultID in done then Overdue(t, i, now) else t.attempts[i])
  }

  ghost function SweptDeliveries(t: Table, done: set<string>, now: Time): Table {
    t.(deliveries := map id | id in t.deliveries
                              && !(id in done && t.deliveries[id] < |t.attempts| && t.attempts[t.deliveries[id]].retainUntil <= now)
                       :: t.deliveries[id],
       attempts := SweptAttempts(t, done, now))
  }

  ghost function SweepDelivery(t: Table, id: string, now: Time): Table
    requires id in t.deliveries && t.deliveries[id] < |t.attempts|
  {
    var i := t.deliveries[id];
    var a := t.attempts[i];
    var settled := if a.waitUntil <= now then SetAttempt(t, i, a.CompletedAs(TimedOut())) else t;
    if a.retainUntil <= now then settled.(deliveries := t.deliveries - {id}) else settled
  }

  lemma NoDeliverySwept(t: Table, now: Time)
    ensures SweptDeliveries(t, {}, now) == t
  {
    assert SweptDeliveries(t, {}, now).deliveries == t.deliveries;
    assert SweptDeliveries(t, {}, now).attempts == t.attempts;
  }

  lemma SweepOneAttempt(t: Table, done: set<string>, id: string, now: Time)
    requires EntriesNamed(t) && id in t.deliveries && id !in done
    ensures var i := t.deliveries[id]; var a := t.attempts[i]; var mid := SweptAttempts(t, done, now);
      && mid[i] == a
      && SweptAttempts(t, done + {id}, now) == if a.waitUntil <= now then mid[i := a.CompletedAs(TimedOut())] else mid
  {
    hide TimedOut;
    var i := t.deliveries[id];
    var mid := SweptAttempts(t, done, now);
    var next := SweptAttempts(t, done + {id}, now);
    forall j | 0 <= j < |t.attempts| && j != i ensures next[j] == mid[j] {
    }
    assert next == if t.attempts[i].waitUntil <= now then mid[i := t.attempts[i].CompletedAs(TimedOut())] else mid;
  }

  lemma SweepOneDelivery(t: Table, done: set<string>, id: string, now: Time)
    requires EntriesNamed(t) && id in t.deliveries && id !in done
    ensures var mid := SweptDeliveries(t, done, now);
      id in mid.deliveries && mid.deliveries[id] < |mid.attempts| && SweptDeliveries(t, done + {id}, now) == SweepDelivery(mid, id, now)
  {
    SweepOneAttempt(t, done, id, now);
    hide SweptAttempts, TimedOut;
    var mid := SweptDeliveries(t, done, now);
    SameLength(t, done, now);
    assert SweptDeliveries(t, done + {id}, now).deliveries == SweepDelivery(mid, id, now).deliveries;
  }

  lemma SameLength(t: Table, done: set<string>, now: Time)
    ensures |SweptAttempts(t, done, now)| == |t.attempts|
  {
  }

  lemma TicketPass(t: Table, now: Time)
    ensures var swept := SweptTickets(t, t.tickets.Keys, now);
      && swept.tickets == LiveTickets(t.tickets, now)
      && swept.byContext == LiveIndex(t.tickets, t.byContext, now, ContextKind)
      && swept.byTask == LiveIndex(t.tickets, t.byTask, now, TaskKind)
  {
  }

  lemma DeliveryPass(t: Table, now: Time)
    requires EntriesNamed(t)
    ensures var clean := WritebackTable.Cleanup(t, now); var swept := SweptDeliveries(t, t.deliveries.Keys, now);
      swept.deliveries == clean.deliveries && swept.attempts == clean.attempts
  {
    hide Unexpired, LiveTickets, LiveIndex, TimedOut;
    var clean := WritebackTable.Cleanup(t, now);
    var swept := SweptDeliveries(t, t.deliveries.Keys, now);
    assert swept.deliveries == clean.deliveries;
    forall i | 0 <= i < |t.attempts| ensures swept.attempts[i] == clean.attempts[i] {
    }
  }

  lemma Passes(t: Table, now: Time)
    requires EntriesNamed(t)
    ensures var expired := t.(invalidated := Unexpired(t.invalidated, now), invalidatedTasks := Unexpired(t.invalidatedTasks, now));
      var swept := SweptTickets(expired, expired.tickets.Keys, now);
      SweptDeliveries(swept, swept.deliveries.Keys, now) == WritebackTable.Cleanup(t, now)
  {
    var expired := t.(invalidated := Unexpired(t.invalidated, now), invalidatedTasks := Unexpired(t.invalidatedTasks, now));
    var swept := SweptTickets(expired, expired.tickets.Keys, now);
    TicketPass(expired, now);
    DeliveryPass(t, now);
    SameDeliveries(t, swept, t.deliveries.Keys, now);
    hide Unexpired, LiveTickets, LiveIndex, SweptAttempts, SweptIndex;
  }

  /** The pass over the deliveries depends on the deliveries only. */
  lemma SameDeliveries(t: Table, other: Table, done: set<string>, now: Time)
    requires other.deliveries == t.deliveries && other.attempts == t.attempts
    ensures SweptDeliveries(other, done, now).deliveries == SweptDeliveries(t, done, now).deliveries
    ensures SweptDeliveries(other, done, now).attempts == SweptDeliveries(t, done, now).attempts
  {
    forall i | 0 <= i < |t.attempts| ensures SweptAttempts(other, done, now)[i] == SweptAttempts(t, done, now)[i] {
    }
  }

  // Invalidation --------------------------------------------------------------------

  predicate Closing(t: Table, i: nat, kind: Kind, source: string) {
    Unclaimed(t, i) && Source(t.attempts[i].target, kind) == source
  }

  ghost function ClosedAll(t: Table, done: set<string>, kind: Kind, source: string, o: Outcome): Table {
    t.(attempts := seq(|t.attempts|, i requires 0 <= i < |t.attempts| =>
                         if t.attempts[i].resultID in done && Closing(t, i, kind, source) then t.attempts[i].CompletedAs(o) else t.attempts[i]))
  }

  ghost function CloseOne(t: Table, id: string, kind: Kind, source: string, o: Outcome): Table
    requires id in t.deliveries && t.deliveries[id] < |t.attempts|
  {
    var i := t.deliveries[id];
    var a := t.attempts[i];
    if a.Open() && !a.sendClaimed && Source(a.target, kind) == source then SetAttempt(t, i, a.CompletedAs(o)) else t
  }

  lemma NoneClosed(t: Table, kind: Kind, source: string, o: Outcome)
    ensures ClosedAll(t, {}, kind, source, o) == t
  {
    hide Closing;
    assert ClosedAll(t, {}, kind, source, o).attempts == t.attempts;
  }

  lemma CloseNext(t: Table, done: set<string>, id: string, kind: Kind, source: string, o: Outcome)
    requires EntriesNamed(t) && id in t.deliveries && id !in done
    ensures var mid := ClosedAll(t, done, kind, source, o);
      && mid.deliveries[id] < |mid.attempts|
      && ClosedAll(t, done + {id}, kind, source, o) == CloseOne(mid, id, kind, source, o)
  {
    var mid := ClosedAll(t, done, kind, source, o);
    var next := ClosedAll(t, done + {id}, kind, source, o);
    var i := t.deliveries[id];
    assert mid.attempts[i] == t.attempts[i];
    forall j | 0 <= j < |t.attempts| && j != i ensures next.attempts[j] == mid.attempts[j] {
    }
    assert next.attempts == CloseOne(mid, id, kind, source, o).attempts;
  }

  /** Closing everything is what the invalidation of a source states element by element. */
  lemma ClosedAllIs(t: Table, mid: Table, kind: Kind, source: string, o: Outcome)
    requires EntriesNamed(t) && mid.deliveries == t.deliveries && mid.attempts == t.attempts
    ensures ClosedAll(mid, mid.deliveries.Keys, kind, source, o)
            == mid.(attempts := seq(|t.attempts|, i requires 0 <= i < |t.attempts| =>
                                    if Unclaimed(t, i) && Source(t.attempts[i].target, kind) == source
                                    then t.attempts[i].CompletedAs(o) else t.attempts[i]))
  {
    forall i | 0 <= i < |t.attempts|
      ensures ClosedAll(mid, mid.deliveries.Keys, kind, source, o).attempts[i]
              == if Unclaimed(t, i) && Source(t.attempts[i].target, kind) == source then t.attempts[i].CompletedAs(o) else t.attempts[i]
    {
    }
  }
}
