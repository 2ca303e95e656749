/** The context snapshot store as it runs: two maps and one mutable entry per snapshot. Every method
    is one critical section; `now` is its clock reading. Each leaves exactly the table that
    SnapshotTable computes. */
module SnapshotStore {
  import opened Basics
  import opened SnapshotTable

  /** One stored snapshot; only its state and the time of its retirement change. */
  class Entry {
    const info: Info
    var state: ContextState
    var retiredAt: Option<Time>

    constructor (info: Info)
      ensures this.info == info && View() == Snapshot(info, Active, None)
    {
      this.info, state, retiredAt := info, Active, None;
    }

    ghost function View(): Snapshot
      reads this
    {
      Snapshot(info, state, retiredAt)
    }
  }

  datatype Answer = Answered(created: Created) | NoFreshRef

  /** The first of the drawn references that no stored snapshot has. */
  function FirstUnused(t: Table, draws: seq<string>): (r: Option<string>)
    ensures r.Some? ==> r.value in draws && r.value !in t.byRef
    ensures r.None? ==> forall d :: d in draws ==> d in t.byRef
  {
    if draws == [] then None else if draws[0] !in t.byRef then Some(draws[0]) else FirstUnused(t, draws[1..])
  }

  lemma {:induction false} FirstUnusedExactly(t: Table, draws: seq<string>, ref: string)
    ensures FirstUnused(t, draws) == Some(ref)
            <==> exists i :: 0 <= i < |draws| && draws[i] == ref && ref !in t.byRef && forall k :: 0 <= k < i ==> draws[k] in t.byRef
  {
    if draws != [] && draws[0] in t.byRef {
      FirstUnusedExactly(t, draws[1..], ref);
      if i :| 0 <= i < |draws| && draws[i] == ref && ref !in t.byRef && forall k :: 0 <= k < i ==> draws[k] in t.byRef {
        assert draws[1..][i - 1] == ref;
      }
      if i :| 0 <= i < |draws[1..]| && draws[1..][i] == ref && ref !in t.byRef && forall k :: 0 <= k < i ==> draws[1..][k] in t.byRef {
        assert draws[i + 1] == ref;
        forall k | 0 <= k < i + 1 ensures draws[k] in t.byRef {
          if k > 0 { assert draws[1..][k - 1] == draws[k]; }
        }
      }
    }
  }

  class Store {
    const config: Config
    var byRef: map<string, Entry>
    var current: map<TopicKey, string>

    /** Every entry is stored under its own reference, so no two keys share one. */
    ghost predicate Linked()
      reads this
    {
      forall ref :: ref in byRef ==> byRef[ref].info.ref == ref
    }

    ghost function View(): Table
      reads this, byRef.Values
    {
      Table(map ref | ref in byRef :: byRef[ref].View(), current)
    }

    ghost predicate Valid()
      reads this, byRef.Values
    {
      config.Valid() && Linked() && Inv(View(), config)
    }

    constructor (config: Config)
      requires config.Valid()
      ensures Valid() && this.config == config && View() == EMPTY && byRef == map[]
    {
      this.config, byRef, current := config, map[], map[];
    }

    method Retire(ref: string, why: ContextState, now: Time)
      requires Linked() && ref in byRef
      modifies this`current, byRef[ref]
      ensures byRef == old(byRef) && View() == SnapshotTable.Retire(old(View()), ref, why, now)
    {
      var entry := byRef[ref];
      if entry.state != Active {
        return;
      }
      ghost var before := View();
      entry.state, entry.retiredAt := why, Some(now);
      assert View().byRef == before.byRef[ref := before.byRef[ref].RetiredAs(why, now)];
      var key := entry.info.Owner();
      if key in current && current[key] == entry.info.ref {
        current := current - {key};
      }
    }

    method Delete(ref: string)
      requires Linked()
      modifies this`byRef
      ensures Linked() && byRef == old(byRef) - {ref} && View() == Table(old(View()).byRef - {ref}, old(View()).current)
    {
      byRef := byRef - {ref};
    }

    /** cleanupLocked: the entries are visited in whatever order the map yields them. */
    method Cleanup(now: Time)
      requires Valid()
      modifies this`byRef, this`current, byRef.Values
      ensures Valid() && byRef.Values <= old(byRef.Values) && View() == SnapshotTable.Cleanup(old(View()), now, config)
    {
      hide Inv, Visited, Swept, Forgotten, Settled, PointsAtOverdue, SnapshotTable.Cleanup, Store.View;
      ghost var before := View();
      var todo := byRef.Keys;
      SameKeys();
      Untouched(before, now, config);
      assert before.byRef.Keys - todo == {};
      while todo != {}
        invariant Linked() && byRef.Values <= old(byRef.Values) && todo <= byRef.Keys
        invariant todo <= before.byRef.Keys && View() == Swept(before, before.byRef.Keys - todo, now, config)
        decreases todo
      {
        var ref :| ref in todo;
        ghost var done := before.byRef.Keys - todo;
        SweepOne(before, done, ref, now, config);
        Visit(ref, now);
        todo := todo - {ref};
        assert before.byRef.Keys - todo == done + {ref};
      }
      assert before.byRef.Keys - todo == before.byRef.Keys;
      AllSwept(before, now, config);
      CleanupKeepsInv(before, now, config);
    }

    method Visit(ref: string, now: Time)
      requires Linked() && ref in byRef
      modifies this`byRef, this`current, byRef[ref]
      ensures Linked() && (byRef == old(byRef) || byRef == old(byRef) - {ref}) && View() == Visited(old(View()), ref, now, config)
    {
      hide SnapshotTable.Retire;
      var entry := byRef[ref];
      if entry.state == Active && entry.info.expiresAt <= now {
        Retire(ref, Expired, now);
        RetiredEntry(old(View()), ref, Expired, now);
        assert entry.View() == View().byRef[ref];
      }
      if entry.state != Active && entry.retiredAt.Some? && entry.retiredAt.value + config.tombstoneTTL <= now {
        Delete(ref);
      }
    }

    /** The loop of evictRetiredLocked. */
    method OldestRetired() returns (candidate: Option<string>)
      requires Valid()
      ensures if candidate.Some? then IsVictim(View(), candidate.value) else !HasRetired(View())
    {
      ghost var t := View();
      candidate := None;
      var todo := byRef.Keys;
      while todo != {}
        invariant todo <= byRef.Keys && OldestOf(t, byRef.Keys - todo, candidate)
        decreases todo
      {
        var ref :| ref in todo;
        todo := todo - {ref};
        assert EntryOk(ref, t.byRef[ref], config) && t.byRef[ref] == byRef[ref].View();
        assert candidate.Some? ==> t.byRef[candidate.value] == byRef[candidate.value].View();
        if byRef[ref].state != Active
           && (candidate.None? || byRef[ref].retiredAt.value < byRef[candidate.value].retiredAt.value)
        {
          candidate := Some(ref);
        }
      }
      AllRetired(t, byRef.Keys, candidate, config);
    }

    method Remove(ref: string)
      requires Linked() && ref in byRef
      modifies this`byRef, this`current
      ensures Linked() && byRef == old(byRef) - {ref} && View() == Evict(old(View()), ref)
    {
      var entry := byRef[ref];
      var key := entry.info.Owner();
      if key in current && current[key] == entry.info.ref {
        current := current - {key};
      }
      Delete(entry.info.ref);
    }

    /** evictRetiredLocked */
    method EvictRetired() returns (evicted: bool, ghost victim: string)
      requires Valid()
      modifies this`byRef, this`current
      ensures Valid() && byRef.Values <= old(byRef.Values)
      ensures evicted == HasRetired(old(View()))
      ensures if evicted
              then IsVictim(old(View()), victim) && View() == Evict(old(View()), victim)
                   && |View().byRef| < |old(View()).byRef|
              else View() == old(View())
    {
      hide Inv, IsVictim, Evict, Store.View;
      ghost var before := View();
      var candidate := OldestRetired();
      if candidate.None? {
        return false, "";
      }
      victim := candidate.value;
      VictimIsRetired(before, victim);
      EvictKeepsInv(before, victim, config);
      SameKeys();
      Remove(candidate.value);
      evicted := true;
    }

    lemma SameKeys()
      ensures View().byRef.Keys == byRef.Keys && |View().byRef| == |byRef|
    {
      var t := View().byRef;
      assert t.Keys == byRef.Keys;
      assert |t| == |t.Keys| && |byRef| == |byRef.Keys|;
    }

    method Draw(draws: seq<string>) returns (ref: Option<string>)
      requires Valid()
      ensures ref == FirstUnused(View(), draws)
    {
      var k := 0;
      while k < |draws|
        invariant k <= |draws| && FirstUnused(View(), draws[k..]) == FirstUnused(View(), draws)
      {
        if draws[k] !in byRef {
          return Some(draws[k]);
        }
        assert draws[k..][1..] == draws[k + 1..];
        k := k + 1;
      }
      ref := None;
    }

    /** create, given the references its four draws yield. */
    method Create(what: Candidate, draws: seq<string>, now: Time) returns (answer: Answer, ghost victim: string)
      requires Valid() && |draws| == 4 && "" !in draws
      modifies this, byRef.Values
      ensures Valid() && fresh(byRef.Values - old(byRef.Values))
      ensures var before := old(View()); var clean := SnapshotTable.Cleanup(before, now, config);
        match FirstUnused(clean, draws)
        case None => answer == NoFreshRef && View() == clean
        case Some(ref) =>
          Unused(before, ref, now, config) && VictimChosen(before, what, victim, now, config)
          && answer.Answered? && (View(), answer.created) == SnapshotTable.Create(before, what, ref, victim, now, config)
    {
      hide Inv, SnapshotTable.Cleanup, SnapshotTable.Create, VictimChosen, Store.View, FirstUnused;
      Cleanup(now);
      var ref := Draw(draws);
      if ref.None? {
        return NoFreshRef, "";
      }
      var created, it := Place(what, ref.value, now, old(View()));
      answer, victim := Answered(created), it;
    }

    /** The part of create that follows the draw. */
    method Place(what: Candidate, ref: string, now: Time, ghost before: Table) returns (created: Created, ghost victim: string)
      requires Valid() && View() == SnapshotTable.Cleanup(before, now, config) && Inv(before, config) && Unused(before, ref, now, config)
      modifies this`byRef, this`current, byRef.Values
      ensures Valid() && fresh(byRef.Values - old(byRef.Values))
      ensures VictimChosen(before, what, victim, now, config)
      ensures (View(), created) == SnapshotTable.Create(before, what, ref, victim, now, config)
    {
      hide Inv, SnapshotTable.Cleanup, SnapshotTable.MakeRoom, IsVictim, Evict, Prepared, NextRevision, Insert, Store.View, HasRetired, Basics.Lookup;
      var key := TopicKey(what.actorUID, what.topicID);
      var previous, revision := Prepare(key, now, before);
      victim := MakeRoom();
      SameKeys();
      assert View() == Roomy(before, key, victim, now, config);
      if |byRef| >= config.maxEntries {
        return Full, victim;
      }
      var info := Info(ref, what, now, now + config.ttl, revision);
      CreateKeepsInv(before, what, ref, victim, now, config);
      Add(info);
      created := Stored(info, previous);
    }

    /** The part of create that retires the previous snapshot of the same key. */
    method Prepare(key: TopicKey, now: Time, ghost before: Table) returns (previous: string, revision: nat)
      requires Valid() && View() == SnapshotTable.Cleanup(before, now, config) && Inv(before, config)
      modifies this`current, byRef.Values
      ensures Valid() && byRef == old(byRef) && View() == Prepared(before, key, now, config)
      ensures previous == Basics.Lookup(SnapshotTable.Cleanup(before, now, config).current, key)
      ensures revision == NextRevision(before, key, now, config)
    {
      hide Inv, SnapshotTable.Cleanup;
      ghost var clean := View();
      revision := 1;
      previous := if key in current then current[key] else "";
      PreparedKeepsInv(before, key, now, config);
      if previous != "" && previous in byRef {
        revision := byRef[previous].info.revision + 1;
        Retire(previous, Replaced, now);
      } else {
        NoEmptyRef(clean, config);
      }
    }

    /** The eviction loop of create: it turns at most once. */
    method MakeRoom() returns (ghost victim: string)
      requires Valid()
      modifies this`byRef, this`current
      ensures Valid() && byRef.Values <= old(byRef.Values)
      ensures var ready := old(View());
        && (|ready.byRef| >= config.maxEntries && HasRetired(ready) ==> IsVictim(ready, victim))
        && View() == SnapshotTable.MakeRoom(ready, victim, config)
    {
      hide Inv, IsVictim, Evict, Store.View, HasRetired;
      ghost var ready := View();
      ghost var turns := 0;
      victim := "";
      SameKeys();
      AtMostMax(ready, config);
      while |byRef| >= config.maxEntries
        invariant Valid() && byRef.Values <= old(byRef.Values) && turns <= 1
        invariant |View().byRef| == |byRef|
        invariant turns == 0 ==> View() == ready && victim == ""
        invariant turns == 1 ==> IsVictim(ready, victim) && victim in ready.byRef && View() == Evict(ready, victim) && |View().byRef| < config.maxEntries
                                 && |ready.byRef| >= config.maxEntries
        decreases |View().byRef|
      {
        var evicted, it := EvictRetired();
        SameKeys();
        if !evicted {
          NotEvictable(ready, config);
          return;
        }
        victim, turns := it, turns + 1;
        VictimIsRetired(ready, victim);
      }
      if turns == 1 { VictimIsRetired(ready, victim); }
    }

    method Add(info: Info)
      requires Linked()
      modifies this`byRef, this`current
      ensures Linked() && View() == Insert(old(View()), info) && fresh(byRef.Values - old(byRef.Values))
    {
      var entry := new Entry(info);
      ghost var was := View();
      byRef := byRef[info.ref := entry];
      current := current[info.Owner() := info.ref];
      assert View().byRef == was.byRef[info.ref := Snapshot(info, Active, None)];
    }

    /** lookup: the snapshot comes with the answer Active only. */
    method Lookup(ref: string, now: Time) returns (status: ContextState, found: Option<Info>)
      requires Valid()
      modifies this`byRef, this`current, byRef.Values
      ensures Valid() && byRef.Values <= old(byRef.Values)
      ensures (View(), status) == Observe(old(View()), ref, now, config)
      ensures found == if status == Active then Some(old(View()).byRef[ref].info) else None
    {
      hide Inv, SnapshotTable.Cleanup, SnapshotTable.Retire;
      ghost var before := View();
      Cleanup(now);
      ghost var clean := View();
      KeptInfo(before, ref, now, config);
      if ref !in byRef {
        return NotFound, None;
      }
      if byRef[ref].state != Active {
        return byRef[ref].state, None;
      }
      var key := byRef[ref].info.Owner();
      if Basics.Lookup(current, key) != ref {
        RetireKeepsInv(clean, ref, Replaced, now, config);
        Retire(ref, Replaced, now);
        return Replaced, None;
      }
      return Active, Some(byRef[ref].info);
    }

    /** withCurrent: `found` is the snapshot handed to the callback, if the callback runs. */
    method WithCurrent(ref: string, revision: nat, now: Time) returns (status: ContextState, found: Option<Info>)
      requires Valid()
      modifies this`byRef, this`current, byRef.Values
      ensures Valid() && byRef.Values <= old(byRef.Values)
      ensures (View(), status) == SnapshotTable.WithCurrent(old(View()), ref, revision, now, config)
      ensures found == if status == Active then Some(old(View()).byRef[ref].info) else None
    {
      hide Inv, Observe;
      ghost var before := View();
      status, found := Lookup(ref, now);
      ObservedInfo(before, ref, now, config);
      if found.Some? && found.value.revision != revision {
        return Replaced, None;
      }
    }

    method CurrentRef(actorUID: int, topicID: string, now: Time) returns (ref: string)
      requires Valid()
      modifies this`byRef, this`current, byRef.Values
      ensures Valid() && byRef.Values <= old(byRef.Values)
      ensures if actorUID <= 0 || topicID == "" then ref == "" && View() == old(View())
              else View() == SnapshotTable.Cleanup(old(View()), now, config)
                   && ref == Basics.Lookup(View().current, TopicKey(actorUID, topicID))
    {
      if actorUID <= 0 || topicID == "" {
        return "";
      }
      Cleanup(now);
      ref := Basics.Lookup(current, TopicKey(actorUID, topicID));
    }

    method Invalidate(ref: string, actorUID: int, now: Time) returns (known: bool)
      requires Valid()
      modifies this`byRef, this`current, byRef.Values
      ensures Valid() && byRef.Values <= old(byRef.Values)
      ensures (View(), known) == SnapshotTable.Invalidate(old(View()), ref, actorUID, now, config)
    {
      hide Inv, SnapshotTable.Cleanup;
      Cleanup(now);
      if ref !in byRef || byRef[ref].info.what.actorUID != actorUID {
        return false;
      }
      ghost var clean := View();
      RetireKeepsInv(clean, ref, Invalidated, now, config);
      if byRef[ref].state == Active {
        Retire(ref, Invalidated, now);
      }
      known := true;
    }
  }

  // The sweep -------------------------------------------------------------------

  /** The table when the cleanup loop has visited `done`. */
  ghost function Swept(t: Table, done: set<string>, now: Time, config: Config): Table {
    Table(map ref | ref in t.byRef && !(ref in done && Forgotten(t.byRef[ref], now, config)) ::
            if ref in done then Settled(t.byRef[ref], now) else t.byRef[ref],
          map key | key in t.current && !(PointsAtOverdue(t, key, now) && t.current[key] in done) :: t.current[key])
  }

  lemma Untouched(t: Table, now: Time, config: Config)
    ensures Swept(t, {}, now, config) == t
  {
    assert Swept(t, {}, now, config).byRef == t.byRef;
    assert Swept(t, {}, now, config).current == t.current;
  }

  lemma AllSwept(t: Table, now: Time, config: Config)
    requires Inv(t, config)
    ensures Swept(t, t.byRef.Keys, now, config) == SnapshotTable.Cleanup(t, now, config)
  {
  }

  /** The table after one turn of the loop. */
  ghost function Visited(t: Table, ref: string, now: Time, config: Config): Table
    requires ref in t.byRef
  {
    var settled := if t.byRef[ref].Overdue(now) then SnapshotTable.Retire(t, ref, Expired, now) else t;
    if Forgotten(t.byRef[ref], now, config) then Table(settled.byRef - {ref}, settled.current) else settled
  }

  lemma RetiredEntry(t: Table, ref: string, why: ContextState, now: Time)
    requires ref in t.byRef
    ensures SnapshotTable.Retire(t, ref, why, now).byRef == t.byRef[ref := t.byRef[ref].RetiredAs(why, now)]
  {
  }

  lemma SweepOne(t: Table, done: set<string>, ref: string, now: Time, config: Config)
    requires Inv(t, config) && ref in t.byRef && ref !in done
    ensures var swept := Swept(t, done, now, config);
      ref in swept.byRef && Swept(t, done + {ref}, now, config) == Visited(swept, ref, now, config)
  {
    SweepOneEntry(t, done, ref, now, config);
    SweepOneKey(t, done, ref, now, config);
  }

  lemma SweepOneEntry(t: Table, done: set<string>, ref: string, now: Time, config: Config)
    requires ref in t.byRef && ref !in done
    ensures var swept := Swept(t, done, now, config);
      ref in swept.byRef && swept.byRef[ref] == t.byRef[ref] && Swept(t, done + {ref}, now, config).byRef == Visited(swept, ref, now, config).byRef
  {
    hide Forgotten, PointsAtOverdue;
    var swept := Swept(t, done, now, config);
    var settled := if t.byRef[ref].Overdue(now) then SnapshotTable.Retire(swept, ref, Expired, now) else swept;
    var next := Swept(t, done + {ref}, now, config);
    assert settled.byRef == swept.byRef[ref := Settled(t.byRef[ref], now)];
    assert next.byRef == if Forgotten(t.byRef[ref], now, config) then settled.byRef - {ref} else settled.byRef;
  }

  lemma SweepOneKey(t: Table, done: set<string>, ref: string, now: Time, config: Config)
    requires Inv(t, config) && ref in t.byRef && ref !in done
    ensures var swept := Swept(t, done, now, config);
      ref in swept.byRef && Swept(t, done + {ref}, now, config).current == Visited(swept, ref, now, config).current
  {
    hide Forgotten;
    var swept := Swept(t, done, now, config);
    var settled := if t.byRef[ref].Overdue(now) then SnapshotTable.Retire(swept, ref, Expired, now) else swept;
    assert Swept(t, done + {ref}, now, config).current == settled.current;
  }

  // Eviction --------------------------------------------------------------------

  /** `candidate` is the entry the eviction loop holds once it has visited `done`. */
  ghost predicate OldestOf(t: Table, done: set<string>, candidate: Option<string>) {
    && done <= t.byRef.Keys
    && (candidate.Some? ==> candidate.value in done && !t.byRef[candidate.value].IsActive() && t.byRef[candidate.value].retiredAt.Some?)
    && forall ref :: ref in done && !t.byRef[ref].IsActive() ==>
                       candidate.Some? && t.byRef[ref].retiredAt.Some?
                       && t.byRef[candidate.value].retiredAt.value <= t.byRef[ref].retiredAt.value
  }

  lemma AllRetired(t: Table, done: set<string>, candidate: Option<string>, config: Config)
    requires OldestOf(t, done, candidate) && done == t.byRef.Keys
    ensures if candidate.Some? then IsVictim(t, candidate.value) else !HasRetired(t)
  {
  }

  lemma VictimIsRetired(t: Table, victim: string)
    requires IsVictim(t, victim)
    ensures victim in t.byRef && !t.byRef[victim].IsActive() && HasRetired(t)
  {
  }

  lemma NoEmptyRef(t: Table, config: Config)
    requires Inv(t, config)
    ensures "" !in t.byRef && forall key :: key in t.current ==> t.current[key] != ""
  {
  }

  lemma NotEvictable(t: Table, config: Config)
    requires Inv(t, config) && !HasRetired(t)
    ensures SnapshotTable.MakeRoom(t, "", config) == t
  {
  }

  lemma KeptInfo(t: Table, ref: string, now: Time, config: Config)
    ensures var clean := SnapshotTable.Cleanup(t, now, config);
      ref in clean.byRef ==> ref in t.byRef && clean.byRef[ref].info == t.byRef[ref].info
  {
  }

  lemma ObservedInfo(t: Table, ref: string, now: Time, config: Config)
    requires Inv(t, config)
    ensures var (after, status) := Observe(t, ref, now, config);
      status == Active ==> ref in t.byRef && ref in after.byRef && after.byRef[ref].info == t.byRef[ref].info
  {
    ActiveMeansCurrent(t, ref, now, config);
  }
}
