/** What the context snapshot store computes, as functions on an immutable table.
    The store itself (SnapshotStore.dfy) updates its maps and entries in place and is
    proved equal to these functions; the properties of the store are proved here. */
module SnapshotTable {
  import opened Basics

  datatype ContextState =
    | Active | Expired | Replaced | Invalidated   // states an entry can be in
    | NotFound | Mismatch | Unavailable           // answers only

  datatype TopicKey = TopicKey(actorUID: int, topicID: string)

  /** What a caller hands to create. */
  datatype Candidate = Candidate(
    actorUID: int, topicID: string, agentUID: int, artifact: Artifact,
    displayedVersion: int, previewRoute: Route, pageContext: string, observedAt: string)

  /** The part of a snapshot that never changes after create. */
  datatype Info = Info(ref: string, what: Candidate, createdAt: Time, expiresAt: Time, revision: nat) {
    function Owner(): TopicKey {
      TopicKey(what.actorUID, what.topicID)
    }
  }

  datatype Snapshot = Snapshot(info: Info, state: ContextState, retiredAt: Option<Time>) {
    predicate IsActive() { state == Active }

    predicate Overdue(now: Time) { IsActive() && info.expiresAt <= now }

    function RetiredAs(why: ContextState, now: Time): Snapshot {
      if IsActive() then this.(state := why, retiredAt := Some(now)) else this
    }
  }

  datatype Config = Config(ttl: Time, tombstoneTTL: Time, maxEntries: nat) {
    predicate Valid() { 0 < ttl && 0 < tombstoneTTL && 0 < maxEntries }
  }

  datatype Table = Table(byRef: map<string, Snapshot>, current: map<TopicKey, string>)

  const EMPTY: Table := Table(map[], map[])

  // The operations ----------------------------------------------------------

  function Retire(t: Table, ref: string, why: ContextState, now: Time): Table
    requires ref in t.byRef
  {
    var s := t.byRef[ref];
    if !s.IsActive() then t
    else Table(t.byRef[ref := s.RetiredAs(why, now)],
               if Lookup(t.current, s.info.Owner()) == s.info.ref then t.current - {s.info.Owner()} else t.current)
  }

  /** One entry after a cleanup pass: an overdue entry is retired as expired. */
  function Settled(s: Snapshot, now: Time): Snapshot {
    if s.Overdue(now) then s.RetiredAs(Expired, now) else s
  }

  /** Whether a cleanup pass drops the entry. */
  predicate Forgotten(s: Snapshot, now: Time, config: Config) {
    var after := Settled(s, now);
    !after.IsActive() && after.retiredAt.Some? && after.retiredAt.value + config.tombstoneTTL <= now
  }

  /** Whether `key` names an entry that a cleanup pass retires. */
  predicate PointsAtOverdue(t: Table, key: TopicKey, now: Time) {
    key in t.current && t.current[key] in t.byRef
    && t.byRef[t.current[key]].Overdue(now)
    && t.byRef[t.current[key]].info.Owner() == key
    && t.byRef[t.current[key]].info.ref == t.current[key]
  }

  function Cleanup(t: Table, now: Time, config: Config): Table {
    Table(map ref | ref in t.byRef && !Forgotten(t.byRef[ref], now, config) :: Settled(t.byRef[ref], now),
          map key | key in t.current && !PointsAtOverdue(t, key, now) :: t.current[key])
  }

  /** A retired entry that eviction may choose: none was retired earlier. */
  predicate IsVictim(t: Table, ref: string) {
    ref in t.byRef && !t.byRef[ref].IsActive()
    && forall other :: other in t.byRef && !t.byRef[other].IsActive() && t.byRef[other].retiredAt.Some? ==>
                         t.byRef[ref].retiredAt.Some?
                         && t.byRef[ref].retiredAt.value <= t.byRef[other].retiredAt.value
  }

  function Evict(t: Table, ref: string): Table
    requires ref in t.byRef
  {
    var info := t.byRef[ref].info;
    Table(t.byRef - {ref},
          if Lookup(t.current, info.Owner()) == info.ref then t.current - {info.Owner()} else t.current)
  }

  datatype Created =
    | Stored(info: Info, previous: string)
    | Full

  /** The table after cleanup and after the previous snapshot of the same key is retired. */
  function Prepared(t: Table, key: TopicKey, now: Time, config: Config): Table {
    var clean := Cleanup(t, now, config);
    var previous := Lookup(clean.current, key);
    if previous in clean.byRef then Retire(clean, previous, Replaced, now) else clean
  }

  function NextRevision(t: Table, key: TopicKey, now: Time, config: Config): nat {
    var clean := Cleanup(t, now, config);
    var previous := Lookup(clean.current, key);
    if previous in clean.byRef then clean.byRef[previous].info.revision + 1 else 1
  }

  /** The eviction loop, given the entry it picks: nothing but a retired entry is evicted. */
  function MakeRoom(t: Table, victim: string, config: Config): Table {
    if |t.byRef| >= config.maxEntries && victim in t.byRef && !t.byRef[victim].IsActive() then Evict(t, victim) else t
  }

  function Insert(t: Table, info: Info): Table {
    Table(t.byRef[info.ref := Snapshot(info, Active, None)], t.current[info.Owner() := info.ref])
  }

  /** The table in which create looks for a free slot. */
  function Roomy(t: Table, key: TopicKey, victim: string, now: Time, config: Config): Table {
    MakeRoom(Prepared(t, key, now, config), victim, config)
  }

  /** create, given the fresh reference it drew and the entry its eviction loop picks. */
  function Create(t: Table, what: Candidate, ref: string, victim: string, now: Time, config: Config): (Table, Created) {
    var key := TopicKey(what.actorUID, what.topicID);
    var roomy := Roomy(t, key, victim, now, config);
    if |roomy.byRef| >= config.maxEntries then (roomy, Full)
    else
      var info := Info(ref, what, now, now + config.ttl, NextRevision(t, key, now, config));
      (Insert(roomy, info), Stored(info, Lookup(Cleanup(t, now, config).current, key)))
  }

  /** lookup: the answer and the table it leaves. */
  function Observe(t: Table, ref: string, now: Time, config: Config): (Table, ContextState) {
    var clean := Cleanup(t, now, config);
    if ref !in clean.byRef then (clean, NotFound)
    else if !clean.byRef[ref].IsActive() then (clean, clean.byRef[ref].state)
    else if Lookup(clean.current, clean.byRef[ref].info.Owner()) != ref then
      (Retire(clean, ref, Replaced, now), Replaced)
    else (clean, Active)
  }

  /** withCurrent: Active exactly when the callback runs. */
  function WithCurrent(t: Table, ref: string, revision: nat, now: Time, config: Config): (Table, ContextState) {
    var (after, status) := Observe(t, ref, now, config);
    if status == Active && (ref !in after.byRef || after.byRef[ref].info.revision != revision) then (after, Replaced)
    else (after, status)
  }

  function Invalidate(t: Table, ref: string, actorUID: int, now: Time, config: Config): (Table, bool) {
    var clean := Cleanup(t, now, config);
    if ref !in clean.byRef || clean.byRef[ref].info.what.actorUID != actorUID then (clean, false)
    else (Retire(clean, ref, Invalidated, now), true)
  }

  // The invariant -----------------------------------------------------------

  predicate EntryOk(ref: string, s: Snapshot, config: Config) {
    s.info.ref == ref && ref != ""
    && s.state in {Active, Expired, Replaced, Invalidated}
    && (s.IsActive() <==> s.retiredAt.None?)
    && s.info.expiresAt == s.info.createdAt + config.ttl
  }

  /** Active entries and `current` are inverse to each other. */
  predicate Bijection(t: Table) {
    && (forall ref :: ref in t.byRef && t.byRef[ref].IsActive() ==>
                        t.byRef[ref].info.Owner() in t.current && t.current[t.byRef[ref].info.Owner()] == ref)
    && (forall key :: key in t.current ==>
                        t.current[key] in t.byRef && t.byRef[t.current[key]].IsActive()
                        && t.byRef[t.current[key]].info.Owner() == key)
  }

  predicate Inv(t: Table, config: Config) {
    && (forall ref :: ref in t.byRef ==> EntryOk(ref, t.byRef[ref], config))
    && Bijection(t)
    && |t.byRef| <= config.maxEntries
  }

  lemma RetireKeepsInv(t: Table, ref: string, why: ContextState, now: Time, config: Config)
    requires Inv(t, config) && ref in t.byRef && why in {Expired, Replaced, Invalidated}
    ensures Inv(Retire(t, ref, why, now), config)
  {
  }

  lemma CleanupKeepsInv(t: Table, now: Time, config: Config)
    requires Inv(t, config)
    ensures Inv(Cleanup(t, now, config), config)
  {
    var after := Cleanup(t, now, config);
    assert after.byRef.Keys <= t.byRef.Keys;
    SubsetSize(after.byRef.Keys, t.byRef.Keys);
    assert |after.byRef.Keys| == |after.byRef| && |t.byRef.Keys| == |t.byRef|;
  }

  lemma EvictKeepsInv(t: Table, ref: string, config: Config)
    requires Inv(t, config) && ref in t.byRef && !t.byRef[ref].IsActive()
    ensures Inv(Evict(t, ref), config) && |Evict(t, ref).byRef| == |t.byRef| - 1
  {
    assert (t.byRef - {ref}).Keys == t.byRef.Keys - {ref};
    assert |t.byRef.Keys| == |t.byRef| && |(t.byRef - {ref}).Keys| == |t.byRef - {ref}|;
  }

  lemma PreparedKeepsInv(t: Table, key: TopicKey, now: Time, config: Config)
    requires Inv(t, config)
    ensures Inv(Prepared(t, key, now, config), config)
    ensures key !in Prepared(t, key, now, config).current
  {
    CleanupKeepsInv(t, now, config);
    var clean := Cleanup(t, now, config);
    var previous := Lookup(clean.current, key);
    if previous in clean.byRef {
      RetireKeepsInv(clean, previous, Replaced, now, config);
    }
  }

  /** Preparing a key retires its current snapshot, if any, and touches nothing else. */
  lemma PreparedRetiresOnlyPrevious(t: Table, key: TopicKey, now: Time, config: Config)
    requires Inv(t, config)
    ensures var clean := Cleanup(t, now, config);
      var ready := Prepared(t, key, now, config);
      && Inv(clean, config)
      && ready.current == clean.current - {key}
      && (key !in clean.current ==> ready.byRef == clean.byRef && NextRevision(t, key, now, config) == 1)
      && (key in clean.current ==>
            var previous := clean.current[key];
            previous in clean.byRef && clean.byRef[previous].info.Owner() == key
            && ready.byRef == clean.byRef[previous := clean.byRef[previous].RetiredAs(Replaced, now)]
            && NextRevision(t, key, now, config) == clean.byRef[previous].info.revision + 1)
  {
    CleanupKeepsInv(t, now, config);
    hide Cleanup;
    var clean := Cleanup(t, now, config);
    if key in clean.current {
      assert clean.byRef[clean.current[key]].IsActive();
    } else {
      assert "" !in clean.byRef;
    }
  }

  // create ------------------------------------------------------------------

  predicate HasRetired(t: Table) {
    exists ref :: ref in t.byRef && !t.byRef[ref].IsActive()
  }

  /** `victim` is an entry the eviction loop may pick, if it has any to pick from. */
  predicate VictimChosen(t: Table, what: Candidate, victim: string, now: Time, config: Config) {
    var ready := Prepared(t, TopicKey(what.actorUID, what.topicID), now, config);
    |ready.byRef| >= config.maxEntries && HasRetired(ready) ==> IsVictim(ready, victim)
  }

  /** A new reference: the store checks it against the entries left after cleanup. */
  predicate Unused(t: Table, ref: string, now: Time, config: Config) {
    ref != "" && ref !in Cleanup(t, now, config).byRef
  }

  lemma MakeRoomKeepsInv(t: Table, victim: string, config: Config)
    requires config.Valid() && Inv(t, config)
    requires |t.byRef| >= config.maxEntries && HasRetired(t) ==> IsVictim(t, victim)
    ensures var roomy := MakeRoom(t, victim, config);
      && Inv(roomy, config)
      && (|roomy.byRef| < config.maxEntries <==> |t.byRef| < config.maxEntries || HasRetired(t))
      && roomy.current == t.current
      && (forall r :: r in roomy.byRef ==> r in t.byRef && roomy.byRef[r] == t.byRef[r])
      && (|t.byRef| < config.maxEntries || !HasRetired(t) ==> roomy == t)
  {
    if |t.byRef| >= config.maxEntries && victim in t.byRef && !t.byRef[victim].IsActive() {
      EvictKeepsInv(t, victim, config);
    }
  }

  /** One eviction is enough: there is a free slot, unless every slot holds an active snapshot
      of another key. */
  lemma RoomyHasRoom(t: Table, what: Candidate, victim: string, now: Time, config: Config)
    requires config.Valid() && Inv(t, config) && VictimChosen(t, what, victim, now, config)
    ensures var key := TopicKey(what.actorUID, what.topicID);
      var clean := Cleanup(t, now, config);
      var roomy := Roomy(t, key, victim, now, config);
      && Inv(roomy, config)
      && roomy.current == clean.current - {key}
      && roomy.byRef.Keys <= clean.byRef.Keys
      && (|roomy.byRef| >= config.maxEntries <==>
            |clean.byRef| == config.maxEntries && key !in clean.current && !HasRetired(clean))
      && (|roomy.byRef| >= config.maxEntries ==> roomy == clean)
  {
    hide Inv, Cleanup, Prepared, MakeRoom, HasRetired, IsVictim;
    var key := TopicKey(what.actorUID, what.topicID);
    var clean := Cleanup(t, now, config);
    var ready := Prepared(t, key, now, config);
    PreparedKeepsInv(t, key, now, config);
    PreparedRetiresOnlyPrevious(t, key, now, config);
    if key in clean.current {
      PreviousIsActive(clean, key, config);
      RetiredIsRetired(ready, clean.current[key]);
    }
    RoomyFrom(clean, ready, key, victim, config);
  }

  lemma PreviousIsActive(t: Table, key: TopicKey, config: Config)
    requires Inv(t, config) && key in t.current
    ensures t.current[key] in t.byRef && t.byRef[t.current[key]].IsActive()
  {
  }

  /** The eviction after the previous snapshot of the key is retired. */
  lemma RoomyFrom(clean: Table, ready: Table, key: TopicKey, victim: string, config: Config)
    requires config.Valid() && Inv(clean, config) && Inv(ready, config)
    requires ready.current == clean.current - {key} && ready.byRef.Keys == clean.byRef.Keys
    requires if key in clean.current then HasRetired(ready) else ready.byRef == clean.byRef
    requires |ready.byRef| >= config.maxEntries && HasRetired(ready) ==> IsVictim(ready, victim)
    ensures var roomy := MakeRoom(ready, victim, config);
      && Inv(roomy, config) && roomy.current == clean.current - {key} && roomy.byRef.Keys <= clean.byRef.Keys
      && (|roomy.byRef| >= config.maxEntries <==>
            |clean.byRef| == config.maxEntries && key !in clean.current && !HasRetired(clean))
      && (|roomy.byRef| >= config.maxEntries ==> roomy == clean)
  {
    hide Inv, MakeRoom, HasRetired, IsVictim;
    MakeRoomKeepsInv(ready, victim, config);
    AtMostMax(clean, config);
    assert |ready.byRef.Keys| == |ready.byRef| && |clean.byRef.Keys| == |clean.byRef|;
    if key !in clean.current {
      assert ready == clean;
    }
  }

  lemma RetiredIsRetired(t: Table, ref: string)
    requires ref in t.byRef && !t.byRef[ref].IsActive()
    ensures HasRetired(t)
  {
  }

  lemma AtMostMax(t: Table, config: Config)
    requires Inv(t, config)
    ensures |t.byRef| <= config.maxEntries
  {
  }

  lemma InsertKeepsInv(t: Table, info: Info, config: Config)
    requires Inv(t, config) && |t.byRef| < config.maxEntries
    requires info.ref != "" && info.ref !in t.byRef && info.expiresAt == info.createdAt + config.ttl
    requires info.Owner() !in t.current
    ensures Inv(Insert(t, info), config)
  {
    hide Bijection;
    var after := Insert(t, info);
    InsertKeepsBijection(t, info);
    assert after.byRef.Keys == t.byRef.Keys + {info.ref};
    assert |after.byRef.Keys| == |after.byRef| && |t.byRef.Keys| == |t.byRef|;
  }

  lemma InsertKeepsBijection(t: Table, info: Info)
    requires Bijection(t) && info.ref !in t.byRef && info.Owner() !in t.current
    ensures Bijection(Insert(t, info))
  {
  }

  lemma CreateKeepsInv(t: Table, what: Candidate, ref: string, victim: string, now: Time, config: Config)
    requires config.Valid() && Inv(t, config)
    requires Unused(t, ref, now, config) && VictimChosen(t, what, victim, now, config)
    ensures Inv(Create(t, what, ref, victim, now, config).0, config)
  {
    hide Inv, Cleanup, Roomy, NextRevision, Insert, Lookup;
    RoomyHasRoom(t, what, victim, now, config);
    var key := TopicKey(what.actorUID, what.topicID);
    var roomy := Roomy(t, key, victim, now, config);
    if |roomy.byRef| < config.maxEntries {
      InsertKeepsInv(roomy, Info(ref, what, now, now + config.ttl, NextRevision(t, key, now, config)), config);
    }
  }

  /** create fails as full exactly when every slot holds an active snapshot of another key. In
      that case the caller has no current snapshot to lose, and the failure leaves the table
      as cleanup left it. */
  lemma FullExactly(t: Table, what: Candidate, ref: string, victim: string, now: Time, config: Config)
    requires config.Valid() && Inv(t, config) && VictimChosen(t, what, victim, now, config)
    ensures var key := TopicKey(what.actorUID, what.topicID);
      var clean := Cleanup(t, now, config);
      var (after, made) := Create(t, what, ref, victim, now, config);
      && (made.Full? <==> |clean.byRef| == config.maxEntries
                          && forall r :: r in clean.byRef ==>
                               clean.byRef[r].IsActive() && clean.byRef[r].info.Owner() != key)
      && (made.Full? ==> after == clean && key !in clean.current)
  {
    hide Cleanup, Roomy, NextRevision, Insert, Lookup;
    RoomyHasRoom(t, what, victim, now, config);
    CleanupKeepsInv(t, now, config);
    var clean := Cleanup(t, now, config);
    var key := TopicKey(what.actorUID, what.topicID);
    if key in clean.current {
      assert clean.byRef[clean.current[key]].info.Owner() == key;
    }
  }

  /** A stored snapshot is current at once; its revision follows the snapshot it replaces. */
  lemma CreateReplaces(t: Table, what: Candidate, ref: string, victim: string, now: Time, config: Config)
    requires config.Valid() && Inv(t, config)
    requires Unused(t, ref, now, config) && VictimChosen(t, what, victim, now, config)
    ensures var key := TopicKey(what.actorUID, what.topicID);
      var clean := Cleanup(t, now, config);
      var (after, made) := Create(t, what, ref, victim, now, config);
      made.Stored? ==>
        && after.current == clean.current[key := ref]
        && ref in after.byRef && after.byRef[ref] == Snapshot(made.info, Active, None)
        && made.previous == Lookup(clean.current, key)
        && WithCurrent(after, ref, made.info.revision, now, config).1 == Active
        && (key in clean.current ==>
              made.previous in clean.byRef
              && made.info.revision == clean.byRef[made.previous].info.revision + 1)
        && (key !in clean.current ==> made.info.revision == 1)
  {
    hide Inv, Cleanup, Roomy, NextRevision, WithCurrent, Unused, VictimChosen;
    var key := TopicKey(what.actorUID, what.topicID);
    RoomyHasRoom(t, what, victim, now, config);
    PreparedRetiresOnlyPrevious(t, key, now, config);
    CreateKeepsInv(t, what, ref, victim, now, config);
    var (after, made) := Create(t, what, ref, victim, now, config);
    if made.Stored? {
      FreshIsCurrent(after, ref, now, config);
    }
  }

  lemma FreshIsCurrent(t: Table, ref: string, now: Time, config: Config)
    requires Inv(t, config) && ref in t.byRef && t.byRef[ref].IsActive() && now < t.byRef[ref].info.expiresAt
    ensures WithCurrent(t, ref, t.byRef[ref].info.revision, now, config).1 == Active
  {
    ActiveMeansCurrent(t, ref, now, config);
  }

  // Runs --------------------------------------------------------------------

  /** In every reachable table the entry under an active reference is the current one, so the
      branches of lookup and withCurrent that retire a non-current entry are unreachable. */
  lemma ActiveMeansCurrent(t: Table, ref: string, now: Time, config: Config)
    requires Inv(t, config)
    ensures var clean := Cleanup(t, now, config);
      && Inv(clean, config)
      && (ref in clean.byRef && clean.byRef[ref].IsActive() ==> Lookup(clean.current, clean.byRef[ref].info.Owner()) == ref)
      && Observe(t, ref, now, config) == (clean, StatusOf(clean, ref))
  {
    CleanupKeepsInv(t, now, config);
  }

  /** withCurrent runs its callback only on the unexpired, current snapshot at that revision. */
  lemma CurrentIsLive(t: Table, ref: string, revision: nat, now: Time, config: Config)
    requires Inv(t, config) && WithCurrent(t, ref, revision, now, config).1 == Active
    ensures ref in t.byRef && t.byRef[ref].IsActive() && t.byRef[ref].info.revision == revision
    ensures now < t.byRef[ref].info.expiresAt && Lookup(t.current, t.byRef[ref].info.Owner()) == ref
  {
    ActiveMeansCurrent(t, ref, now, config);
  }

  function StatusOf(t: Table, ref: string): ContextState {
    if ref in t.byRef then t.byRef[ref].state else NotFound
  }

  /** The entry under `ref` is the current one of its key, and unexpired. */
  predicate CurrentAt(t: Table, ref: string, now: Time) {
    ref in t.byRef && Lookup(t.current, t.byRef[ref].info.Owner()) == ref && now < t.byRef[ref].info.expiresAt
  }

  /** invalidate leaves the entry active exactly if it is current and unexpired and the caller is not
      its owner. */
  lemma InvalidateMissesExactly(t: Table, ref: string, actorUID: int, now: Time, config: Config)
    requires config.Valid() && Inv(t, config)
    ensures StatusOf(Invalidate(t, ref, actorUID, now, config).0, ref) == Active
            <==> CurrentAt(t, ref, now) && t.byRef[ref].info.what.actorUID != actorUID
  {
    if ref in t.byRef { assert EntryOk(ref, t.byRef[ref], config); }
  }

  datatype Op =
    | DoCreate(what: Candidate, ref: string, victim: string)
    | DoObserve(ref: string)          // lookup, delivery, withCurrent, currentRef
    | DoInvalidate(ref: string, actorUID: int)

  predicate Legal(t: Table, op: Op, now: Time, config: Config) {
    op.DoCreate? ==> Unused(t, op.ref, now, config) && VictimChosen(t, op.what, op.victim, now, config)
  }

  function Apply(t: Table, op: Op, now: Time, config: Config): Table {
    match op
    case DoCreate(what, ref, victim) => Create(t, what, ref, victim, now, config).0
    case DoObserve(ref) => Observe(t, ref, now, config).0
    case DoInvalidate(ref, actorUID) => Invalidate(t, ref, actorUID, now, config).0
  }

  lemma ApplyKeepsInv(t: Table, op: Op, now: Time, config: Config)
    requires config.Valid() && Inv(t, config) && Legal(t, op, now, config)
    ensures Inv(Apply(t, op, now, config), config)
  {
    CleanupKeepsInv(t, now, config);
    var clean := Cleanup(t, now, config);
    match op
    case DoCreate(what, ref, victim) => CreateKeepsInv(t, what, ref, victim, now, config);
    case DoObserve(ref) => ActiveMeansCurrent(t, ref, now, config);
    case DoInvalidate(ref, actorUID) =>
      if ref in clean.byRef { RetireKeepsInv(clean, ref, Invalidated, now, config); }
  }

  /** How the answer for one reference may develop: ok, then one retired state, then not_found. */
  predicate Later(before: ContextState, after: ContextState) {
    before == after || before == Active || (before != NotFound && after == NotFound)
  }

  /** What an operation that does not create `ref` does to it: nothing is revived or added, and
      what stays is the same snapshot in the same or a later state. */
  predicate Evolves(t: Table, after: Table, ref: string) {
    && Later(StatusOf(t, ref), StatusOf(after, ref))
    && (ref in after.byRef ==> ref in t.byRef && after.byRef[ref].info == t.byRef[ref].info)
  }

  function CreatedBy(op: Op): set<string> {
    if op.DoCreate? then {op.ref} else {}
  }

  lemma ApplyEvolves(t: Table, op: Op, now: Time, config: Config, ref: string)
    requires config.Valid() && Inv(t, config) && Legal(t, op, now, config)
    requires ref !in CreatedBy(op)
    ensures Evolves(t, Apply(t, op, now, config), ref)
  {
    CleanupEvolves(t, now, config, ref);
    match op
    case DoCreate(what, made, victim) => CreateEvolves(t, what, made, victim, now, config, ref);
    case DoObserve(other) => ActiveMeansCurrent(t, other, now, config);
    case DoInvalidate(other, actorUID) =>
  }

  lemma CleanupEvolves(t: Table, now: Time, config: Config, ref: string)
    ensures Evolves(t, Cleanup(t, now, config), ref)
  {
  }

  lemma RoomyEvolves(t: Table, key: TopicKey, victim: string, now: Time, config: Config, ref: string)
    requires Inv(t, config)
    ensures Evolves(t, Roomy(t, key, victim, now, config), ref)
  {
    hide Inv, Cleanup, Prepared, NextRevision;
    CleanupEvolves(t, now, config, ref);
    PreparedRetiresOnlyPrevious(t, key, now, config);
    assert Evolves(t, Prepared(t, key, now, config), ref);
  }

  lemma CreateEvolves(t: Table, what: Candidate, made: string, victim: string, now: Time, config: Config, ref: string)
    requires Inv(t, config) && ref != made
    ensures Evolves(t, Create(t, what, made, victim, now, config).0, ref)
  {
    hide Inv, Cleanup, Roomy, NextRevision, Lookup;
    RoomyEvolves(t, TopicKey(what.actorUID, what.topicID), victim, now, config, ref);
  }

  datatype TimedOp = At(now: Time, op: Op)

  /** The table after a run of the store. */
  function After(run: seq<TimedOp>, config: Config): Table {
    if run == [] then EMPTY
    else var last := run[|run| - 1]; Apply(After(run[..|run| - 1], config), last.op, last.now, config)
  }

  predicate IsRun(run: seq<TimedOp>, config: Config) {
    run == [] || (var last := run[|run| - 1];
                  IsRun(run[..|run| - 1], config)
                  && Legal(After(run[..|run| - 1], config), last.op, last.now, config))
  }

  lemma {:induction false} RunKeepsInv(run: seq<TimedOp>, config: Config)
    requires config.Valid() && IsRun(run, config)
    ensures Inv(After(run, config), config)
  {
    if run != [] {
      RunKeepsInv(run[..|run| - 1], config);
      ApplyKeepsInv(After(run[..|run| - 1], config), run[|run| - 1].op, run[|run| - 1].now, config);
    }
  }

  /** Over every run, while a reference is not drawn again, the answers for it are ok*, then one
      fixed retired state*, then not_found*. */
  lemma {:induction false} AnswersOnlyGoForward(run: seq<TimedOp>, k: nat, ref: string, config: Config)
    requires config.Valid() && IsRun(run, config) && k <= |run|
    requires forall i :: k <= i < |run| ==> ref !in CreatedBy(run[i].op)
    ensures Later(StatusOf(After(run[..k], config), ref), StatusOf(After(run, config), ref))
    decreases |run|
  {
    if k == |run| {
      assert run[..k] == run;
    } else {
      var most := run[..|run| - 1];
      assert most[..k] == run[..k];
      AnswersOnlyGoForward(most, k, ref, config);
      RunKeepsInv(most, config);
      ApplyEvolves(After(most, config), run[|run| - 1].op, run[|run| - 1].now, config, ref);
    }
  }
}
