/** What each operation of the snapshot store answers and writes, told from the table as it is before the
    operation's cleanup pass, and why each snapshot of a run was retired. */
module SnapshotAnswers {
  import opened Basics
  import opened SnapshotTable

  // What cleanup leaves ---------------------------------------------------------------

  /** The entry outlasts the cleanup pass: it is active, or its tombstone lasts. */
  predicate Remembered(t: Table, ref: string, now: Time, config: Config) {
    ref in t.byRef && match t.byRef[ref].retiredAt { case None => true case Some(at) => now < at + config.tombstoneTTL }
  }

  /** Cleanup retires an active entry at or past its expiry as expired, there and then, and keeps the rest of
      what is remembered as it is. */
  lemma CleanedEntry(t: Table, ref: string, now: Time, config: Config)
    requires config.Valid() && Inv(t, config)
    ensures var after := Cleanup(t, now, config).byRef;
      && (ref in after <==> Remembered(t, ref, now, config))
      && (ref in after ==>
            after[ref] == if t.byRef[ref].state == Active && t.byRef[ref].info.expiresAt <= now
                          then Snapshot(t.byRef[ref].info, Expired, Some(now)) else t.byRef[ref])
  {
    if ref in t.byRef { assert EntryOk(ref, t.byRef[ref], config); }
  }

  // Lookups ---------------------------------------------------------------------------

  /** How the entry answers at `now`. */
  function StatusAt(t: Table, ref: string, now: Time, config: Config): ContextState {
    if !Remembered(t, ref, now, config) then NotFound
    else if t.byRef[ref].state != Active then t.byRef[ref].state
    else if now < t.byRef[ref].info.expiresAt then Active
    else Expired
  }

  /** A lookup answers not_found for what is not remembered, the state of what is retired, expired for what is
      past its expiry and ok for the rest. */
  lemma ObserveExactly(t: Table, ref: string, now: Time, config: Config)
    requires config.Valid() && Inv(t, config)
    ensures Observe(t, ref, now, config) == (Cleanup(t, now, config), StatusAt(t, ref, now, config))
  {
    hide Cleanup, Inv;
    ActiveMeansCurrent(t, ref, now, config);
    CleanedEntry(t, ref, now, config);
  }

  /** withCurrent runs its callback exactly for what a lookup finds, at its own revision; at another one it
      answers replaced. */
  lemma WithCurrentExactly(t: Table, ref: string, revision: nat, now: Time, config: Config)
    requires config.Valid() && Inv(t, config)
    ensures WithCurrent(t, ref, revision, now, config)
            == (Cleanup(t, now, config),
                if StatusAt(t, ref, now, config) == Active && t.byRef[ref].info.revision != revision then Replaced
                else StatusAt(t, ref, now, config))
  {
    hide Cleanup, Inv;
    ObserveExactly(t, ref, now, config);
    CleanedEntry(t, ref, now, config);
  }

  /** The current reference of a key is that of its one active, unexpired snapshot, if it has any. */
  lemma CurrentExactly(t: Table, key: TopicKey, ref: string, now: Time, config: Config)
    requires config.Valid() && Inv(t, config) && ref != ""
    ensures Lookup(Cleanup(t, now, config).current, key) == ref
            <==> StatusAt(t, ref, now, config) == Active && t.byRef[ref].info.Owner() == key
  {
    hide Cleanup;
    CleanupKeepsInv(t, now, config);
    CleanedEntry(t, ref, now, config);
    if ref in t.byRef { Named(t, ref, config); }
  }

  // Retirement ------------------------------------------------------------------------

  /** invalidate answers yes exactly to the owner of a remembered snapshot. One that is active and unexpired
      is then retired as invalidated and no longer the current one of its key; nothing else happens beyond
      cleanup. */
  lemma InvalidateExactly(t: Table, ref: string, actorUID: int, now: Time, config: Config)
    requires config.Valid() && Inv(t, config)
    ensures var (after, yes) := Invalidate(t, ref, actorUID, now, config); var clean := Cleanup(t, now, config);
      && (yes <==> Remembered(t, ref, now, config) && t.byRef[ref].info.what.actorUID == actorUID)
      && after == if yes && StatusAt(t, ref, now, config) == Active
                  then Table(clean.byRef[ref := Snapshot(t.byRef[ref].info, Invalidated, Some(now))],
                             clean.current - {TopicKey(actorUID, t.byRef[ref].info.what.topicID)})
                  else clean
  {
    hide Cleanup, Inv;
    ActiveMeansCurrent(t, ref, now, config);
    CleanedEntry(t, ref, now, config);
    if Remembered(t, ref, now, config) { Named(t, ref, config); }
  }

  lemma Named(t: Table, ref: string, config: Config)
    requires Inv(t, config) && ref in t.byRef
    ensures EntryOk(ref, t.byRef[ref], config)
  {
  }

  /** The snapshot that a create for the same actor and topic replaces. */
  predicate Replaces(t: Table, what: Candidate, ref: string, now: Time, config: Config) {
    StatusAt(t, ref, now, config) == Active && t.byRef[ref].info.what.actorUID == what.actorUID && t.byRef[ref].info.what.topicID == what.topicID
  }

  /** create retires, as replaced, exactly the active snapshot of its own actor and topic, stores the new one
      as active for a whole ttl and changes nothing else but the entry it evicts. */
  lemma CreateExactly(t: Table, what: Candidate, ref: string, victim: string, now: Time, config: Config)
    requires config.Valid() && Inv(t, config) && Unused(t, ref, now, config) && VictimChosen(t, what, victim, now, config)
    ensures var (after, answer) := Create(t, what, ref, victim, now, config); var clean := Cleanup(t, now, config).byRef;
      answer.Stored? ==>
        && answer.info == Info(ref, what, now, now + config.ttl, answer.info.revision)
        && ref in after.byRef && after.byRef[ref] == Snapshot(answer.info, Active, None)
        && (forall other :: other in after.byRef && other != ref ==>
              other in clean
              && after.byRef[other] == if Replaces(t, what, other, now, config) then Snapshot(clean[other].info, Replaced, Some(now)) else clean[other])
        && (forall other :: other in clean && other !in after.byRef ==> other == victim && after.byRef.Keys == clean.Keys - {victim} + {ref})
  {
    hide Inv, Cleanup, Prepared, NextRevision, VictimChosen, Replaces;
    var key := TopicKey(what.actorUID, what.topicID);
    PreparedRetiresOnlyPrevious(t, key, now, config);
    var clean, ready := Cleanup(t, now, config), Prepared(t, key, now, config);
    forall other | other in clean.byRef
      ensures other in ready.byRef
              && ready.byRef[other] == if Replaces(t, what, other, now, config) then Snapshot(clean.byRef[other].info, Replaced, Some(now)) else clean.byRef[other]
    {
      ReplacedExactly(t, what, other, now, config);
    }
  }

  /** The evicted entry was retired no later than any that stays. */
  predicate RetiredFirst(t: Table, what: Candidate, gone: string, ref: string, after: Table, now: Time, config: Config) {
    var clean := Cleanup(t, now, config).byRef;
    gone in clean && (Replaces(t, what, gone, now, config) || clean[gone].retiredAt.Some?)
    && forall other :: other in after.byRef && other != ref && after.byRef[other].retiredAt.Some? ==>
         (if Replaces(t, what, gone, now, config) then now else clean[gone].retiredAt.value) <= after.byRef[other].retiredAt.value
  }

  /** What create evicts is a longest-retired entry. */
  lemma EvictsExactly(t: Table, what: Candidate, ref: string, victim: string, now: Time, config: Config)
    requires config.Valid() && Inv(t, config) && Unused(t, ref, now, config) && VictimChosen(t, what, victim, now, config)
    ensures var (after, answer) := Create(t, what, ref, victim, now, config);
      answer.Stored? && victim in Cleanup(t, now, config).byRef && victim !in after.byRef ==> RetiredFirst(t, what, victim, ref, after, now, config)
  {
    hide Inv, Cleanup, Prepared, NextRevision, Replaces, IsVictim, RetiredFirst;
    var key := TopicKey(what.actorUID, what.topicID);
    PreparedRetiresOnlyPrevious(t, key, now, config);
    var clean, ready := Cleanup(t, now, config), Prepared(t, key, now, config);
    var (after, answer) := Create(t, what, ref, victim, now, config);
    if answer.Stored? && victim in clean.byRef && victim !in after.byRef {
      assert ready.byRef[victim].state != Active;
      assert HasRetired(ready) && IsVictim(ready, victim);
      EvictedFirst(t, what, ref, victim, ready, after, now, config);
    }
  }

  lemma EvictedFirst(t: Table, what: Candidate, ref: string, victim: string, ready: Table, after: Table, now: Time, config: Config)
    requires config.Valid() && Inv(t, config) && ready == Prepared(t, TopicKey(what.actorUID, what.topicID), now, config)
    requires IsVictim(ready, victim) && victim in Cleanup(t, now, config).byRef
    requires forall other :: other in after.byRef && other != ref ==> other in ready.byRef && after.byRef[other] == ready.byRef[other]
    ensures RetiredFirst(t, what, victim, ref, after, now, config)
  {
    hide Inv, Cleanup, Prepared, NextRevision, Replaces;
    PreparedRetiresOnlyPrevious(t, TopicKey(what.actorUID, what.topicID), now, config);
    ReplacedExactly(t, what, victim, now, config);
    CleanupKeepsInv(t, now, config);
    Named(Cleanup(t, now, config), victim, config);
    PreparedKeepsInv(t, TopicKey(what.actorUID, what.topicID), now, config);
    forall other | other in ready.byRef ensures ready.byRef[other].retiredAt.Some? ==> !ready.byRef[other].IsActive() {
      Named(ready, other, config);
    }
  }

  lemma ReplacedExactly(t: Table, what: Candidate, other: string, now: Time, config: Config)
    requires config.Valid() && Inv(t, config) && other in Cleanup(t, now, config).byRef
    ensures var clean, key := Cleanup(t, now, config), TopicKey(what.actorUID, what.topicID);
      && (key in clean.current && clean.current[key] == other <==> Replaces(t, what, other, now, config))
      && (Replaces(t, what, other, now, config) ==> clean.byRef[other].RetiredAs(Replaced, now) == Snapshot(clean.byRef[other].info, Replaced, Some(now)))
  {
    hide Cleanup;
    CleanupKeepsInv(t, now, config);
    CleanedEntry(t, other, now, config);
    Named(t, other, config);
  }

  // Runs ------------------------------------------------------------------------------

  /** What an event makes of an active snapshot: expired past its expiry, invalidated by its owner's
      invalidate, replaced by a create of its actor and topic, and active otherwise. */
  function Fate(s: Info, e: TimedOp): ContextState {
    if s.expiresAt <= e.now then Expired
    else
      match e.op
      case DoInvalidate(ref, actorUID) => if ref == s.ref && actorUID == s.what.actorUID then Invalidated else Active
      case DoCreate(what, _, _) => if what.actorUID == s.what.actorUID && what.topicID == s.what.topicID then Replaced else Active
      case DoObserve(_) => Active
  }

  lemma StepRetires(t: Table, e: TimedOp, ref: string, config: Config)
    requires config.Valid() && Inv(t, config) && Legal(t, e.op, e.now, config) && ref in t.byRef && t.byRef[ref].state == Active
    ensures var after := Apply(t, e.op, e.now, config).byRef;
      ref in after && (e.op.DoCreate? ==> e.op.ref != ref) ==> after[ref].state == Fate(t.byRef[ref].info, e)
  {
    hide Cleanup, Inv, Create, Observe, Invalidate, VictimChosen, Unused;
    CleanedEntry(t, ref, e.now, config);
    Named(t, ref, config);
    match e.op
    case DoCreate(what, made, victim) =>
      CreateExactly(t, what, made, victim, e.now, config);
      if Create(t, what, made, victim, e.now, config).1.Full? { FullSpares(t, what, made, victim, ref, e.now, config); }
    case DoObserve(other) => ObserveExactly(t, other, e.now, config);
    case DoInvalidate(other, actorUID) => InvalidateExactly(t, other, actorUID, e.now, config);
  }

  /** A create that finds the store full has nothing to replace. */
  lemma FullSpares(t: Table, what: Candidate, made: string, victim: string, ref: string, now: Time, config: Config)
    requires config.Valid() && Inv(t, config) && VictimChosen(t, what, victim, now, config) && ref in Cleanup(t, now, config).byRef
    requires Create(t, what, made, victim, now, config).1.Full?
    ensures Create(t, what, made, victim, now, config).0 == Cleanup(t, now, config) && !Replaces(t, what, ref, now, config)
  {
    hide Cleanup, Inv, Create, VictimChosen, Replaces;
    FullExactly(t, what, made, victim, now, config);
    ReplacedExactly(t, what, ref, now, config);
  }

  /** In every run, the state of a retired snapshot is what some event made of it when it was active: it says
      why the snapshot was retired. */
  lemma {:induction false} RetiredFor(run: seq<TimedOp>, ref: string, config: Config) returns (k: nat)
    requires config.Valid() && IsRun(run, config)
    requires ref in After(run, config).byRef && After(run, config).byRef[ref].state != Active
    ensures k < |run| && ref in After(run[..k], config).byRef
    ensures var before := After(run[..k], config).byRef[ref];
      before.state == Active && After(run, config).byRef[ref].state == Fate(before.info, run[k])
    decreases |run|
  {
    hide Inv, Apply, Legal, Fate;
    if run != [] {
      var n := |run| - 1;
      var most := run[..n];
      var t := After(most, config);
      RunKeepsInv(most, config);
      RetiredBefore(t, run[n], ref, config);
      if t.byRef[ref].state == Active {
        k := n;
        StepRetires(t, run[n], ref, config);
      } else {
        k := RetiredFor(most, ref, config);
        assert most[..k] == run[..k];
      }
    } else {
      assert false;
    }
  }

  /** What a step leaves retired was there before, under the same state if it was retired already. */
  lemma RetiredBefore(t: Table, e: TimedOp, ref: string, config: Config)
    requires config.Valid() && Inv(t, config) && Legal(t, e.op, e.now, config)
    requires var after := Apply(t, e.op, e.now, config).byRef; ref in after && after[ref].state != Active
    ensures ref in t.byRef && (e.op.DoCreate? ==> e.op.ref != ref)
    ensures t.byRef[ref].state != Active ==> Apply(t, e.op, e.now, config).byRef[ref].state == t.byRef[ref].state
  {
    hide Cleanup, Inv, Create, Observe, Invalidate, VictimChosen;
    if e.op.DoCreate? && e.op.ref == ref {
      CreateExactly(t, e.op.what, ref, e.op.victim, e.now, config);
      FullExactly(t, e.op.what, ref, e.op.victim, e.now, config);
    } else {
      ApplyEvolves(t, e.op, e.now, config, ref);
      ApplyKeepsInv(t, e.op, e.now, config);
      Named(Apply(t, e.op, e.now, config), ref, config);
    }
  }
}
