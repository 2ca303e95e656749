/** Open bindings of Artifacts: the gate that orders a revoke against the save of an annotation. The
    store's mutex is held from a passed gate until the save is done, so between them no other method
    of the store can run: `saving` names the binding whose save holds the mutex. */
module OpenBinding {
  import opened Basics

  /** The session a binding belongs to: the actor and a fingerprint of the login. */
  datatype Session = Session(uid: int, fingerprint: string)

  datatype Record = Record(session: Session, topicID: string, agentUID: int, expiresAt: Time, revoked: bool)

  datatype Event = Issued(ref: string) | Revoked(ref: string) | Saved(ref: string)

  /** No save of a binding follows its revocation, unless the reference was issued again in between. */
  predicate RevokeIsFinal(trace: seq<Event>) {
    forall i, j :: 0 <= i < j < |trace| && trace[i].Revoked? && trace[j] == Saved(trace[i].ref) ==> Issued(trace[i].ref) in trace[i..j]
  }

  /** The binding that was last issued under the reference has been revoked. */
  predicate RevokedIn(trace: seq<Event>, ref: string) {
    exists i :: 0 <= i < |trace| && trace[i] == Revoked(ref) && Issued(ref) !in trace[i..]
  }

  /** The records agree with what has happened. */
  predicate Consistent(trace: seq<Event>, records: map<string, Record>) {
    && RevokeIsFinal(trace)
    && (forall ref :: ref in records ==> (RevokedIn(trace, ref) <==> records[ref].revoked))
  }

  /** What one more event means for a reference. */
  lemma Appended(trace: seq<Event>, e: Event, ref: string)
    ensures RevokedIn(trace + [e], ref) <==> e == Revoked(ref) || (e != Issued(ref) && RevokedIn(trace, ref))
  {
    var after := trace + [e];
    assert after[|trace|] == e && after[|trace|..] == [e];
    forall i | 0 <= i < |trace| ensures after[i] == trace[i] && (Issued(ref) in after[i..] <==> e == Issued(ref) || Issued(ref) in trace[i..]) {
      assert after[i..] == trace[i..] + [e];
    }
  }

  lemma StaysFinal(trace: seq<Event>, e: Event)
    requires RevokeIsFinal(trace) && (e.Saved? ==> !RevokedIn(trace, e.ref))
    ensures RevokeIsFinal(trace + [e])
  {
    var after := trace + [e];
    forall i, j | 0 <= i < j < |after| && after[i].Revoked? && after[j] == Saved(after[i].ref) ensures Issued(after[i].ref) in after[i..j] {
      assert after[i..j] == trace[i..j];
      if j == |trace| { assert trace[i..j] == trace[i..]; }
    }
  }

  lemma IssuedStays(trace: seq<Event>, records: map<string, Record>, ref: string, record: Record)
    requires Consistent(trace, records) && !record.revoked
    ensures Consistent(trace + [Issued(ref)], records[ref := record])
  {
    hide RevokeIsFinal, RevokedIn;
    StaysFinal(trace, Issued(ref));
    forall other { Appended(trace, Issued(ref), other); }
  }

  lemma RevokedStays(trace: seq<Event>, records: map<string, Record>, ref: string)
    requires Consistent(trace, records) && ref in records
    ensures Consistent(trace + [Revoked(ref)], records[ref := records[ref].(revoked := true)])
  {
    hide RevokeIsFinal, RevokedIn;
    StaysFinal(trace, Revoked(ref));
    forall other { Appended(trace, Revoked(ref), other); }
  }

  lemma SavedStays(trace: seq<Event>, records: map<string, Record>, ref: string)
    requires Consistent(trace, records) && ref in records && !records[ref].revoked
    ensures Consistent(trace + [Saved(ref)], records)
  {
    hide RevokeIsFinal, RevokedIn;
    StaysFinal(trace, Saved(ref));
    forall other { Appended(trace, Saved(ref), other); }
  }

  lemma FewerStays(trace: seq<Event>, records: map<string, Record>, fewer: map<string, Record>)
    requires Consistent(trace, records) && forall ref :: ref in fewer ==> ref in records && fewer[ref] == records[ref]
    ensures Consistent(trace, fewer)
  {
  }

  lemma MarkedWhenRevoked(trace: seq<Event>, records: map<string, Record>, ref: string)
    requires Consistent(trace, records) && ref in records
    ensures records[ref].revoked <==> RevokedIn(trace, ref)
  {
  }

  class Store {
    const maxEntries: nat
    var records: map<string, Record>
    var saving: Option<string>
    ghost var trace: seq<Event>

    ghost predicate Valid()
      reads this
    {
      && Consistent(trace, records)
      && (saving.Some? ==> saving.value in records && !records[saving.value].revoked)
      && |records| <= maxEntries
    }

    predicate Free()
      reads this
    {
      saving.None?
    }

    /** The binding is the session's own and has not expired. */
    predicate Owned(ref: string, session: Session, now: Time)
      reads this
    {
      ref in records && records[ref].session == session && now < records[ref].expiresAt
    }

    constructor (maxEntries: nat)
      ensures Valid() && Free() && trace == [] && records == map[]
    {
      this.maxEntries, records, saving, trace := maxEntries, map[], None, [];
    }

    /** issue, given the reference it draws; one that is stored already is refused. */
    method Issue(session: Session, topicID: string, agentUID: int, expiresAt: Time, drawn: string, now: Time) returns (ok: bool)
      requires Valid() && Free()
      modifies this`records, this`trace
      ensures Valid() && Free()
      ensures var live := map ref | ref in old(records) && now < old(records)[ref].expiresAt :: old(records)[ref];
        && ok == (|live| < maxEntries && drawn !in live)
        && records == (if ok then live[drawn := Record(session, topicID, agentUID, expiresAt, false)] else live)
        && trace == (if ok then old(trace) + [Issued(drawn)] else old(trace))
    {
      hide Consistent, RevokedIn;
      Purge(now);
      if |records| >= maxEntries || drawn in records {
        return false;
      }
      IssuedStays(trace, records, drawn, Record(session, topicID, agentUID, expiresAt, false));
      OneMore(records, drawn, Record(session, topicID, agentUID, expiresAt, false));
      records := records[drawn := Record(session, topicID, agentUID, expiresAt, false)];
      trace := trace + [Issued(drawn)];
      ok := true;
    }

    method Purge(now: Time)
      requires Valid() && Free()
      modifies this`records
      ensures Valid() && records == map ref | ref in old(records) && now < old(records)[ref].expiresAt :: old(records)[ref]
    {
      hide Consistent, RevokedIn;
      var todo := records.Keys;
      while todo != {}
        invariant todo <= old(records).Keys
        invariant records == map ref | ref in old(records) && (ref in todo || now < old(records)[ref].expiresAt) :: old(records)[ref]
        decreases todo
      {
        var ref :| ref in todo;
        todo := todo - {ref};
        if records[ref].expiresAt <= now {
          records := records - {ref};
        }
      }
      FewerStays(trace, old(records), records);
      assert records.Keys <= old(records).Keys;
      SubsetSize(records.Keys, old(records).Keys);
      assert |records.Keys| == |records| && |old(records).Keys| == |old(records)|;
    }

    /** lookup, which also revokes: the answer to a plain lookup is whether the binding still stands. */
    method Lookup(ref: string, session: Session, now: Time, revoke: bool) returns (ok: bool)
      requires Valid() && Free()
      modifies this`records, this`trace
      ensures Valid() && Free()
      ensures ok == (old(Owned(ref, session, now)) && (revoke || !RevokedIn(old(trace), ref)))
      ensures trace == if ok && revoke then old(trace) + [Revoked(ref)] else old(trace)
      ensures records == if ref !in old(records) || old(records)[ref].session != session then old(records)
                         else if old(records)[ref].expiresAt <= now then old(records) - {ref}
                         else if revoke then old(records)[ref := old(records)[ref].(revoked := true)]
                         else old(records)
    {
      hide Consistent, RevokedIn;
      if ref !in records || records[ref].session != session {
        return false;
      }
      MarkedWhenRevoked(trace, records, ref);
      if records[ref].expiresAt <= now {
        FewerStays(trace, records, records - {ref});
        records := records - {ref};
        SmallerWithout(old(records), ref);
        return false;
      }
      if revoke {
        RevokedStays(trace, records, ref);
        records := records[ref := records[ref].(revoked := true)];
        assert records.Keys == old(records).Keys;
        assert |records.Keys| == |records| && |old(records).Keys| == |old(records)|;
        trace := trace + [Revoked(ref)];
        return true;
      }
      ok := !records[ref].revoked;
    }

    /** persistenceGate: passed exactly by the session's own, live binding that was never revoked. The
        caller then holds the mutex. */
    method Gate(ref: string, session: Session, now: Time) returns (ok: bool)
      requires Valid() && Free()
      modifies this`saving
      ensures Valid() && saving == (if ok then Some(ref) else None)
      ensures ok <==> Owned(ref, session, now) && !RevokedIn(trace, ref)
    {
      hide Consistent, RevokedIn;
      if ref in records { MarkedWhenRevoked(trace, records, ref); }
      ok := ref in records && records[ref].session == session && !records[ref].revoked && now < records[ref].expiresAt;
      if ok {
        saving := Some(ref);
      }
    }

    /** The save, inside the gate, and the release of the mutex after it. */
    method SaveAndLeave()
      requires Valid() && saving.Some?
      modifies this`saving, this`trace
      ensures Valid() && Free() && trace == old(trace) + [Saved(old(saving).value)]
    {
      SavedStays(trace, records, saving.value);
      trace := trace + [Saved(saving.value)];
      saving := None;
    }
  }

  lemma OneMore<K, V>(m: map<K, V>, key: K, value: V)
    requires key !in m
    ensures |m[key := value]| == |m| + 1
  {
    var more := m[key := value];
    assert more.Keys == m.Keys + {key};
    assert |more.Keys| == |more| && |m.Keys| == |m|;
  }

  lemma SmallerWithout<K, V>(m: map<K, V>, key: K)
    ensures |m - {key}| <= |m|
  {
    SubsetSize((m - {key}).Keys, m.Keys);
    assert |(m - {key}).Keys| == |m - {key}| && |m.Keys| == |m|;
  }
}
