/** The cache of resolved Artifacts. A resolve notes the mutation generations before it fetches and
    stores its record only if they are still the same; an invalidation advances a generation. Resolves
    and invalidations interleave freely: each method is one critical section. */
module ContextCache {
  import opened Basics

  datatype Key = Key(agentUID: int, artifactID: string)

  datatype Entry = Entry(record: Artifact, expiresAt: Time)

  datatype Token = Token(exact: nat, wildcard: nat)

  /** Generations are 64-bit and wrap around. */
  const GENERATIONS: nat := 0x1_0000_0000_0000_0000

  // What has happened -------------------------------------------------------------------

  datatype Event =
    | Exact(key: Key)              // an invalidation of one agent's Artifact
    | Wildcard(artifactID: string) // an invalidation of an Artifact for every agent
    | Fetching(key: Key)           // a fetch began

  predicate Invalidates(e: Event, key: Key) {
    e == Exact(key) || e == Wildcard(key.artifactID)
  }

  /** No invalidation of `key` has completed since the fetch that began at position `began`. */
  predicate Fresh(trace: seq<Event>, key: Key, began: nat) {
    began < |trace| && trace[began] == Fetching(key) && forall i :: began <= i < |trace| ==> !Invalidates(trace[i], key)
  }

  function Count(trace: seq<Event>, e: Event): (n: nat)
    ensures n <= |trace|
  {
    if trace == [] then 0 else Count(trace[..|trace| - 1], e) + if trace[|trace| - 1] == e then 1 else 0
  }

  /** The generations of `key` after a trace. */
  function Generations(trace: seq<Event>, key: Key): Token {
    Token(Count(trace, Exact(key)) % GENERATIONS, Count(trace, Wildcard(key.artifactID)) % GENERATIONS)
  }

  lemma {:induction false} CountSplit(trace: seq<Event>, k: nat, e: Event)
    requires k <= |trace|
    ensures Count(trace, e) == Count(trace[..k], e) + Count(trace[k..], e)
    ensures Count(trace[k..], e) == 0 <==> forall i :: k <= i < |trace| ==> trace[i] != e
    decreases |trace|
  {
    if k == |trace| {
      assert trace[..k] == trace;
    } else {
      var most := trace[..|trace| - 1];
      assert most[..k] == trace[..k] && trace[k..][..|trace| - 1 - k] == most[k..];
      CountSplit(most, k, e);
    }
  }

  lemma SameResidue(a: nat, n: nat)
    ensures (a + n) % GENERATIONS == a % GENERATIONS <==> n % GENERATIONS == 0
  {
  }

  /** Since the fetch that began at position `began`, the exact invalidations of `key` and those of its
      Artifact for every agent are each a multiple of 2^64 in number, in practice none. */
  predicate Unchanged(trace: seq<Event>, key: Key, began: nat) {
    began < |trace| && trace[began] == Fetching(key)
    && Count(trace[began..], Exact(key)) % GENERATIONS == 0 && Count(trace[began..], Wildcard(key.artifactID)) % GENERATIONS == 0
  }

  /** Exactly then the generations compare equal before and after the fetch. */
  lemma UnchangedExactly(trace: seq<Event>, key: Key, began: nat)
    requires began < |trace| && trace[began] == Fetching(key)
    ensures Generations(trace, key) == Generations(trace[..began], key) <==> Unchanged(trace, key, began)
  {
    CountSplit(trace, began, Exact(key));
    CountSplit(trace, began, Wildcard(key.artifactID));
    SameResidue(Count(trace[..began], Exact(key)), Count(trace[began..], Exact(key)));
    SameResidue(Count(trace[..began], Wildcard(key.artifactID)), Count(trace[began..], Wildcard(key.artifactID)));
  }

  /** Fewer than 2^64 events after the fetch began, that means that nothing was invalidated in between;
      without that bound it still follows from it. */
  lemma UnchangedMeansFresh(trace: seq<Event>, key: Key, began: nat)
    ensures Fresh(trace, key, began) ==> Unchanged(trace, key, began)
    ensures Unchanged(trace, key, began) && |trace| - began < GENERATIONS ==> Fresh(trace, key, began)
  {
    if began < |trace| {
      CountSplit(trace, began, Exact(key));
      CountSplit(trace, began, Wildcard(key.artifactID));
    }
  }

  function Repeated(n: nat, e: Event): seq<Event> {
    seq(n, i requires 0 <= i < n => e)
  }

  lemma {:induction false} CountRepeated(before: seq<Event>, n: nat, e: Event, counted: Event)
    ensures Count(before + Repeated(n, e), counted) == Count(before, counted) + if e == counted then n else 0
    decreases n
  {
    var trace := before + Repeated(n, e);
    if n == 0 {
      assert trace == before;
    } else {
      assert trace[..|trace| - 1] == before + Repeated(n - 1, e);
      CountRepeated(before, n - 1, e, counted);
    }
  }

  /** The bound is needed: 2^64 invalidations during one fetch bring the generations back to what they
      were when it began, although its record is stale. */
  lemma GenerationsWrap(key: Key)
    ensures var trace := [Fetching(key)] + Repeated(GENERATIONS, Exact(key));
      Generations(trace, key) == Generations(trace[..0], key) && Unchanged(trace, key, 0) && !Fresh(trace, key, 0)
  {
    var trace := [Fetching(key)] + Repeated(GENERATIONS, Exact(key));
    CountRepeated([Fetching(key)], GENERATIONS, Exact(key), Exact(key));
    CountRepeated([Fetching(key)], GENERATIONS, Exact(key), Wildcard(key.artifactID));
    assert [Fetching(key)][..0] == [] && trace[..0] == [];
    assert Count([Fetching(key)], Exact(key)) == 0 && Count([Fetching(key)], Wildcard(key.artifactID)) == 0;
    assert Invalidates(trace[1], key);
    UnchangedExactly(trace, key, 0);
  }

  // The cache -----------------------------------------------------------------------------

  class Cache {
    const ttl: Time
    var entries: map<Key, Entry>
    var exact: map<Key, nat>
    var wildcard: map<string, nat>
    ghost var trace: seq<Event>
    ghost var began: map<Key, nat>      // where in the trace the fetch of each cached record began

    /** Every cached record comes from a fetch since which its key is unchanged. */
    ghost predicate Valid()
      reads this
    {
      && 0 < ttl
      && (forall key :: Current(key) == Generations(trace, key))
      && began.Keys == entries.Keys
      && (forall key :: key in entries ==> Unchanged(trace, key, began[key]))
    }

    /** The generations a reader sees; a missing entry reads as 0. */
    function Current(key: Key): Token
      reads this
    {
      Token(if key in exact then exact[key] else 0, if key.artifactID in wildcard then wildcard[key.artifactID] else 0)
    }

    constructor (ttl: Time)
      requires 0 < ttl
      ensures Valid() && trace == [] && entries == map[] && this.ttl == ttl
    {
      this.ttl := ttl;
      entries, exact, wildcard, trace, began := map[], map[], map[], [], map[];
    }

    /** cachedArtifactContext: the record, and where in the trace its fetch began. */
    method Cached(key: Key, now: Time) returns (record: Option<Artifact>, ghost at: nat)
      requires Valid()
      modifies this`entries, this`began
      ensures Valid() && (record.Some? ==> Unchanged(trace, key, at)) && (record.Some? && |trace| - at < GENERATIONS ==> Fresh(trace, key, at))
      ensures record == if key in old(entries) && now < old(entries)[key].expiresAt then Some(old(entries)[key].record) else None
      ensures entries == if key in old(entries) && old(entries)[key].expiresAt <= now then old(entries) - {key} else old(entries)
    {
      if key !in entries {
        return None, 0;
      }
      if entries[key].expiresAt <= now {
        entries, began := entries - {key}, began - {key};
        return None, 0;
      }
      record, at := Some(entries[key].record), began[key];
      UnchangedMeansFresh(trace, key, at);
    }

    /** artifactContextCacheMutationSnapshot, right before a fetch begins. */
    method Begin(key: Key) returns (token: Token, ghost at: nat)
      requires Valid()
      modifies this`trace
      ensures Valid() && trace == old(trace) + [Fetching(key)] && at == |old(trace)|
      ensures token == Generations(trace[..at], key)
    {
      hide Generations, Count, Unchanged;
      token := Current(key);
      at := |trace|;
      Appended(trace, Fetching(key));
      trace := trace + [Fetching(key)];
      assert trace[..at] == old(trace);
    }

    /** storeArtifactContext at the end of a fetch: the record is kept, and may be returned, only if it
        is still fresh. */
    method Store(key: Key, record: Artifact, token: Token, now: Time, ghost at: nat) returns (stored: bool)
      requires Valid() && at < |trace| && trace[at] == Fetching(key) && token == Generations(trace[..at], key)
      modifies this`entries, this`began
      ensures Valid()
      ensures stored <==> Unchanged(trace, key, at)
      ensures |trace| - at < GENERATIONS ==> (stored <==> Fresh(trace, key, at))
      ensures if stored then entries == old(entries)[key := Entry(record, now + ttl)] && began == old(began)[key := at]
              else entries == old(entries) && began == old(began)
    {
      stored := Current(key) == token;
      UnchangedExactly(trace, key, at);
      UnchangedMeansFresh(trace, key, at);
      if stored {
        entries, began := entries[key := Entry(record, now + ttl)], began[key := at];
      }
    }

    /** invalidateArtifactContextCache: for one agent, or for every agent if none is named. */
    method Invalidate(agentUID: int, artifactID: string)
      requires Valid()
      modifies this`entries, this`exact, this`wildcard, this`trace, this`began
      ensures Valid()
      ensures artifactID == "" ==> entries == old(entries) && trace == old(trace)
      ensures artifactID != "" && agentUID > 0 ==>
                trace == old(trace) + [Exact(Key(agentUID, artifactID))] && entries == old(entries) - {Key(agentUID, artifactID)}
      ensures artifactID != "" && agentUID <= 0 ==>
                trace == old(trace) + [Wildcard(artifactID)]
                && entries == map key | key in old(entries) && key.artifactID != artifactID :: old(entries)[key]
    {
      if artifactID == "" {
        return;
      }
      if agentUID > 0 {
        InvalidateOne(Key(agentUID, artifactID));
        return;
      }
      InvalidateAll(artifactID);
    }

    method InvalidateOne(key: Key)
      requires Valid()
      modifies this`entries, this`exact, this`trace, this`began
      ensures Valid() && trace == old(trace) + [Exact(key)] && entries == old(entries) - {key}
    {
      hide Generations, Count, Unchanged;
      exact := exact[key := (Current(key).exact + 1) % GENERATIONS];
      entries, began := entries - {key}, began - {key};
      Appended(trace, Exact(key));
      trace := trace + [Exact(key)];
    }

    method InvalidateAll(artifactID: string)
      requires Valid()
      modifies this`entries, this`wildcard, this`trace, this`began
      ensures Valid() && trace == old(trace) + [Wildcard(artifactID)]
      ensures entries == map key | key in old(entries) && key.artifactID != artifactID :: old(entries)[key]
    {
      hide Generations, Count, Unchanged;
      wildcard := wildcard[artifactID := ((if artifactID in wildcard then wildcard[artifactID] else 0) + 1) % GENERATIONS];
      DropAll(artifactID);
      Appended(trace, Wildcard(artifactID));
      trace := trace + [Wildcard(artifactID)];
    }

    method DropAll(artifactID: string)
      requires began.Keys == entries.Keys
      modifies this`entries, this`began
      ensures entries == map key | key in old(entries) && key.artifactID != artifactID :: old(entries)[key]
      ensures began == map key | key in old(began) && key.artifactID != artifactID :: old(began)[key]
    {
      var todo := entries.Keys;
      while todo != {}
        invariant todo <= old(entries).Keys && began.Keys == entries.Keys
        invariant entries == map key | key in old(entries) && (key in todo || key.artifactID != artifactID) :: old(entries)[key]
        invariant began == map key | key in old(began) && (key in todo || key.artifactID != artifactID) :: old(began)[key]
        decreases todo
      {
        var key :| key in todo;
        todo := todo - {key};
        if key.artifactID == artifactID {
          entries, began := entries - {key}, began - {key};
        }
      }
    }
  }

  lemma Appended(trace: seq<Event>, e: Event)
    ensures forall key :: Generations(trace + [e], key)
                          == Token(Stepped(Generations(trace, key).exact, e == Exact(key)),
                                   Stepped(Generations(trace, key).wildcard, e == Wildcard(key.artifactID)))
    ensures forall key, at :: Unchanged(trace, key, at) && !Invalidates(e, key) ==> Unchanged(trace + [e], key, at)
  {
    assert (trace + [e])[..|trace|] == trace;
    forall key, at: nat | Unchanged(trace, key, at) && !Invalidates(e, key) ensures Unchanged(trace + [e], key, at) {
      assert (trace + [e])[at..][..|trace| - at] == trace[at..];
    }
    forall n: nat ensures (n + 1) % GENERATIONS == (n % GENERATIONS + 1) % GENERATIONS { OneMore(n); }
  }

  function Stepped(generation: nat, step: bool): nat {
    if step then (generation + 1) % GENERATIONS else generation
  }

  lemma OneMore(n: nat)
    ensures (n + 1) % GENERATIONS == (n % GENERATIONS + 1) % GENERATIONS
  {
  }
}
