/**
 The scoped, re-governed LRU/TTL answer cache (src/rag_engine/cache/semantic_cache.py).

 Similarity of two queries is a function into the reals; the clock readings of each call
 are arguments.
 */
module SemanticCache {
  import opened Schemas
  import opened ScopeKey

  /** The text key "{scope}:{counter}" as its two parts. */
  datatype Key = Key(scope: string, n: nat)

  datatype Entry = Entry(
    queryText: string,
    scope: string,
    chunkIds: seq<string>,
    answer: string,
    createdAt: real,
    ttl: real,
    nWithheld: nat)
  {
    predicate Expired(now: real) {
      now - createdAt > ttl
    }
  }

  datatype Slot = Slot(key: Key, entry: Entry)

  /** The ordered dictionary, least recently used first, and the key counter. */
  datatype Store = Store(slots: seq<Slot>, counter: nat)

  datatype Config = Config(similarity: (string, string) -> real, threshold: real, ttl: real, maxEntries: nat)

  datatype CachedResult = CachedResult(answer: string, chunkIds: seq<string>, similarity: real, scope: string, nWithheld: nat)

  /** Re-governance of stored ids for the requester; None when it raises. */
  type Govern = seq<string> -> Option<seq<string>>

  // ---- lookup ------------------------------------------------------------------

  predicate Eligible(cfg: Config, slot: Slot, scope: string, query: string, now: real) {
    slot.entry.scope == scope && !slot.entry.Expired(now) && cfg.similarity(query, slot.entry.queryText) > -1.0
  }

  function Similarity(cfg: Config, slot: Slot, query: string): real {
    cfg.similarity(query, slot.entry.queryText)
  }

  /** Slot i is the first slot of maximal similarity among the eligible ones. */
  ghost predicate IsBest(cfg: Config, slots: seq<Slot>, scope: string, query: string, now: real, i: int) {
    && 0 <= i < |slots|
    && Eligible(cfg, slots[i], scope, query, now)
    && (forall j :: 0 <= j < |slots| && Eligible(cfg, slots[j], scope, query, now) ==>
          Similarity(cfg, slots[j], query) <= Similarity(cfg, slots[i], query)
          && (j < i ==> Similarity(cfg, slots[j], query) < Similarity(cfg, slots[i], query)))
  }

  ghost predicate NoneEligible(cfg: Config, slots: seq<Slot>, scope: string, query: string, now: real) {
    forall j :: 0 <= j < |slots| ==> !Eligible(cfg, slots[j], scope, query, now)
  }

  method FindBest(cfg: Config, slots: seq<Slot>, scope: string, query: string, now: real) returns (best: Option<nat>)
    ensures best.Some? ==> IsBest(cfg, slots, scope, query, now, best.value)
    ensures best.None? ==> NoneEligible(cfg, slots, scope, query, now)
  {
    best := None;
    var bestSim := -1.0;
    for i := 0 to |slots|
      invariant best.Some? ==> IsBest(cfg, slots[..i], scope, query, now, best.value)
      invariant best.None? ==> NoneEligible(cfg, slots[..i], scope, query, now)
      invariant bestSim == if best.Some? then Similarity(cfg, slots[best.value], query) else -1.0
    {
      if slots[i].entry.scope != scope || slots[i].entry.Expired(now) {
        continue;
      }
      var sim := cfg.similarity(query, slots[i].entry.queryText);
      if sim > bestSim {
        bestSim, best := sim, Some(i);
      }
    }
    assert slots[..|slots|] == slots;
  }

  /** The slot a lookup serves, if any: the best one, similar enough, and with every stored id still authorized. */
  ghost predicate Serves(cfg: Config, slots: seq<Slot>, scope: string, query: string, govern: Govern, now: real, i: int) {
    && IsBest(cfg, slots, scope, query, now, i)
    && Similarity(cfg, slots[i], query) >= cfg.threshold
    && var ids := slots[i].entry.chunkIds;
       govern(ids).Some? && Elements(govern(ids).value) == Elements(ids)
  }

  lemma ServesUnique(cfg: Config, slots: seq<Slot>, scope: string, query: string, govern: Govern, now: real, i: int, j: int)
    requires Serves(cfg, slots, scope, query, govern, now, i) && Serves(cfg, slots, scope, query, govern, now, j)
    ensures i == j
  {
  }

  ghost function Lookup(cfg: Config, slots: seq<Slot>, scope: string, query: string, govern: Govern, now: real): (r: Option<nat>)
    ensures r.Some? ==> Serves(cfg, slots, scope, query, govern, now, r.value)
    ensures r.None? ==> forall i :: !Serves(cfg, slots, scope, query, govern, now, i)
  {
    if i: nat :| Serves(cfg, slots, scope, query, govern, now, i) then Some(i) else None
  }

  function ResultOf(cfg: Config, slot: Slot, query: string, govern: Govern): CachedResult
    requires govern(slot.entry.chunkIds).Some?
  {
    CachedResult(slot.entry.answer, govern(slot.entry.chunkIds).value, Similarity(cfg, slot, query),
                 slot.entry.scope, slot.entry.nWithheld)
  }

  // ---- the operations on the store ----------------------------------------------

  function Without(slots: seq<Slot>, key: Key): seq<Slot> {
    Filter((s: Slot) => s.key != key, slots)
  }

  function MoveToEnd(slots: seq<Slot>, slot: Slot): seq<Slot> {
    Without(slots, slot.key) + [slot]
  }

  function Unexpired(slots: seq<Slot>, now: real): seq<Slot> {
    Filter((s: Slot) => !s.entry.Expired(now), slots)
  }

  function Newest(slots: seq<Slot>, n: nat): (r: seq<Slot>)
    ensures |r| <= n
  {
    if |slots| <= n then slots else slots[|slots| - n..]
  }

  lemma NewestDrop(slots: seq<Slot>, n: nat)
    requires |slots| > n
    ensures Newest(slots[1..], n) == Newest(slots, n)
  {
  }

  lemma NewestAll(slots: seq<Slot>, n: nat)
    requires |slots| <= n
    ensures Newest(slots, n) == slots
  {
  }

  function AfterGet(slots: seq<Slot>, served: Option<nat>): seq<Slot>
    requires served.Some? ==> served.value < |slots|
  {
    if served.None? then slots else MoveToEnd(slots, slots[served.value])
  }

  function AfterPut(cfg: Config, st: Store, entry: Entry, now: real): Store {
    Store(Newest(Unexpired(st.slots + [Slot(Key(entry.scope, st.counter + 1), entry)], now), cfg.maxEntries),
          st.counter + 1)
  }

  function AfterInvalidate(slots: seq<Slot>, chunkId: string): seq<Slot> {
    Filter((s: Slot) => chunkId !in s.entry.chunkIds, slots)
  }

  /** Keys are distinct, and none is ahead of the counter: the next key is fresh. */
  ghost predicate KeysFresh(st: Store) {
    && (forall i, j :: 0 <= i < j < |st.slots| ==> st.slots[i].key != st.slots[j].key)
    && (forall i :: 0 <= i < |st.slots| ==> 1 <= st.slots[i].key.n <= st.counter)
  }

  lemma {:induction false} FilterKeepsKeysFresh(keep: Slot -> bool, slots: seq<Slot>, counter: nat)
    requires KeysFresh(Store(slots, counter))
    ensures KeysFresh(Store(Filter(keep, slots), counter))
  {
    if slots != [] {
      FilterKeepsKeysFresh(keep, slots[..|slots| - 1], counter);
      FilterMembers(keep, slots[..|slots| - 1]);
      var kept := Filter(keep, slots[..|slots| - 1]);
      forall i | 0 <= i < |kept|
        ensures kept[i].key != slots[|slots| - 1].key
      {
        assert kept[i] in slots[..|slots| - 1];
      }
    }
  }

  lemma GetKeepsKeysFresh(st: Store, i: nat)
    requires KeysFresh(st) && i < |st.slots|
    ensures KeysFresh(Store(MoveToEnd(st.slots, st.slots[i]), st.counter))
  {
    var keep := (s: Slot) => s.key != st.slots[i].key;
    FilterKeepsKeysFresh(keep, st.slots, st.counter);
    FilterMembers(keep, st.slots);
    assert forall k :: 0 <= k < |Without(st.slots, st.slots[i].key)| ==> keep(Filter(keep, st.slots)[k]) by {
      forall k | 0 <= k < |Filter(keep, st.slots)|
        ensures keep(Filter(keep, st.slots)[k])
      {
        assert Filter(keep, st.slots)[k] in Filter(keep, st.slots);
      }
    }
  }

  lemma PutKeepsKeysFresh(cfg: Config, st: Store, entry: Entry, now: real)
    requires KeysFresh(st)
    ensures KeysFresh(AfterPut(cfg, st, entry, now))
  {
    var grown := st.slots + [Slot(Key(entry.scope, st.counter + 1), entry)];
    FilterKeepsKeysFresh((s: Slot) => !s.entry.Expired(now), grown, st.counter + 1);
  }

  // ---- the cache object --------------------------------------------------------------

  class SemanticCache {
    const cfg: Config
    var entries: seq<Slot>
    var counter: nat

    function State(): Store
      reads this
    {
      Store(entries, counter)
    }

    ghost predicate Valid()
      reads this
    {
      KeysFresh(State())
    }

    constructor (cfg: Config)
      ensures Valid() && this.cfg == cfg && State() == Store([], 0)
    {
      this.cfg := cfg;
      entries, counter := [], 0;
    }

    /** A hit is the served slot's result and moves that slot to the recent end; a miss changes nothing. */
    method Get(query: string, session: Session, govern: Govern, now: real) returns (hit: Option<CachedResult>)
      requires Valid()
      modifies this
      ensures Valid() && counter == old(counter)
      ensures var served := Lookup(cfg, old(entries), ScopePayload(session), query, govern, now);
        && entries == AfterGet(old(entries), served)
        && hit == if served.None? then None
                  else Some(ResultOf(cfg, old(entries)[served.value], query, govern))
    {
      var scope := ScopePayload(session);
      var best := FindBest(cfg, entries, scope, query, now);
      if best.None? || cfg.similarity(query, entries[best.value].entry.queryText) < cfg.threshold {
        return None;
      }
      var slot := entries[best.value];
      var authorized := govern(slot.entry.chunkIds);
      if authorized.None? || Elements(authorized.value) != Elements(slot.entry.chunkIds) {
        return None;
      }
      assert Serves(cfg, entries, scope, query, govern, now, best.value);
      ServesUnique(cfg, entries, scope, query, govern, now, best.value,
                   Lookup(cfg, entries, scope, query, govern, now).value);
      GetKeepsKeysFresh(State(), best.value);
      entries := MoveToEnd(entries, slot);
      hit := Some(CachedResult(slot.entry.answer, authorized.value, cfg.similarity(query, slot.entry.queryText),
                               scope, slot.entry.nWithheld));
    }

    method Put(query: string, session: Session, chunkIds: seq<string>, answer: string, nWithheld: nat,
               createdAt: real, now: real)
      requires Valid()
      modifies this
      ensures Valid()
      ensures State() == AfterPut(cfg, old(State()),
                                  Entry(query, ScopePayload(session), chunkIds, answer, createdAt, cfg.ttl, nWithheld), now)
    {
      var scope := ScopePayload(session);
      var entry := Entry(query, scope, chunkIds, answer, createdAt, cfg.ttl, nWithheld);
      PutKeepsKeysFresh(cfg, State(), entry, now);
      counter := counter + 1;
      entries := entries + [Slot(Key(scope, counter), entry)];
      Evict(now);
    }

    method InvalidateChunk(chunkId: string)
      requires Valid()
      modifies this
      ensures Valid() && counter == old(counter)
      ensures entries == AfterInvalidate(old(entries), chunkId)
    {
      FilterKeepsKeysFresh((s: Slot) => chunkId !in s.entry.chunkIds, entries, counter);
      entries := Filter((s: Slot) => chunkId !in s.entry.chunkIds, entries);
    }

    /** Expired entries go first, then the least recently used ones over the cap. */
    method Evict(now: real)
      modifies this
      ensures counter == old(counter)
      ensures entries == Newest(Unexpired(old(entries), now), cfg.maxEntries)
    {
      hide Filter, Newest;
      entries := Filter((s: Slot) => !s.entry.Expired(now), entries);
      while |entries| > cfg.maxEntries
        invariant Newest(entries, cfg.maxEntries) == Newest(Unexpired(old(entries), now), cfg.maxEntries)
        invariant counter == old(counter)
      {
        NewestDrop(entries, cfg.maxEntries);
        entries := entries[1..];
      }
      NewestAll(entries, cfg.maxEntries);
    }
  }
}
