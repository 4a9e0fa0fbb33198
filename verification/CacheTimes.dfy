/**
 The cache in raw terms: clock readings, scopes, similarities and ids.
 */
module CacheTimes {
  import opened Schemas
  import opened SemanticCache

  /** An entry of the scope that is no older than its time to live. */
  predicate InForce(entry: Entry, scope: string, now: real) {
    entry.scope == scope && now - entry.createdAt <= entry.ttl
  }

  /**
   Slot i answers a lookup exactly when it is in force and the first of greatest similarity
   among those in force, that similarity is above -1 and at the threshold or above, and
   re-governance gives back its ids, all of them and no other.
   */
  lemma LookupExactly(cfg: Config, slots: seq<Slot>, scope: string, query: string, govern: Govern, now: real, i: nat)
    requires i < |slots|
    ensures
      var entry := slots[i].entry;
      var sim := cfg.similarity(query, entry.queryText);
      Lookup(cfg, slots, scope, query, govern, now) == Some(i) <==>
        && entry.scope == scope && now - entry.createdAt <= entry.ttl
        && sim > -1.0 && sim >= cfg.threshold
        && (forall j :: 0 <= j < |slots| && InForce(slots[j].entry, scope, now) ==>
              && cfg.similarity(query, slots[j].entry.queryText) <= sim
              && (j < i ==> cfg.similarity(query, slots[j].entry.queryText) < sim))
        && govern(entry.chunkIds).Some?
        && (forall id :: id in govern(entry.chunkIds).value <==> id in entry.chunkIds)
  {
    if Lookup(cfg, slots, scope, query, govern, now) == Some(i) {
      SameElements(govern(slots[i].entry.chunkIds).value, slots[i].entry.chunkIds);
    }
    if (govern(slots[i].entry.chunkIds).Some?
        && forall id :: id in govern(slots[i].entry.chunkIds).value <==> id in slots[i].entry.chunkIds) {
      SameElements(govern(slots[i].entry.chunkIds).value, slots[i].entry.chunkIds);
    }
    if Serves(cfg, slots, scope, query, govern, now, i) {
      ServesUnique(cfg, slots, scope, query, govern, now, i, Lookup(cfg, slots, scope, query, govern, now).value);
    }
  }

  /** A hit: the entry's answer and count, what re-governance gave back, and how similar the questions are. */
  lemma HitMeans(cfg: Config, slots: seq<Slot>, scope: string, query: string, govern: Govern, now: real)
    requires Lookup(cfg, slots, scope, query, govern, now).Some?
    ensures
      var slot := slots[Lookup(cfg, slots, scope, query, govern, now).value];
      var hit := ResultOf(cfg, slot, query, govern);
      && hit.answer == slot.entry.answer && hit.nWithheld == slot.entry.nWithheld && hit.scope == scope
      && Some(hit.chunkIds) == govern(slot.entry.chunkIds)
      && hit.similarity == cfg.similarity(query, slot.entry.queryText) >= cfg.threshold
  {
  }

  lemma SameElements(a: seq<string>, b: seq<string>)
    ensures Elements(a) == Elements(b) <==> forall id :: id in a <==> id in b
  {
    if Elements(a) == Elements(b) {
      assert forall id :: id in a <==> id in Elements(a);
      assert forall id :: id in b <==> id in Elements(b);
    }
  }

  /** A put leaves the newest of what is then within its time to live, the new entry last under the next key. */
  lemma PutLeaves(cfg: Config, st: Store, entry: Entry, now: real)
    ensures
      var after := AfterPut(cfg, st, entry, now);
      var all := st.slots + [Slot(Key(entry.scope, st.counter + 1), entry)];
      var live := Filter((s: Slot) => now - s.entry.createdAt <= s.entry.ttl, all);
      && after.counter == st.counter + 1
      && after.slots == (if |live| <= cfg.maxEntries then live else live[|live| - cfg.maxEntries..])
      && forall s :: s in after.slots ==> now - s.entry.createdAt <= s.entry.ttl
  {
    hide Filter;
    WithinTime(st.slots + [Slot(Key(entry.scope, st.counter + 1), entry)], now);
  }

  lemma WithinTime(slots: seq<Slot>, now: real)
    ensures Unexpired(slots, now) == Filter((s: Slot) => now - s.entry.createdAt <= s.entry.ttl, slots)
    ensures forall s :: s in Unexpired(slots, now) ==> now - s.entry.createdAt <= s.entry.ttl
  {
    hide Filter;
    var within := (s: Slot) => now - s.entry.createdAt <= s.entry.ttl;
    FilterAgree((s: Slot) => !s.entry.Expired(now), within, slots);
    FilterMembers(within, slots);
  }
}
