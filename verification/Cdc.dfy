/**
 Change-data-capture (src/rag_engine/cdc/events.py, processor.py) over the pipeline's
 in-memory store (src/rag_engine/pipeline.py, _InMemStore) and semantic cache.

 A dispatch may raise in the store or in the cache, before or after taking effect; which
 attempt fails how is an argument.
 */
module Cdc {
  import opened Schemas
  import opened SemanticCache

  datatype ChangeOp = Insert | Update | Delete | Reclassify

  /** The payload dictionary: every key the store reads, absent or present. */
  datatype Payload = Payload(
    assetId: Option<string>,
    text: Option<string>,
    level: Option<int>,
    cls: Option<string>,
    allowedRoles: Option<seq<string>>,
    needToKnow: Option<seq<string>>)

  datatype Event = Event(op: ChangeOp, chunkId: string, sourceVersion: nat, payload: Payload)

  datatype Fault = NoFault | StoreRaises(tookEffect: bool) | CacheRaises(tookEffect: bool)
  datatype Outcome = Applied | SkippedStale | Dropped

  function Or<T>(o: Option<T>, default: T): T {
    if o.Some? then o.value else default
  }

  /** The row an upsert stores; None when the security record refuses the level. */
  function RowOf(e: Event): (row: Option<Chunk>)
    ensures row.Some? ==> row.value.id == e.chunkId
  {
    var p := e.payload;
    var level := Or(p.level, 0);
    if !(0 <= level <= MAX_LEVEL) then None
    else
      var sec := SecurityContext(NormalRoles(Or(p.allowedRoles, [])), level, "UNASSIGNED", Or(p.cls, ""),
                                 NormalRoles(Or(p.needToKnow, [])));
      Some(Chunk(e.chunkId, Or(p.assetId, e.chunkId), Or(p.assetId, e.chunkId), Or(p.text, ""), "", sec, 0, "text", map[]))
  }

  /** What the event wants the chunk's row to be. */
  function Effect(e: Event): Option<Chunk> {
    if e.op == Delete then None else RowOf(e)
  }

  predicate Dispatchable(e: Event) {
    e.op == Delete || RowOf(e).Some?
  }

  // ---- the store -----------------------------------------------------------------

  function WithoutChunk(rows: seq<Chunk>, id: string): seq<Chunk> {
    Filter((c: Chunk) => c.id != id, rows)
  }

  function StoreEffect(rows: seq<Chunk>, e: Event): seq<Chunk>
    requires Dispatchable(e)
  {
    WithoutChunk(rows, e.chunkId) + if e.op == Delete then [] else [RowOf(e).value]
  }

  lemma {:induction false} WithoutChunkRows(rows: seq<Chunk>, id: string, other: string)
    ensures RowFor(WithoutChunk(rows, id), other) == if other == id then None else RowFor(rows, other)
  {
    if rows != [] {
      var n := |rows| - 1;
      var init := WithoutChunk(rows[..n], id);
      WithoutChunkRows(rows[..n], id, other);
      assert (init + [rows[n]])[..|init|] == init && init + [] == init;
    }
  }

  /** A store effect sets the event's row and touches no other. */
  lemma StoreEffectRows(rows: seq<Chunk>, e: Event, other: string)
    requires Dispatchable(e)
    ensures RowFor(StoreEffect(rows, e), other) == if other == e.chunkId then Effect(e) else RowFor(rows, other)
  {
    WithoutChunkRows(rows, e.chunkId, other);
    var rest := WithoutChunk(rows, e.chunkId);
    if e.op == Delete {
      assert rest + [] == rest;
    } else {
      assert (rest + [RowOf(e).value])[..|rest|] == rest;
    }
  }

  // ---- one event -------------------------------------------------------------------

  datatype CdcState = CdcState(rows: seq<Chunk>, versions: map<string, nat>, cache: Option<Store>)

  function Invalidated(cache: Option<Store>, id: string): Option<Store> {
    if cache.None? then None else Some(cache.value.(slots := AfterInvalidate(cache.value.slots, id)))
  }

  /** Did the attempt reach its end without raising? */
  predicate Succeeds(e: Event, f: Fault) {
    Dispatchable(e) && f == NoFault
  }

  /** What one attempt leaves behind, failed or not. */
  function AfterAttempt(s: CdcState, e: Event, f: Fault): CdcState {
    if !Dispatchable(e) || f == StoreRaises(false) then s
    else
      var stored := s.(rows := StoreEffect(s.rows, e));
      if f.StoreRaises? || f == CacheRaises(false) then stored
      else stored.(cache := Invalidated(s.cache, e.chunkId))
  }

  function Attempts(s: CdcState, e: Event, faults: nat -> Fault, attempt: nat, maxRetries: nat): (CdcState, Outcome)
    decreases maxRetries + 1 - attempt
  {
    var after := AfterAttempt(s, e, faults(attempt));
    if Succeeds(e, faults(attempt)) then (after.(versions := after.versions[e.chunkId := e.sourceVersion]), Applied)
    else if attempt + 1 > maxRetries then (after, Dropped)
    else Attempts(after, e, faults, attempt + 1, maxRetries)
  }

  predicate Stale(s: CdcState, e: Event) {
    e.chunkId in s.versions && e.sourceVersion <= s.versions[e.chunkId]
  }

  function ApplyEvent(s: CdcState, e: Event, faults: nat -> Fault, maxRetries: nat): (CdcState, Outcome) {
    if Stale(s, e) then (s, SkippedStale) else Attempts(s, e, faults, 0, maxRetries)
  }

  class ChunkStore {
    var chunks: seq<Chunk>

    constructor (chunks: seq<Chunk>)
      ensures this.chunks == chunks
    {
      this.chunks := chunks;
    }

    method Upsert(row: Chunk)
      modifies this
      ensures chunks == WithoutChunk(old(chunks), row.id) + [row]
    {
      chunks := Filter((c: Chunk) => c.id != row.id, chunks) + [row];
    }

    method Remove(id: string)
      modifies this
      ensures chunks == WithoutChunk(old(chunks), id)
    {
      chunks := Filter((c: Chunk) => c.id != id, chunks);
    }
  }

  class CdcProcessor {
    const store: ChunkStore
    const cache: SemanticCache?
    const maxRetries: nat
    var applied: map<string, nat>

    ghost predicate Valid()
      reads this, cache
    {
      cache != null ==> cache.Valid()
    }

    function State(): CdcState
      reads this, store, cache
    {
      CdcState(store.chunks, applied, if cache == null then None else Some(cache.State()))
    }

    constructor (store: ChunkStore, cache: SemanticCache?, maxRetries: nat)
      requires cache != null ==> cache.Valid()
      ensures Valid() && this.store == store && this.cache == cache && this.maxRetries == maxRetries
      ensures applied == map[]
    {
      this.store, this.cache, this.maxRetries, applied := store, cache, maxRetries, map[];
    }

    /** One attempt: the store effect, then the cache invalidation, either of which may raise. */
    method Dispatch(e: Event, fault: Fault) returns (ok: bool)
      requires Valid()
      modifies store, cache
      ensures Valid() && ok == Succeeds(e, fault)
      ensures State() == AfterAttempt(old(State()), e, fault)
    {
      if fault == StoreRaises(false) {
        return false;
      }
      if e.op == Delete {
        store.Remove(e.chunkId);
      } else {
        var row := RowOf(e);
        if row.None? {
          return false;
        }
        store.Upsert(row.value);
      }
      if fault.StoreRaises? || fault == CacheRaises(false) {
        return false;
      }
      if cache != null {
        cache.InvalidateChunk(e.chunkId);
      }
      ok := fault == NoFault;
    }

    method Apply(e: Event, faults: nat -> Fault) returns (outcome: Outcome)
      requires Valid()
      modifies this, store, cache
      ensures Valid()
      ensures (State(), outcome) == ApplyEvent(old(State()), e, faults, maxRetries)
    {
      if e.chunkId in applied && e.sourceVersion <= applied[e.chunkId] {
        return SkippedStale;
      }
      var attempt := 0;
      while true
        invariant Valid() && attempt <= maxRetries
        invariant Attempts(State(), e, faults, attempt, maxRetries) == ApplyEvent(old(State()), e, faults, maxRetries)
        decreases maxRetries - attempt
      {
        var ok := Dispatch(e, faults(attempt));
        if ok {
          applied := applied[e.chunkId := e.sourceVersion];
          return Applied;
        }
        attempt := attempt + 1;
        if attempt > maxRetries {
          return Dropped;
        }
      }
    }
  }
}
