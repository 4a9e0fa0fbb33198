/**
 Whole runs of the pipeline: what every reachable state keeps, and what a warm answer
 and a cold answer rest on.
 */
module PipelineRuns {
  import opened Schemas
  import opened Access
  import opened Masking
  import opened SecurityFilter
  import opened ScopeKey
  import opened SemanticCache
  import opened Cdc
  import opened Pipeline

  // ---- rows and views ----------------------------------------------------------------

  function Views(rows: seq<Chunk>, session: Session): (views: seq<Chunk>)
    ensures |views| == |rows|
  {
    if rows == [] then [] else Views(rows[..|rows| - 1], session) + [View(rows[|rows| - 1], session)]
  }

  /** The candidates' chunks that a session may retrieve, unredacted. */
  function RetrievableRows(candidates: seq<ScoredChunk>, session: Session): seq<Chunk> {
    if candidates == [] then []
    else
      var c := candidates[|candidates| - 1].chunk;
      RetrievableRows(candidates[..|candidates| - 1], session) + if Retrievable(c, session) then [c] else []
  }

  lemma ViewsAppend(rows: seq<Chunk>, c: Chunk, session: Session)
    ensures Views(rows + [c], session) == Views(rows, session) + [View(c, session)]
  {
    assert (rows + [c])[..|rows|] == rows;
  }

  lemma ChunksAppend(a: seq<ScoredChunk>, sc: ScoredChunk)
    ensures Chunks(a + [sc]) == Chunks(a) + [sc.chunk]
  {
  }

  lemma {:induction false} AdmittedAreViews(candidates: seq<ScoredChunk>, session: Session)
    ensures Chunks(Admitted(candidates, session)) == Views(RetrievableRows(candidates, session), session)
  {
    hide Evaluate, Redact, Retrievable, Chunks, Views;
    if candidates == [] {
      NothingAdmitted(session);
    } else {
      var n := |candidates| - 1;
      var init, sc := candidates[..n], candidates[n];
      AdmittedAreViews(init, session);
      var admitted, rows := Admitted(init, session), RetrievableRows(init, session);
      if Retrievable(sc.chunk, session) {
        ChunksAppend(admitted, RedactScored(sc, Evaluate(sc.chunk, session)));
        ViewsAppend(rows, sc.chunk, session);
      } else {
        assert admitted + [] == admitted && rows + [] == rows;
      }
    }
  }

  lemma NothingAdmitted(session: Session)
    ensures Chunks(Admitted([], session)) == Views(RetrievableRows([], session), session)
  {
  }

  lemma {:induction false} RetrievableRowsFacts(candidates: seq<ScoredChunk>, session: Session, i: nat)
    requires i < |RetrievableRows(candidates, session)|
    ensures var row := RetrievableRows(candidates, session)[i];
      Retrievable(row, session) && exists k :: 0 <= k < |candidates| && candidates[k].chunk == row
  {
    hide Evaluate;
    var n := |candidates| - 1;
    var init := candidates[..n];
    if i < |RetrievableRows(init, session)| {
      RetrievableRowsFacts(init, session, i);
      var k :| 0 <= k < |init| && init[k].chunk == RetrievableRows(init, session)[i];
      assert candidates[k] == init[k];
    } else {
      assert candidates[n].chunk == RetrievableRows(candidates, session)[i];
    }
  }

  lemma {:induction false} ViewIds(rows: seq<Chunk>, session: Session)
    ensures Ids(Views(rows, session)) == Ids(rows)
  {
    hide Evaluate;
    if rows != [] {
      ViewIds(rows[..|rows| - 1], session);
      assert Ids(rows) == Ids(rows[..|rows| - 1]) + [rows[|rows| - 1].id];
    }
  }

  lemma {:induction false} SameScopeViews(rows: seq<Chunk>, s: Session, t: Session)
    requires SameScope(s, t)
    ensures Views(rows, s) == Views(rows, t)
  {
    hide Evaluate, Redact;
    if rows != [] {
      SameScopeViews(rows[..|rows| - 1], s, t);
      SameScopeSameView(rows[|rows| - 1], s, t);
    }
  }

  // ---- live rows and the index -----------------------------------------------------------

  /** The rows with an id in the set. */
  function Kept(rows: seq<Chunk>, ids: set<string>): seq<Chunk> {
    Filter((c: Chunk) => c.id in ids, rows)
  }

  function IdSet(rows: seq<Chunk>): set<string> {
    set c | c in rows :: c.id
  }

  /** The live list is the index without the rows whose ids are gone. */
  ghost predicate IndexAgrees(live: seq<Chunk>, index: seq<Chunk>) {
    DistinctIds(index) && live == Kept(index, IdSet(live))
  }

  /** Ids still indexed but no longer live. */
  function StaleIds(st: State): set<string> {
    IdSet(st.index) - IdSet(st.cdc.rows)
  }

  lemma {:induction false} KeptIds(rows: seq<Chunk>, ids: set<string>)
    ensures IdSet(Kept(rows, ids)) == IdSet(rows) * ids
    ensures forall c :: c in Kept(rows, ids) <==> c in rows && c.id in ids
  {
    FilterMembers((c: Chunk) => c.id in ids, rows);
  }

  lemma {:induction false} KeptDistinct(rows: seq<Chunk>, ids: set<string>)
    requires DistinctIds(rows)
    ensures DistinctIds(Kept(rows, ids))
  {
    if rows != [] {
      var n := |rows| - 1;
      KeptDistinct(rows[..n], ids);
      KeptIds(rows[..n], ids);
      var kept := Kept(rows[..n], ids);
      assert forall i :: 0 <= i < |kept| ==> kept[i] in rows[..n];
    }
  }

  lemma {:induction false} KeptWithout(rows: seq<Chunk>, ids: set<string>, id: string)
    ensures WithoutChunk(Kept(rows, ids), id) == Kept(rows, ids - {id})
  {
    if rows != [] {
      var n := |rows| - 1;
      KeptWithout(rows[..n], ids, id);
      var kept := Kept(rows[..n], ids);
      assert (kept + [rows[n]])[..|kept|] == kept;
      assert kept + [] == kept;
    }
  }

  lemma KeptAll(rows: seq<Chunk>)
    ensures Kept(rows, IdSet(rows)) == rows
  {
    FilterAll((c: Chunk) => c.id in IdSet(rows), rows);
  }

  lemma WithoutIds(rows: seq<Chunk>, id: string)
    ensures IdSet(WithoutChunk(rows, id)) == IdSet(rows) - {id}
  {
    FilterMembers((c: Chunk) => c.id != id, rows);
  }

  /** A live row is the indexed row of its id. */
  lemma LiveRowIsIndexed(live: seq<Chunk>, index: seq<Chunk>, row: Chunk)
    requires IndexAgrees(live, index) && row in index
    ensures RowFor(live, row.id).Some? ==> RowFor(live, row.id).value == row
  {
    KeptIds(index, IdSet(live));
  }

  // ---- the coherence invariant --------------------------------------------------------------

  /** Where an entry came from: the session that put it and the rows its answer was made from. */
  datatype Origin = Origin(session: Session, rows: seq<Chunk>)

  /** The row is gone from the live list, or still what it was. */
  predicate Unchanged(live: seq<Chunk>, row: Chunk) {
    RowFor(live, row.id).None? || RowFor(live, row.id).value == row
  }

  ghost predicate Explains(engine: Engine, live: seq<Chunk>, entry: Entry, o: Origin) {
    && ValidSession(o.session) && ScopePayload(o.session) == entry.scope
    && Ids(o.rows) == entry.chunkIds
    && entry.answer == AnswerFrom(engine, entry.queryText, Views(o.rows, o.session))
    && forall i :: 0 <= i < |o.rows| ==> Retrievable(o.rows[i], o.session) && Unchanged(live, o.rows[i])
  }

  ghost predicate Explained(engine: Engine, live: seq<Chunk>, entry: Entry) {
    exists o :: Explains(engine, live, entry, o)
  }

  ghost predicate Coherent(engine: Engine, st: State) {
    && IndexAgrees(st.cdc.rows, st.index)
    && (st.cdc.cache.Some? ==>
          && KeysFresh(st.cdc.cache.value)
          && forall s :: s in st.cdc.cache.value.slots ==> Explained(engine, st.cdc.rows, s.entry))
  }

  // ---- queries keep it ----------------------------------------------------------------------------

  lemma ColdEntryExplained(engine: Engine, cfg: Config, st: State, question: string, session: Session, created: real)
    requires IndexAgrees(st.cdc.rows, st.index) && ValidSession(session)
    ensures Explained(engine, st.cdc.rows, ColdEntry(engine, cfg, st.index, question, session, created))
  {
    hide Evaluate, Admitted, Retrievable, Redact, AnswerFrom, IndexAgrees, ValidSession;
    var candidates := Retrieve(engine, st.index, question);
    var rows := RetrievableRows(candidates, session);
    AdmittedAreViews(candidates, session);
    ViewIds(rows, session);
    forall i | 0 <= i < |rows|
      ensures Retrievable(rows[i], session) && Unchanged(st.cdc.rows, rows[i])
    {
      RetrievableRowsFacts(candidates, session, i);
      LiveRowIsIndexed(st.cdc.rows, st.index, rows[i]);
    }
    assert Explains(engine, st.cdc.rows, ColdEntry(engine, cfg, st.index, question, session, created),
                    Origin(session, rows));
  }

  lemma QueryKeepsCoherence(engine: Engine, cfg: Config, st: State, question: string, session: Session, clock: Clock)
    requires st.cdc.cache.Some? && Coherent(engine, st) && ValidSession(session)
    ensures Coherent(engine, QueryStep(engine, cfg, st, question, session, clock).0)
  {
    hide Explained, IndexAgrees, ValidSession, ColdEntry, ColdResponse, KeysFresh;
    var cache := st.cdc.cache.value;
    var served := WarmSlot(cfg, st, question, session, clock.lookup);
    if served.Some? {
      var slot := cache.slots[served.value];
      FilterMembers((s: Slot) => s.key != slot.key, cache.slots);
      GetKeepsKeysFresh(cache, served.value);
    } else {
      var entry := ColdEntry(engine, cfg, st.index, question, session, clock.created);
      ColdEntryExplained(engine, cfg, st, question, session, clock.created);
      PutKeepsKeysFresh(cfg, cache, entry, clock.evict);
      var grown := cache.slots + [Slot(Key(entry.scope, cache.counter + 1), entry)];
      FilterMembers((s: Slot) => !s.entry.Expired(clock.evict), grown);
      forall s | s in AfterPut(cfg, cache, entry, clock.evict).slots
        ensures Explained(engine, st.cdc.rows, s.entry)
      {
        assert s in Unexpired(grown, clock.evict);
        assert s in grown;
      }
    }
  }

  // ---- changes keep it -----------------------------------------------------------------------------

  lemma StoreKeepsIndexAgrees(st: State, e: Event)
    requires IndexAgrees(st.cdc.rows, st.index) && Dispatchable(e)
    ensures var rows := StoreEffect(st.cdc.rows, e);
      IndexAgrees(rows, if e.op == Delete then st.index else rows)
  {
    var live := st.cdc.rows;
    var rest := WithoutChunk(live, e.chunkId);
    WithoutIds(live, e.chunkId);
    KeptWithout(st.index, IdSet(live), e.chunkId);
    if e.op == Delete {
      assert rest + [] == rest;
    } else {
      KeptDistinct(st.index, IdSet(live) - {e.chunkId});
      var rows := rest + [RowOf(e).value];
      forall i | 0 <= i < |rest|
        ensures rest[i].id != e.chunkId
      {
        assert rest[i] in rest && rest[i].id in IdSet(rest);
      }
      KeptAll(rows);
    }
  }

  lemma ChangeKeepsExplained(engine: Engine, live: seq<Chunk>, e: Event, entry: Entry)
    requires Dispatchable(e) && e.chunkId !in entry.chunkIds && Explained(engine, live, entry)
    ensures Explained(engine, StoreEffect(live, e), entry)
  {
    hide AnswerFrom, ValidSession, Retrievable, Dispatchable, StoreEffect;
    var o :| Explains(engine, live, entry, o);
    forall i | 0 <= i < |o.rows|
      ensures Unchanged(StoreEffect(live, e), o.rows[i])
    {
      assert entry.chunkIds[i] == o.rows[i].id;
      StoreEffectRows(live, e, o.rows[i].id);
    }
    assert Explains(engine, StoreEffect(live, e), entry, o);
  }

  /** In the pipeline an event applies exactly when it is new and its payload is accepted; otherwise nothing moves. */
  lemma ChangeOutcome(st: State, e: Event)
    ensures var (st', outcome) := ChangeStep(st, e);
      if Stale(st.cdc, e) then outcome == SkippedStale && st' == st
      else if !Dispatchable(e) then outcome == Dropped && st' == st
      else
        && outcome == Applied
        && st'.cdc.rows == StoreEffect(st.cdc.rows, e)
        && st'.cdc.versions == st.cdc.versions[e.chunkId := e.sourceVersion]
        && st'.cdc.cache == Invalidated(st.cdc.cache, e.chunkId)
        && st'.index == if e.op == Delete then st.index else st'.cdc.rows
  {
    hide StoreEffect;
    if !Dispatchable(e) {
      assert forall k: nat :: AfterAttempt(st.cdc, e, NoFaults()(k)) == st.cdc;
      assert Attempts(st.cdc, e, NoFaults(), 2, MAX_RETRIES) == (st.cdc, Dropped);
      assert Attempts(st.cdc, e, NoFaults(), 1, MAX_RETRIES) == (st.cdc, Dropped);
    }
  }

  lemma ChangeKeepsCoherence(engine: Engine, st: State, e: Event)
    requires Coherent(engine, st)
    ensures Coherent(engine, ChangeStep(st, e).0)
  {
    hide IndexAgrees, Explained, Dispatchable, StoreEffect, KeysFresh, ChangeStep;
    ChangeOutcome(st, e);
    if !Stale(st.cdc, e) && Dispatchable(e) {
      StoreKeepsIndexAgrees(st, e);
      if st.cdc.cache.Some? {
        var cache := st.cdc.cache.value;
        var keep := (s: Slot) => e.chunkId !in s.entry.chunkIds;
        FilterMembers(keep, cache.slots);
        FilterKeepsKeysFresh(keep, cache.slots, cache.counter);
        forall s | s in AfterInvalidate(cache.slots, e.chunkId)
          ensures Explained(engine, StoreEffect(st.cdc.rows, e), s.entry)
        {
          ChangeKeepsExplained(engine, st.cdc.rows, e, s.entry);
        }
      }
    }
  }

  // ---- runs -------------------------------------------------------------------------------------------

  datatype PStep =
    | AQuery(question: string, session: Session, clock: Clock)
    | AChange(event: Event)

  ghost function PStepResult(engine: Engine, cfg: Config, st: State, step: PStep): State {
    match step
    case AQuery(question, session, clock) =>
      if st.cdc.cache.None? then st else QueryStep(engine, cfg, st, question, session, clock).0
    case AChange(event) => ChangeStep(st, event).0
  }

  ghost function PRun(engine: Engine, cfg: Config, st: State, steps: seq<PStep>): State {
    if steps == [] then st
    else PStepResult(engine, cfg, PRun(engine, cfg, st, steps[..|steps| - 1]), steps[|steps| - 1])
  }

  /** The pipeline right after its one indexing: live list and index alike, cache and versions empty. */
  function Start(chunks: seq<Chunk>, cached: bool): State {
    State(CdcState(chunks, map[], if cached then Some(Store([], 0)) else None), chunks)
  }

  predicate ValidSteps(steps: seq<PStep>) {
    forall i :: 0 <= i < |steps| && steps[i].AQuery? ==> ValidSession(steps[i].session)
  }

  lemma {:induction false} RunsAreCoherent(engine: Engine, cfg: Config, chunks: seq<Chunk>, cached: bool, steps: seq<PStep>)
    requires DistinctIds(chunks) && ValidSteps(steps)
    ensures Coherent(engine, PRun(engine, cfg, Start(chunks, cached), steps))
  {
    if steps == [] {
      KeptAll(chunks);
    } else {
      hide Coherent, QueryStep, ChangeStep;
      var n := |steps| - 1;
      RunsAreCoherent(engine, cfg, chunks, cached, steps[..n]);
      var st := PRun(engine, cfg, Start(chunks, cached), steps[..n]);
      match steps[n]
      case AQuery(question, session, clock) =>
        if st.cdc.cache.Some? {
          QueryKeepsCoherence(engine, cfg, st, question, session, clock);
        }
      case AChange(event) => ChangeKeepsCoherence(engine, st, event);
    }
  }
}
