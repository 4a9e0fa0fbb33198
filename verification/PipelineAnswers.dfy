/**
 What a warm answer and a cold answer rest on, in every state a run can reach.
 */
module PipelineAnswers {
  import opened Schemas
  import opened Access
  import opened Masking
  import opened SecurityFilter
  import opened ScopeKey
  import opened SemanticCache
  import opened Cdc
  import opened Pipeline
  import opened PipelineRuns

  // ---- re-governance ------------------------------------------------------------------

  /** Re-governance returns exactly the ids that are live and retrievable. */
  lemma {:induction false} GovernElements(live: seq<Chunk>, ids: seq<string>, session: Session)
    ensures Elements(GovernIds(live, ids, session)) ==
            set id | id in ids && RowFor(live, id).Some? && Retrievable(RowFor(live, id).value, session)
  {
    hide Evaluate, Redact, RowFor;
    if ids != [] {
      var n := |ids| - 1;
      var row := RowFor(live, ids[n]);
      GovernElements(live, ids[..n], session);
      StoredStep(live, ids, session);
      assert forall id :: id in ids <==> id in ids[..n] || id == ids[n];
      assert Elements(GovernIds(live, ids, session)) == Elements(GovernIds(live, ids[..n], session)) +
             if row.Some? && Retrievable(row.value, session) then {ids[n]} else {};
    }
  }

  lemma StoredStep(live: seq<Chunk>, ids: seq<string>, session: Session)
    requires ids != []
    ensures var n := |ids| - 1;
      var row := RowFor(live, ids[n]);
      GovernIds(live, ids, session) == GovernIds(live, ids[..n], session) +
        if row.Some? && Retrievable(row.value, session) then [ids[n]] else []
  {
    hide Evaluate, RowFor;
    var n := |ids| - 1;
    var row := RowFor(live, ids[n]);
    var init := Stored(live, ids[..n]);
    if row.Some? {
      var sc := ScoredChunk(row.value, 1.0, None, None);
      AdmittedAppend(init, [sc], session);
      assert [sc][..0] == [];
    } else {
      assert init + [] == init;
    }
  }

  /**
   Re-governance reads ids and decisions only. A row whose text changed under the same
   decision passes it, so it is invalidation that keeps stale answers out.
   */
  lemma {:induction false} RegovernanceIgnoresContent(a: seq<Chunk>, b: seq<Chunk>, ids: seq<string>, session: Session)
    requires forall i :: 0 <= i < |ids| ==>
      RowFor(a, ids[i]).Some? == RowFor(b, ids[i]).Some?
    requires forall i :: 0 <= i < |ids| && RowFor(a, ids[i]).Some? ==>
      Retrievable(RowFor(a, ids[i]).value, session) == Retrievable(RowFor(b, ids[i]).value, session)
    ensures GovernIds(a, ids, session) == GovernIds(b, ids, session)
  {
    hide Evaluate, Redact, RowFor;
    if ids != [] {
      RegovernanceIgnoresContent(a, b, ids[..|ids| - 1], session);
      StoredStep(a, ids, session);
      StoredStep(b, ids, session);
    }
  }

  // ---- warm answers ---------------------------------------------------------------------

  ghost predicate AllLive(live: seq<Chunk>, ids: seq<string>) {
    forall i :: 0 <= i < |ids| ==> RowFor(live, ids[i]).Some?
  }

  ghost function LiveRows(live: seq<Chunk>, ids: seq<string>): (rows: seq<Chunk>)
    requires AllLive(live, ids)
    ensures |rows| == |ids| && forall i :: 0 <= i < |ids| ==> rows[i] == RowFor(live, ids[i]).value
  {
    seq(|ids|, i requires 0 <= i < |ids| => RowFor(live, ids[i]).value)
  }

  /** With every id live, the rows an entry was made from are the live rows, and the requester sees the same views. */
  lemma ExplainedByLive(engine: Engine, live: seq<Chunk>, entry: Entry, session: Session)
    requires Explained(engine, live, entry) && ValidSession(session) && ScopePayload(session) == entry.scope
    requires AllLive(live, entry.chunkIds)
    ensures entry.answer == AnswerFrom(engine, entry.queryText, Views(LiveRows(live, entry.chunkIds), session))
    ensures forall i :: 0 <= i < |entry.chunkIds| ==> Retrievable(LiveRows(live, entry.chunkIds)[i], session)
  {
    hide AnswerFrom, Evaluate, Redact, RowFor, ScopePayload, ValidSession, IsRole;
    var o :| Explains(engine, live, entry, o);
    PayloadIsScope(o.session, session);
    forall i | 0 <= i < |o.rows|
      ensures o.rows[i] == LiveRows(live, entry.chunkIds)[i]
      ensures Retrievable(o.rows[i], session)
    {
      assert entry.chunkIds[i] == o.rows[i].id;
      SameScopeSameView(o.rows[i], o.session, session);
    }
    assert o.rows == LiveRows(live, entry.chunkIds);
    SameScopeViews(o.rows, o.session, session);
  }

  /** In a coherent state, the best sufficiently similar entry is served exactly when all its chunks are still live. */
  lemma ServedExactly(engine: Engine, cfg: Config, st: State, question: string, session: Session, now: real, i: nat)
    requires st.cdc.cache.Some? && Coherent(engine, st) && ValidSession(session)
    requires IsBest(cfg, st.cdc.cache.value.slots, ScopePayload(session), question, now, i)
    requires Similarity(cfg, st.cdc.cache.value.slots[i], question) >= cfg.threshold
    ensures Serves(cfg, st.cdc.cache.value.slots, ScopePayload(session), question, GovernFn(st.cdc.rows, session), now, i)
       <==> AllLive(st.cdc.rows, st.cdc.cache.value.slots[i].entry.chunkIds)
  {
    hide Evaluate, Redact, RowFor, ScopePayload, ValidSession, GovernIds, IndexAgrees, KeysFresh, Explained;
    var slot := st.cdc.cache.value.slots[i];
    var ids := slot.entry.chunkIds;
    GovernElements(st.cdc.rows, ids, session);
    if AllLive(st.cdc.rows, ids) {
      ExplainedByLive(engine, st.cdc.rows, slot.entry, session);
      forall id | id in ids
        ensures RowFor(st.cdc.rows, id).Some? && Retrievable(RowFor(st.cdc.rows, id).value, session)
      {
        var k :| 0 <= k < |ids| && ids[k] == id;
        assert Retrievable(LiveRows(st.cdc.rows, ids)[k], session);
      }
      assert Elements(GovernIds(st.cdc.rows, ids, session)) == Elements(ids);
    } else {
      var k :| 0 <= k < |ids| && RowFor(st.cdc.rows, ids[k]).None?;
      assert ids[k] in Elements(ids) && ids[k] !in Elements(GovernIds(st.cdc.rows, ids, session));
    }
  }

  /**
   Every warm answer is what the put-time question gets today, for this requester, from
   the redacted views of the entry's chunks, all of which are live.
   */
  lemma WarmAnswer(engine: Engine, cfg: Config, st: State, question: string, session: Session, clock: Clock)
    requires st.cdc.cache.Some? && Coherent(engine, st) && ValidSession(session)
    requires WarmSlot(cfg, st, question, session, clock.lookup).Some?
    ensures var entry := st.cdc.cache.value.slots[WarmSlot(cfg, st, question, session, clock.lookup).value].entry;
      var response := QueryStep(engine, cfg, st, question, session, clock).1;
      && AllLive(st.cdc.rows, entry.chunkIds)
      && response.answer == AnswerFrom(engine, entry.queryText, Views(LiveRows(st.cdc.rows, entry.chunkIds), session))
      && response.nWithheld == entry.nWithheld
  {
    hide AnswerFrom, Evaluate, Redact, RowFor, ScopePayload, ValidSession, GovernIds, AfterGet, Explained, IndexAgrees, KeysFresh, AllLive;
    var slots := st.cdc.cache.value.slots;
    var i := WarmSlot(cfg, st, question, session, clock.lookup).value;
    ServedExactly(engine, cfg, st, question, session, clock.lookup, i);
    assert slots[i] in slots;
    ExplainedByLive(engine, st.cdc.rows, slots[i].entry, session);
  }

  /** The same for any run: one indexing of distinct chunks, then any queries and changes. */
  lemma EveryWarmAnswer(engine: Engine, cfg: Config, chunks: seq<Chunk>, steps: seq<PStep>,
                        question: string, session: Session, clock: Clock)
    requires DistinctIds(chunks) && ValidSteps(steps) && ValidSession(session)
    ensures var st := PRun(engine, cfg, Start(chunks, true), steps);
      && st.cdc.cache.Some?
      && (WarmSlot(cfg, st, question, session, clock.lookup).Some? ==>
            var entry := st.cdc.cache.value.slots[WarmSlot(cfg, st, question, session, clock.lookup).value].entry;
            && AllLive(st.cdc.rows, entry.chunkIds)
            && QueryStep(engine, cfg, st, question, session, clock).1.answer ==
               AnswerFrom(engine, entry.queryText, Views(LiveRows(st.cdc.rows, entry.chunkIds), session)))
  {
    hide Coherent, QueryStep, DistinctIds, ValidSteps, ValidSession, AllLive, WarmSlot, AnswerFrom;
    RunsAreCoherent(engine, cfg, chunks, true, steps);
    CacheStays(engine, cfg, Start(chunks, true), steps);
    var st := PRun(engine, cfg, Start(chunks, true), steps);
    if WarmSlot(cfg, st, question, session, clock.lookup).Some? {
      WarmAnswer(engine, cfg, st, question, session, clock);
    }
  }

  lemma {:induction false} CacheStays(engine: Engine, cfg: Config, st: State, steps: seq<PStep>)
    requires st.cdc.cache.Some?
    ensures PRun(engine, cfg, st, steps).cdc.cache.Some?
  {
    if steps != [] {
      CacheStays(engine, cfg, st, steps[..|steps| - 1]);
      var last := steps[|steps| - 1];
      if last.AChange? {
        ChangeOutcome(PRun(engine, cfg, st, steps[..|steps| - 1]), last.event);
      }
    }
  }

  lemma {:induction false} LiveIds(live: seq<Chunk>, ids: seq<string>)
    requires AllLive(live, ids)
    ensures Ids(LiveRows(live, ids)) == ids
  {
    var rows := LiveRows(live, ids);
    forall i | 0 <= i < |ids|
      ensures Ids(rows)[i] == ids[i]
    {
      assert RowFor(live, ids[i]).value.id == ids[i];
    }
  }

  /** The same admitted ids come with the same live rows: the index has no other row for them. */
  lemma SameIdsSameRows(st: State, candidates: seq<ScoredChunk>, session: Session, ids: seq<string>)
    requires IndexAgrees(st.cdc.rows, st.index) && AllLive(st.cdc.rows, ids)
    requires forall k :: 0 <= k < |candidates| ==> candidates[k].chunk in st.index
    requires Ids(RetrievableRows(candidates, session)) == ids
    ensures RetrievableRows(candidates, session) == LiveRows(st.cdc.rows, ids)
  {
    hide Evaluate, Retrievable, RowFor, IndexAgrees, RetrievableRows;
    var rows := RetrievableRows(candidates, session);
    assert |rows| == |Ids(rows)|;
    forall i | 0 <= i < |rows|
      ensures rows[i] == LiveRows(st.cdc.rows, ids)[i]
    {
      assert Ids(rows)[i] == ids[i];
      RetrievableRowsFacts(candidates, session, i);
      LiveRowIsIndexed(st.cdc.rows, st.index, rows[i]);
    }
  }

  /** Two contexts are one exactly when every generator answers alike from them. */
  lemma SameContext(question: string, a: seq<Chunk>, b: seq<Chunk>)
    ensures a == b <==> forall g: (string, seq<Chunk>) -> string :: g(question, a) == g(question, b)
  {
    if a != b {
      var g: (string, seq<Chunk>) -> string := (q, views) => if views == a then "a" else "b";
      assert g(question, a) != g(question, b);
    }
  }

  /**
   A warm answer against asking its put-time question cold now: whatever the generator, they
   are the same exactly when the cold query would admit the same ids in the same order.
   */
  lemma WarmEqualsCold(engine: Engine, cfg: Config, st: State, question: string, session: Session, clock: Clock)
    requires st.cdc.cache.Some? && Coherent(engine, st) && ValidSession(session)
    requires WarmSlot(cfg, st, question, session, clock.lookup).Some?
    ensures
      var entry := st.cdc.cache.value.slots[WarmSlot(cfg, st, question, session, clock.lookup).value].entry;
      var asked := entry.queryText;
      var cold := Chunks(Admitted(Retrieve(engine, st.index, asked), session));
      && AllLive(st.cdc.rows, entry.chunkIds)
      && ((forall g: (string, seq<Chunk>) -> string :: g(asked, Views(LiveRows(st.cdc.rows, entry.chunkIds), session)) == g(asked, cold))
          <==> Ids(cold) == entry.chunkIds)
      && (Ids(cold) == entry.chunkIds ==>
            QueryStep(engine, cfg, st, question, session, clock).1.answer == ColdResponse(engine, st.index, asked, session).answer)
  {
    hide AnswerFrom, Evaluate, Redact, RowFor, ScopePayload, ValidSession, GovernIds, AfterGet, KeysFresh, WarmSlot,
         QueryStep, Explained, Admitted, IndexAgrees, AllLive, LiveRows, Views, RetrievableRows, Ids, Chunks;
    WarmAnswer(engine, cfg, st, question, session, clock);
    var entry := st.cdc.cache.value.slots[WarmSlot(cfg, st, question, session, clock.lookup).value].entry;
    var candidates := Retrieve(engine, st.index, entry.queryText);
    var rows, live := RetrievableRows(candidates, session), LiveRows(st.cdc.rows, entry.chunkIds);
    AdmittedAreViews(candidates, session);
    ViewIds(rows, session);
    ViewIds(live, session);
    LiveIds(st.cdc.rows, entry.chunkIds);
    SameContext(entry.queryText, Views(live, session), Views(rows, session));
    if Ids(rows) == entry.chunkIds {
      SameIdsSameRows(st, candidates, session, entry.chunkIds);
    }
  }

  // ---- cold answers -------------------------------------------------------------------------

  /** A cold response depends on what the session may see of the candidates, and on nothing else. */
  lemma ColdNoninterference(engine: Engine, a: seq<Chunk>, b: seq<Chunk>, question: string, session: Session)
    requires LowEqualLists(Retrieve(engine, a, question), Retrieve(engine, b, question), session)
    ensures ColdResponse(engine, a, question, session) == ColdResponse(engine, b, question, session)
  {
    hide Evaluate, Admitted, Trail, LowEqualScored, AnswerFrom, Retrieve;
    Noninterference(Retrieve(engine, a, question), Retrieve(engine, b, question), session);
  }

  /** No ranking of the index can bring up a chunk that is not live. */
  ghost predicate OnlyLiveRetrieved(st: State) {
    forall hits: seq<Hit>, i :: 0 <= i < |Hydrate(st.index, hits)| ==> Hydrate(st.index, hits)[i].chunk in st.cdc.rows
  }

  /** Cold answers rest on live chunks only exactly when no deleted id is still indexed. */
  lemma ColdRestsOnLiveExactly(engine: Engine, st: State)
    requires Coherent(engine, st)
    ensures OnlyLiveRetrieved(st) <==> StaleIds(st) == {}
    ensures StaleIds(st) == {} <==> st.index == st.cdc.rows
  {
    KeptIds(st.index, IdSet(st.cdc.rows));
    if StaleIds(st) == {} {
      forall i | 0 <= i < |st.index|
        ensures st.index[i].id in IdSet(st.cdc.rows)
      {
        assert st.index[i].id in IdSet(st.index) && st.index[i].id !in StaleIds(st);
      }
      FilterAll((c: Chunk) => c.id in IdSet(st.cdc.rows), st.index);
    } else {
      var id :| id in StaleIds(st);
      var k :| 0 <= k < |st.index| && st.index[k].id == id;
      var hits := [Hit(k, 0.0, None, None)];
      assert hits[..0] == [];
      assert Hydrate(st.index, hits) == [ScoredChunk(st.index[k], 0.0, None, None)];
      assert Hydrate(st.index, hits)[0].chunk !in st.cdc.rows;
    }
  }

  /** A deletion that applies leaves its id indexed; any other applied change clears every stale id. */
  lemma StaleAfterChange(engine: Engine, st: State, e: Event)
    requires Coherent(engine, st)
    ensures var (st', outcome) := ChangeStep(st, e);
      StaleIds(st') == (if outcome != Applied then StaleIds(st)
                        else if e.op == Delete then StaleIds(st) + (IdSet(st.index) * {e.chunkId})
                        else {})
  {
    hide StoreEffect;
    ChangeOutcome(st, e);
    WithoutIds(st.cdc.rows, e.chunkId);
    if e.op == Delete {
      StoreEffectDelete(st.cdc.rows, e);
    }
  }

  lemma StoreEffectDelete(rows: seq<Chunk>, e: Event)
    requires Dispatchable(e)
    ensures e.op == Delete ==> StoreEffect(rows, e) == WithoutChunk(rows, e.chunkId)
  {
  }
}
