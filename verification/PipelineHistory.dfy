/**
 What a state of the pipeline owes to the run that led to it: which deleted ids are still
 indexed, and which put each cached entry came from.
 */
module PipelineHistory {
  import opened Schemas
  import opened Access
  import opened Masking
  import opened SecurityFilter
  import opened ScopeKey
  import opened SemanticCache
  import opened Cdc
  import opened Pipeline
  import opened PipelineRuns
  import opened PipelineAnswers

  /** A run: one indexing, then queries and changes. */
  datatype History = History(engine: Engine, cfg: Config, chunks: seq<Chunk>, cached: bool, steps: seq<PStep>)
  {
    /** The state after the first n steps. */
    ghost function At(n: nat): State
      requires n <= |steps|
    {
      PRun(engine, cfg, Start(chunks, cached), steps[..n])
    }

    ghost predicate Valid() {
      DistinctIds(chunks) && ValidSteps(steps)
    }

    /** Step i is a change event that applied. */
    ghost predicate AppliedAt(i: nat) {
      i < |steps| && steps[i].AChange? && ChangeStep(At(i), steps[i].event).1 == Applied
    }

    /** Step i deleted a chunk the index held. */
    ghost predicate DeletedAt(i: nat, id: string) {
      AppliedAt(i) && steps[i].event.op == Delete && steps[i].event.chunkId == id && id in IdSet(At(i).index)
    }

    /** An indexed chunk was deleted in the first n steps, and nothing but deletions applied after that. */
    ghost predicate LeftIndexed(n: nat, id: string) {
      exists i: nat :: i < n && DeletedAt(i, id) && OnlyDeletions(i, n)
    }

    ghost predicate OnlyDeletions(i: nat, n: nat) {
      forall j :: i < j < n && AppliedAt(j) ==> steps[j].event.op == Delete
    }
  }

  lemma NextStep(h: History, n: nat)
    requires n < |h.steps|
    ensures h.At(n + 1) == PStepResult(h.engine, h.cfg, h.At(n), h.steps[n])
  {
    hide PStepResult;
    assert h.steps[..n + 1][..n] == h.steps[..n];
  }

  lemma CoherentAt(h: History, n: nat)
    requires h.Valid() && n <= |h.steps|
    ensures Coherent(h.engine, h.At(n))
  {
    hide Coherent, PRun;
    RunsAreCoherent(h.engine, h.cfg, h.chunks, h.cached, h.steps[..n]);
  }

  // ---- deleted, but still indexed ---------------------------------------------------------

  lemma QueryKeepsRows(engine: Engine, cfg: Config, st: State, step: PStep)
    requires step.AQuery?
    ensures var st' := PStepResult(engine, cfg, st, step); st'.cdc.rows == st.cdc.rows && st'.index == st.index
  {
    hide WarmSlot, ColdEntry, AfterPut, AfterGet, ColdResponse, WarmResponse;
  }

  lemma LeftIndexedNext(h: History, n: nat, id: string)
    requires n < |h.steps|
    ensures h.LeftIndexed(n + 1, id) <==>
      if !h.AppliedAt(n) then h.LeftIndexed(n, id)
      else h.steps[n].event.op == Delete && (h.LeftIndexed(n, id) || h.DeletedAt(n, id))
  {
    hide PRun, ChangeStep, Start;
    if h.LeftIndexed(n + 1, id) {
      var i: nat :| i < n + 1 && h.DeletedAt(i, id) && h.OnlyDeletions(i, n + 1);
      if i < n {
        assert h.OnlyDeletions(i, n);
      }
    }
    if h.LeftIndexed(n, id) && (h.AppliedAt(n) ==> h.steps[n].event.op == Delete) {
      var i: nat :| i < n && h.DeletedAt(i, id) && h.OnlyDeletions(i, n);
      assert h.OnlyDeletions(i, n + 1);
    }
    if h.DeletedAt(n, id) {
      assert h.OnlyDeletions(n, n + 1);
    }
  }

  /** The stale ids of any state a run reaches are the indexed chunks deleted since anything else applied. */
  lemma {:induction false} StaleIdsOfRun(h: History, n: nat, id: string)
    requires h.Valid() && n <= |h.steps|
    ensures id in StaleIds(h.At(n)) <==> h.LeftIndexed(n, id)
  {
    hide PStepResult, ChangeStep, IdSet, PRun, ValidSteps, DistinctIds, Coherent, StaleIds;
    if n == 0 {
      NothingStale(h, id);
    } else {
      var st, step := h.At(n - 1), h.steps[n - 1];
      StaleIdsOfRun(h, n - 1, id);
      NextStep(h, n - 1);
      LeftIndexedNext(h, n - 1, id);
      match step
      case AQuery(_, _, _) =>
        QueryKeepsRows(h.engine, h.cfg, st, step);
        SameStale(st, h.At(n));
      case AChange(event) =>
        CoherentAt(h, n - 1);
        StaleAfterChange(h.engine, st, event);
        ChangeIsStep(h.engine, h.cfg, st, event);
    }
  }

  lemma NothingStale(h: History, id: string)
    ensures id !in StaleIds(h.At(0)) && !h.LeftIndexed(0, id)
  {
    assert h.steps[..0] == [];
  }

  lemma SameStale(st: State, st': State)
    requires st'.cdc.rows == st.cdc.rows && st'.index == st.index
    ensures StaleIds(st') == StaleIds(st)
  {
  }

  lemma ChangeIsStep(engine: Engine, cfg: Config, st: State, e: Event)
    ensures PStepResult(engine, cfg, st, AChange(e)) == ChangeStep(st, e).0
  {
  }

  /** Cold answers rest on live chunks only, exactly until an indexed chunk is deleted, and again once anything else applies. */
  lemma ColdRestsOnRun(h: History)
    requires h.Valid()
    ensures OnlyLiveRetrieved(h.At(|h.steps|)) <==> forall id :: !h.LeftIndexed(|h.steps|, id)
  {
    hide Coherent, OnlyLiveRetrieved, StaleIds, PRun, ValidSteps, DistinctIds;
    var n := |h.steps|;
    CoherentAt(h, n);
    ColdRestsOnLiveExactly(h.engine, h.At(n));
    forall id
      ensures id in StaleIds(h.At(n)) <==> h.LeftIndexed(n, id)
    {
      StaleIdsOfRun(h, n, id);
    }
  }

  /** A run of one deletion: the chunk is gone, and the next cold answer cites it. */
  lemma DeletedStillCited(engine: Engine, cfg: Config, c: Chunk, e: Event, question: string, session: Session, score: real)
    requires c.security.IsPublic() && e.op == Delete && e.chunkId == c.id
    requires engine.rank(question, [c]) == [Hit(0, score, None, None)]
    ensures var st := PRun(engine, cfg, Start([c], false), [AChange(e)]);
      && st.cdc.rows == []
      && ColdResponse(engine, st.index, question, session).citations ==
         [Citation(c.id, c.parentDocId, c.parentTitle, c.content)]
  {
    hide Redact, AnswerFrom, ChangeStep, StoreEffect;
    var st := Start([c], false);
    ChangeOutcome(st, e);
    assert [AChange(e)][..0] == [];
    assert PRun(engine, cfg, st, [AChange(e)]) == ChangeStep(st, e).0;
    StoreEffectDelete([c], e);
    assert [c][..0] == [];
    assert WithoutChunk([c], c.id) == [];
    PublicCited(engine, c, question, session, score);
  }

  lemma PublicCited(engine: Engine, c: Chunk, question: string, session: Session, score: real)
    requires c.security.IsPublic() && engine.rank(question, [c]) == [Hit(0, score, None, None)]
    ensures ColdResponse(engine, [c], question, session).citations ==
            [Citation(c.id, c.parentDocId, c.parentTitle, c.content)]
  {
    hide AnswerFrom, Trail;
    var hits := [Hit(0, score, None, None)];
    var sc := ScoredChunk(c, score, None, None);
    assert hits[..0] == [];
    assert Hydrate([c], hits) == [] + [sc] == [sc];
    assert [sc][..0] == [];
    assert Admitted([sc], session) == [] + [sc] == [sc];
  }

  // ---- where a cached entry comes from -----------------------------------------------------

  /** Step i asked cold and put this entry. */
  ghost predicate PutAt(h: History, i: nat, entry: Entry) {
    i < |h.steps| && h.steps[i].AQuery? && h.At(i).cdc.cache.Some?
    && WarmSlot(h.cfg, h.At(i), h.steps[i].question, h.steps[i].session, h.steps[i].clock.lookup).None?
    && entry == ColdEntry(h.engine, h.cfg, h.At(i).index, h.steps[i].question, h.steps[i].session, h.steps[i].clock.created)
  }

  /** The rows a query of step i was answered from: what it retrieved and was let see, unredacted. */
  ghost function PutRows(h: History, i: nat): seq<Chunk>
    requires i < |h.steps| && h.steps[i].AQuery?
  {
    RetrievableRows(Retrieve(h.engine, h.At(i).index, h.steps[i].question), h.steps[i].session)
  }

  ghost predicate AllUnchanged(live: seq<Chunk>, rows: seq<Chunk>) {
    forall k :: 0 <= k < |rows| ==> Unchanged(live, rows[k])
  }

  /** One of the first n steps put the entry, and every row it was made from is gone or as it was then. */
  ghost predicate FromPut(h: History, n: nat, entry: Entry)
    requires n <= |h.steps|
  {
    exists i: nat :: i < n && PutAt(h, i, entry) && AllUnchanged(h.At(n).cdc.rows, PutRows(h, i))
  }

  lemma PutRowIds(h: History, i: nat, entry: Entry)
    requires PutAt(h, i, entry)
    ensures Ids(PutRows(h, i)) == entry.chunkIds
  {
    hide Evaluate, Admitted, Retrieve, ColdResponse, WarmSlot, Views, RetrievableRows;
    var candidates := Retrieve(h.engine, h.At(i).index, h.steps[i].question);
    AdmittedAreViews(candidates, h.steps[i].session);
    ViewIds(PutRows(h, i), h.steps[i].session);
  }

  lemma FreshPut(h: History, n: nat, entry: Entry)
    requires h.Valid() && n < |h.steps| && PutAt(h, n, entry)
    ensures AllUnchanged(h.At(n).cdc.rows, PutRows(h, n))
  {
    hide Evaluate, ColdEntry, WarmSlot, RetrievableRows, IndexAgrees, PRun, Explained, KeysFresh, Unchanged, RowFor;
    CoherentAt(h, n);
    var st, candidates := h.At(n), Retrieve(h.engine, h.At(n).index, h.steps[n].question);
    var rows := PutRows(h, n);
    forall k | 0 <= k < |rows|
      ensures Unchanged(st.cdc.rows, rows[k])
    {
      RetrievableRowsFacts(candidates, h.steps[n].session, k);
      LiveRowUnchanged(st.cdc.rows, st.index, rows[k]);
    }
  }

  lemma LiveRowUnchanged(live: seq<Chunk>, index: seq<Chunk>, row: Chunk)
    requires IndexAgrees(live, index) && row in index
    ensures Unchanged(live, row)
  {
    LiveRowIsIndexed(live, index, row);
  }

  lemma ChangeKeepsPut(h: History, n: nat, entry: Entry, e: Event, live: seq<Chunk>)
    requires n <= |h.steps| && FromPut(h, n, entry) && Dispatchable(e) && e.chunkId !in entry.chunkIds
    requires live == StoreEffect(h.At(n).cdc.rows, e)
    ensures exists i: nat :: i < n && PutAt(h, i, entry) && AllUnchanged(live, PutRows(h, i))
  {
    hide ColdEntry, WarmSlot, PRun, Retrieve, RetrievableRows, StoreEffect, Dispatchable, RowFor, Effect;
    var i: nat :| i < n && PutAt(h, i, entry) && AllUnchanged(h.At(n).cdc.rows, PutRows(h, i));
    PutRowIds(h, i, entry);
    var rows := PutRows(h, i);
    forall k | 0 <= k < |rows|
      ensures Unchanged(live, rows[k])
    {
      assert entry.chunkIds[k] == rows[k].id;
      StoreEffectRows(h.At(n).cdc.rows, e, rows[k].id);
    }
  }

  /** What a query leaves in the cache: entries that were there, or its own put. */
  lemma QueryEntries(engine: Engine, cfg: Config, st: State, step: PStep, s: Slot)
    requires step.AQuery? && st.cdc.cache.Some?
    requires var st' := PStepResult(engine, cfg, st, step); st'.cdc.cache.Some? && s in st'.cdc.cache.value.slots
    ensures (exists p :: p in st.cdc.cache.value.slots && p.entry == s.entry)
         || (WarmSlot(cfg, st, step.question, step.session, step.clock.lookup).None?
             && s.entry == ColdEntry(engine, cfg, st.index, step.question, step.session, step.clock.created))
  {
    hide ColdEntry, ColdResponse, WarmResponse, WarmSlot, Filter;
    var cache := st.cdc.cache.value;
    var served := WarmSlot(cfg, st, step.question, step.session, step.clock.lookup);
    if served.Some? {
      var slot := cache.slots[served.value];
      FilterMembers((t: Slot) => t.key != slot.key, cache.slots);
      assert slot in cache.slots;
    } else {
      var entry := ColdEntry(engine, cfg, st.index, step.question, step.session, step.clock.created);
      var grown := cache.slots + [Slot(Key(entry.scope, cache.counter + 1), entry)];
      FilterMembers((t: Slot) => !t.entry.Expired(step.clock.evict), grown);
      assert s in Unexpired(grown, step.clock.evict);
      assert s in grown;
    }
  }

  lemma QueryKeepsPuts(h: History, n: nat, s: Slot)
    requires h.Valid() && n < |h.steps| && h.steps[n].AQuery? && h.At(n).cdc.cache.Some?
    requires forall p :: p in h.At(n).cdc.cache.value.slots ==> FromPut(h, n, p.entry)
    requires h.At(n + 1).cdc.cache.Some? && s in h.At(n + 1).cdc.cache.value.slots
    ensures FromPut(h, n + 1, s.entry)
  {
    hide ColdEntry, WarmSlot, PRun, PStepResult, Retrieve, RetrievableRows, AllUnchanged;
    NextStep(h, n);
    QueryKeepsRows(h.engine, h.cfg, h.At(n), h.steps[n]);
    QueryEntries(h.engine, h.cfg, h.At(n), h.steps[n], s);
    if p :| p in h.At(n).cdc.cache.value.slots && p.entry == s.entry {
      var i: nat :| i < n && PutAt(h, i, p.entry) && AllUnchanged(h.At(n).cdc.rows, PutRows(h, i));
    } else {
      assert PutAt(h, n, s.entry);
      FreshPut(h, n, s.entry);
    }
  }

  lemma ChangeKeepsPuts(h: History, n: nat, s: Slot)
    requires n < |h.steps| && h.steps[n].AChange? && h.At(n).cdc.cache.Some?
    requires forall p :: p in h.At(n).cdc.cache.value.slots ==> FromPut(h, n, p.entry)
    requires h.At(n + 1).cdc.cache.Some? && s in h.At(n + 1).cdc.cache.value.slots
    ensures FromPut(h, n + 1, s.entry)
  {
    hide PutAt, PRun, PStepResult, ChangeStep, AllUnchanged, PutRows, StoreEffect, Dispatchable, Filter;
    var st, e := h.At(n), h.steps[n].event;
    NextStep(h, n);
    ChangeIsStep(h.engine, h.cfg, st, e);
    ChangeOutcome(st, e);
    if !Stale(st.cdc, e) && Dispatchable(e) {
      FilterMembers((p: Slot) => e.chunkId !in p.entry.chunkIds, st.cdc.cache.value.slots);
      ChangeKeepsPut(h, n, s.entry, e, h.At(n + 1).cdc.rows);
    } else {
      assert FromPut(h, n, s.entry);
    }
  }

  /**
   In every state of a run each cached entry is what one query of the run put there, cold, and
   every row that query's answer was made from is gone or still what it was.
   */
  lemma {:induction false} EntriesFromPuts(h: History, n: nat)
    requires h.Valid() && n <= |h.steps| && h.At(n).cdc.cache.Some?
    ensures forall s :: s in h.At(n).cdc.cache.value.slots ==> FromPut(h, n, s.entry)
  {
    hide PRun, PStepResult, FromPut, ValidSteps, DistinctIds;
    if n == 0 {
      NothingCached(h);
    } else {
      NextStep(h, n - 1);
      CacheBefore(h.engine, h.cfg, h.At(n - 1), h.steps[n - 1]);
      EntriesFromPuts(h, n - 1);
      forall s | s in h.At(n).cdc.cache.value.slots
        ensures FromPut(h, n, s.entry)
      {
        if h.steps[n - 1].AQuery? {
          QueryKeepsPuts(h, n - 1, s);
        } else {
          ChangeKeepsPuts(h, n - 1, s);
        }
      }
    }
  }

  lemma NothingCached(h: History)
    requires h.At(0).cdc.cache.Some?
    ensures h.At(0).cdc.cache.value.slots == []
  {
    assert h.steps[..0] == [];
  }

  lemma CacheBefore(engine: Engine, cfg: Config, st: State, step: PStep)
    ensures PStepResult(engine, cfg, st, step).cdc.cache.Some? ==> st.cdc.cache.Some?
  {
    hide WarmSlot, ColdEntry, AfterPut, AfterGet, ColdResponse, WarmResponse, ChangeStep;
    if step.AChange? {
      ChangeOutcome(st, step.event);
    }
  }

  /** So a served answer rests on exactly the rows its own put was let see, every one of them live and unchanged. */
  lemma ServedFromItsPut(h: History, question: string, session: Session, clock: Clock)
    requires h.Valid() && h.cached && ValidSession(session)
    ensures var st := h.At(|h.steps|);
      st.cdc.cache.Some?
      && (WarmSlot(h.cfg, st, question, session, clock.lookup).Some? ==>
            var entry := st.cdc.cache.value.slots[WarmSlot(h.cfg, st, question, session, clock.lookup).value].entry;
            && AllLive(st.cdc.rows, entry.chunkIds)
            && exists i: nat :: i < |h.steps| && PutAt(h, i, entry) && LiveRows(st.cdc.rows, entry.chunkIds) == PutRows(h, i))
  {
    hide PRun, PutAt, ValidSteps, DistinctIds, ValidSession, WarmSlot, AnswerFrom, QueryStep, FromPut, AllLive, LiveRows, PutRows;
    var st := h.At(|h.steps|);
    assert h.steps[..|h.steps|] == h.steps;
    EveryWarmAnswer(h.engine, h.cfg, h.chunks, h.steps, question, session, clock);
    if WarmSlot(h.cfg, st, question, session, clock.lookup).Some? {
      EntriesFromPuts(h, |h.steps|);
      var slot := st.cdc.cache.value.slots[WarmSlot(h.cfg, st, question, session, clock.lookup).value];
      assert slot in st.cdc.cache.value.slots;
      LiveRowsArePutRows(h, slot.entry);
    }
  }

  lemma LiveRowsArePutRows(h: History, entry: Entry)
    requires FromPut(h, |h.steps|, entry) && AllLive(h.At(|h.steps|).cdc.rows, entry.chunkIds)
    ensures exists i: nat :: (i < |h.steps| && PutAt(h, i, entry)
      && LiveRows(h.At(|h.steps|).cdc.rows, entry.chunkIds) == PutRows(h, i))
  {
    hide ColdEntry, WarmSlot, PRun, Retrieve, RetrievableRows, RowFor;
    var live := h.At(|h.steps|).cdc.rows;
    var i: nat :| i < |h.steps| && PutAt(h, i, entry) && AllUnchanged(live, PutRows(h, i));
    PutRowIds(h, i, entry);
    var rows := PutRows(h, i);
    forall k | 0 <= k < |rows|
      ensures LiveRows(live, entry.chunkIds)[k] == rows[k]
    {
      assert entry.chunkIds[k] == rows[k].id;
    }
    assert |rows| == |Ids(rows)|;
  }
}
