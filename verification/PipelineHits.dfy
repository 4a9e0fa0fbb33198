/**
 What a cache hit gives back, against the query that put its entry: the answer, the citations
 and the counts; and two runs at which a hit and a cold query part.
 */
module PipelineHits {
  import opened Schemas
  import opened Access
  import opened Masking
  import opened SecurityFilter
  import opened ScopeKey
  import opened SemanticCache
  import opened Cdc
  import opened Pipeline
  import opened PipelineRuns
  import opened PipelineAnswers
  import opened PipelineHistory

  // ---- what a warm answer cites ----------------------------------------------------------------

  /** The live rows a warm answer cites, as they are stored. */
  function CitedRows(live: seq<Chunk>, ids: seq<string>): seq<Chunk> {
    Filter((c: Chunk) => c.id in ids, live)
  }

  lemma {:induction false} ViewAt(rows: seq<Chunk>, session: Session, i: nat)
    requires i < |rows|
    ensures Views(rows, session)[i] == View(rows[i], session)
  {
    hide View;
    if i < |rows| - 1 {
      ViewAt(rows[..|rows| - 1], session, i);
    }
  }

  /** A row is cited as the session would see it exactly when it is allowed, or says no more than its token. */
  lemma CitedAsSeen(rows: seq<Chunk>, session: Session)
    ensures Cite(rows) == Cite(Views(rows, session)) <==>
      forall i :: 0 <= i < |rows| ==>
        DecisionOf(rows[i], session) == Allow || rows[i].content == Withheld(rows[i].modality, Evaluate(rows[i], session))
  {
    hide Evaluate, Withheld, Views;
    forall i | 0 <= i < |rows|
      ensures Cite(rows)[i] == Cite(Views(rows, session))[i] <==>
        DecisionOf(rows[i], session) == Allow || rows[i].content == Withheld(rows[i].modality, Evaluate(rows[i], session))
    {
      ViewAt(rows, session, i);
    }
  }

  /** What a served slot's response cites: the stored rows its ids name. */
  lemma WarmCites(engine: Engine, cfg: Config, st: State, question: string, session: Session, clock: Clock)
    requires st.cdc.cache.Some? && WarmSlot(cfg, st, question, session, clock.lookup).Some?
    ensures var slot := st.cdc.cache.value.slots[WarmSlot(cfg, st, question, session, clock.lookup).value];
      QueryStep(engine, cfg, st, question, session, clock).1.citations == Cite(CitedRows(st.cdc.rows, slot.entry.chunkIds))
  {
    hide Cite, GovernIds, AfterGet, AfterPut, ColdEntry, ColdResponse;
    var slots, live := st.cdc.cache.value.slots, st.cdc.rows;
    var i := WarmSlot(cfg, st, question, session, clock.lookup).value;
    var ids, governed := slots[i].entry.chunkIds, GovernIds(live, slots[i].entry.chunkIds, session);
    assert Serves(cfg, slots, ScopePayload(session), question, GovernFn(live, session), clock.lookup, i);
    assert Elements(governed) == Elements(ids);
    SameCited(live, governed, ids);
  }

  lemma SameCited(live: seq<Chunk>, a: seq<string>, b: seq<string>)
    requires Elements(a) == Elements(b)
    ensures CitedRows(live, a) == CitedRows(live, b)
  {
    forall i | 0 <= i < |live|
      ensures live[i].id in a <==> live[i].id in b
    {
      assert live[i].id in Elements(a) <==> live[i].id in Elements(b);
    }
    FilterAgree((c: Chunk) => c.id in a, (c: Chunk) => c.id in b, live);
  }

  /** A row the session gets masked or in part, whose content says more than the token. */
  predicate HeldBack(row: Chunk, session: Session) {
    DecisionOf(row, session) in {Mask, Partial} && row.content != Withheld(row.modality, Evaluate(row, session))
  }

  ghost predicate NoneHeldBack(rows: seq<Chunk>, session: Session) {
    forall k :: 0 <= k < |rows| ==> !HeldBack(rows[k], session)
  }

  lemma {:induction false} RowOfDistinct(rows: seq<Chunk>, k: nat)
    requires DistinctIds(rows) && k < |rows|
    ensures RowFor(rows, rows[k].id) == Some(rows[k])
  {
    if k < |rows| - 1 {
      RowOfDistinct(rows[..|rows| - 1], k);
    }
  }

  /** Which stored rows are cited, in live order, are the live rows of the ids, in theirs. */
  lemma CitedAreLive(live: seq<Chunk>, ids: seq<string>)
    requires DistinctIds(live) && AllLive(live, ids)
    ensures forall row :: row in CitedRows(live, ids) <==> row in LiveRows(live, ids)
  {
    hide DistinctIds, RowFor;
    var rows := LiveRows(live, ids);
    FilterMembers((c: Chunk) => c.id in ids, live);
    forall row | row in CitedRows(live, ids)
      ensures row in rows
    {
      var k :| 0 <= k < |live| && live[k] == row;
      RowOfDistinct(live, k);
      var j :| 0 <= j < |ids| && ids[j] == row.id;
      assert rows[j] == row;
    }
    forall row | row in rows
      ensures row in CitedRows(live, ids)
    {
      var j :| 0 <= j < |rows| && rows[j] == row;
      assert row in live && row.id == ids[j];
    }
  }

  lemma SameScopeHeldBack(row: Chunk, s: Session, t: Session)
    requires SameScope(s, t)
    ensures HeldBack(row, s) == HeldBack(row, t)
  {
    SameScopeSameView(row, s, t);
  }

  /** Rows a session may retrieve are cited as it sees them exactly when none is held back. */
  lemma CitedExactly(cited: seq<Chunk>, rows: seq<Chunk>, s: Session, t: Session)
    requires SameScope(s, t) && forall row :: row in cited <==> row in rows
    requires forall k :: 0 <= k < |rows| ==> Retrievable(rows[k], s)
    ensures Cite(cited) == Cite(Views(cited, t)) <==> NoneHeldBack(rows, s)
  {
    hide Evaluate, Withheld, Views, Cite;
    CitedAsSeen(cited, t);
    forall row: Chunk
      ensures HeldBack(row, s) == HeldBack(row, t) && DecisionOf(row, s) == DecisionOf(row, t)
    {
      SameScopeHeldBack(row, s, t);
      SameScopeSameView(row, s, t);
    }
    if NoneHeldBack(rows, s) {
      forall i | 0 <= i < |cited|
        ensures DecisionOf(cited[i], t) == Allow || cited[i].content == Withheld(cited[i].modality, Evaluate(cited[i], t))
      {
        assert cited[i] in rows;
        var k :| 0 <= k < |rows| && rows[k] == cited[i];
        assert !HeldBack(rows[k], s) && Retrievable(rows[k], s);
      }
    } else {
      var k :| 0 <= k < |rows| && HeldBack(rows[k], s);
      assert rows[k] in cited;
      var i :| 0 <= i < |cited| && cited[i] == rows[k];
      assert HeldBack(cited[i], t);
    }
  }

  // ---- a hit against the query that put it ----------------------------------------------------

  /** Step i put the entry that answers the question after the run, from rows all still live. */
  ghost predicate AnswersFrom(h: History, entry: Entry, i: nat) {
    PutAt(h, i, entry) && AllLive(h.At(|h.steps|).cdc.rows, entry.chunkIds)
    && LiveRows(h.At(|h.steps|).cdc.rows, entry.chunkIds) == PutRows(h, i)
  }

  ghost predicate Served(h: History, question: string, session: Session, clock: Clock) {
    h.At(|h.steps|).cdc.cache.Some? && WarmSlot(h.cfg, h.At(|h.steps|), question, session, clock.lookup).Some?
  }

  ghost function ServedEntry(h: History, question: string, session: Session, clock: Clock): Entry
    requires Served(h, question, session, clock)
  {
    h.At(|h.steps|).cdc.cache.value.slots[WarmSlot(h.cfg, h.At(|h.steps|), question, session, clock.lookup).value].entry
  }

  ghost function Response(h: History, question: string, session: Session, clock: Clock): Pipeline.Response
    requires h.At(|h.steps|).cdc.cache.Some?
  {
    QueryStep(h.engine, h.cfg, h.At(|h.steps|), question, session, clock).1
  }

  /** The response its put gave. */
  ghost function PutResponse(h: History, i: nat): Pipeline.Response
    requires i < |h.steps| && h.steps[i].AQuery?
  {
    ColdResponse(h.engine, h.At(i).index, h.steps[i].question, h.steps[i].session)
  }

  lemma AnswerHasPut(h: History, question: string, session: Session, clock: Clock) returns (i: nat)
    requires h.Valid() && h.cached && ValidSession(session) && Served(h, question, session, clock)
    ensures AnswersFrom(h, ServedEntry(h, question, session, clock), i)
    ensures SameScope(h.steps[i].session, session)
  {
    hide PRun, ValidSession, WarmSlot, AllLive, LiveRows, PutRows, ColdResponse;
    ServedFromItsPut(h, question, session, clock);
    var entry := ServedEntry(h, question, session, clock);
    i :| i < |h.steps| && PutAt(h, i, entry) && LiveRows(h.At(|h.steps|).cdc.rows, entry.chunkIds) == PutRows(h, i);
    assert ValidSession(h.steps[i].session);
    WarmScope(h.cfg, h.At(|h.steps|), question, session, clock.lookup);
    PayloadIsScope(h.steps[i].session, session);
  }

  lemma WarmScope(cfg: Config, st: State, question: string, session: Session, now: real)
    requires st.cdc.cache.Some? && WarmSlot(cfg, st, question, session, now).Some?
    ensures st.cdc.cache.value.slots[WarmSlot(cfg, st, question, session, now).value].entry.scope == ScopePayload(session)
  {
    hide GovernIds, ScopePayload;
  }

  lemma PutRowsRetrievable(h: History, i: nat, entry: Entry, k: nat)
    requires PutAt(h, i, entry) && k < |PutRows(h, i)|
    ensures Retrievable(PutRows(h, i)[k], h.steps[i].session)
  {
    hide PRun, WarmSlot, ColdEntry, Retrieve, RetrievableRows, Retrievable;
    RetrievableRowsFacts(Retrieve(h.engine, h.At(i).index, h.steps[i].question), h.steps[i].session, k);
  }

  lemma LiveIsDistinct(live: seq<Chunk>, index: seq<Chunk>)
    requires IndexAgrees(live, index)
    ensures DistinctIds(live)
  {
    hide DistinctIds, Kept;
    KeptDistinct(index, IdSet(live));
  }

  /**
   After any run, a warm answer cites what the requester may see exactly when the put it comes
   from was let see no masked or partial row with more than its token in it.
   */
  lemma WarmCitationsExactly(h: History, question: string, session: Session, clock: Clock)
    requires h.Valid() && h.cached && ValidSession(session) && Served(h, question, session, clock)
    ensures var entry := ServedEntry(h, question, session, clock);
      exists i: nat :: AnswersFrom(h, entry, i)
        && (Response(h, question, session, clock).citations ==
              Cite(Views(CitedRows(h.At(|h.steps|).cdc.rows, entry.chunkIds), session))
            <==> NoneHeldBack(PutRows(h, i), h.steps[i].session))
  {
    hide PRun, ValidSession, ValidSteps, DistinctIds, WarmSlot, QueryStep, Evaluate, Retrievable, LiveRows, AllLive, PutRows,
         NoneHeldBack, Cite, Views, CitedRows, Explained, KeysFresh, ColdEntry;
    var st, entry := h.At(|h.steps|), ServedEntry(h, question, session, clock);
    var i := AnswerHasPut(h, question, session, clock);
    var cited, rows := CitedRows(st.cdc.rows, entry.chunkIds), PutRows(h, i);
    WarmCites(h.engine, h.cfg, st, question, session, clock);
    CoherentAt(h, |h.steps|);
    LiveIsDistinct(st.cdc.rows, st.index);
    CitedAreLive(st.cdc.rows, entry.chunkIds);
    forall k | 0 <= k < |rows|
      ensures Retrievable(rows[k], h.steps[i].session)
    {
      PutRowsRetrievable(h, i, entry, k);
    }
    CitedExactly(cited, rows, h.steps[i].session, session);
  }

  lemma {:induction false} GovernAll(live: seq<Chunk>, ids: seq<string>, session: Session)
    requires AllLive(live, ids)
    requires forall k :: 0 <= k < |ids| ==> Retrievable(RowFor(live, ids[k]).value, session)
    ensures GovernIds(live, ids, session) == ids
  {
    hide RowFor, Retrievable, GovernIds;
    if ids == [] {
      NothingGoverned(live, session);
    } else {
      var n := |ids| - 1;
      GovernAll(live, ids[..n], session);
      StoredStep(live, ids, session);
      assert ids == ids[..n] + [ids[n]];
    }
  }

  lemma NothingGoverned(live: seq<Chunk>, session: Session)
    ensures GovernIds(live, [], session) == []
  {
  }

  lemma BlockedAppend(trail: seq<GovernanceDecision>, d: GovernanceDecision)
    ensures CountBlocked(trail + [d]) == CountBlocked(trail) + if d.decision == Deny then 1 else 0
  {
    assert (trail + [d])[..|trail|] == trail;
  }

  /** Every candidate is admitted or blocked. */
  lemma {:induction false} AdmittedOrBlocked(candidates: seq<ScoredChunk>, session: Session)
    ensures |Admitted(candidates, session)| + CountBlocked(Trail(candidates, session)) == |candidates|
  {
    hide Evaluate, Redact, CountBlocked;
    if candidates == [] {
      NoneBlocked();
    } else {
      var n := |candidates| - 1;
      AdmittedOrBlocked(candidates[..n], session);
      BlockedAppend(Trail(candidates[..n], session), Evaluate(candidates[n].chunk, session));
      assert Trail(candidates, session) == Trail(candidates[..n], session) + [Evaluate(candidates[n].chunk, session)];
    }
  }

  lemma NoneBlocked()
    ensures CountBlocked([]) == 0
  {
  }

  lemma PutResponseCounts(h: History, i: nat, entry: Entry)
    requires PutAt(h, i, entry)
    ensures var cold := PutResponse(h, i);
      && entry.answer == cold.answer && entry.nWithheld == cold.nWithheld && |entry.chunkIds| == cold.admitted
      && cold.admitted + cold.blocked == cold.retrieved
      && (cold.accessDenied <==> cold.admitted == 0 && cold.retrieved > 0)
      && |cold.trail| == cold.retrieved
  {
    hide PRun, WarmSlot, AnswerFrom, Admitted, Trail, CountBlocked, CountWithheld, Cite, Retrieve;
    AdmittedOrBlocked(Retrieve(h.engine, h.At(i).index, h.steps[i].question), h.steps[i].session);
  }

  lemma WarmCounts(engine: Engine, cfg: Config, st: State, question: string, session: Session, clock: Clock)
    requires st.cdc.cache.Some? && WarmSlot(cfg, st, question, session, clock.lookup).Some?
    requires var ids := st.cdc.cache.value.slots[WarmSlot(cfg, st, question, session, clock.lookup).value].entry.chunkIds;
      GovernIds(st.cdc.rows, ids, session) == ids
    ensures var entry := st.cdc.cache.value.slots[WarmSlot(cfg, st, question, session, clock.lookup).value].entry;
      var warm := QueryStep(engine, cfg, st, question, session, clock).1;
      && warm.answer == entry.answer && warm.nWithheld == entry.nWithheld
      && warm.retrieved == warm.admitted == |entry.chunkIds|
      && warm.blocked == 0 && !warm.accessDenied && warm.trail == []
  {
    hide Cite, GovernIds, AfterGet, AfterPut, ColdEntry, ColdResponse, WarmSlot;
  }

  lemma ServedGoverned(h: History, question: string, session: Session, clock: Clock, i: nat)
    requires Served(h, question, session, clock) && AnswersFrom(h, ServedEntry(h, question, session, clock), i)
    requires SameScope(h.steps[i].session, session)
    ensures var ids := ServedEntry(h, question, session, clock).chunkIds;
      && GovernIds(h.At(|h.steps|).cdc.rows, ids, session) == ids
      && forall k :: 0 <= k < |ids| ==> Retrievable(RowFor(h.At(|h.steps|).cdc.rows, ids[k]).value, session)
  {
    hide PRun, WarmSlot, ColdEntry, PutRows, GovernIds, Evaluate, RowFor;
    var entry, live := ServedEntry(h, question, session, clock), h.At(|h.steps|).cdc.rows;
    forall k | 0 <= k < |entry.chunkIds|
      ensures Retrievable(RowFor(live, entry.chunkIds[k]).value, session)
    {
      PutRowsRetrievable(h, i, entry, k);
      SameScopeSameView(PutRows(h, i)[k], h.steps[i].session, session);
      assert LiveRows(live, entry.chunkIds)[k] == RowFor(live, entry.chunkIds[k]).value;
    }
    GovernAll(live, entry.chunkIds, session);
  }

  /**
   The whole warm response against the response its put gave: same answer, same count of
   withheld chunks, as many admitted; but it reports no candidate beyond those, nothing
   blocked, no trail, and never that access was denied.
   */
  lemma WarmAgainstPut(h: History, question: string, session: Session, clock: Clock)
    requires h.Valid() && h.cached && ValidSession(session) && Served(h, question, session, clock)
    ensures var warm := Response(h, question, session, clock);
      exists i: nat :: AnswersFrom(h, ServedEntry(h, question, session, clock), i) && Repeats(warm, PutResponse(h, i))
  {
    hide PRun, ValidSession, ValidSteps, DistinctIds, WarmSlot, QueryStep, LiveRows, AllLive, PutRows, GovernIds, ColdResponse, ColdEntry;
    var entry := ServedEntry(h, question, session, clock);
    var i := AnswerHasPut(h, question, session, clock);
    ServedGoverned(h, question, session, clock, i);
    WarmCounts(h.engine, h.cfg, h.At(|h.steps|), question, session, clock);
    PutResponseCounts(h, i, entry);
  }

  ghost predicate Repeats(warm: Pipeline.Response, cold: Pipeline.Response) {
    && warm.answer == cold.answer && warm.nWithheld == cold.nWithheld && warm.admitted == cold.admitted
    && (warm.retrieved == cold.retrieved <==> cold.blocked == 0)
    && (warm.blocked == cold.blocked <==> cold.blocked == 0)
    && (warm.accessDenied == cold.accessDenied <==> cold.admitted > 0 || cold.retrieved == 0)
    && (warm.trail == cold.trail <==> cold.retrieved == 0)
  }

  /** What the lookup's comment promises, that a chunk survives re-governance, holds of a hit exactly when its put admitted one. */
  lemma SurvivorExactly(h: History, question: string, session: Session, clock: Clock)
    requires h.Valid() && h.cached && ValidSession(session) && Served(h, question, session, clock)
    ensures var live, entry := h.At(|h.steps|).cdc.rows, ServedEntry(h, question, session, clock);
      exists i: nat :: AnswersFrom(h, entry, i)
        && ((exists k :: 0 <= k < |entry.chunkIds| && Survives(live, entry.chunkIds[k], session))
            <==> PutResponse(h, i).admitted > 0)
  {
    hide PRun, ValidSession, ValidSteps, DistinctIds, WarmSlot, LiveRows, PutRows, GovernIds, ColdResponse, ColdEntry, RowFor, Retrievable;
    var live, entry := h.At(|h.steps|).cdc.rows, ServedEntry(h, question, session, clock);
    var i := AnswerHasPut(h, question, session, clock);
    ServedGoverned(h, question, session, clock, i);
    PutResponseCounts(h, i, entry);
    if |entry.chunkIds| > 0 {
      assert Survives(live, entry.chunkIds[0], session);
    }
  }

  predicate Survives(live: seq<Chunk>, id: string, session: Session) {
    RowFor(live, id).Some? && Retrievable(RowFor(live, id).value, session)
  }

  // ---- two runs at which a hit and a cold query part ----------------------------------------

  /** A query put under these clocks can be asked again: it repeats itself, and nothing expires or is cut. */
  predicate Repeatable(cfg: Config, question: string, put: Clock, again: Clock) {
    && cfg.similarity(question, question) >= cfg.threshold && cfg.similarity(question, question) > -1.0
    && cfg.maxEntries >= 1
    && put.evict - put.created <= cfg.ttl && again.lookup - put.created <= cfg.ttl
  }

  lemma OneSlotServed(cfg: Config, slot: Slot, scope: string, question: string, govern: Govern, now: real)
    requires Eligible(cfg, slot, scope, question, now) && Similarity(cfg, slot, question) >= cfg.threshold
    requires var ids := slot.entry.chunkIds; govern(ids).Some? && Elements(govern(ids).value) == Elements(ids)
    ensures Lookup(cfg, [slot], scope, question, govern, now) == Some(0)
  {
    assert Serves(cfg, [slot], scope, question, govern, now, 0);
  }

  lemma NoSlotServed(cfg: Config, scope: string, question: string, govern: Govern, now: real)
    ensures Lookup(cfg, [], scope, question, govern, now) == None
  {
  }

  lemma PutFirst(cfg: Config, entry: Entry, now: real)
    requires cfg.maxEntries >= 1 && !entry.Expired(now)
    ensures AfterPut(cfg, Store([], 0), entry, now) == Store([Slot(Key(entry.scope, 1), entry)], 1)
  {
    var slot := Slot(Key(entry.scope, 1), entry);
    assert [] + [slot] == [slot] && [slot][..0] == [];
    assert Unexpired([slot], now) == [slot];
  }

  /** The first query of a run is cold, and leaves the one entry it put. */
  lemma FirstPut(engine: Engine, cfg: Config, chunks: seq<Chunk>, question: string, session: Session, put: Clock, again: Clock)
    requires Repeatable(cfg, question, put, again)
    ensures var start := Start(chunks, true);
      var entry := ColdEntry(engine, cfg, chunks, question, session, put.created);
      QueryStep(engine, cfg, start, question, session, put) ==
      (start.(cdc := start.cdc.(cache := Some(Store([Slot(Key(entry.scope, 1), entry)], 1)))),
       ColdResponse(engine, chunks, question, session))
  {
    hide ColdResponse, Admitted, ScopePayload, Retrieve, Lookup, AfterPut, GovernIds;
    NoSlotServed(cfg, ScopePayload(session), question, GovernFn(chunks, session), put.lookup);
    PutFirst(cfg, ColdEntry(engine, cfg, chunks, question, session, put.created), put.evict);
  }

  lemma OneHit(engine: Engine, chunk: Chunk, question: string, session: Session, score: real)
    requires engine.rank(question, [chunk]) == [Hit(0, score, None, None)]
    ensures var sc := ScoredChunk(chunk, score, None, None);
      && Retrieve(engine, [chunk], question) == [sc]
      && Admitted([sc], session) == (if Retrievable(chunk, session) then [ScoredChunk(View(chunk, session), score, None, None)] else [])
  {
    hide Evaluate, Redact, Admitted;
    var hits := [Hit(0, score, None, None)];
    assert hits[..0] == [];
    assert Hydrate([chunk], hits) == [] + [ScoredChunk(chunk, score, None, None)];
    AdmittedOne(ScoredChunk(chunk, score, None, None), session);
  }

  lemma OneStored(chunk: Chunk, session: Session)
    requires Retrievable(chunk, session)
    ensures GovernIds([chunk], [chunk.id], session) == [chunk.id]
  {
    hide Evaluate;
    assert [chunk][..0] == [];
    assert RowFor([chunk], chunk.id) == Some(chunk);
    GovernAll([chunk], [chunk.id], session);
  }

  /** One masked text chunk, asked about twice: the cold answer cites its token, the warm one its content. */
  lemma WarmCitesMasked(engine: Engine, cfg: Config, c: Chunk, question: string, session: Session, score: real, put: Clock, again: Clock)
    requires c.modality == TEXT && c.security.sensitivityClass == PII_CLASS && c.security.clearanceLevel >= 1
    requires 2 <= session.clearanceLevel <= 3 && Repeatable(cfg, question, put, again)
    requires engine.rank(question, [c]) == [Hit(0, score, None, None)]
    ensures var st := PRun(engine, cfg, Start([c], true), [AQuery(question, session, put)]);
      && st.cdc.cache.Some?
      && QueryStep(engine, cfg, st, question, session, again).1.citations ==
         [Citation(c.id, c.parentDocId, c.parentTitle, c.content)]
      && ColdResponse(engine, st.index, question, session).citations ==
         [Citation(c.id, c.parentDocId, c.parentTitle, PII_TOKEN)]
  {
    hide Evaluate, Redact, ScopePayload, AnswerFrom, GovernIds, Lookup, View, RowFor, Retrievable, Admitted, Retrieve,
         ColdEntry, QueryStep, Filter, PRun;
    MaskedView(c, session);
    FirstPut(engine, cfg, [c], question, session, put, again);
    OneStep(engine, cfg, Start([c], true), AQuery(question, session, put));
    OneStored(c, session);
    OneColdEntry(engine, cfg, c, question, session, score, put.created);
    var entry := ColdEntry(engine, cfg, [c], question, session, put.created);
    OneSlotServed(cfg, Slot(Key(entry.scope, 1), entry), ScopePayload(session), question, GovernFn([c], session), again.lookup);
    OneCited(c);
    WarmCites(engine, cfg, PRun(engine, cfg, Start([c], true), [AQuery(question, session, put)]), question, session, again);
  }

  lemma MaskedView(c: Chunk, session: Session)
    requires c.modality == TEXT && c.security.sensitivityClass == PII_CLASS && c.security.clearanceLevel >= 1
    requires 2 <= session.clearanceLevel <= 3
    ensures Retrievable(c, session) && View(c, session) == c.(content := PII_TOKEN, contextualAnchor := "")
  {
  }

  /** What a cold query over one retrievable chunk puts and cites. */
  lemma OneColdEntry(engine: Engine, cfg: Config, c: Chunk, question: string, session: Session, score: real, created: real)
    requires Retrievable(c, session) && engine.rank(question, [c]) == [Hit(0, score, None, None)]
    ensures var entry, seen := ColdEntry(engine, cfg, [c], question, session, created), View(c, session);
      && entry.chunkIds == [c.id] && entry.scope == ScopePayload(session) && entry.queryText == question
      && entry.createdAt == created && entry.ttl == cfg.ttl
      && ColdResponse(engine, [c], question, session).citations ==
         [Citation(seen.id, seen.parentDocId, seen.parentTitle, seen.content)]
  {
    hide Evaluate, Redact, ScopePayload, AnswerFrom, Retrieve, Admitted, Trail, Retrievable, View;
    OneHit(engine, c, question, session, score);
    ViewKeepsId(c, session);
  }

  lemma ViewKeepsId(c: Chunk, session: Session)
    ensures View(c, session).id == c.id
  {
    hide Evaluate;
  }

  lemma OneCited(c: Chunk)
    ensures Cite(CitedRows([c], [c.id])) == [Citation(c.id, c.parentDocId, c.parentTitle, c.content)]
  {
    assert [c][..0] == [];
    assert CitedRows([c], [c.id]) == [c];
  }

  lemma OneStep(engine: Engine, cfg: Config, st: State, step: PStep)
    ensures PRun(engine, cfg, st, [step]) == PStepResult(engine, cfg, st, step)
  {
    hide PStepResult;
    assert [step][..0] == [];
  }

  lemma TwoSteps(engine: Engine, cfg: Config, st: State, first: PStep, second: PStep)
    ensures PRun(engine, cfg, st, [first, second]) == PStepResult(engine, cfg, PStepResult(engine, cfg, st, first), second)
  {
    hide PStepResult;
    assert [first, second][..1] == [first];
    OneStep(engine, cfg, st, first);
  }

  /**
   One chunk the session is denied, asked about, then made public, then asked about again: the
   entry of the first answer names no chunk, so nothing invalidates it, and it is served with
   no citation where a cold query would cite the chunk.
   */
  lemma EmptyHitMissesGrant(engine: Engine, cfg: Config, c: Chunk, e: Event, question: string, session: Session,
                            score: real, put: Clock, again: Clock)
    requires !Retrievable(c, session) && Repeatable(cfg, question, put, again)
    requires e.op == Reclassify && e.chunkId == c.id && RowOf(e).Some? && RowOf(e).value.security.IsPublic()
    requires engine.rank(question, [c]) == [Hit(0, score, None, None)]
    requires engine.rank(question, [RowOf(e).value]) == [Hit(0, score, None, None)]
    ensures var start := Start([c], true);
      var first := QueryStep(engine, cfg, start, question, session, put).1;
      var st := PRun(engine, cfg, start, [AQuery(question, session, put), AChange(e)]);
      && st.cdc.cache.Some?
      && var second, row := QueryStep(engine, cfg, st, question, session, again).1, RowOf(e).value;
      && first.accessDenied && st.cdc.rows == [row]
      && second.answer == first.answer && second.citations == [] && !second.accessDenied
      && ColdResponse(engine, st.index, question, session).citations ==
         [Citation(row.id, row.parentDocId, row.parentTitle, row.content)]
  {
    hide Evaluate, Redact, ScopePayload, AnswerFrom, GovernIds, Lookup, View, RowFor, ChangeStep, RowOf, Retrievable;
    var row := RowOf(e).value;
    var start, entry := Start([c], true), ColdEntry(engine, cfg, [c], question, session, put.created);
    var slot := Slot(Key(entry.scope, 1), entry);
    OneHit(engine, c, question, session, score);
    FirstPut(engine, cfg, [c], question, session, put, again);
    assert entry.chunkIds == [];
    var asked := QueryStep(engine, cfg, start, question, session, put).0;
    TwoSteps(engine, cfg, start, AQuery(question, session, put), AChange(e));
    ChangeOutcome(asked, e);
    EmptyEntryStays(c, e, slot);
    var st := ChangeStep(asked, e).0;
    NothingGoverned([row], session);
    OneSlotServed(cfg, slot, ScopePayload(session), question, GovernFn([row], session), again.lookup);
    WarmCites(engine, cfg, st, question, session, again);
    NothingCited([row]);
    PublicCited(engine, row, question, session, score);
  }

  lemma EmptyEntryStays(c: Chunk, e: Event, slot: Slot)
    requires Dispatchable(e) && e.op != Delete && e.chunkId == c.id && slot.entry.chunkIds == []
    ensures StoreEffect([c], e) == [RowOf(e).value] && AfterInvalidate([slot], e.chunkId) == [slot]
  {
    hide RowOf;
    assert [c][..0] == [] && [slot][..0] == [];
    assert WithoutChunk([c], c.id) == [];
  }

  lemma {:induction false} NothingCited(live: seq<Chunk>)
    ensures CitedRows(live, []) == [] && Cite(CitedRows(live, [])) == []
  {
    if live != [] {
      NothingCited(live[..|live| - 1]);
    }
  }
}
