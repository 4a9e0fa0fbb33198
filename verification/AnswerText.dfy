/**
 What a query answers, cold or from the cache, down to the generator's text, the grades as
 counts of tokens, and the clock.
 */
module AnswerText {
  import opened Schemas
  import opened Access
  import opened Masking
  import opened SecurityFilter
  import opened ScopeKey
  import opened SemanticCache
  import opened Grader
  import opened Pipeline
  import opened PipelineRuns
  import opened PipelineAnswers
  import opened CacheTimes

  // ---- the answer ------------------------------------------------------------------------

  /** The grades let the text through: the question is covered by the chunks, and so is the text. */
  ghost predicate Passes(engine: Engine, question: string, text: string, views: seq<Chunk>) {
    && WellSupported(engine.tokens, engine.relevanceThreshold, question, views)
    && WellSupported(engine.tokens, engine.groundednessThreshold, text, views)
  }

  /** The text generated from these chunks, or the abstention: the latter exactly when self-RAG is on and the grades fail. */
  ghost predicate IsAnswer(engine: Engine, question: string, views: seq<Chunk>, answer: string) {
    var text := engine.generate(question, views);
    answer == if engine.selfragEnabled && !Passes(engine, question, text, views)
              then "I don't have enough authorized, grounded context to answer that." else text
  }

  lemma AnswerFromIs(engine: Engine, question: string, views: seq<Chunk>)
    ensures IsAnswer(engine, question, views, AnswerFrom(engine, question, views))
  {
    hide GradeRelevance, GradeGroundedness, WellSupported;
    GradesMean(engine.tokens, engine.relevanceThreshold, question, views);
    GradesMean(engine.tokens, engine.groundednessThreshold, engine.generate(question, views), views);
  }

  /** A cold answer is the one to the question from the requester's views of what it may retrieve. */
  lemma ColdAnswerText(engine: Engine, index: seq<Chunk>, question: string, session: Session)
    ensures IsAnswer(engine, question, Views(RetrievableRows(Retrieve(engine, index, question), session), session),
                     ColdResponse(engine, index, question, session).answer)
  {
    hide AnswerFrom, IsAnswer, Retrieve, Admitted, Trail, Views, RetrievableRows;
    AdmittedAreViews(Retrieve(engine, index, question), session);
    AnswerFromIs(engine, question, Chunks(Admitted(Retrieve(engine, index, question), session)));
  }

  /** Any answer: cold from what is retrieved now, or the put-time question's from the live rows of the entry. */
  lemma QueryAnswerText(engine: Engine, cfg: Config, st: State, question: string, session: Session, clock: Clock)
    requires st.cdc.cache.Some? && Coherent(engine, st) && ValidSession(session)
    ensures
      var served := WarmSlot(cfg, st, question, session, clock.lookup);
      var answer := QueryStep(engine, cfg, st, question, session, clock).1.answer;
      if served.None? then
        IsAnswer(engine, question, Views(RetrievableRows(Retrieve(engine, st.index, question), session), session), answer)
      else
        var entry := st.cdc.cache.value.slots[served.value].entry;
        && AllLive(st.cdc.rows, entry.chunkIds)
        && IsAnswer(engine, entry.queryText, Views(LiveRows(st.cdc.rows, entry.chunkIds), session), answer)
  {
    hide AnswerFrom, IsAnswer, Retrieve, Views, RetrievableRows, Coherent, ValidSession, AllLive, LiveRows, WarmSlot,
         ColdResponse, ColdEntry, AfterPut, AfterGet, WarmResponse;
    var served := WarmSlot(cfg, st, question, session, clock.lookup);
    if served.None? {
      ColdAnswerText(engine, st.index, question, session);
    } else {
      WarmAnswer(engine, cfg, st, question, session, clock);
      var entry := st.cdc.cache.value.slots[served.value].entry;
      AnswerFromIs(engine, entry.queryText, Views(LiveRows(st.cdc.rows, entry.chunkIds), session));
    }
  }

  // ---- what it is generated from -----------------------------------------------------------

  ghost predicate InRange(index: seq<Chunk>, hits: seq<Hit>) {
    forall i :: 0 <= i < |hits| ==> hits[i].position < |index|
  }

  /** Hits at positions of the index come back one by one, each as its chunk with the hit's score and ranks. */
  lemma {:induction false} HydrateAt(index: seq<Chunk>, hits: seq<Hit>)
    requires InRange(index, hits)
    ensures |Hydrate(index, hits)| == |hits|
    ensures forall i :: 0 <= i < |hits| ==>
      Hydrate(index, hits)[i] == ScoredChunk(index[hits[i].position], hits[i].score, hits[i].lexicalRank, hits[i].denseRank)
  {
    if hits != [] {
      HydrateAt(index, hits[..|hits| - 1]);
    }
  }

  /** ... and hits past its end are dropped. */
  lemma {:induction false} HydrateDrops(index: seq<Chunk>, hits: seq<Hit>)
    ensures var kept := Filter((h: Hit) => h.position < |index|, hits);
      InRange(index, kept) && Hydrate(index, hits) == Hydrate(index, kept)
  {
    if hits != [] {
      var n := |hits| - 1;
      HydrateDrops(index, hits[..n]);
      var kept := Filter((h: Hit) => h.position < |index|, hits[..n]);
      assert (kept + [hits[n]])[..|kept|] == kept && kept + [] == kept;
    }
  }

  /** What is retrieved: the indexed chunk of each ranked position that is in the index, in rank order. */
  lemma RetrievedAre(engine: Engine, index: seq<Chunk>, question: string)
    ensures
      var hits := Filter((h: Hit) => h.position < |index|, engine.rank(question, index));
      var r := Retrieve(engine, index, question);
      && |r| == |hits|
      && (forall i :: 0 <= i < |r| ==> hits[i].position < |index|)
      && (forall i :: 0 <= i < |r| ==>
            r[i] == ScoredChunk(index[hits[i].position], hits[i].score, hits[i].lexicalRank, hits[i].denseRank))
  {
    hide Hydrate;
    HydrateDrops(index, engine.rank(question, index));
    HydrateAt(index, Filter((h: Hit) => h.position < |index|, engine.rank(question, index)));
  }

  /** The rows behind a context: the candidates' chunks that are not denied, in order. */
  lemma {:induction false} RetrievableRowsAre(candidates: seq<ScoredChunk>, session: Session)
    ensures RetrievableRows(candidates, session) == Filter((c: Chunk) => DecisionOf(c, session) != Deny, Chunks(candidates))
  {
    hide Evaluate;
    if candidates != [] {
      var n := |candidates| - 1;
      RetrievableRowsAre(candidates[..n], session);
      assert Chunks(candidates)[..n] == Chunks(candidates[..n]);
    }
  }

  // ---- the rest of a cold response --------------------------------------------------------

  lemma {:induction false} TrailAt(candidates: seq<ScoredChunk>, session: Session, i: nat)
    requires i < |candidates|
    ensures Trail(candidates, session)[i] == Evaluate(candidates[i].chunk, session)
  {
    hide Evaluate;
    if i < |candidates| - 1 {
      TrailAt(candidates[..|candidates| - 1], session, i);
    }
  }

  /** The positions at which the trail holds one of the decisions. */
  ghost function Decided(trail: seq<GovernanceDecision>, decisions: set<Decision>): set<nat> {
    set i: nat | i < |trail| && trail[i].decision in decisions
  }

  lemma {:induction false} CountsAre(trail: seq<GovernanceDecision>)
    ensures CountBlocked(trail) == |Decided(trail, {Deny})|
    ensures CountWithheld(trail) == |Decided(trail, {Deny, Mask, Partial})|
  {
    if trail != [] {
      var n := |trail| - 1;
      CountsAre(trail[..n]);
      DecidedStep(trail, {Deny});
      DecidedStep(trail, {Deny, Mask, Partial});
    }
  }

  lemma DecidedStep(trail: seq<GovernanceDecision>, decisions: set<Decision>)
    requires trail != []
    ensures var n := |trail| - 1;
      |Decided(trail, decisions)| == |Decided(trail[..n], decisions)| + if trail[n].decision in decisions then 1 else 0
  {
    var n: nat := |trail| - 1;
    assert Decided(trail, decisions) == Decided(trail[..n], decisions) + if trail[n].decision in decisions then {n} else {};
  }

  /** One decision a candidate, one citation a view, and the counts of the decisions. */
  lemma ColdResponseMeans(engine: Engine, index: seq<Chunk>, question: string, session: Session)
    ensures
      var candidates := Retrieve(engine, index, question);
      var views := Views(RetrievableRows(candidates, session), session);
      var r := ColdResponse(engine, index, question, session);
      && r.retrieved == |candidates| == |r.trail|
      && (forall i :: 0 <= i < |candidates| ==> r.trail[i] == Evaluate(candidates[i].chunk, session))
      && r.admitted == |views| == |r.citations|
      && (forall i :: 0 <= i < |views| ==>
            r.citations[i] == Citation(views[i].id, views[i].parentDocId, views[i].parentTitle, views[i].content))
      && r.blocked == |Decided(r.trail, {Deny})|
      && r.nWithheld == |Decided(r.trail, {Deny, Mask, Partial})|
      && (r.accessDenied <==> views == [] && candidates != [])
  {
    hide AnswerFrom, Retrieve, Admitted, Trail, Views, RetrievableRows, Evaluate, CountBlocked, CountWithheld, Decided;
    var candidates := Retrieve(engine, index, question);
    AdmittedAreViews(candidates, session);
    CountsAre(Trail(candidates, session));
    forall i | 0 <= i < |candidates|
      ensures Trail(candidates, session)[i] == Evaluate(candidates[i].chunk, session)
    {
      TrailAt(candidates, session, i);
    }
  }

  // ---- asked twice ---------------------------------------------------------------------------

  lemma IdsAreLive(engine: Engine, index: seq<Chunk>, question: string, session: Session)
    ensures AllLive(index, Ids(Chunks(Admitted(Retrieve(engine, index, question), session))))
  {
    hide Evaluate, Admitted, RowFor;
    var candidates := Retrieve(engine, index, question);
    var admitted := Admitted(candidates, session);
    forall k | 0 <= k < |admitted|
      ensures RowFor(index, admitted[k].chunk.id).Some?
    {
      AdmittedIsViewed(candidates, session, k);
      var i :| 0 <= i < |candidates| && Retrievable(candidates[i].chunk, session)
        && admitted[k] == candidates[i].(chunk := View(candidates[i].chunk, session));
      assert candidates[i].chunk in index;
    }
  }

  lemma PutAlone(cfg: Config, entry: Entry, now: real)
    ensures AfterPut(cfg, Store([], 0), entry, now).slots ==
      if cfg.maxEntries >= 1 && now - entry.createdAt <= entry.ttl then [Slot(Key(entry.scope, 1), entry)] else []
  {
    var slot := Slot(Key(entry.scope, 1), entry);
    assert [] + [slot] == [slot] && [slot][..0] == [];
    PutLeaves(cfg, Store([], 0), entry, now);
  }

  lemma FirstAsk(engine: Engine, cfg: Config, chunks: seq<Chunk>, question: string, session: Session, put: Clock)
    ensures var st := PRun(engine, cfg, Start(chunks, true), [AQuery(question, session, put)]);
      var entry := ColdEntry(engine, cfg, chunks, question, session, put.created);
      && st.index == st.cdc.rows == chunks && st.cdc.cache.Some?
      && st.cdc.cache.value == AfterPut(cfg, Store([], 0), entry, put.evict)
  {
    hide ColdEntry, ColdResponse, AfterPut, GovernIds, ScopePayload;
    var step := AQuery(question, session, put);
    assert [step][..0] == [];
  }

  /**
   The same question put to the same chunks twice: the second time it is answered from the cache
   exactly when the entry outlived neither the put's eviction nor the second lookup, there is
   room for it, and the question is similar enough to itself.
   */
  lemma AskedTwice(engine: Engine, cfg: Config, chunks: seq<Chunk>, question: string, session: Session, put: Clock, again: Clock)
    requires DistinctIds(chunks) && ValidSession(session)
    ensures var st := PRun(engine, cfg, Start(chunks, true), [AQuery(question, session, put)]);
      && st.cdc.cache.Some?
      && (WarmSlot(cfg, st, question, session, again.lookup).Some? <==>
            && put.evict - put.created <= cfg.ttl && again.lookup - put.created <= cfg.ttl
            && cfg.maxEntries >= 1
            && cfg.similarity(question, question) > -1.0 && cfg.similarity(question, question) >= cfg.threshold)
  {
    hide PRun, DistinctIds, ValidSession, ScopePayload, GovernIds, AfterPut, Coherent, Lookup, Serves, IsBest, AllLive,
         Retrieve, Admitted, ColdResponse;
    var steps := [AQuery(question, session, put)];
    var st := PRun(engine, cfg, Start(chunks, true), steps);
    var entry := ColdEntry(engine, cfg, chunks, question, session, put.created);
    FirstAsk(engine, cfg, chunks, question, session, put);
    PutAlone(cfg, entry, put.evict);
    RunsAreCoherent(engine, cfg, chunks, true, steps);
    IdsAreLive(engine, chunks, question, session);
    if st.cdc.cache.value.slots == [] {
      NothingServed(cfg, st, question, session, again.lookup);
    } else {
      OneServed(engine, cfg, st, question, session, again.lookup);
    }
  }

  lemma NothingServed(cfg: Config, st: State, question: string, session: Session, now: real)
    requires st.cdc.cache.Some? && st.cdc.cache.value.slots == []
    ensures WarmSlot(cfg, st, question, session, now).None?
  {
    hide ScopePayload, GovernIds;
  }

  /** A lone entry of the session's scope, its ids live, is served exactly when it is similar enough and no older than its ttl. */
  lemma OneServed(engine: Engine, cfg: Config, st: State, question: string, session: Session, now: real)
    requires st.cdc.cache.Some? && Coherent(engine, st) && ValidSession(session)
    requires |st.cdc.cache.value.slots| == 1
    requires var entry := st.cdc.cache.value.slots[0].entry;
      entry.scope == ScopePayload(session) && AllLive(st.cdc.rows, entry.chunkIds)
    ensures var entry := st.cdc.cache.value.slots[0].entry;
      WarmSlot(cfg, st, question, session, now) == (
        if && now - entry.createdAt <= entry.ttl
           && cfg.similarity(question, entry.queryText) > -1.0 && cfg.similarity(question, entry.queryText) >= cfg.threshold
        then Some(0) else None)
  {
    hide ValidSession, ScopePayload, GovernIds, AllLive, Coherent;
    var slots, scope, govern := st.cdc.cache.value.slots, ScopePayload(session), GovernFn(st.cdc.rows, session);
    LookupExactly(cfg, slots, scope, question, govern, now, 0);
    if IsBest(cfg, slots, scope, question, now, 0) && Similarity(cfg, slots[0], question) >= cfg.threshold {
      ServedExactly(engine, cfg, st, question, session, now, 0);
      assert Serves(cfg, slots, scope, question, govern, now, 0);
      ServesUnique(cfg, slots, scope, question, govern, now, 0, Lookup(cfg, slots, scope, question, govern, now).value);
    }
  }

  /** With the default time to live of 900: asked again at 900 the first answer is served, at 10000 it is not. */
  lemma ServedThenExpired(engine: Engine, cfg: Config, chunks: seq<Chunk>, question: string, session: Session)
    requires DistinctIds(chunks) && ValidSession(session)
    requires cfg.ttl == 900.0 && cfg.maxEntries >= 1 && cfg.similarity(question, question) == 1.0 >= cfg.threshold
    ensures var st := PRun(engine, cfg, Start(chunks, true), [AQuery(question, session, Clock(0.0, 0.0, 0.0))]);
      && st.cdc.cache.Some?
      && WarmSlot(cfg, st, question, session, 900.0).Some?
      && WarmSlot(cfg, st, question, session, 10000.0).None?
  {
    hide PRun, DistinctIds, ValidSession, WarmSlot;
    var first := Clock(0.0, 0.0, 0.0);
    AskedTwice(engine, cfg, chunks, question, session, first, first.(lookup := 900.0));
    AskedTwice(engine, cfg, chunks, question, session, first, first.(lookup := 10000.0));
  }
}
