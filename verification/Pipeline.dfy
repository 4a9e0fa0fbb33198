/**
 The governed query pipeline (src/rag_engine/pipeline.py): the live chunk list, the
 retriever's index, the semantic cache and the change processor, and the two calls that
 move them: query and apply_change.

 Ranking is a function of the question and the indexed chunks that picks positions in
 the index; generation is a function of the question and the redacted chunks. Each query
 carries its three clock readings: the lookup's, the new entry's, and the eviction's.
 */
module Pipeline {
  import opened Schemas
  import opened Access
  import opened SecurityFilter
  import opened ScopeKey
  import opened SemanticCache
  import opened Cdc
  import Loop = CorrectiveLoop
  import opened Grader

  datatype Hit = Hit(position: nat, score: real, lexicalRank: Option<nat>, denseRank: Option<nat>)

  datatype Engine = Engine(
    rank: (string, seq<Chunk>) -> seq<Hit>,
    generate: (string, seq<Chunk>) -> string,
    tokens: Tokens,
    selfragEnabled: bool,
    maxIterations: nat,
    relevanceThreshold: real,
    groundednessThreshold: real)

  const ABSTAIN := "I don't have enough authorized, grounded context to answer that."

  datatype Citation = Citation(chunkId: string, parentDocId: string, parentTitle: string, cited: string)

  datatype Response = Response(
    answer: string,
    citations: seq<Citation>,
    accessDenied: bool,
    retrieved: nat,
    admitted: nat,
    blocked: nat,
    nWithheld: nat,
    trail: seq<GovernanceDecision>)

  datatype Clock = Clock(lookup: real, created: real, evict: real)

  /** Live rows, versions and cache, and the chunks the retriever last indexed. */
  datatype State = State(cdc: CdcState, index: seq<Chunk>)

  // ---- retrieval and answering ---------------------------------------------------

  function Hydrate(index: seq<Chunk>, hits: seq<Hit>): (r: seq<ScoredChunk>)
    ensures forall i :: 0 <= i < |r| ==> r[i].chunk in index
  {
    if hits == [] then []
    else
      var h := hits[|hits| - 1];
      Hydrate(index, hits[..|hits| - 1]) +
      if h.position < |index| then [ScoredChunk(index[h.position], h.score, h.lexicalRank, h.denseRank)] else []
  }

  function Retrieve(engine: Engine, index: seq<Chunk>, question: string): seq<ScoredChunk> {
    Hydrate(index, engine.rank(question, index))
  }

  function Cite(chunks: seq<Chunk>): seq<Citation> {
    seq(|chunks|, i requires 0 <= i < |chunks| =>
      Citation(chunks[i].id, chunks[i].parentDocId, chunks[i].parentTitle, chunks[i].content))
  }

  /** The answer to a question from the views a session has of its context. */
  function AnswerFrom(engine: Engine, question: string, views: seq<Chunk>): string {
    var answer := engine.generate(question, views);
    if !engine.selfragEnabled then answer
    else if GradeRelevance(engine.tokens, engine.relevanceThreshold, question, views).sufficient
         && GradeGroundedness(engine.tokens, engine.groundednessThreshold, answer, views).grounded then answer
    else ABSTAIN
  }

  /** The corrective loop's collaborators: the same retrieval, the deterministic grader, no reformulation. */
  function PartsOf(engine: Engine, index: seq<Chunk>): Loop.Parts {
    Loop.Parts(
      (i: nat, q: string, s: Session) => Retrieve(engine, index, q),
      (i: nat, q: string, ctx: seq<ScoredChunk>) =>
        Some(GradeRelevance(engine.tokens, engine.relevanceThreshold, q, Chunks(ctx))),
      (i: nat, q: string, ctx: seq<ScoredChunk>) => engine.generate(q, Chunks(ctx)),
      (i: nat, q: string, answer: string, ctx: seq<ScoredChunk>) =>
        Some(GradeGroundedness(engine.tokens, engine.groundednessThreshold, answer, Chunks(ctx))),
      (q: string, i: nat) => q)
  }

  /** The loop's whole run, in the pipeline, is one grading of the one admitted context. */
  lemma LoopAnswer(engine: Engine, index: seq<Chunk>, question: string, session: Session, r: Loop.LoopResult)
    requires engine.selfragEnabled
    requires Loop.IsOutcome(PartsOf(engine, index), question, session, engine.maxIterations, r)
    ensures (if r.abstained then ABSTAIN else r.answer) ==
            AnswerFrom(engine, question, Chunks(Admitted(Retrieve(engine, index, question), session)))
  {
    hide Admitted, Retrieve, GradeRelevance, GradeGroundedness, Chunks;
    var p := PartsOf(engine, index);
    assert Loop.Stationary(p, session);
    Loop.StationaryOutcome(p, question, session, engine.maxIterations, r);
    assert Loop.QueryAt(p, question, 0) == question;
  }

  // ---- re-governance ------------------------------------------------------------------

  /** The stored ids that are still live, as candidates of score one. */
  function Stored(live: seq<Chunk>, ids: seq<string>): seq<ScoredChunk> {
    if ids == [] then []
    else
      var row := RowFor(live, ids[|ids| - 1]);
      Stored(live, ids[..|ids| - 1]) + if row.Some? then [ScoredChunk(row.value, 1.0, None, None)] else []
  }

  function GovernIds(live: seq<Chunk>, ids: seq<string>, session: Session): seq<string> {
    Ids(Chunks(Admitted(Stored(live, ids), session)))
  }

  function GovernFn(live: seq<Chunk>, session: Session): Govern {
    (ids: seq<string>) => Some(GovernIds(live, ids, session))
  }

  // ---- one query, one change -------------------------------------------------------------

  function CountWithheld(trail: seq<GovernanceDecision>): nat {
    |Filter((d: GovernanceDecision) => d.decision != Allow, trail)|
  }

  function CountBlocked(trail: seq<GovernanceDecision>): nat {
    |Filter((d: GovernanceDecision) => d.decision == Deny, trail)|
  }

  function ColdResponse(engine: Engine, index: seq<Chunk>, question: string, session: Session): Response {
    var candidates := Retrieve(engine, index, question);
    var admitted, trail := Admitted(candidates, session), Trail(candidates, session);
    Response(AnswerFrom(engine, question, Chunks(admitted)), Cite(Chunks(admitted)),
             |admitted| == 0 && |candidates| > 0, |candidates|, |admitted|,
             CountBlocked(trail), CountWithheld(trail), trail)
  }

  function WarmResponse(live: seq<Chunk>, hit: CachedResult): Response {
    Response(hit.answer, Cite(Filter((c: Chunk) => c.id in hit.chunkIds, live)),
             false, |hit.chunkIds|, |hit.chunkIds|, 0, hit.nWithheld, [])
  }

  function ColdEntry(engine: Engine, cfg: Config, index: seq<Chunk>, question: string, session: Session, created: real): Entry {
    var admitted := Admitted(Retrieve(engine, index, question), session);
    Entry(question, ScopePayload(session), Ids(Chunks(admitted)), ColdResponse(engine, index, question, session).answer,
          created, cfg.ttl, ColdResponse(engine, index, question, session).nWithheld)
  }

  /** The slot that answers the question from the cache, if any. */
  ghost function WarmSlot(cfg: Config, st: State, question: string, session: Session, now: real): (r: Option<nat>)
    requires st.cdc.cache.Some?
    ensures r.Some? ==> r.value < |st.cdc.cache.value.slots|
  {
    Lookup(cfg, st.cdc.cache.value.slots, ScopePayload(session), question, GovernFn(st.cdc.rows, session), now)
  }

  ghost function QueryStep(engine: Engine, cfg: Config, st: State, question: string, session: Session, clock: Clock): (State, Response)
    requires st.cdc.cache.Some?
  {
    var cache := st.cdc.cache.value;
    var served := WarmSlot(cfg, st, question, session, clock.lookup);
    if served.Some? then
      var slots := AfterGet(cache.slots, served);
      var hit := ResultOf(cfg, cache.slots[served.value], question, GovernFn(st.cdc.rows, session));
      (st.(cdc := st.cdc.(cache := Some(cache.(slots := slots)))), WarmResponse(st.cdc.rows, hit))
    else
      var entry := ColdEntry(engine, cfg, st.index, question, session, clock.created);
      (st.(cdc := st.cdc.(cache := Some(AfterPut(cfg, cache, entry, clock.evict)))),
       ColdResponse(engine, st.index, question, session))
  }

  /** The in-memory store and cache never raise of their own; a refused payload raises on every attempt. */
  function NoFaults(): nat -> Fault {
    (k: nat) => NoFault
  }

  const MAX_RETRIES: nat := 2

  function ChangeStep(st: State, e: Event): (State, Outcome) {
    var (cdc, outcome) := ApplyEvent(st.cdc, e, NoFaults(), MAX_RETRIES);
    (State(cdc, if outcome == Applied && e.op != Delete then cdc.rows else st.index), outcome)
  }

  // ---- the pipeline object ---------------------------------------------------------------------

  class RAGPipeline {
    const engine: Engine
    const store: ChunkStore
    const cache: SemanticCache?
    const cdc: CdcProcessor
    var indexed: seq<Chunk>

    ghost predicate Valid()
      reads this, cdc, cache
    {
      && cdc.store == store && cdc.cache == cache && cdc.maxRetries == MAX_RETRIES
      && (cache != null ==> cache.Valid())
      && engine.maxIterations >= 1
    }

    function Current(): State
      reads this, cdc, cdc.store, cdc.cache
    {
      State(cdc.State(), indexed)
    }

    constructor (engine: Engine, cache: SemanticCache?)
      requires engine.maxIterations >= 1
      requires cache != null ==> cache.Valid()
      ensures Valid() && this.engine == engine && this.cache == cache
      ensures fresh(store) && fresh(cdc)
      ensures Current() == State(CdcState([], map[], if cache == null then None else Some(cache.State())), [])
    {
      var chunkStore := new ChunkStore([]);
      this.engine, this.cache, store := engine, cache, chunkStore;
      cdc := new CdcProcessor(chunkStore, cache, MAX_RETRIES);
      indexed := [];
    }

    /** Replaces the live list and the index; the cache and the versions stay as they are. */
    method IndexChunks(chunks: seq<Chunk>)
      requires Valid()
      modifies this, store
      ensures Valid()
      ensures Current() == State(old(Current()).cdc.(rows := chunks), chunks)
    {
      store.chunks := chunks;
      indexed := chunks;
    }

    method Answer(question: string, session: Session, admitted: seq<ScoredChunk>) returns (answer: string)
      requires Valid()
      requires admitted == Admitted(Retrieve(engine, indexed, question), session)
      ensures answer == AnswerFrom(engine, question, Chunks(admitted))
    {
      if engine.selfragEnabled {
        var result := Loop.Run(PartsOf(engine, indexed), question, session, engine.maxIterations);
        LoopAnswer(engine, indexed, question, session, result);
        answer := if result.abstained then ABSTAIN else result.answer;
      } else {
        answer := engine.generate(question, Chunks(admitted));
      }
    }

    method Query(question: string, session: Session, clock: Clock) returns (response: Response)
      requires Valid()
      modifies cache
      ensures Valid()
      ensures cache == null ==>
        Current() == old(Current()) && response == ColdResponse(engine, indexed, question, session)
      ensures cache != null ==>
        (Current(), response) == QueryStep(engine, cache.cfg, old(Current()), question, session, clock)
    {
      hide Admitted, Trail, Lookup, AnswerFrom, GovernIds, AfterPut, MoveToEnd;
      if cache != null {
        var hit := cache.Get(question, session, GovernFn(store.chunks, session), clock.lookup);
        if hit.Some? {
          return WarmResponse(store.chunks, hit.value);
        }
      }
      var candidates := Retrieve(engine, indexed, question);
      var admitted, trail := Apply(candidates, session);
      var answer := Answer(question, session, admitted);
      var nWithheld := CountWithheld(trail);
      if cache != null {
        cache.Put(question, session, Ids(Chunks(admitted)), answer, nWithheld, clock.created, clock.evict);
      }
      response := Response(answer, Cite(Chunks(admitted)), |admitted| == 0 && |candidates| > 0,
                           |candidates|, |admitted|, CountBlocked(trail), nWithheld, trail);
    }

    method ApplyChange(e: Event) returns (outcome: Outcome)
      requires Valid()
      modifies this, cdc, store, cache
      ensures Valid()
      ensures (Current(), outcome) == ChangeStep(old(Current()), e)
    {
      outcome := cdc.Apply(e, NoFaults());
      if outcome == Applied && e.op != Delete {
        indexed := store.chunks;
      }
    }
  }
}
