/**
 The hybrid retriever (src/rag_engine/retrieval/hybrid.py): a lexical and a dense list over the
 same chunks, fused, cut and reranked. Each engine is a function from a question and the indexed
 chunks to an order of their positions, and a score at each.
 */
module Hybrid {
  import opened Schemas
  import opened StableSort
  import opened Fusion
  import opened FusionFacts
  import opened Reranker
  import opened Pipeline

  datatype Leg = Leg(order: (string, seq<Chunk>) -> seq<nat>, score: (string, seq<Chunk>, nat) -> real, topK: nat)

  datatype Setup = Setup(lexical: Leg, dense: Leg, lex: Lexicon, rrfK: nat, rerankTopK: nat, finalTopK: nat)

  function Found(leg: Leg, query: string, chunks: seq<Chunk>, positions: seq<nat>, lexical: bool): seq<ScoredChunk> {
    if positions == [] then []
    else
      var n := |positions| - 1;
      var p := positions[n];
      Found(leg, query, chunks, positions[..n], lexical) +
      if p >= |chunks| then []
      else [ScoredChunk(chunks[p], leg.score(query, chunks, p),
                        if lexical then Some(n + 1) else None, if lexical then None else Some(n + 1))]
  }

  function LegHits(leg: Leg, query: string, chunks: seq<Chunk>, lexical: bool): seq<ScoredChunk> {
    Found(leg, query, chunks, Take(leg.order(query, chunks), leg.topK), lexical)
  }

  function Candidates(cfg: Setup, chunks: seq<Chunk>, query: string): seq<ScoredChunk> {
    var fused := FusedList(LegHits(cfg.lexical, query, chunks, true), LegHits(cfg.dense, query, chunks, false), cfg.rrfK);
    Take(Sort(ByScore(), fused), cfg.rerankTopK)
  }

  function HybridList(cfg: Setup, chunks: seq<Chunk>, query: string): seq<ScoredChunk> {
    Reranked(cfg.lex, query, Candidates(cfg, chunks, query), cfg.finalTopK)
  }

  class HybridRetriever {
    const cfg: Setup
    var chunks: seq<Chunk>
    var indexed: bool

    constructor (cfg: Setup)
      ensures this.cfg == cfg && !indexed
    {
      this.cfg, chunks, indexed := cfg, [], false;
    }

    method Index(chunks: seq<Chunk>)
      modifies this
      ensures indexed && this.chunks == chunks
    {
      this.chunks, indexed := chunks, true;
    }

    /** Refuses exactly when nothing was ever indexed. */
    method Retrieve(query: string) returns (r: Option<seq<ScoredChunk>>)
      ensures r == if indexed then Some(HybridList(cfg, chunks, query)) else None
    {
      if !indexed {
        return None;
      }
      var dense := LegHits(cfg.dense, query, chunks, false);
      var lexical := LegHits(cfg.lexical, query, chunks, true);
      var fused := ReciprocalRankFusion(lexical, dense, cfg.rrfK);
      var candidates := Take(fused, cfg.rerankTopK);
      var reranked := Rerank(cfg.lex, query, candidates, cfg.finalTopK);
      r := Some(reranked);
    }
  }

  // ---- every result is an indexed chunk, once --------------------------------------------

  ghost predicate AllFrom(list: seq<ScoredChunk>, chunks: seq<Chunk>) {
    forall i :: 0 <= i < |list| ==> list[i].chunk in chunks
  }

  lemma {:induction false} FoundAllFrom(leg: Leg, query: string, chunks: seq<Chunk>, positions: seq<nat>, lexical: bool)
    ensures AllFrom(Found(leg, query, chunks, positions, lexical), chunks)
  {
    if positions != [] {
      FoundAllFrom(leg, query, chunks, positions[..|positions| - 1], lexical);
    }
  }

  lemma {:induction false} FirstWithFrom(list: seq<ScoredChunk>, chunks: seq<Chunk>, id: string)
    requires AllFrom(list, chunks)
    ensures FirstWith(list, id).Some? ==> FirstWith(list, id).value in chunks
  {
    if list != [] {
      assert AllFrom(list[..|list| - 1], chunks);
      FirstWithFrom(list[..|list| - 1], chunks, id);
    }
  }

  lemma {:induction false} FusedAllFrom(lexical: seq<ScoredChunk>, dense: seq<ScoredChunk>, k: nat, order: seq<string>, chunks: seq<Chunk>)
    requires AllFrom(lexical, chunks) && AllFrom(dense, chunks)
    ensures AllFrom(FusedOver(lexical, dense, k, order), chunks)
  {
    hide Score, RankOf;
    if order != [] {
      FusedAllFrom(lexical, dense, k, order[..|order| - 1], chunks);
      FirstWithFrom(lexical, chunks, order[|order| - 1]);
      FirstWithFrom(dense, chunks, order[|order| - 1]);
    }
  }

  lemma FusedListFrom(lexical: seq<ScoredChunk>, dense: seq<ScoredChunk>, k: nat, chunks: seq<Chunk>)
    requires AllFrom(lexical, chunks) && AllFrom(dense, chunks)
    ensures AllFrom(FusedList(lexical, dense, k), chunks)
  {
    FusedAllFrom(lexical, dense, k, UnionOrder(lexical, dense), chunks);
  }

  function IdsIn(s: seq<ScoredChunk>): set<string> {
    set i | 0 <= i < |s| :: s[i].chunk.id
  }

  lemma {:induction false} InsertUnique(s: seq<ScoredChunk>, x: ScoredChunk)
    requires UniqueIn(s) && x.chunk.id !in IdsIn(s)
    ensures UniqueIn(Insert(ByScore(), s, x)) && IdsIn(Insert(ByScore(), s, x)) == IdsIn(s) + {x.chunk.id}
  {
    if s != [] && s[|s| - 1].score < x.score {
      var init, last := s[..|s| - 1], s[|s| - 1];
      assert IdsIn(s) == IdsIn(init) + {last.chunk.id};
      InsertUnique(init, x);
      AppendUnique(Insert(ByScore(), init, x), last);
    } else {
      AppendUnique(s, x);
    }
  }

  lemma AppendUnique(s: seq<ScoredChunk>, x: ScoredChunk)
    requires UniqueIn(s) && x.chunk.id !in IdsIn(s)
    ensures UniqueIn(s + [x]) && IdsIn(s + [x]) == IdsIn(s) + {x.chunk.id}
  {
    var t := s + [x];
    assert forall i :: 0 <= i < |s| ==> t[i] == s[i] && s[i].chunk.id in IdsIn(s);
    assert t[|s|] == x;
    forall id | id in IdsIn(s) + {x.chunk.id}
      ensures id in IdsIn(t)
    {
      if id in IdsIn(s) {
        var i :| 0 <= i < |s| && s[i].chunk.id == id;
        assert t[i].chunk.id == id;
      }
    }
  }

  lemma {:induction false} SortUnique(s: seq<ScoredChunk>)
    requires UniqueIn(s)
    ensures UniqueIn(Sort(ByScore(), s)) && IdsIn(Sort(ByScore(), s)) == IdsIn(s)
  {
    hide Insert;
    if s != [] {
      var init := s[..|s| - 1];
      SortUnique(init);
      assert s == init + [s[|s| - 1]];
      assert s[|s| - 1].chunk.id !in IdsIn(init);
      AppendUnique(init, s[|s| - 1]);
      InsertUnique(Sort(ByScore(), init), s[|s| - 1]);
    }
  }

  lemma SortAllFrom(s: seq<ScoredChunk>, chunks: seq<Chunk>)
    requires AllFrom(s, chunks)
    ensures AllFrom(Sort(ByScore(), s), chunks)
  {
    hide Sort;
    forall i | 0 <= i < |Sort(ByScore(), s)|
      ensures Sort(ByScore(), s)[i].chunk in chunks
    {
      SortMembers(ByScore(), s, i);
      var j :| 0 <= j < |s| && s[j] == Sort(ByScore(), s)[i];
    }
  }

  lemma FusedUnique(lexical: seq<ScoredChunk>, dense: seq<ScoredChunk>, k: nat)
    ensures UniqueIn(FusedList(lexical, dense, k))
  {
    hide FusedList, UnionOrder, Score;
    FusedListFacts(lexical, dense, k);
    var list := FusedList(lexical, dense, k);
    assert forall i :: 0 <= i < |list| ==> Ids(Chunks(list))[i] == list[i].chunk.id;
  }

  /** What retrieval promises: at most `finalTopK` chunks of the index, each once. */
  lemma HybridFacts(cfg: Setup, chunks: seq<Chunk>, query: string)
    ensures var r := HybridList(cfg, chunks, query);
      |r| <= cfg.finalTopK && AllFrom(r, chunks) && UniqueIn(r)
  {
    hide Sort, FusedList, UnionOrder, FusedOver, Found, Final, EmbeddingText;
    var lexical, dense := LegHits(cfg.lexical, query, chunks, true), LegHits(cfg.dense, query, chunks, false);
    var fused := FusedList(lexical, dense, cfg.rrfK);
    FoundAllFrom(cfg.lexical, query, chunks, Take(cfg.lexical.order(query, chunks), cfg.lexical.topK), true);
    FoundAllFrom(cfg.dense, query, chunks, Take(cfg.dense.order(query, chunks), cfg.dense.topK), false);
    FusedListFrom(lexical, dense, cfg.rrfK, chunks);
    FusedUnique(lexical, dense, cfg.rrfK);
    SortAllFrom(fused, chunks);
    SortUnique(fused);
    var candidates := Candidates(cfg, chunks, query);
    var rescored := Rescored(cfg.lex, query, candidates);
    assert AllFrom(rescored, chunks) && UniqueIn(rescored);
    SortAllFrom(rescored, chunks);
    SortUnique(rescored);
  }

  // ---- the pipeline's ranking ----------------------------------------------------------------

  function PositionIn(chunks: seq<Chunk>, c: Chunk): (i: nat)
    ensures c in chunks ==> i < |chunks| && chunks[i] == c
  {
    if chunks == [] || chunks[0] == c then 0 else 1 + PositionIn(chunks[1..], c)
  }

  function HitsOf(list: seq<ScoredChunk>, chunks: seq<Chunk>): seq<Hit> {
    if list == [] then []
    else
      var sc := list[|list| - 1];
      HitsOf(list[..|list| - 1], chunks) + [Hit(PositionIn(chunks, sc.chunk), sc.score, sc.lexicalRank, sc.denseRank)]
  }

  /** The retriever as the ranking the pipeline takes as a parameter. */
  function RankingOf(cfg: Setup): (string, seq<Chunk>) -> seq<Hit> {
    (query: string, chunks: seq<Chunk>) => HitsOf(HybridList(cfg, chunks, query), chunks)
  }

  lemma {:induction false} HydrateHits(list: seq<ScoredChunk>, chunks: seq<Chunk>)
    requires AllFrom(list, chunks)
    ensures Hydrate(chunks, HitsOf(list, chunks)) == list
  {
    if list != [] {
      var n := |list| - 1;
      assert AllFrom(list[..n], chunks);
      HydrateHits(list[..n], chunks);
      var sc := list[n];
      var h := Hit(PositionIn(chunks, sc.chunk), sc.score, sc.lexicalRank, sc.denseRank);
      var before := HitsOf(list[..n], chunks);
      assert (before + [h])[..|before|] == before;
    }
  }

  /** With that ranking the pipeline retrieves exactly the hybrid list, so what holds for every ranking holds of it. */
  lemma HybridIsARanking(engine: Engine, cfg: Setup, chunks: seq<Chunk>, question: string)
    requires engine.rank == RankingOf(cfg)
    ensures Retrieve(engine, chunks, question) == HybridList(cfg, chunks, question)
  {
    hide HybridList, HitsOf, Hydrate;
    HybridFacts(cfg, chunks, question);
    HydrateHits(HybridList(cfg, chunks, question), chunks);
  }
}
