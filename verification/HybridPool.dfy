/**
 What the hybrid retriever returns, from the two engines' orders: which chunks are considered,
 which of them the two cuts keep, and the ranks and the score each comes with.
 */
module HybridPool {
  import opened Schemas
  import opened StableSort
  import opened Fusion
  import opened FusionFacts
  import opened Reranker
  import opened Hybrid

  // ---- one engine's hits ------------------------------------------------------------------

  /** The positions of a leg's cut order that are in the index, in order. */
  function InIndex(leg: Leg, query: string, chunks: seq<Chunk>): (ps: seq<nat>) {
    Filter<nat>((p: nat) => p < |chunks|, Take(leg.order(query, chunks), leg.topK))
  }

  /** The ids at positions in the index among the first topK of a leg's order. */
  ghost function IdsFound(leg: Leg, query: string, chunks: seq<Chunk>): set<string> {
    set k: nat | k < |leg.order(query, chunks)| && k < leg.topK && leg.order(query, chunks)[k] < |chunks| ::
      chunks[leg.order(query, chunks)[k]].id
  }

  /** A hit stands for position p of the index: its chunk and score there, and its rank in the leg's order. */
  ghost predicate HitAt(leg: Leg, query: string, chunks: seq<Chunk>, positions: seq<nat>, lexical: bool, p: nat, hit: ScoredChunk) {
    var rank := if lexical then hit.lexicalRank else hit.denseRank;
    && p < |chunks| && hit.chunk == chunks[p] && hit.score == leg.score(query, chunks, p)
    && rank.Some? && 1 <= rank.value <= |positions| && positions[rank.value - 1] == p
    && (if lexical then hit.denseRank else hit.lexicalRank) == None
  }

  lemma {:induction false} FoundAre(leg: Leg, query: string, chunks: seq<Chunk>, positions: seq<nat>, lexical: bool)
    ensures var ps, hits := Filter<nat>((p: nat) => p < |chunks|, positions), Found(leg, query, chunks, positions, lexical);
      && |hits| == |ps|
      && forall i :: 0 <= i < |ps| ==> HitAt(leg, query, chunks, positions, lexical, ps[i], hits[i])
  {
    if positions != [] {
      FoundAre(leg, query, chunks, positions[..|positions| - 1], lexical);
    }
  }

  /** The hits of a leg are the chunks at those positions; its ids are the ids found there. */
  lemma LegHitsAre(leg: Leg, query: string, chunks: seq<Chunk>, lexical: bool)
    ensures var ps, hits := InIndex(leg, query, chunks), LegHits(leg, query, chunks, lexical);
      && |hits| == |ps|
      && (forall i :: 0 <= i < |ps| ==>
            HitAt(leg, query, chunks, Take(leg.order(query, chunks), leg.topK), lexical, ps[i], hits[i]))
      && IdsIn(hits) == IdsFound(leg, query, chunks)
  {
    hide Found;
    var order := leg.order(query, chunks);
    var cut := Take(order, leg.topK);
    FoundAre(leg, query, chunks, cut, lexical);
    IdsInIndex(leg, query, chunks, LegHits(leg, query, chunks, lexical));
  }

  lemma IdsInIndex(leg: Leg, query: string, chunks: seq<Chunk>, hits: seq<ScoredChunk>)
    requires var ps := InIndex(leg, query, chunks);
      |hits| == |ps| && forall i :: 0 <= i < |ps| ==> ps[i] < |chunks| && hits[i].chunk == chunks[ps[i]]
    ensures IdsIn(hits) == IdsFound(leg, query, chunks)
  {
    var order := leg.order(query, chunks);
    var cut, ps := Take(order, leg.topK), InIndex(leg, query, chunks);
    FilterMembers<nat>((p: nat) => p < |chunks|, cut);
    forall id | id in IdsIn(hits)
      ensures id in IdsFound(leg, query, chunks)
    {
      var i :| 0 <= i < |hits| && hits[i].chunk.id == id;
      assert ps[i] in ps;
      var k: nat :| k < |cut| && cut[k] == ps[i];
      assert order[k] == ps[i];
    }
    forall id | id in IdsFound(leg, query, chunks)
      ensures id in IdsIn(hits)
    {
      var k: nat :| k < |order| && k < leg.topK && order[k] < |chunks| && chunks[order[k]].id == id;
      assert cut[k] in ps;
      var i :| 0 <= i < |ps| && ps[i] == cut[k];
      assert hits[i].chunk.id == id;
    }
  }

  /** The rank of an id in a list of hits: the last place it stands at, from one. */
  ghost predicate IsRank(hits: seq<ScoredChunk>, id: string, rank: Option<nat>) {
    if rank.None? then forall i :: 0 <= i < |hits| ==> hits[i].chunk.id != id
    else
      && 1 <= rank.value <= |hits| && hits[rank.value - 1].chunk.id == id
      && forall i :: rank.value <= i < |hits| ==> hits[i].chunk.id != id
  }

  lemma {:induction false} RankOfIs(hits: seq<ScoredChunk>, id: string)
    ensures IsRank(hits, id, RankOf(hits, id))
    ensures RankOf(hits, id).Some? <==> id in IdsIn(hits)
  {
    if hits != [] {
      RankOfIs(hits[..|hits| - 1], id);
    }
  }

  // ---- the two cuts ------------------------------------------------------------------------

  /** At most n of the pool are kept, as many as there are, and none left out has a greater value. */
  ghost predicate KeepsBest(pool: set<string>, kept: set<string>, n: nat, value: string -> real) {
    && kept <= pool && |kept| == (if |pool| <= n then |pool| else n)
    && forall a, b :: a in kept && b in pool - kept ==> value(a) >= value(b)
  }

  lemma {:induction false} UniqueSize(s: seq<ScoredChunk>)
    requires UniqueIn(s)
    ensures |IdsIn(s)| == |s|
  {
    if s == [] {
      assert IdsIn(s) == {};
    } else {
      var n := |s| - 1;
      UniqueSize(s[..n]);
      assert s[..n] + [s[n]] == s;
      AppendUnique(s[..n], s[n]);
    }
  }

  /** Of a sorted list, the ids left out by a cut have no greater value. */
  lemma LeftOutNoBetter(sorted: seq<ScoredChunk>, r: seq<ScoredChunk>, value: string -> real, a: string, b: string)
    requires r <= sorted && Descending(ByScore(), sorted)
    requires forall i :: 0 <= i < |sorted| ==> value(sorted[i].chunk.id) == sorted[i].score
    requires a in IdsIn(r) && b in IdsIn(sorted) - IdsIn(r)
    ensures value(a) >= value(b)
  {
    var i :| 0 <= i < |r| && r[i].chunk.id == a;
    var j :| 0 <= j < |sorted| && sorted[j].chunk.id == b;
    assert forall k :: 0 <= k < |r| ==> sorted[k].chunk.id in IdsIn(r);
    assert ByScore()(sorted[i]) >= ByScore()(sorted[j]);
  }

  lemma CutKeepsBest(s: seq<ScoredChunk>, n: nat, value: string -> real)
    requires UniqueIn(s) && forall i :: 0 <= i < |s| ==> value(s[i].chunk.id) == s[i].score
    ensures var r := Take(Sort(ByScore(), s), n);
      && UniqueIn(r) && (forall i :: 0 <= i < |r| ==> r[i] in s)
      && KeepsBest(IdsIn(s), IdsIn(r), n, value)
  {
    hide Sort, Descending;
    var sorted := Sort(ByScore(), s);
    var r := Take(sorted, n);
    SortDescending(ByScore(), s);
    SortUnique(s);
    UniqueSize(s);
    UniqueSize(sorted);
    UniqueSize(r);
    forall i: nat | i < |sorted|
      ensures sorted[i] in s
    {
      SortMembers(ByScore(), s, i);
    }
    forall a, b | a in IdsIn(r) && b in IdsIn(s) - IdsIn(r)
      ensures value(a) >= value(b)
    {
      LeftOutNoBetter(sorted, r, value, a, b);
    }
  }

  // ---- the whole retriever -------------------------------------------------------------------

  /** The sum of 1 / (rrfK + rank) over both lists. */
  ghost function FusedScore(cfg: Setup, chunks: seq<Chunk>, query: string): string -> real {
    (id: string) => Score(LegHits(cfg.lexical, query, chunks, true), LegHits(cfg.dense, query, chunks, false), id, cfg.rrfK)
  }

  /** The blend of that score and the overlap of the id's chunk with the question. */
  ghost function FinalScore(cfg: Setup, chunks: seq<Chunk>, query: string): string -> real {
    var lexical, dense := LegHits(cfg.lexical, query, chunks, true), LegHits(cfg.dense, query, chunks, false);
    (id: string) =>
      match FusedChunk(lexical, dense, id)
      case None => 0.0
      case Some(c) => Blend(cfg.lex, query, EmbeddingText(c), Score(lexical, dense, id, cfg.rrfK))
  }

  /** A fused entry: the id's chunk, its exact score and its rank in each list. */
  ghost predicate IsFused(lexical: seq<ScoredChunk>, dense: seq<ScoredChunk>, k: nat, sc: ScoredChunk) {
    && FusedChunk(lexical, dense, sc.chunk.id) == Some(sc.chunk)
    && sc.score == Score(lexical, dense, sc.chunk.id, k)
    && IsRank(lexical, sc.chunk.id, sc.lexicalRank) && IsRank(dense, sc.chunk.id, sc.denseRank)
  }

  lemma {:induction false} FusedOverEntries(lexical: seq<ScoredChunk>, dense: seq<ScoredChunk>, k: nat, order: seq<string>)
    ensures forall i :: 0 <= i < |FusedOver(lexical, dense, k, order)| ==>
      IsFused(lexical, dense, k, FusedOver(lexical, dense, k, order)[i])
  {
    hide Score, IsRank;
    if order != [] {
      FusedOverEntries(lexical, dense, k, order[..|order| - 1]);
      RankOfIs(lexical, order[|order| - 1]);
      RankOfIs(dense, order[|order| - 1]);
    }
  }

  lemma FusedPool(lexical: seq<ScoredChunk>, dense: seq<ScoredChunk>, k: nat)
    ensures IdsIn(FusedList(lexical, dense, k)) == IdsIn(lexical) + IdsIn(dense)
  {
    hide FusedList, UnionOrder, Score, IsRank;
    FusedListFacts(lexical, dense, k);
    var list := FusedList(lexical, dense, k);
    forall id
      ensures id in IdsIn(list) <==> id in IdsIn(lexical) + IdsIn(dense)
    {
      RankOfIs(lexical, id);
      RankOfIs(dense, id);
      assert forall i :: 0 <= i < |list| ==> Ids(Chunks(list))[i] == list[i].chunk.id;
    }
  }

  /** The first cut: of everything either engine found, the greatest fused scores. */
  lemma CandidatesKeepBest(cfg: Setup, chunks: seq<Chunk>, query: string)
    ensures
      var lexical, dense := LegHits(cfg.lexical, query, chunks, true), LegHits(cfg.dense, query, chunks, false);
      var candidates := Candidates(cfg, chunks, query);
      && UniqueIn(candidates)
      && (forall i :: 0 <= i < |candidates| ==> IsFused(lexical, dense, cfg.rrfK, candidates[i]))
      && KeepsBest(IdsFound(cfg.lexical, query, chunks) + IdsFound(cfg.dense, query, chunks), IdsIn(candidates),
                   cfg.rerankTopK, FusedScore(cfg, chunks, query))
  {
    hide LegHits, Score, FusedChunk, IsRank, Sort, KeepsBest, IdsFound;
    var lexical, dense := LegHits(cfg.lexical, query, chunks, true), LegHits(cfg.dense, query, chunks, false);
    LegHitsAre(cfg.lexical, query, chunks, true);
    LegHitsAre(cfg.dense, query, chunks, false);
    FusedUnique(lexical, dense, cfg.rrfK);
    FusedPool(lexical, dense, cfg.rrfK);
    FusedOverEntries(lexical, dense, cfg.rrfK, UnionOrder(lexical, dense));
    CutKeepsBest(FusedList(lexical, dense, cfg.rrfK), cfg.rerankTopK, FusedScore(cfg, chunks, query));
  }

  /** What a candidate's final score is. */
  lemma FinalIs(cfg: Setup, chunks: seq<Chunk>, query: string, sc: ScoredChunk)
    requires IsFused(LegHits(cfg.lexical, query, chunks, true), LegHits(cfg.dense, query, chunks, false), cfg.rrfK, sc)
    ensures Final(cfg.lex, query, sc) == FinalScore(cfg, chunks, query)(sc.chunk.id)
  {
    hide LegHits, Score, FusedChunk, IsRank, EmbeddingText, Final, Blend;
    FinalBlends(cfg.lex, query, sc);
  }

  /**
   The retriever's result: of everything either engine found in its cut, the greatest fused
   scores are reranked, and of those the greatest final scores are returned, greatest first, each
   with its rank in either list.
   */
  lemma HybridExactly(cfg: Setup, chunks: seq<Chunk>, query: string)
    ensures
      var lexical, dense := LegHits(cfg.lexical, query, chunks, true), LegHits(cfg.dense, query, chunks, false);
      var r := HybridList(cfg, chunks, query);
      && (exists reranked: set<string> ::
            && KeepsBest(IdsFound(cfg.lexical, query, chunks) + IdsFound(cfg.dense, query, chunks), reranked,
                         cfg.rerankTopK, FusedScore(cfg, chunks, query))
            && KeepsBest(reranked, IdsIn(r), cfg.finalTopK, FinalScore(cfg, chunks, query)))
      && Descending(ByScore(), r) && UniqueIn(r)
      && forall i :: 0 <= i < |r| ==>
           var sc := r[i];
           && sc.score == FinalScore(cfg, chunks, query)(sc.chunk.id)
           && FusedChunk(lexical, dense, sc.chunk.id) == Some(sc.chunk)
           && IsRank(lexical, sc.chunk.id, sc.lexicalRank) && IsRank(dense, sc.chunk.id, sc.denseRank)
  {
    hide LegHits, Score, FusedChunk, IsRank, Sort, KeepsBest, IdsFound, Final, FinalScore, Candidates, FusedScore;
    var candidates := Candidates(cfg, chunks, query);
    var rescored := Rescored(cfg.lex, query, candidates);
    CandidatesKeepBest(cfg, chunks, query);
    forall i | 0 <= i < |candidates|
      ensures rescored[i].score == FinalScore(cfg, chunks, query)(candidates[i].chunk.id)
    {
      FinalIs(cfg, chunks, query, candidates[i]);
    }
    assert UniqueIn(rescored) && IdsIn(rescored) == IdsIn(candidates);
    CutKeepsBest(rescored, cfg.finalTopK, FinalScore(cfg, chunks, query));
    TopK(ByScore(), rescored, cfg.finalTopK);
  }

  /** With room in both cuts, the result is everything either engine found. */
  lemma NothingCut(cfg: Setup, chunks: seq<Chunk>, query: string)
    ensures var pool := IdsFound(cfg.lexical, query, chunks) + IdsFound(cfg.dense, query, chunks);
      |pool| <= cfg.rerankTopK && |pool| <= cfg.finalTopK ==> IdsIn(HybridList(cfg, chunks, query)) == pool
  {
    hide IdsFound, HybridList, FusedScore, FinalScore, LegHits;
    var pool := IdsFound(cfg.lexical, query, chunks) + IdsFound(cfg.dense, query, chunks);
    HybridExactly(cfg, chunks, query);
    var reranked :| KeepsBest(pool, reranked, cfg.rerankTopK, FusedScore(cfg, chunks, query))
      && KeepsBest(reranked, IdsIn(HybridList(cfg, chunks, query)), cfg.finalTopK, FinalScore(cfg, chunks, query));
    if |pool| <= cfg.rerankTopK && |pool| <= cfg.finalTopK {
      SameSize(reranked, pool);
      SameSize(IdsIn(HybridList(cfg, chunks, query)), reranked);
    }
  }

  /** Two chunks, the lexical order giving only the one and the dense order only the other: both come back. */
  lemma BothEnginesCount(cfg: Setup, a: Chunk, b: Chunk, query: string)
    requires a.id != b.id
    requires cfg.lexical.order(query, [a, b]) == [0] && cfg.dense.order(query, [a, b]) == [1]
    requires cfg.lexical.topK >= 1 && cfg.dense.topK >= 1 && cfg.rerankTopK >= 2 && cfg.finalTopK >= 2
    ensures IdsIn(HybridList(cfg, [a, b], query)) == {a.id, b.id}
  {
    hide HybridList;
    var chunks := [a, b];
    assert chunks[0].id in IdsFound(cfg.lexical, query, chunks) by {
      assert cfg.lexical.order(query, chunks)[0] == 0;
    }
    assert chunks[1].id in IdsFound(cfg.dense, query, chunks) by {
      assert cfg.dense.order(query, chunks)[0] == 1;
    }
    assert IdsFound(cfg.lexical, query, chunks) + IdsFound(cfg.dense, query, chunks) == {a.id, b.id};
    NothingCut(cfg, chunks, query);
  }

  lemma SameSize(a: set<string>, b: set<string>)
    requires a <= b && |a| == |b|
    ensures a == b
  {
    assert b == a + (b - a);
  }
}
