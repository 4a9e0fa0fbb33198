/** The lexical-overlap reranker (src/rag_engine/retrieval/rerank.py). */
module Reranker {
  import opened Schemas
  import opened StableSort
  import opened Fusion

  /** Tokenisation and the exact-phrase test, on lower-cased text. */
  datatype Lexicon = Lexicon(tokens: string -> set<string>, phraseIn: (string, string) -> bool)

  /** The text that is indexed and reranked: the anchor, if any, and the content. */
  function EmbeddingText(c: Chunk): string {
    if Strip(c.contextualAnchor) != "" then Strip(Strip(c.contextualAnchor) + "\n" + c.content) else c.content
  }

  function Final(lex: Lexicon, query: string, sc: ScoredChunk): real {
    var text, q := EmbeddingText(sc.chunk), lex.tokens(query);
    var overlap := |q * lex.tokens(text)| as real / (if q == {} then 1 else |q|) as real;
    0.5 * sc.score + 0.5 * overlap + if lex.phraseIn(query, text) then 0.25 else 0.0
  }

  function Rescored(lex: Lexicon, query: string, candidates: seq<ScoredChunk>): seq<ScoredChunk> {
    seq(|candidates|, i requires 0 <= i < |candidates| => candidates[i].(score := Final(lex, query, candidates[i])))
  }

  function Reranked(lex: Lexicon, query: string, candidates: seq<ScoredChunk>, topK: nat): seq<ScoredChunk> {
    Take(Sort(ByScore(), Rescored(lex, query, candidates)), topK)
  }

  method Rerank(lex: Lexicon, query: string, candidates: seq<ScoredChunk>, topK: nat) returns (out: seq<ScoredChunk>)
    ensures out == Reranked(lex, query, candidates, topK)
  {
    var scored: seq<ScoredChunk> := [];
    for i := 0 to |candidates|
      invariant scored == Rescored(lex, query, candidates[..i])
    {
      scored := scored + [candidates[i].(score := Final(lex, query, candidates[i]))];
    }
    assert candidates[..|candidates|] == candidates;
    out := Take(Sort(ByScore(), scored), topK);
  }

  /** Half the score, half the share of the question's tokens the text has, and a quarter for the exact phrase. */
  ghost function Blend(lex: Lexicon, query: string, text: string, score: real): real {
    var asked := lex.tokens(query);
    0.5 * score
    + (if asked == {} then 0.0 else 0.5 * (|asked * lex.tokens(text)| as real / |asked| as real))
    + (if lex.phraseIn(query, text) then 0.25 else 0.0)
  }

  lemma FinalBlends(lex: Lexicon, query: string, sc: ScoredChunk)
    ensures Final(lex, query, sc) == Blend(lex, query, EmbeddingText(sc.chunk), sc.score)
  {
    hide EmbeddingText;
    if lex.tokens(query) == {} {
      assert lex.tokens(query) * lex.tokens(EmbeddingText(sc.chunk)) == {};
    }
  }

  /** A blank anchor adds nothing; a clean one stands on its own line before the content. */
  lemma EmbeddingTextMeans(c: Chunk)
    ensures (forall i :: 0 <= i < |c.contextualAnchor| ==> IsSpace(c.contextualAnchor[i])) ==> EmbeddingText(c) == c.content
    ensures var anchor, content := c.contextualAnchor, c.content;
      (anchor != "" && !IsSpace(anchor[0]) && !IsSpace(anchor[|anchor| - 1]) && content != "" && !IsSpace(content[|content| - 1])) ==>
        EmbeddingText(c) == anchor + "\n" + content
  {
    hide IsSpace;
    StripMeans(c.contextualAnchor);
  }

  /** The candidates rescored, and of them those with the greatest final scores, greatest first. */
  lemma RerankKeepsBest(lex: Lexicon, query: string, candidates: seq<ScoredChunk>, topK: nat)
    ensures exists all: seq<ScoredChunk> ::
      && |all| == |candidates|
      && (forall i :: 0 <= i < |all| ==>
            all[i] == candidates[i].(score := Blend(lex, query, EmbeddingText(candidates[i].chunk), candidates[i].score)))
      && Top(ByScore(), all, topK, Reranked(lex, query, candidates, topK))
  {
    hide Sort, Final, Blend, EmbeddingText, Top;
    var all := Rescored(lex, query, candidates);
    SortedTop(ByScore(), all, topK);
    forall i | 0 <= i < |all|
      ensures all[i] == candidates[i].(score := Blend(lex, query, EmbeddingText(candidates[i].chunk), candidates[i].score))
    {
      FinalBlends(lex, query, candidates[i]);
    }
  }
}
