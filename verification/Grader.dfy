/**
 The deterministic grader (src/rag_engine/selfrag/grader.py): token coverage of the
 query by the context, and of the answer by the context. Tokenisation is a function.
 */
module Grader {
  import opened Schemas
  import opened CorrectiveLoop

  type Tokens = string -> set<string>

  function ContextTokens(tokens: Tokens, chunks: seq<Chunk>): set<string> {
    if chunks == [] then {}
    else ContextTokens(tokens, chunks[..|chunks| - 1]) + tokens(chunks[|chunks| - 1].content)
  }

  function Coverage(part: set<string>, whole: set<string>): real
    requires part != {}
  {
    |part * whole| as real / |part| as real
  }

  function GradeRelevance(tokens: Tokens, threshold: real, query: string, chunks: seq<Chunk>): RelevanceGrade {
    if chunks == [] || tokens(query) == {} then RelevanceGrade(false, 0.0)
    else
      var score := Coverage(tokens(query), ContextTokens(tokens, chunks));
      RelevanceGrade(score >= threshold, score)
  }

  function GradeGroundedness(tokens: Tokens, threshold: real, answer: string, chunks: seq<Chunk>): GroundednessGrade {
    if chunks == [] || tokens(answer) == {} then GroundednessGrade(false, 0.0)
    else
      var score := Coverage(tokens(answer), ContextTokens(tokens, chunks));
      GroundednessGrade(score >= threshold, score)
  }

  // ---- what a grade means -----------------------------------------------------------

  /** The tokens of a text that occur in the content of some chunk. */
  ghost function Supported(tokens: Tokens, text: string, chunks: seq<Chunk>): set<string> {
    set t | t in tokens(text) && exists i :: 0 <= i < |chunks| && t in tokens(chunks[i].content)
  }

  /** There is something to compare, and at least the threshold's share of the text's tokens is supported. */
  ghost predicate WellSupported(tokens: Tokens, threshold: real, text: string, chunks: seq<Chunk>) {
    && chunks != [] && tokens(text) != {}
    && |Supported(tokens, text, chunks)| as real >= threshold * |tokens(text)| as real
  }

  lemma {:induction false} ContextTokensAre(tokens: Tokens, chunks: seq<Chunk>)
    ensures forall t :: t in ContextTokens(tokens, chunks) <==> exists i :: 0 <= i < |chunks| && t in tokens(chunks[i].content)
  {
    if chunks != [] {
      var n := |chunks| - 1;
      ContextTokensAre(tokens, chunks[..n]);
      forall t | t in ContextTokens(tokens, chunks)
        ensures exists i :: 0 <= i < |chunks| && t in tokens(chunks[i].content)
      {
        if t in ContextTokens(tokens, chunks[..n]) {
          var i :| 0 <= i < n && t in tokens(chunks[..n][i].content);
          assert t in tokens(chunks[i].content);
        }
      }
      forall i | 0 <= i < |chunks|
        ensures tokens(chunks[i].content) <= ContextTokens(tokens, chunks)
      {
        assert i < n ==> chunks[..n][i] == chunks[i];
      }
    }
  }

  lemma ShareAtLeast(k: nat, n: nat, threshold: real)
    requires n > 0
    ensures k as real / n as real >= threshold <==> k as real >= threshold * n as real
  {
    var share := k as real / n as real;
    assert share * n as real == k as real;
  }

  /** A question is covered, and an answer grounded, exactly when it is well supported; the score is the supported share. */
  lemma GradesMean(tokens: Tokens, threshold: real, text: string, chunks: seq<Chunk>)
    ensures var rel, gnd := GradeRelevance(tokens, threshold, text, chunks), GradeGroundedness(tokens, threshold, text, chunks);
      && (rel.sufficient <==> WellSupported(tokens, threshold, text, chunks))
      && (gnd.grounded <==> WellSupported(tokens, threshold, text, chunks))
      && rel.score == gnd.score
      && (chunks == [] || tokens(text) == {} ==> rel.score == 0.0)
      && (chunks != [] ==> rel.score * |tokens(text)| as real == |Supported(tokens, text, chunks)| as real)
  {
    ContextTokensAre(tokens, chunks);
    var part := tokens(text);
    assert part * ContextTokens(tokens, chunks) == Supported(tokens, text, chunks);
    if part != {} {
      ShareAtLeast(|Supported(tokens, text, chunks)|, |part|, threshold);
    } else {
      assert Supported(tokens, text, chunks) == {};
    }
  }
}
