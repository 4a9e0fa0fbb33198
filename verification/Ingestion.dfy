/**
 From documents to indexed chunks (src/rag_engine/ingestion/markdown_loader.py and
 index_documents in src/rag_engine/pipeline.py): every chunk inherits its document's access
 record, and chunk ids are distinct, which is what the runs of the pipeline start from.
 */
module Ingestion {
  import opened Schemas
  import opened Chunker
  import Decimal
  import opened Pipeline
  import opened PipelineRuns
  import SemanticCache

  datatype Document = Document(id: string, title: string, summary: string, content: string, security: SecurityContext, metadata: Metadata)

  /** What the contextualizer writes on a chunk: from its document, position, the number of chunks and its text. */
  type Anchor = (Document, nat, nat, string) -> string

  const MARK := "::chunk-"

  /** A number in decimal, padded with zeros to three digits. */
  function Pad3(n: nat): (s: string)
    ensures forall i :: 0 <= i < |s| ==> Decimal.IsDigit(s[i])
  {
    var d := Decimal.ToString(n);
    if |d| == 1 then "00" + d else if |d| == 2 then "0" + d else d
  }

  function ChunkId(docId: string, i: nat): string {
    docId + MARK + Pad3(i)
  }

  /** One document's chunks; the contextualizer adds an anchor and changes nothing else. */
  function ChunksOf(doc: Document, anchor: Anchor, windows: seq<string>): (chunks: seq<Chunk>)
    ensures |chunks| == |windows|
  {
    seq(|windows|, i requires 0 <= i < |windows| =>
      Chunk(ChunkId(doc.id, i), doc.id, doc.title, windows[i], anchor(doc, i, |windows|, windows[i]), doc.security, i, "text", doc.metadata))
  }

  function AllChunks(docs: seq<Document>, anchor: Anchor, size: nat, overlap: int): seq<Chunk> {
    if docs == [] then []
    else
      var doc := docs[|docs| - 1];
      AllChunks(docs[..|docs| - 1], anchor, size, overlap) +
      ChunksOf(doc, anchor, Windows(Paragraphs(doc.content), size, Stride(size, overlap)))
  }

  method IndexDocuments(docs: seq<Document>, anchor: Anchor, size: nat, overlap: int)
    returns (chunks: seq<Chunk>)
    ensures chunks == AllChunks(docs, anchor, size, overlap)
  {
    chunks := [];
    for i := 0 to |docs|
      invariant chunks == AllChunks(docs[..i], anchor, size, overlap)
    {
      assert docs[..i + 1][..i] == docs[..i];
      var windows := ChunkDocument(docs[i].content, size, overlap);
      chunks := chunks + ChunksOf(docs[i], anchor, windows);
    }
    assert docs[..|docs|] == docs;
  }

  // ---- chunk ids ----------------------------------------------------------------------

  lemma {:induction false} ParseZeros(s: string)
    requires forall c :: c in s ==> Decimal.IsDigit(c)
    ensures forall c :: c in "0" + s ==> Decimal.IsDigit(c)
    ensures Decimal.Parse("0" + s) == Decimal.Parse(s)
  {
    if s == "" {
      assert "0" + s == "0" && "0"[..0] == "";
      assert Decimal.Parse("0") == 10 * Decimal.Parse("") + Decimal.DigitValue('0');
    } else {
      var n := |s| - 1;
      ParseZeros(s[..n]);
      assert ("0" + s)[..n + 1] == "0" + s[..n];
    }
  }

  lemma Pad3Injective(i: nat, j: nat)
    requires Pad3(i) == Pad3(j)
    ensures i == j
  {
    PadParses(i);
    PadParses(j);
  }

  lemma PadParses(n: nat)
    ensures forall c :: c in Pad3(n) ==> Decimal.IsDigit(c)
    ensures Decimal.Parse(Pad3(n)) == n
  {
    var d := Decimal.ToString(n);
    Decimal.RoundTrip(n);
    ParseZeros(d);
    ParseZeros("0" + d);
    assert "00" + d == "0" + ("0" + d);
  }

  /** A chunk id determines its document and its position, whatever the document ids look like. */
  lemma ChunkIdInjective(docA: string, i: nat, docB: string, j: nat)
    requires ChunkId(docA, i) == ChunkId(docB, j)
    ensures docA == docB && i == j
  {
    var a, b, p, q := ChunkId(docA, i), ChunkId(docB, j), Pad3(i), Pad3(j);
    assert |a| == |docA| + 8 + |p| && |b| == |docB| + 8 + |q|;
    assert a[|a| - |p| - 1] == '-' && b[|b| - |q| - 1] == '-';
    assert forall k :: 0 <= k < |p| ==> a[|a| - |p| + k] == p[k];
    assert forall k :: 0 <= k < |q| ==> b[|b| - |q| + k] == q[k];
    assert |p| == |q|;
    assert p == a[|a| - |p|..] && q == b[|b| - |q|..];
    assert docA == a[..|docA|] && docB == b[..|docB|];
    Pad3Injective(i, j);
  }

  ghost predicate DistinctDocs(docs: seq<Document>) {
    forall i, j :: 0 <= i < j < |docs| ==> docs[i].id != docs[j].id
  }

  /** The position in a chunk id reads back, in three digits or in as many as it needs. */
  lemma PadMeans(n: nat)
    ensures (forall c :: c in Pad3(n) ==> Decimal.IsDigit(c)) && Decimal.Parse(Pad3(n)) == n
    ensures |Pad3(n)| == if |Decimal.ToString(n)| <= 3 then 3 else |Decimal.ToString(n)|
  {
    PadParses(n);
  }

  function WindowsOf(doc: Document, size: nat, overlap: int): seq<string> {
    Windows(Paragraphs(doc.content), size, Stride(size, overlap))
  }

  /** How many chunks the first d documents have. */
  ghost function ChunksBefore(docs: seq<Document>, d: nat, size: nat, overlap: int): nat
    requires d <= |docs|
  {
    if d == 0 then 0 else ChunksBefore(docs, d - 1, size, overlap) + |WindowsOf(docs[d - 1], size, overlap)|
  }

  lemma {:induction false} ChunksBeforeIn(docs: seq<Document>, more: seq<Document>, d: nat, size: nat, overlap: int)
    requires d <= |docs|
    ensures ChunksBefore(docs + more, d, size, overlap) == ChunksBefore(docs, d, size, overlap)
  {
    hide WindowsOf;
    if d > 0 {
      ChunksBeforeIn(docs, more, d - 1, size, overlap);
    }
  }

  /**
   The whole index of some documents: each document's windows in turn, window i of a document under
   its id and i, with its text, its anchor, its position, and the document's title, access record
   and metadata.
   */
  lemma {:induction false} ChunkAt(docs: seq<Document>, anchor: Anchor, size: nat, overlap: int, d: nat, i: nat)
    requires d < |docs| && i < |WindowsOf(docs[d], size, overlap)|
    ensures |AllChunks(docs, anchor, size, overlap)| == ChunksBefore(docs, |docs|, size, overlap)
    ensures ChunksBefore(docs, d, size, overlap) + i < |AllChunks(docs, anchor, size, overlap)|
    ensures
      var doc, windows := docs[d], WindowsOf(docs[d], size, overlap);
      AllChunks(docs, anchor, size, overlap)[ChunksBefore(docs, d, size, overlap) + i] ==
      Chunk(doc.id + "::chunk-" + Pad3(i), doc.id, doc.title, windows[i], anchor(doc, i, |windows|, windows[i]),
            doc.security, i, "text", doc.metadata)
  {
    hide Windows, Paragraphs, Pad3, Stride, ChunksBefore;
    var n := |docs| - 1;
    IndexLength(docs, anchor, size, overlap);
    IndexLength(docs[..n], anchor, size, overlap);
    assert docs == docs[..n] + docs[n..];
    ChunksBeforeIn(docs[..n], docs[n..], n, size, overlap);
    if d < n {
      ChunkAt(docs[..n], anchor, size, overlap, d, i);
      ChunksBeforeIn(docs[..n], docs[n..], d, size, overlap);
    } else {
      LastBefore(docs, size, overlap);
    }
  }

  lemma LastBefore(docs: seq<Document>, size: nat, overlap: int)
    requires docs != []
    ensures ChunksBefore(docs, |docs|, size, overlap) ==
            ChunksBefore(docs, |docs| - 1, size, overlap) + |WindowsOf(docs[|docs| - 1], size, overlap)|
  {
    hide WindowsOf;
  }

  lemma {:induction false} IndexLength(docs: seq<Document>, anchor: Anchor, size: nat, overlap: int)
    ensures |AllChunks(docs, anchor, size, overlap)| == ChunksBefore(docs, |docs|, size, overlap)
  {
    hide Windows, Paragraphs, ChunkId, Stride;
    if docs != [] {
      var n := |docs| - 1;
      IndexLength(docs[..n], anchor, size, overlap);
      assert docs == docs[..n] + docs[n..];
      ChunksBeforeIn(docs[..n], docs[n..], n, size, overlap);
    }
  }

  /** Every chunk comes from one of the documents and inherits its access record and metadata. */
  lemma {:induction false} ChunkOrigin(docs: seq<Document>, anchor: Anchor, size: nat, overlap: int, k: nat)
    requires k < |AllChunks(docs, anchor, size, overlap)|
    ensures var c := AllChunks(docs, anchor, size, overlap)[k];
      exists d, i: nat :: 0 <= d < |docs| && c.id == ChunkId(docs[d].id, i)
        && c.security == docs[d].security && c.metadata == docs[d].metadata && c.parentDocId == docs[d].id
  {
    hide Windows, Paragraphs, ChunkId;
    var n := |docs| - 1;
    var before := AllChunks(docs[..n], anchor, size, overlap);
    var c := AllChunks(docs, anchor, size, overlap)[k];
    if k < |before| {
      ChunkOrigin(docs[..n], anchor, size, overlap, k);
      var d, i: nat :| 0 <= d < |docs[..n]| && c.id == ChunkId(docs[..n][d].id, i)
        && c.security == docs[..n][d].security && c.metadata == docs[..n][d].metadata && c.parentDocId == docs[..n][d].id;
      assert docs[d] == docs[..n][d];
    } else {
      assert c.id == ChunkId(docs[n].id, k - |before|);
    }
  }

  /** Documents with distinct ids give chunks with distinct ids: a run may start from them. */
  lemma {:induction false} IndexedIdsAreDistinct(docs: seq<Document>, anchor: Anchor, size: nat, overlap: int)
    requires DistinctDocs(docs)
    ensures DistinctIds(AllChunks(docs, anchor, size, overlap))
  {
    hide Windows, Paragraphs, ChunkId;
    if docs != [] {
      var n := |docs| - 1;
      IndexedIdsAreDistinct(docs[..n], anchor, size, overlap);
      var before := AllChunks(docs[..n], anchor, size, overlap);
      var chunks := AllChunks(docs, anchor, size, overlap);
      forall i, j | 0 <= i < j < |chunks|
        ensures chunks[i].id != chunks[j].id
      {
        if j >= |before| && chunks[i].id == chunks[j].id {
          assert chunks[j].id == ChunkId(docs[n].id, j - |before|);
          if i < |before| {
            ChunkOrigin(docs[..n], anchor, size, overlap, i);
            var d, m: nat :| 0 <= d < |docs[..n]| && before[i].id == ChunkId(docs[..n][d].id, m);
            ChunkIdInjective(docs[d].id, m, docs[n].id, j - |before|);
          } else {
            assert chunks[i].id == ChunkId(docs[n].id, i - |before|);
            ChunkIdInjective(docs[n].id, i - |before|, docs[n].id, j - |before|);
          }
        }
      }
    }
  }

  /** So every run over freshly indexed documents is coherent. */
  lemma RunsFromDocuments(engine: Engine, cfg: SemanticCache.Config, docs: seq<Document>, anchor: Anchor,
                          size: nat, overlap: int, cached: bool, steps: seq<PStep>)
    requires DistinctDocs(docs) && ValidSteps(steps)
    ensures Coherent(engine, PRun(engine, cfg, Start(AllChunks(docs, anchor, size, overlap), cached), steps))
  {
    hide Coherent, PRun, ValidSteps, AllChunks;
    IndexedIdsAreDistinct(docs, anchor, size, overlap);
    RunsAreCoherent(engine, cfg, AllChunks(docs, anchor, size, overlap), cached, steps);
  }
}
