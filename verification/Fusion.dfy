/**
 Reciprocal rank fusion (src/rag_engine/retrieval/fusion.py), over exact rationals.
 */
module Fusion {
  import opened Schemas
  import opened StableSort

  // ---- what a list contributes -----------------------------------------------------

  /** The sum of 1 / (k + rank) over the ranks at which the id appears. */
  function Contribution(items: seq<ScoredChunk>, id: string, k: nat): real {
    if items == [] then 0.0
    else
      Contribution(items[..|items| - 1], id, k) +
      if items[|items| - 1].chunk.id == id then 1.0 / (k + |items|) as real else 0.0
  }

  /** The last rank at which the id appears. */
  function RankOf(items: seq<ScoredChunk>, id: string): Option<nat> {
    if items == [] then None
    else if items[|items| - 1].chunk.id == id then Some(|items|)
    else RankOf(items[..|items| - 1], id)
  }

  /** The first entry with the id. */
  function FirstWith(items: seq<ScoredChunk>, id: string): (r: Option<Chunk>)
    ensures r.Some? ==> r.value.id == id
  {
    if items == [] then None
    else
      var before := FirstWith(items[..|items| - 1], id);
      if before.Some? then before
      else if items[|items| - 1].chunk.id == id then Some(items[|items| - 1].chunk) else None
  }

  /** The ids in the order they are first seen. */
  function Seen(order: seq<string>, items: seq<ScoredChunk>): seq<string> {
    if items == [] then order
    else
      var before, id := Seen(order, items[..|items| - 1]), items[|items| - 1].chunk.id;
      if id in before then before else before + [id]
  }

  function Score(lexical: seq<ScoredChunk>, dense: seq<ScoredChunk>, id: string, k: nat): real {
    Contribution(lexical, id, k) + Contribution(dense, id, k)
  }

  // ---- the dictionaries ---------------------------------------------------------------

  /** Insertion-ordered: `fused` and `contrib` get the same keys in the same order. */
  datatype Tables = Tables(order: seq<string>, fused: map<string, ScoredChunk>, contrib: map<string, real>)

  ghost predicate Keyed(t: Tables) {
    && (forall id :: id in t.fused <==> id in t.order)
    && (forall id :: id in t.contrib <==> id in t.order)
  }

  /** What one entry becomes after `items` were added to it as the lexical or the dense list. */
  function Ranked(sc: ScoredChunk, items: seq<ScoredChunk>, lexical: bool): ScoredChunk {
    var rank := RankOf(items, sc.chunk.id);
    if rank.None? then sc else if lexical then sc.(lexicalRank := rank) else sc.(denseRank := rank)
  }

  /** The entry before this list: the stored one, or a fresh one for the chunk first seen in it. */
  function Base(t: Tables, items: seq<ScoredChunk>, id: string): ScoredChunk
    requires id in t.fused || FirstWith(items, id).Some?
  {
    if id in t.fused then t.fused[id] else ScoredChunk(FirstWith(items, id).value, 0.0, None, None)
  }

  ghost predicate EntryAfter(t: Tables, items: seq<ScoredChunk>, lexical: bool, k: nat, u: Tables, id: string) {
    && (id in t.fused || FirstWith(items, id).Some?)
    && id in u.fused && id in u.contrib
    && u.fused[id] == Ranked(Base(t, items, id), items, lexical)
    && u.contrib[id] == (if id in t.contrib then t.contrib[id] else 0.0) + Contribution(items, id, k)
  }

  ghost predicate Added(t: Tables, items: seq<ScoredChunk>, lexical: bool, k: nat, u: Tables) {
    && Keyed(u) && u.order == Seen(t.order, items)
    && forall id :: id in u.order ==> EntryAfter(t, items, lexical, k, u, id)
  }

  ghost predicate IdsMatch(t: Tables) {
    forall id :: id in t.fused ==> t.fused[id].chunk.id == id
  }

  /** One more item: the tables after it, from the tables before it. */
  function AddOne(u: Tables, sc: ScoredChunk, rank: nat, lexical: bool, k: nat): Tables
    requires k + rank > 0
  {
    var id := sc.chunk.id;
    var entry := if id in u.fused then u.fused[id] else ScoredChunk(sc.chunk, 0.0, None, None);
    Tables(
      if id in u.fused then u.order else u.order + [id],
      u.fused[id := if lexical then entry.(lexicalRank := Some(rank)) else entry.(denseRank := Some(rank))],
      u.contrib[id := (if id in u.contrib then u.contrib[id] else 0.0) + 1.0 / (k + rank) as real])
  }

  lemma KnownEntryNext(t: Tables, items: seq<ScoredChunk>, lexical: bool, k: nat, u: Tables, id: string)
    requires items != [] && IdsMatch(t)
    requires EntryAfter(t, items[..|items| - 1], lexical, k, u, id)
    ensures EntryAfter(t, items, lexical, k, AddOne(u, items[|items| - 1], |items|, lexical, k), id)
  {
  }

  lemma FreshEntryNext(t: Tables, items: seq<ScoredChunk>, lexical: bool, k: nat, u: Tables)
    requires items != [] && Keyed(t) && Keyed(u) && u.order == Seen(t.order, items[..|items| - 1])
    requires items[|items| - 1].chunk.id !in u.order
    ensures EntryAfter(t, items, lexical, k, AddOne(u, items[|items| - 1], |items|, lexical, k), items[|items| - 1].chunk.id)
  {
    hide Seen;
    var init, sc := items[..|items| - 1], items[|items| - 1];
    var id, v := sc.chunk.id, AddOne(u, sc, |items|, lexical, k);
    NotSeen(t.order, init, id);
    SeenStays(t.order, init, id);
    assert FirstWith(items, id) == Some(sc.chunk) && RankOf(items, id) == Some(|items|);
    assert id !in t.fused && id !in t.contrib && id !in u.fused && id !in u.contrib;
    assert v.fused[id] == Ranked(Base(t, items, id), items, lexical);
    assert Contribution(init, id, k) == 0.0;
  }

  lemma AddedNext(t: Tables, items: seq<ScoredChunk>, lexical: bool, k: nat, u: Tables)
    requires items != [] && Keyed(t) && IdsMatch(t)
    requires Added(t, items[..|items| - 1], lexical, k, u) && IdsMatch(u)
    ensures var v := AddOne(u, items[|items| - 1], |items|, lexical, k);
      Added(t, items, lexical, k, v) && IdsMatch(v)
  {
    hide Seen, EntryAfter;
    var sc := items[|items| - 1];
    var v := AddOne(u, sc, |items|, lexical, k);
    SeenStep(t.order, items);
    forall id | id in v.order
      ensures EntryAfter(t, items, lexical, k, v, id)
    {
      if id in u.order {
        KnownEntryNext(t, items, lexical, k, u, id);
      } else {
        FreshEntryNext(t, items, lexical, k, u);
      }
    }
  }

  lemma SeenStep(order: seq<string>, items: seq<ScoredChunk>)
    requires items != []
    ensures var before, id := Seen(order, items[..|items| - 1]), items[|items| - 1].chunk.id;
      Seen(order, items) == if id in before then before else before + [id]
  {
  }

  lemma {:induction false} NotSeen(order: seq<string>, items: seq<ScoredChunk>, id: string)
    requires id !in Seen(order, items)
    ensures Contribution(items, id, 0) == 0.0 && RankOf(items, id).None? && FirstWith(items, id).None?
    ensures forall k: nat :: Contribution(items, id, k) == 0.0
  {
    if items != [] {
      NotSeen(order, items[..|items| - 1], id);
    }
  }

  lemma {:induction false} SeenStays(order: seq<string>, items: seq<ScoredChunk>, id: string)
    ensures id in order ==> id in Seen(order, items)
  {
    if items != [] {
      SeenStays(order, items[..|items| - 1], id);
    }
  }

  method Add(t: Tables, items: seq<ScoredChunk>, lexical: bool, k: nat) returns (u: Tables)
    requires Keyed(t) && IdsMatch(t)
    ensures Added(t, items, lexical, k, u) && IdsMatch(u)
  {
    hide Added, Keyed, IdsMatch, AddOne;
    u := t;
    NothingAdded(t, lexical, k);
    for i := 0 to |items|
      invariant Added(t, items[..i], lexical, k, u) && IdsMatch(u)
    {
      assert items[..i + 1][..i] == items[..i];
      AddedNext(t, items[..i + 1], lexical, k, u);
      u := AddOne(u, items[i], i + 1, lexical, k);
    }
    assert items[..|items|] == items;
  }

  lemma NothingAdded(t: Tables, lexical: bool, k: nat)
    requires Keyed(t)
    ensures Added(t, [], lexical, k, t)
  {
  }

  // ---- fusion ----------------------------------------------------------------------------

  function UnionOrder(lexical: seq<ScoredChunk>, dense: seq<ScoredChunk>): seq<string> {
    Seen(Seen([], lexical), dense)
  }

  /** The chunk an id is fused under: the lexical list's first, else the dense list's. */
  function FusedChunk(lexical: seq<ScoredChunk>, dense: seq<ScoredChunk>, id: string): Option<Chunk> {
    if FirstWith(lexical, id).Some? then FirstWith(lexical, id) else FirstWith(dense, id)
  }

  function FusedOver(lexical: seq<ScoredChunk>, dense: seq<ScoredChunk>, k: nat, order: seq<string>): seq<ScoredChunk> {
    if order == [] then []
    else
      var id := order[|order| - 1];
      FusedOver(lexical, dense, k, order[..|order| - 1]) +
      match FusedChunk(lexical, dense, id)
      case None => []
      case Some(c) => [ScoredChunk(c, Score(lexical, dense, id, k), RankOf(lexical, id), RankOf(dense, id))]
  }

  /** The union, each id once in first-seen order, with its ranks and its exact score. */
  function FusedList(lexical: seq<ScoredChunk>, dense: seq<ScoredChunk>, k: nat): seq<ScoredChunk> {
    FusedOver(lexical, dense, k, UnionOrder(lexical, dense))
  }

  function ByScore(): ScoredChunk -> real {
    (sc: ScoredChunk) => sc.score
  }

  method ReciprocalRankFusion(lexical: seq<ScoredChunk>, dense: seq<ScoredChunk>, k: nat) returns (r: seq<ScoredChunk>)
    ensures r == Sort(ByScore(), FusedList(lexical, dense, k))
  {
    hide Added, Keyed, IdsMatch, Sort, UnionOrder, FusedChunk;
    EmptyTables();
    var t := Add(Tables([], map[], map[]), lexical, true, k);
    AddedIsKeyed(Tables([], map[], map[]), lexical, true, k, t);
    var u := Add(t, dense, false, k);
    AddedIsKeyed(t, dense, false, k, u);
    BothAdded(lexical, dense, k, t, u);
    var fused: seq<ScoredChunk> := [];
    for i := 0 to |u.order|
      invariant fused == FusedOver(lexical, dense, k, u.order[..i])
    {
      assert u.order[..i + 1][..i] == u.order[..i];
      KeyedAt(u, u.order[i]);
      FusedEntry(lexical, dense, k, t, u, u.order[i]);
      fused := fused + [u.fused[u.order[i]].(score := u.contrib[u.order[i]])];
    }
    assert u.order[..|u.order|] == u.order;
    r := Sort(ByScore(), fused);
  }

  lemma EmptyTables()
    ensures Keyed(Tables([], map[], map[])) && IdsMatch(Tables([], map[], map[]))
  {
  }

  lemma AddedIsKeyed(t: Tables, items: seq<ScoredChunk>, lexical: bool, k: nat, u: Tables)
    requires Added(t, items, lexical, k, u)
    ensures Keyed(u) && u.order == Seen(t.order, items)
  {
  }

  lemma BothAdded(lexical: seq<ScoredChunk>, dense: seq<ScoredChunk>, k: nat, t: Tables, u: Tables)
    requires t.order == Seen([], lexical) && u.order == Seen(t.order, dense)
    ensures u.order == UnionOrder(lexical, dense)
  {
  }

  lemma KeyedAt(u: Tables, id: string)
    requires Keyed(u) && id in u.order
    ensures id in u.fused && id in u.contrib
  {
  }

  lemma FusedEntry(lexical: seq<ScoredChunk>, dense: seq<ScoredChunk>, k: nat, t: Tables, u: Tables, id: string)
    requires Added(Tables([], map[], map[]), lexical, true, k, t) && IdsMatch(t)
    requires Added(t, dense, false, k, u) && IdsMatch(u)
    requires id in u.order && id in u.fused && id in u.contrib
    ensures FusedChunk(lexical, dense, id) == Some(u.fused[id].chunk)
    ensures u.fused[id].(score := u.contrib[id]) ==
            ScoredChunk(u.fused[id].chunk, Score(lexical, dense, id, k), RankOf(lexical, id), RankOf(dense, id))
  {
    assert EntryAfter(t, dense, false, k, u, id);
    if id in t.order {
      assert EntryAfter(Tables([], map[], map[]), lexical, true, k, t, id);
    } else {
      NotSeen([], lexical, id);
    }
  }
}
