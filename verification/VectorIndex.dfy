/**
 The vector index behind the allowlist (src/rag_engine/retrieval/id_map.py and
 turbovec_index.py). The library index is a list of keyed vectors in insertion order; its
 search returns the k most similar of the allowed keys, ties in insertion order.
 */
module VectorIndex {
  import opened Schemas
  import opened StableSort

  type Vector = seq<real>
  type Similarity = (Vector, Vector) -> real

  const U64_MAX: nat := 0x1_0000_0000_0000_0000

  // ---- the id bijection -----------------------------------------------------------------

  /** Forward and reverse maps are inverse, and every key is below the next one. */
  ghost predicate Bijection(fwd: map<string, nat>, rev: map<nat, string>, next: nat) {
    && next >= 1
    && (forall c :: c in fwd ==> 1 <= fwd[c] < next && fwd[c] in rev && rev[fwd[c]] == c)
    && (forall u :: u in rev ==> rev[u] in fwd && fwd[rev[u]] == u)
  }

  /** Every key of the one stands for the same id in the other. */
  ghost predicate Extends(a: map<nat, string>, b: map<nat, string>) {
    forall u :: u in a ==> u in b && b[u] == a[u]
  }

  ghost predicate KeyedAs(keys: seq<nat>, rev: map<nat, string>, chunkIds: seq<string>) {
    |keys| == |chunkIds| && forall j :: 0 <= j < |keys| ==> keys[j] in rev && rev[keys[j]] == chunkIds[j]
  }

  lemma KeyedNext(keys: seq<nat>, before: map<nat, string>, after: map<nat, string>, chunkIds: seq<string>, i: nat, u: nat)
    requires i < |chunkIds| && KeyedAs(keys, before, chunkIds[..i]) && Extends(before, after)
    requires u in after && after[u] == chunkIds[i]
    ensures KeyedAs(keys + [u], after, chunkIds[..i + 1])
  {
  }

  /** The ids of a batch that have no key yet. */
  function NewIds(chunkIds: seq<string>, known: set<string>): set<string> {
    Elements(chunkIds) - known
  }

  /** One more id of the batch: with what was known and what is new so far, and against the whole batch. */
  lemma NextNewId(chunkIds: seq<string>, i: nat, known: set<string>)
    requires i < |chunkIds|
    ensures var before, after := NewIds(chunkIds[..i], known), NewIds(chunkIds[..i + 1], known);
      && known + after == known + before + {chunkIds[i]}
      && |after| == |before| + (if chunkIds[i] in known + before then 0 else 1)
      && |after| <= |NewIds(chunkIds, known)|
  {
    var before, after, x := chunkIds[..i], chunkIds[..i + 1], chunkIds[i];
    forall y
      ensures y in after <==> y in before || y == x
      ensures y in after ==> y in chunkIds
    {
      assert after == before + [x];
    }
    SubsetSize(NewIds(after, known), NewIds(chunkIds, known));
    if x in known + NewIds(before, known) {
      assert NewIds(after, known) == NewIds(before, known);
    } else {
      assert NewIds(after, known) == NewIds(before, known) + {x};
    }
  }

  lemma ExtendsTwice(a: map<nat, string>, b: map<nat, string>, c: map<nat, string>)
    requires Extends(a, b) && Extends(b, c)
    ensures Extends(a, c)
  {
  }

  lemma NothingKeyed(rev: map<nat, string>, chunkIds: seq<string>)
    ensures KeyedAs([], rev, chunkIds[..0]) && Extends(rev, rev)
  {
  }

  lemma NewIdsWithin(chunkIds: seq<string>, i: nat, known: set<string>)
    requires i <= |chunkIds|
    ensures known <= known + NewIds(chunkIds[..i], known) <= known + Elements(chunkIds)
    ensures i == |chunkIds| ==> known + NewIds(chunkIds[..i], known) == known + Elements(chunkIds)
  {
    assert forall y :: y in chunkIds[..i] ==> y in chunkIds;
    assert chunkIds[..|chunkIds|] == chunkIds;
  }

  lemma NoNewIds(chunkIds: seq<string>, known: set<string>)
    ensures NewIds(chunkIds[..0], known) == {}
  {
    assert chunkIds[..0] == [];
  }

  class IdMap {
    var fwd: map<string, nat>
    var rev: map<nat, string>
    var next: nat

    ghost predicate Valid()
      reads this
    {
      Bijection(fwd, rev, next)
    }

    constructor ()
      ensures Valid() && fwd == map[]
    {
      fwd, rev, next := map[], map[], 1;
    }

    /** A known id keeps its key; a new one gets a fresh key, unless the key space is used up. */
    method ToU64(chunkId: string) returns (u: Option<nat>)
      requires Valid()
      modifies this
      ensures Valid()
      ensures u.None? <==> chunkId !in old(fwd) && old(next) >= U64_MAX
      ensures u.None? ==> fwd == old(fwd) && rev == old(rev)
      ensures u.Some? ==> fwd == old(fwd)[chunkId := u.value]
      ensures Extends(old(rev), rev) && (u.Some? ==> u.value in rev && rev[u.value] == chunkId)
      ensures next == old(next) + if u.Some? && chunkId !in old(fwd) then 1 else 0
      ensures u.Some? && chunkId in old(fwd) ==> rev == old(rev) && u.value == old(fwd)[chunkId]
      ensures u.Some? && chunkId !in old(fwd) ==> u.value !in old(rev) && rev == old(rev)[u.value := chunkId]
    {
      if chunkId in fwd {
        assert fwd == fwd[chunkId := fwd[chunkId]];
        return Some(fwd[chunkId]);
      }
      if next >= U64_MAX {
        return None;
      }
      u := Some(next);
      fwd, rev, next := fwd[chunkId := next], rev[next := chunkId], next + 1;
    }

    /**
     Keys for a whole batch, one id after another. It gives up at the first new id that finds
     no key left; what was assigned before stays.
     */
    method KeysFor(chunkIds: seq<string>) returns (u64: Option<seq<nat>>)
      requires Valid()
      modifies this
      ensures Valid()
      ensures var n := |NewIds(chunkIds, old(fwd).Keys)|; u64.Some? <==> n == 0 || old(next) + n <= U64_MAX
      ensures Extends(old(rev), rev) && (u64.Some? ==> KeyedAs(u64.value, rev, chunkIds))
      ensures old(fwd).Keys <= fwd.Keys <= old(fwd).Keys + Elements(chunkIds)
      ensures u64.Some? ==> fwd.Keys == old(fwd).Keys + Elements(chunkIds)
    {
      hide NewIds, Bijection, Extends, KeyedAs;
      ghost var known := fwd.Keys;
      NoNewIds(chunkIds, known);
      NothingKeyed(rev, chunkIds);
      var keys: seq<nat> := [];
      for i := 0 to |chunkIds|
        invariant Valid() && (|NewIds(chunkIds[..i], known)| == 0 || next <= U64_MAX)
        invariant KeyedAs(keys, rev, chunkIds[..i]) && Extends(old(rev), rev)
        invariant fwd.Keys == known + NewIds(chunkIds[..i], known)
        invariant next == old(next) + |NewIds(chunkIds[..i], known)|
      {
        ghost var before := rev;
        NextNewId(chunkIds, i, known);
        var u := ToU64(chunkIds[i]);
        ExtendsTwice(old(rev), before, rev);
        if u.None? {
          NewIdsWithin(chunkIds, i, known);
          return None;
        }
        KeyedNext(keys, before, rev, chunkIds, i, u.value);
        keys := keys + [u.value];
      }
      assert chunkIds[..|chunkIds|] == chunkIds;
      NewIdsWithin(chunkIds, |chunkIds|, known);
      u64 := Some(keys);
    }

    /** Restoring from the saved forward map and counter gives back the same map. */
    constructor FromDict(saved: map<string, nat>, counter: nat, ghost reverse: map<nat, string>)
      requires Bijection(saved, reverse, counter)
      ensures Valid() && fwd == saved && rev == reverse && next == counter
    {
      fwd, next := saved, counter;
      rev := map c | c in saved :: saved[c] := c;
      new;
      forall u | u in rev
        ensures u in reverse && rev[u] == reverse[u]
      {
      }
      forall u | u in reverse
        ensures u in rev
      {
        assert saved[reverse[u]] == u;
      }
      assert rev == reverse;
    }
  }

  // ---- search ---------------------------------------------------------------------------------

  datatype Keyed = Keyed(u: nat, vector: Vector)

  /** A chunk id and its vector: what the index holds, seen through the id map. */
  datatype Held = Held(chunkId: string, vector: Vector)

  datatype VectorHit = VectorHit(chunkId: string, score: real)

  /** The held vectors of the allowed ids, in insertion order. */
  function Allowed(held: seq<Held>, allow: set<string>): seq<Held> {
    if held == [] then []
    else
      var h := held[|held| - 1];
      Allowed(held[..|held| - 1], allow) + if h.chunkId in allow then [h] else []
  }

  function Hits(sim: Similarity, query: Vector, held: seq<Held>): seq<VectorHit> {
    seq(|held|, i requires 0 <= i < |held| => VectorHit(held[i].chunkId, sim(query, held[i].vector)))
  }

  function HitScore(): VectorHit -> real {
    (h: VectorHit) => h.score
  }

  /** The k best hits. */
  function Best(sim: Similarity, held: seq<Held>, query: Vector, k: nat): seq<VectorHit> {
    Take(Sort(HitScore(), Hits(sim, query, held)), k)
  }

  /** The k best hits among the allowed ids. */
  function BestAllowed(sim: Similarity, held: seq<Held>, query: Vector, k: nat, allow: set<string>): seq<VectorHit> {
    Best(sim, Allowed(held, allow), query, k)
  }

  datatype LibHit = LibHit(u: nat, score: real)

  function LibScore(): LibHit -> real {
    (h: LibHit) => h.score
  }

  function AllowedKeys(entries: seq<Keyed>, allow: set<nat>): seq<Keyed> {
    if entries == [] then []
    else
      var e := entries[|entries| - 1];
      AllowedKeys(entries[..|entries| - 1], allow) + if e.u in allow then [e] else []
  }

  function LibHits(sim: Similarity, query: Vector, entries: seq<Keyed>): seq<LibHit> {
    seq(|entries|, i requires 0 <= i < |entries| => LibHit(entries[i].u, sim(query, entries[i].vector)))
  }

  /** The library's search, and its filtered form. */
  function LibSearch(sim: Similarity, entries: seq<Keyed>, query: Vector, k: nat): seq<LibHit> {
    Take(Sort(LibScore(), LibHits(sim, query, entries)), k)
  }

  function LibSearchAllowed(sim: Similarity, entries: seq<Keyed>, query: Vector, k: nat, allow: set<nat>): seq<LibHit> {
    LibSearch(sim, AllowedKeys(entries, allow), query, k)
  }

  /** Keyed entries seen through the reverse map. */
  function Through(entries: seq<Keyed>, rev: map<nat, string>): seq<Held>
    requires forall i :: 0 <= i < |entries| ==> entries[i].u in rev
  {
    seq(|entries|, i requires 0 <= i < |entries| => Held(rev[entries[i].u], entries[i].vector))
  }

  function HitsThrough(hits: seq<LibHit>, rev: map<nat, string>): seq<VectorHit>
    requires forall i :: 0 <= i < |hits| ==> hits[i].u in rev
  {
    seq(|hits|, i requires 0 <= i < |hits| => VectorHit(rev[hits[i].u], hits[i].score))
  }

  lemma {:induction false} AllowedThrough(entries: seq<Keyed>, fwd: map<string, nat>, rev: map<nat, string>, next: nat, allow: set<string>)
    requires Bijection(fwd, rev, next)
    requires forall i :: 0 <= i < |entries| ==> entries[i].u in rev
    ensures var keys := set c | c in allow && c in fwd :: fwd[c];
      && (forall i :: 0 <= i < |AllowedKeys(entries, keys)| ==> AllowedKeys(entries, keys)[i].u in rev)
      && Through(AllowedKeys(entries, keys), rev) == Allowed(Through(entries, rev), allow)
  {
    if entries != [] {
      var n := |entries| - 1;
      var keys := set c | c in allow && c in fwd :: fwd[c];
      AllowedThrough(entries[..n], fwd, rev, next, allow);
      assert Through(entries, rev)[..n] == Through(entries[..n], rev);
      var e := entries[n];
      assert e.u in keys <==> rev[e.u] in allow by {
        if e.u in keys {
          var c :| c in allow && c in fwd && fwd[c] == e.u;
        }
      }
    }
  }

  lemma {:induction false} InsertThrough(hits: seq<LibHit>, h: LibHit, rev: map<nat, string>)
    requires h.u in rev && forall i :: 0 <= i < |hits| ==> hits[i].u in rev
    ensures forall i :: 0 <= i < |Insert(LibScore(), hits, h)| ==> Insert(LibScore(), hits, h)[i].u in rev
    ensures HitsThrough(Insert(LibScore(), hits, h), rev) ==
            Insert(HitScore(), HitsThrough(hits, rev), VectorHit(rev[h.u], h.score))
  {
    if hits != [] && hits[|hits| - 1].score < h.score {
      var n := |hits| - 1;
      InsertThrough(hits[..n], h, rev);
      assert HitsThrough(hits, rev)[..n] == HitsThrough(hits[..n], rev);
    }
  }

  lemma {:induction false} SortThrough(hits: seq<LibHit>, rev: map<nat, string>)
    requires forall i :: 0 <= i < |hits| ==> hits[i].u in rev
    ensures forall i :: 0 <= i < |Sort(LibScore(), hits)| ==> Sort(LibScore(), hits)[i].u in rev
    ensures HitsThrough(Sort(LibScore(), hits), rev) == Sort(HitScore(), HitsThrough(hits, rev))
  {
    if hits != [] {
      var n := |hits| - 1;
      SortThrough(hits[..n], rev);
      InsertThrough(Sort(LibScore(), hits[..n]), hits[n], rev);
      assert HitsThrough(hits, rev)[..n] == HitsThrough(hits[..n], rev);
    }
  }

  /** The library's answer, translated back, is the best of the held chunks: keys do not matter. */
  lemma LibSearchThrough(sim: Similarity, entries: seq<Keyed>, query: Vector, k: nat, rev: map<nat, string>)
    requires forall i :: 0 <= i < |entries| ==> entries[i].u in rev
    ensures var hits := LibSearch(sim, entries, query, k);
      && (forall i :: 0 <= i < |hits| ==> hits[i].u in rev)
      && HitsThrough(hits, rev) == Best(sim, Through(entries, rev), query, k)
  {
    hide Sort;
    SortThrough(LibHits(sim, query, entries), rev);
    assert HitsThrough(LibHits(sim, query, entries), rev) == Hits(sim, query, Through(entries, rev));
  }

  /** ... and so is the filtered answer among the allowed ones. */
  lemma SearchThrough(sim: Similarity, entries: seq<Keyed>, query: Vector, k: nat, allow: set<string>,
                      fwd: map<string, nat>, rev: map<nat, string>, next: nat)
    requires Bijection(fwd, rev, next)
    requires forall i :: 0 <= i < |entries| ==> entries[i].u in rev
    ensures var keys := set c | c in allow && c in fwd :: fwd[c];
      var hits := LibSearchAllowed(sim, entries, query, k, keys);
      && (forall i :: 0 <= i < |hits| ==> hits[i].u in rev)
      && HitsThrough(hits, rev) == BestAllowed(sim, Through(entries, rev), query, k, allow)
  {
    hide LibSearch, Best, AllowedKeys, Allowed, Bijection;
    var keys := set c | c in allow && c in fwd :: fwd[c];
    AllowedThrough(entries, fwd, rev, next, allow);
    LibSearchThrough(sim, AllowedKeys(entries, keys), query, k, rev);
  }

  /** The vectors of a batch under their ids. */
  function Batch(chunkIds: seq<string>, vectors: seq<Vector>): seq<Held>
    requires |chunkIds| == |vectors|
  {
    seq(|chunkIds|, i requires 0 <= i < |chunkIds| => Held(chunkIds[i], vectors[i]))
  }

  class TurboVecIndex {
    const sim: Similarity
    const idMap: IdMap
    var entries: seq<Keyed>
    var prepared: bool

    ghost predicate Valid()
      reads this, idMap
    {
      && idMap.Valid()
      && (forall i :: 0 <= i < |entries| ==> entries[i].u in idMap.rev)
    }

    /** What the index holds, by chunk id. */
    function Contents(): seq<Held>
      requires Valid()
      reads this, idMap
    {
      Through(entries, idMap.rev)
    }

    constructor (sim: Similarity)
      ensures Valid() && fresh(idMap) && this.sim == sim && Contents() == []
    {
      this.sim := sim;
      idMap := new IdMap();
      entries, prepared := [], false;
    }

    /**
     Adds a batch: every id gets its key first, then all vectors go in at once. A mismatch of
     lengths is refused, and so is a batch with more new ids than there are keys left, which
     may already have used some of them up. An id held before is held once more.
     */
    method Add(chunkIds: seq<string>, vectors: seq<Vector>) returns (ok: bool)
      requires Valid()
      modifies this, idMap
      ensures Valid()
      ensures var n := |NewIds(chunkIds, old(idMap.fwd).Keys)|;
        ok <==> |chunkIds| == |vectors| && (n == 0 || old(idMap.next) + n <= U64_MAX)
      ensures Contents() == if ok then old(Contents()) + Batch(chunkIds, vectors) else old(Contents())
      ensures |chunkIds| != |vectors| ==> idMap.fwd == old(idMap.fwd)
      ensures old(idMap.fwd).Keys <= idMap.fwd.Keys <= old(idMap.fwd).Keys + Elements(chunkIds)
      ensures ok ==> idMap.fwd.Keys == old(idMap.fwd).Keys + Elements(chunkIds)
    {
      hide NewIds, Bijection;
      if |chunkIds| != |vectors| {
        return false;
      }
      ghost var before := Contents();
      var u64 := idMap.KeysFor(chunkIds);
      assert Contents() == before;
      if u64.None? {
        return false;
      }
      var added := seq(|vectors|, i requires 0 <= i < |vectors| => Keyed(u64.value[i], vectors[i]));
      assert Through(added, idMap.rev) == Batch(chunkIds, vectors);
      entries := entries + added;
      prepared := false;
      ok := true;
    }

    /** Without an allowlist everything held is searched; with one, only allowed ids, and none of them gives no hits. */
    method Search(query: Vector, k: nat, allow: Option<seq<string>>) returns (hits: seq<VectorHit>)
      requires Valid()
      modifies this
      ensures Valid() && Contents() == old(Contents())
      ensures var limit := if k <= |idMap.fwd| then k else |idMap.fwd|;
        hits == if allow.None? then Best(sim, Contents(), query, limit)
                else BestAllowed(sim, Contents(), query, limit, Elements(allow.value))
    {
      hide LibSearch, Best, AllowedKeys, Allowed;
      prepared := true;
      var limit := if k <= |idMap.fwd| then k else |idMap.fwd|;
      var found: seq<LibHit>;
      if allow.Some? {
        var keys := set c | c in allow.value && c in idMap.fwd :: idMap.fwd[c];
        assert keys == set c | c in Elements(allow.value) && c in idMap.fwd :: idMap.fwd[c];
        SearchThrough(sim, entries, query, limit, Elements(allow.value), idMap.fwd, idMap.rev, idMap.next);
        found := LibSearchAllowed(sim, entries, query, limit, keys);
        if keys == {} {
          NoKeys(sim, entries, query, limit);
          return [];
        }
      } else {
        LibSearchThrough(sim, entries, query, limit, idMap.rev);
        found := LibSearch(sim, entries, query, limit);
      }
      hits := [];
      for i := 0 to |found|
        invariant hits == HitsThrough(found[..i], idMap.rev)
        invariant entries == old(entries)
      {
        hits := hits + [VectorHit(idMap.rev[found[i].u], found[i].score)];
      }
      assert found[..|found|] == found;
    }
  }

  lemma NoKeys(sim: Similarity, entries: seq<Keyed>, query: Vector, k: nat)
    ensures LibSearchAllowed(sim, entries, query, k, {}) == []
  {
    NoneAllowed(entries);
    assert LibHits(sim, query, []) == [];
  }

  lemma {:induction false} NoneAllowed(entries: seq<Keyed>)
    ensures AllowedKeys(entries, {}) == []
  {
    if entries != [] {
      NoneAllowed(entries[..|entries| - 1]);
    }
  }
}
