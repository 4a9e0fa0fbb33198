/**
 The session-aware vector path (src/rag_engine/retrieval/turbovec_retriever.py): allowlist,
 search, hydrate, rerank. What is denied to a session is dropped before the search, so it
 cannot move the result.
 */
module VectorPath {
  import opened Schemas
  import opened Access
  import opened Allowlist
  import opened StableSort
  import opened Fusion
  import opened Reranker
  import opened VectorIndex
  import opened SecurityFilter

  // ---- hydration ----------------------------------------------------------------------------

  /** Hits turned into scored chunks through the source; an id the source no longer has is skipped. */
  function Hydrated(rows: seq<Chunk>, hits: seq<VectorHit>): seq<ScoredChunk> {
    if hits == [] then []
    else
      var h := hits[|hits| - 1];
      Hydrated(rows, hits[..|hits| - 1]) +
      match RowFor(rows, h.chunkId)
      case None => []
      case Some(c) => [ScoredChunk(c, h.score, None, None)]
  }

  datatype Settings = Settings(sim: Similarity, embed: string -> Vector, lex: Lexicon, coarseK: nat, finalTopK: nat)

  /** The index caps k at the number of ids it has keys for, allowed or not. */
  function Coarse(cfg: Settings, held: seq<Held>, mapped: nat, query: string, allow: set<string>): seq<VectorHit> {
    BestAllowed(cfg.sim, held, cfg.embed(query), if cfg.coarseK <= mapped then cfg.coarseK else mapped, allow)
  }

  /** The path as a function: of the rows the source holds, the vectors and ids the index holds, and the session. */
  function Retrieved(cfg: Settings, rows: seq<Chunk>, held: seq<Held>, mapped: set<string>, query: string, session: Session): seq<ScoredChunk> {
    var coarse := Coarse(cfg, held, |mapped|, query, Elements(AllowedIds(rows, session)));
    Reranked(cfg.lex, query, Hydrated(rows, coarse), cfg.finalTopK)
  }

  lemma {:induction false} NoneAllowedHeld(held: seq<Held>)
    ensures Allowed(held, {}) == []
  {
    if held != [] {
      NoneAllowedHeld(held[..|held| - 1]);
    }
  }

  lemma NothingAllowed(cfg: Settings, rows: seq<Chunk>, held: seq<Held>, mapped: set<string>, query: string, session: Session)
    requires AllowedIds(rows, session) == []
    ensures Retrieved(cfg, rows, held, mapped, query, session) == []
  {
    hide AllowedIds;
    NoneAllowedHeld(held);
    assert Elements(AllowedIds(rows, session)) == {};
    assert Hits(cfg.sim, cfg.embed(query), []) == [];
    assert Rescored(cfg.lex, query, []) == [];
  }

  // ---- the cap, and when it shows what is denied ---------------------------------------------

  lemma {:induction false} SortLength<T(!new)>(key: T -> real, s: seq<T>)
    ensures |Sort(key, s)| == |s|
  {
    SortPermutes(key, s);
    assert |multiset(Sort(key, s))| == |multiset(s)|;
  }

  lemma CoarseLength(cfg: Settings, held: seq<Held>, mapped: nat, query: string, allow: set<string>)
    ensures var k, n := if cfg.coarseK <= mapped then cfg.coarseK else mapped, |Allowed(held, allow)|;
      |Coarse(cfg, held, mapped, query, allow)| == if n <= k then n else k
  {
    hide Sort, Allowed;
    SortLength(HitScore(), Hits(cfg.sim, cfg.embed(query), Allowed(held, allow)));
  }

  /** A cap at or above the allowed vectors, or above k, is no cap. */
  lemma CapIsHarmless(cfg: Settings, held: seq<Held>, m: nat, n: nat, query: string, allow: set<string>)
    requires m <= n && (cfg.coarseK <= m || |Allowed(held, allow)| <= m)
    ensures Coarse(cfg, held, m, query, allow) == Coarse(cfg, held, n, query, allow)
  {
    hide Sort, Allowed;
    SortLength(HitScore(), Hits(cfg.sim, cfg.embed(query), Allowed(held, allow)));
  }

  /** With m allowed ids mapped, the coarse list is the same however many denied ids are mapped besides. */
  ghost predicate DeniedIdsDoNotShow(cfg: Settings, held: seq<Held>, m: nat, query: string, allow: set<string>) {
    forall n: nat :: m <= n ==> Coarse(cfg, held, n, query, allow) == Coarse(cfg, held, m, query, allow)
  }

  /** The number of denied ids shows exactly when an allowed id is held so often that the allowed vectors, and k, exceed the allowed ids. */
  lemma CapShowsExactly(cfg: Settings, held: seq<Held>, m: nat, query: string, allow: set<string>)
    ensures DeniedIdsDoNotShow(cfg, held, m, query, allow) <==> cfg.coarseK <= m || |Allowed(held, allow)| <= m
  {
    hide Coarse, Allowed;
    if cfg.coarseK <= m || |Allowed(held, allow)| <= m {
      forall n: nat | m <= n
        ensures Coarse(cfg, held, n, query, allow) == Coarse(cfg, held, m, query, allow)
      {
        CapIsHarmless(cfg, held, m, n, query, allow);
      }
    } else {
      CoarseLength(cfg, held, m, query, allow);
      CoarseLength(cfg, held, m + 1, query, allow);
      assert Coarse(cfg, held, m + 1, query, allow) != Coarse(cfg, held, m, query, allow);
    }
  }

  /** One allowed id held twice: adding a chunk the session may not see gives it a second hit. */
  lemma RepeatedIdShows(cfg: Settings, u: Vector, v: Vector, w: Vector, query: string)
    requires cfg.coarseK >= 2
    ensures var twice := [Held("a", u), Held("a", v)];
      && |Coarse(cfg, twice, |{"a"}|, query, {"a"})| == 1
      && |Coarse(cfg, twice + [Held("b", w)], |{"a", "b"}|, query, {"a"})| == 2
  {
    hide Coarse;
    var twice := [Held("a", u), Held("a", v)];
    var more := twice + [Held("b", w)];
    assert twice[..1] == [Held("a", u)] && twice[..1][..0] == [];
    assert Allowed(twice[..1], {"a"}) == [Held("a", u)];
    assert |Allowed(twice, {"a"})| == 2;
    assert more[..2] == twice;
    assert Allowed(more, {"a"}) == Allowed(twice, {"a"}) + [];
    CoarseLength(cfg, twice, |{"a"}|, query, {"a"});
    CoarseLength(cfg, more, |{"a", "b"}|, query, {"a"});
  }

  ghost predicate DistinctHeld(held: seq<Held>) {
    forall i, j :: 0 <= i < j < |held| ==> held[i].chunkId != held[j].chunkId
  }

  function HeldIds(held: seq<Held>): set<string> {
    set i | 0 <= i < |held| :: held[i].chunkId
  }

  lemma LastHeldApart(held: seq<Held>)
    requires DistinctHeld(held) && held != []
    ensures DistinctHeld(held[..|held| - 1]) && held[|held| - 1].chunkId !in HeldIds(held[..|held| - 1])
  {
  }

  lemma NoneHeld()
    ensures HeldIds([]) == {} && DistinctHeld([])
  {
  }

  lemma {:induction false} AllowedIdsHeld(held: seq<Held>, allow: set<string>)
    ensures HeldIds(Allowed(held, allow)) == HeldIds(held) * allow
  {
    hide HeldIds;
    NoneHeld();
    if held != [] {
      var init, h := held[..|held| - 1], held[|held| - 1];
      assert held == init + [h];
      AllowedIdsHeld(init, allow);
      HeldIdsAppend(init, h);
      HeldIdsAppend(Allowed(init, allow), h);
      assert Allowed(init, allow) + [] == Allowed(init, allow);
    }
  }

  lemma {:induction false} AllowedCount(held: seq<Held>, allow: set<string>)
    requires DistinctHeld(held)
    ensures |HeldIds(Allowed(held, allow))| == |Allowed(held, allow)|
  {
    hide HeldIds, DistinctHeld;
    NoneHeld();
    if held != [] {
      var init, h := held[..|held| - 1], held[|held| - 1];
      LastHeldApart(held);
      AllowedCount(init, allow);
      AllowedIdsHeld(init, allow);
      HeldIdsAppend(Allowed(init, allow), h);
      assert Allowed(init, allow) + [] == Allowed(init, allow);
    }
  }

  /** What an index holds is mapped. */
  lemma HeldIsMapped(entries: seq<Keyed>, fwd: map<string, nat>, rev: map<nat, string>, next: nat)
    requires Bijection(fwd, rev, next) && forall i :: 0 <= i < |entries| ==> entries[i].u in rev
    ensures HeldIds(Through(entries, rev)) <= fwd.Keys
  {
  }

  lemma HeldIdsAppend(held: seq<Held>, h: Held)
    ensures HeldIds(held + [h]) == HeldIds(held) + {h.chunkId}
  {
    var more := held + [h];
    assert more[|held|] == h && forall i :: 0 <= i < |held| ==> more[i] == held[i];
    forall id | id in HeldIds(held)
      ensures id in HeldIds(more)
    {
      var i :| 0 <= i < |held| && held[i].chunkId == id;
      assert more[i].chunkId == id;
    }
  }

  /** An index that holds no id twice has no more allowed vectors than allowed ids, so denied ids never show. */
  lemma DistinctHeldFits(held: seq<Held>, mapped: set<string>, allow: set<string>)
    requires DistinctHeld(held) && HeldIds(held) <= mapped
    ensures |Allowed(held, allow)| <= |mapped * allow|
  {
    hide Allowed, DistinctHeld;
    AllowedIdsHeld(held, allow);
    AllowedCount(held, allow);
    SubsetSize(HeldIds(Allowed(held, allow)), mapped * allow);
  }

  class TurboVecRetriever {
    const cfg: Settings
    const index: TurboVecIndex
    var source: seq<Chunk>

    ghost predicate Valid()
      reads this, index, index.idMap
    {
      index.Valid() && index.sim == cfg.sim
    }

    constructor (cfg: Settings, index: TurboVecIndex, source: seq<Chunk>)
      requires index.Valid() && index.sim == cfg.sim
      ensures Valid() && this.cfg == cfg && this.index == index && this.source == source
    {
      this.cfg, this.index, this.source := cfg, index, source;
    }

    method RetrieveForSession(query: string, session: Session) returns (r: seq<ScoredChunk>)
      requires Valid()
      modifies index
      ensures Valid() && index.Contents() == old(index.Contents())
      ensures index.idMap.fwd == old(index.idMap.fwd)
      ensures r == Retrieved(cfg, source, index.Contents(), index.idMap.fwd.Keys, query, session)
    {
      hide AllowedIds, BestAllowed, Reranked;
      var allow := Allowlist.AuthorizedIds(session, source);
      if allow == [] {
        NothingAllowed(cfg, source, index.Contents(), index.idMap.fwd.Keys, query, session);
        return [];
      }
      var coarse := index.Search(cfg.embed(query), cfg.coarseK, Some(allow));
      var candidates: seq<ScoredChunk> := [];
      for i := 0 to |coarse|
        invariant candidates == Hydrated(source, coarse[..i])
      {
        assert coarse[..i + 1][..i] == coarse[..i];
        var row := RowFor(source, coarse[i].chunkId);
        if row.Some? {
          candidates := candidates + [ScoredChunk(row.value, coarse[i].score, None, None)];
        }
      }
      assert coarse[..|coarse|] == coarse;
      r := Rerank(cfg.lex, query, candidates, cfg.finalTopK);
    }
  }

  // ---- drop before search -------------------------------------------------------------------------

  /** The rows a session may retrieve, in order. */
  function Visible(rows: seq<Chunk>, session: Session): seq<Chunk> {
    if rows == [] then []
    else
      var c := rows[|rows| - 1];
      Visible(rows[..|rows| - 1], session) + if Retrievable(c, session) then [c] else []
  }

  lemma {:induction false} AllowedIdsOfVisible(rows: seq<Chunk>, session: Session)
    ensures AllowedIds(rows, session) == Ids(Visible(rows, session))
  {
    hide Evaluate;
    if rows != [] {
      AllowedIdsOfVisible(rows[..|rows| - 1], session);
    }
  }

  lemma {:induction false} VisibleRows(rows: seq<Chunk>, session: Session, id: string)
    requires DistinctIds(rows)
    ensures id in Ids(Visible(rows, session)) ==>
      RowFor(rows, id) == RowFor(Visible(rows, session), id) && RowFor(rows, id).Some? && Retrievable(RowFor(rows, id).value, session)
    ensures id in Ids(Visible(rows, session)) ==> exists i :: 0 <= i < |rows| && rows[i].id == id
  {
    hide Evaluate;
    if rows != [] {
      var n := |rows| - 1;
      var c, init := rows[n], Visible(rows[..n], session);
      VisibleRows(rows[..n], session, id);
      assert (init + [c])[..|init|] == init && init + [] == init;
      assert Ids(init + [c]) == Ids(init) + [c.id];
      assert forall i :: 0 <= i < n ==> rows[..n][i] == rows[i];
    }
  }

  lemma {:induction false} HydratedFromVisible(a: seq<Chunk>, b: seq<Chunk>, session: Session, hits: seq<VectorHit>)
    requires DistinctIds(a) && DistinctIds(b) && Visible(a, session) == Visible(b, session)
    requires forall i :: 0 <= i < |hits| ==> hits[i].chunkId in Ids(Visible(a, session))
    ensures Hydrated(a, hits) == Hydrated(b, hits)
    ensures forall i :: 0 <= i < |Hydrated(a, hits)| ==> Retrievable(Hydrated(a, hits)[i].chunk, session)
  {
    hide Evaluate, Visible, DistinctIds, RowFor;
    if hits != [] {
      var id := hits[|hits| - 1].chunkId;
      HydratedFromVisible(a, b, session, hits[..|hits| - 1]);
      VisibleRows(a, session, id);
      VisibleRows(b, session, id);
    }
  }

  lemma {:induction false} AllowedAreAllowed(held: seq<Held>, allow: set<string>)
    ensures forall i :: 0 <= i < |Allowed(held, allow)| ==> Allowed(held, allow)[i].chunkId in allow
  {
    if held != [] {
      AllowedAreAllowed(held[..|held| - 1], allow);
    }
  }

  lemma BestAreAllowed(cfg: Settings, held: seq<Held>, query: Vector, k: nat, allow: set<string>)
    ensures var hits := BestAllowed(cfg.sim, held, query, k, allow);
      forall i :: 0 <= i < |hits| ==> hits[i].chunkId in allow
  {
    hide Sort, Allowed;
    var all := Hits(cfg.sim, query, Allowed(held, allow));
    AllowedAreAllowed(held, allow);
    SortPermutes(HitScore(), all);
    var hits := BestAllowed(cfg.sim, held, query, k, allow);
    forall i | 0 <= i < |hits|
      ensures hits[i].chunkId in allow
    {
      assert hits[i] == Sort(HitScore(), all)[i];
      assert hits[i] in multiset(Sort(HitScore(), all));
      assert hits[i] in all;
    }
  }

  /**
   Two systems that agree on the rows the session may retrieve, on those rows' vectors and on
   which of them have keys give it the same result, however they differ in what is denied to
   it, as long as the cap does not show it.
   */
  lemma VectorPathNoninterference(cfg: Settings, a: seq<Chunk>, b: seq<Chunk>, heldA: seq<Held>, heldB: seq<Held>,
                                  mappedA: set<string>, mappedB: set<string>, query: string, session: Session)
    requires DistinctIds(a) && DistinctIds(b) && Visible(a, session) == Visible(b, session)
    requires var allow := Elements(Ids(Visible(a, session)));
      && Allowed(heldA, allow) == Allowed(heldB, allow) && mappedA * allow == mappedB * allow
      && (cfg.coarseK <= |mappedA * allow| || |Allowed(heldA, allow)| <= |mappedA * allow|)
    ensures Retrieved(cfg, a, heldA, mappedA, query, session) == Retrieved(cfg, b, heldB, mappedB, query, session)
  {
    hide Visible, DistinctIds, Allowed, Reranked, Hydrated, AllowedIds, Sort;
    AllowedIdsOfVisible(a, session);
    AllowedIdsOfVisible(b, session);
    var allow := Elements(Ids(Visible(a, session)));
    var m := |mappedA * allow|;
    SubsetSize(mappedA * allow, mappedA);
    SubsetSize(mappedB * allow, mappedB);
    CapIsHarmless(cfg, heldA, m, |mappedA|, query, allow);
    CapIsHarmless(cfg, heldB, m, |mappedB|, query, allow);
    assert Coarse(cfg, heldA, m, query, allow) == Coarse(cfg, heldB, m, query, allow);
    var coarse := Coarse(cfg, heldA, |mappedA|, query, allow);
    BestAreAllowed(cfg, heldA, cfg.embed(query), if cfg.coarseK <= |mappedA| then cfg.coarseK else |mappedA|, allow);
    HydratedFromVisible(a, b, session, coarse);
  }

  /** ... which it never does when neither index holds an id twice. */
  lemma DropBeforeSearch(cfg: Settings, a: seq<Chunk>, b: seq<Chunk>, heldA: seq<Held>, heldB: seq<Held>,
                         mappedA: set<string>, mappedB: set<string>, query: string, session: Session)
    requires DistinctIds(a) && DistinctIds(b) && Visible(a, session) == Visible(b, session)
    requires var allow := Elements(Ids(Visible(a, session)));
      Allowed(heldA, allow) == Allowed(heldB, allow) && mappedA * allow == mappedB * allow
    requires DistinctHeld(heldA) && HeldIds(heldA) <= mappedA
    ensures Retrieved(cfg, a, heldA, mappedA, query, session) == Retrieved(cfg, b, heldB, mappedB, query, session)
  {
    hide Visible, DistinctIds, Allowed, Retrieved, DistinctHeld;
    DistinctHeldFits(heldA, mappedA, Elements(Ids(Visible(a, session))));
    VectorPathNoninterference(cfg, a, b, heldA, heldB, mappedA, mappedB, query, session);
  }

  lemma {:induction false} AllRetrievableAdmitted(candidates: seq<ScoredChunk>, session: Session)
    requires forall i :: 0 <= i < |candidates| ==> Retrievable(candidates[i].chunk, session)
    ensures |Admitted(candidates, session)| == |candidates|
    ensures forall i :: 0 <= i < |candidates| ==> Trail(candidates, session)[i].decision != Deny
  {
    hide Evaluate;
    if candidates != [] {
      AllRetrievableAdmitted(candidates[..|candidates| - 1], session);
    }
  }

  /** The security filter that follows the vector path denies none of its result. */
  lemma NothingLeftToDeny(cfg: Settings, rows: seq<Chunk>, held: seq<Held>, mapped: set<string>, query: string, session: Session)
    requires DistinctIds(rows)
    ensures var r := Retrieved(cfg, rows, held, mapped, query, session);
      && |Admitted(r, session)| == |r|
      && forall i :: 0 <= i < |r| ==> Retrievable(r[i].chunk, session) && Trail(r, session)[i].decision != Deny
  {
    hide Visible, DistinctIds, Allowed, Hydrated, AllowedIds, Sort, Evaluate, Admitted, Trail, BestAllowed, Final;
    AllowedIdsOfVisible(rows, session);
    var allow := Elements(Ids(Visible(rows, session)));
    var coarse := Coarse(cfg, held, |mapped|, query, allow);
    BestAreAllowed(cfg, held, cfg.embed(query), if cfg.coarseK <= |mapped| then cfg.coarseK else |mapped|, allow);
    HydratedFromVisible(rows, rows, session, coarse);
    var candidates := Hydrated(rows, coarse);
    var rescored := Rescored(cfg.lex, query, candidates);
    var r := Retrieved(cfg, rows, held, mapped, query, session);
    SortPermutes(ByScore(), rescored);
    forall i | 0 <= i < |r|
      ensures Retrievable(r[i].chunk, session)
    {
      assert r[i] == Sort(ByScore(), rescored)[i];
      assert r[i] in multiset(Sort(ByScore(), rescored));
      assert r[i] in rescored;
      var m :| 0 <= m < |rescored| && rescored[m] == r[i];
      assert rescored[m].chunk == candidates[m].chunk;
    }
    AllRetrievableAdmitted(r, session);
  }

  // ---- what comes back -------------------------------------------------------------------------------

  /** Some row of the source has the id and is not denied. */
  ghost predicate Shown(rows: seq<Chunk>, session: Session, id: string) {
    exists i :: 0 <= i < |rows| && rows[i].id == id && DecisionOf(rows[i], session) != Deny
  }

  /** The held vectors of the shown ids, each with its similarity to the question. */
  ghost function ShownHits(cfg: Settings, rows: seq<Chunk>, held: seq<Held>, query: string, session: Session): seq<VectorHit> {
    if held == [] then []
    else
      var h := held[|held| - 1];
      ShownHits(cfg, rows, held[..|held| - 1], query, session) +
      if Shown(rows, session, h.chunkId) then [VectorHit(h.chunkId, cfg.sim(cfg.embed(query), h.vector))] else []
  }

  lemma {:induction false} AllowedAreShown(rows: seq<Chunk>, session: Session, id: string)
    ensures id in AllowedIds(rows, session) <==> Shown(rows, session, id)
  {
    hide Evaluate;
    if rows != [] {
      var n := |rows| - 1;
      AllowedAreShown(rows[..n], session, id);
      if Shown(rows[..n], session, id) {
        var i :| 0 <= i < n && rows[..n][i].id == id && DecisionOf(rows[..n][i], session) != Deny;
        assert rows[i].id == id && DecisionOf(rows[i], session) != Deny;
      }
      if rows[n].id == id && DecisionOf(rows[n], session) != Deny {
        assert Shown(rows, session, id);
      }
      forall i | 0 <= i < n && rows[i].id == id && DecisionOf(rows[i], session) != Deny
        ensures Shown(rows[..n], session, id)
      {
        assert rows[..n][i] == rows[i];
      }
    }
  }

  lemma {:induction false} AllowedHitsAre(cfg: Settings, rows: seq<Chunk>, held: seq<Held>, query: string, session: Session)
    ensures Hits(cfg.sim, cfg.embed(query), Allowed(held, Elements(AllowedIds(rows, session)))) ==
            ShownHits(cfg, rows, held, query, session)
  {
    hide AllowedIds, Shown;
    if held != [] {
      var allow := Elements(AllowedIds(rows, session));
      AllowedHitsAre(cfg, rows, held[..|held| - 1], query, session);
      AllowedAreShown(rows, session, held[|held| - 1].chunkId);
      HitsAppend(cfg, query, Allowed(held[..|held| - 1], allow), held[|held| - 1]);
      assert Allowed(held[..|held| - 1], allow) + [] == Allowed(held[..|held| - 1], allow);
    }
  }

  lemma HitsAppend(cfg: Settings, query: string, held: seq<Held>, h: Held)
    ensures Hits(cfg.sim, cfg.embed(query), held + [h]) ==
            Hits(cfg.sim, cfg.embed(query), held) + [VectorHit(h.chunkId, cfg.sim(cfg.embed(query), h.vector))]
  {
  }

  /** Candidate i is the source's row under the id of hit i, with the hit's score. */
  ghost predicate HydratedAs(rows: seq<Chunk>, hits: seq<VectorHit>, found: seq<ScoredChunk>) {
    |found| == |hits| && forall i :: 0 <= i < |hits| ==>
      RowFor(rows, hits[i].chunkId).Some? && found[i] == ScoredChunk(RowFor(rows, hits[i].chunkId).value, hits[i].score, None, None)
  }

  lemma {:induction false} HydratedAll(rows: seq<Chunk>, hits: seq<VectorHit>)
    requires forall i :: 0 <= i < |hits| ==> RowFor(rows, hits[i].chunkId).Some?
    ensures HydratedAs(rows, hits, Hydrated(rows, hits))
  {
    hide RowFor;
    if hits != [] {
      HydratedAll(rows, hits[..|hits| - 1]);
    }
  }

  /** Of two lists one the candidates and one their rescored form: the same rows, the scores blended with the question's overlap. */
  ghost predicate BlendedFrom(cfg: Settings, query: string, found: seq<ScoredChunk>, all: seq<ScoredChunk>) {
    |all| == |found| && forall i :: 0 <= i < |all| ==>
      all[i] == found[i].(score := Blend(cfg.lex, query, EmbeddingText(found[i].chunk), found[i].score))
  }

  ghost predicate PathFrom(cfg: Settings, rows: seq<Chunk>, hits: seq<VectorHit>, cap: nat, query: string,
                           coarse: seq<VectorHit>, found: seq<ScoredChunk>, all: seq<ScoredChunk>, r: seq<ScoredChunk>) {
    && Top(HitScore(), hits, cap, coarse)
    && HydratedAs(rows, coarse, found) && BlendedFrom(cfg, query, found, all)
    && Top(ByScore(), all, cfg.finalTopK, r)
  }

  /**
   The path's result: of the shown held vectors the most similar to the question, as many as k and
   the mapped ids admit, each as its row, and of those the greatest blended scores.
   */
  lemma PathExactly(cfg: Settings, rows: seq<Chunk>, held: seq<Held>, mapped: set<string>, query: string, session: Session)
    ensures var r := Retrieved(cfg, rows, held, mapped, query, session);
      var hits, cap := ShownHits(cfg, rows, held, query, session), if cfg.coarseK <= |mapped| then cfg.coarseK else |mapped|;
      exists coarse, found, all :: PathFrom(cfg, rows, hits, cap, query, coarse, found, all, r)
  {
    hide AllowedIds, Allowed, Sort, Top, Blend, EmbeddingText, Hydrated, ShownHits, Reranked, Shown, Take;
    var allow := Elements(AllowedIds(rows, session));
    var hits, cap := ShownHits(cfg, rows, held, query, session), if cfg.coarseK <= |mapped| then cfg.coarseK else |mapped|;
    var coarse := Coarse(cfg, held, |mapped|, query, allow);
    var found := Hydrated(rows, coarse);
    AllowedHitsAre(cfg, rows, held, query, session);
    SortedTop(HitScore(), hits, cap);
    BestAreAllowed(cfg, held, cfg.embed(query), cap, allow);
    forall i | 0 <= i < |coarse|
      ensures RowFor(rows, coarse[i].chunkId).Some?
    {
      AllowedAreShown(rows, session, coarse[i].chunkId);
      ShownHasRow(rows, session, coarse[i].chunkId);
    }
    HydratedAll(rows, coarse);
    RerankKeepsBest(cfg.lex, query, found, cfg.finalTopK);
    var all :| && |all| == |found|
      && (forall i :: 0 <= i < |all| ==>
            all[i] == found[i].(score := Blend(cfg.lex, query, EmbeddingText(found[i].chunk), found[i].score)))
      && Top(ByScore(), all, cfg.finalTopK, Reranked(cfg.lex, query, found, cfg.finalTopK));
    assert PathFrom(cfg, rows, hits, cap, query, coarse, found, all, Retrieved(cfg, rows, held, mapped, query, session));
  }

  lemma ShownHasRow(rows: seq<Chunk>, session: Session, id: string)
    requires Shown(rows, session, id)
    ensures RowFor(rows, id).Some?
  {
    hide RowFor, Evaluate;
    var i :| 0 <= i < |rows| && rows[i].id == id;
    assert rows[i] in rows;
  }

  /** It is as long as it can be: every shown held vector has its place until k, the mapped ids or the final cut is full. */
  lemma PathLength(cfg: Settings, rows: seq<Chunk>, held: seq<Held>, mapped: set<string>, query: string, session: Session)
    ensures var n := |Retrieved(cfg, rows, held, mapped, query, session)|;
      var shown := |ShownHits(cfg, rows, held, query, session)|;
      && n <= shown && n <= cfg.coarseK && n <= |mapped| && n <= cfg.finalTopK
      && (n == shown || n == cfg.coarseK || n == |mapped| || n == cfg.finalTopK)
  {
    hide Retrieved, ShownHits, HydratedAs, BlendedFrom, Descending;
    PathExactly(cfg, rows, held, mapped, query, session);
    var r := Retrieved(cfg, rows, held, mapped, query, session);
    var hits, cap := ShownHits(cfg, rows, held, query, session), if cfg.coarseK <= |mapped| then cfg.coarseK else |mapped|;
    var coarse, found, all :| PathFrom(cfg, rows, hits, cap, query, coarse, found, all, r);
    assert |found| == |coarse| == |all| by {
      SameLengths(cfg, rows, query, coarse, found, all);
    }
  }

  lemma SameLengths(cfg: Settings, rows: seq<Chunk>, query: string, coarse: seq<VectorHit>, found: seq<ScoredChunk>, all: seq<ScoredChunk>)
    requires HydratedAs(rows, coarse, found) && BlendedFrom(cfg, query, found, all)
    ensures |found| == |coarse| == |all|
  {
  }
}
