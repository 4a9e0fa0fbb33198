/**
 What fusion promises: each id of the union once, in descending exact score, ties in
 first-seen order; better ranks never score worse; and agreement of both lists beats
 presence in one.
 */
module FusionFacts {
  import opened Schemas
  import opened StableSort
  import opened Fusion

  // ---- the result as a list ------------------------------------------------------------

  lemma {:induction false} SeenFacts(order: seq<string>, items: seq<ScoredChunk>)
    requires Distinct(order)
    ensures Distinct(Seen(order, items))
    ensures forall id :: id in Seen(order, items) <==> id in order || RankOf(items, id).Some?
  {
    if items != [] {
      SeenFacts(order, items[..|items| - 1]);
    }
  }

  lemma {:induction false} RankedIsFirst(items: seq<ScoredChunk>, id: string)
    ensures RankOf(items, id).Some? <==> FirstWith(items, id).Some?
  {
    if items != [] {
      RankedIsFirst(items[..|items| - 1], id);
    }
  }

  lemma {:induction false} FusedOverIds(lexical: seq<ScoredChunk>, dense: seq<ScoredChunk>, k: nat, order: seq<string>)
    requires forall i :: 0 <= i < |order| ==> FusedChunk(lexical, dense, order[i]).Some?
    ensures Ids(Chunks(FusedOver(lexical, dense, k, order))) == order
    ensures forall i :: 0 <= i < |order| ==>
      FusedOver(lexical, dense, k, order)[i].score == Score(lexical, dense, order[i], k)
  {
    if order != [] {
      FusedOverIds(lexical, dense, k, order[..|order| - 1]);
    }
  }

  /** The fused list holds every id of the union exactly once, in first-seen order, with its exact score. */
  lemma FusedListFacts(lexical: seq<ScoredChunk>, dense: seq<ScoredChunk>, k: nat)
    ensures var ids := Ids(Chunks(FusedList(lexical, dense, k)));
      && ids == UnionOrder(lexical, dense) && Distinct(ids)
      && (forall id :: id in ids <==> RankOf(lexical, id).Some? || RankOf(dense, id).Some?)
      && forall i :: 0 <= i < |ids| ==> FusedList(lexical, dense, k)[i].score == Score(lexical, dense, ids[i], k)
  {
    SeenFacts([], lexical);
    SeenFacts(Seen([], lexical), dense);
    var order := UnionOrder(lexical, dense);
    forall i | 0 <= i < |order|
      ensures FusedChunk(lexical, dense, order[i]).Some?
    {
      assert order[i] in order;
      RankedIsFirst(lexical, order[i]);
      RankedIsFirst(dense, order[i]);
    }
    FusedOverIds(lexical, dense, k, order);
  }

  /** The result is the fused list rearranged: descending by score, ties in first-seen order. */
  lemma FusionOrder(lexical: seq<ScoredChunk>, dense: seq<ScoredChunk>, k: nat, v: real)
    ensures var list := FusedList(lexical, dense, k);
      var r := Sort(ByScore(), list);
      && multiset(r) == multiset(list)
      && Descending(ByScore(), r)
      && Level(ByScore(), v, r) == Level(ByScore(), v, list)
  {
    SortPermutes(ByScore(), FusedList(lexical, dense, k));
    SortDescending(ByScore(), FusedList(lexical, dense, k));
    SortStable(ByScore(), v, FusedList(lexical, dense, k));
  }

  // ---- scores -----------------------------------------------------------------------------

  ghost predicate UniqueIn(items: seq<ScoredChunk>) {
    forall i, j :: 0 <= i < j < |items| ==> items[i].chunk.id != items[j].chunk.id
  }

  function Share(rank: Option<nat>, k: nat): real
    requires rank.Some? ==> k + rank.value > 0
  {
    if rank.None? then 0.0 else 1.0 / (k + rank.value) as real
  }

  lemma {:induction false} RankBounds(items: seq<ScoredChunk>, id: string)
    ensures RankOf(items, id).Some? ==>
      1 <= RankOf(items, id).value <= |items| && items[RankOf(items, id).value - 1].chunk.id == id
    ensures RankOf(items, id).None? ==> forall i :: 0 <= i < |items| ==> items[i].chunk.id != id
  {
    if items != [] {
      RankBounds(items[..|items| - 1], id);
    }
  }

  /** In a list without repeated ids, an id contributes the share of its one rank. */
  lemma {:induction false} ContributionIsShare(items: seq<ScoredChunk>, id: string, k: nat)
    requires UniqueIn(items)
    ensures RankOf(items, id).Some? ==> RankOf(items, id).value >= 1
    ensures Contribution(items, id, k) == Share(RankOf(items, id), k)
  {
    if items != [] {
      var n := |items| - 1;
      ContributionIsShare(items[..n], id, k);
      RankBounds(items[..n], id);
    }
  }

  /** An id's score, from its rank in each list: 1 / (k + rank) for each list that holds it. */
  lemma ScoreFromRanks(lexical: seq<ScoredChunk>, dense: seq<ScoredChunk>, id: string, k: nat)
    requires UniqueIn(lexical) && UniqueIn(dense)
    ensures
      var a, b := RankOf(lexical, id), RankOf(dense, id);
      && (a.Some? ==> a.value >= 1) && (b.Some? ==> b.value >= 1)
      && Score(lexical, dense, id, k) ==
         (if a.Some? then 1.0 / (k + a.value) as real else 0.0) + (if b.Some? then 1.0 / (k + b.value) as real else 0.0)
  {
    hide RankOf, Contribution;
    ContributionIsShare(lexical, id, k);
    ContributionIsShare(dense, id, k);
  }

  lemma ShareAntitone(r: nat, s: nat, k: nat)
    requires 1 <= r <= s
    ensures Share(Some(r), k) >= Share(Some(s), k) > 0.0
  {
    var a, b := (k + r) as real, (k + s) as real;
    assert 0.0 < a <= b;
    assert 1.0 / a - 1.0 / b == (b - a) / (a * b);
  }

  /** r is at least as good a rank as s. */
  predicate NoWorse(r: Option<nat>, s: Option<nat>) {
    s.None? || (r.Some? && r.value <= s.value)
  }

  /** Better-or-equal ranks in both lists give a better-or-equal score. */
  lemma BetterRanksScoreNoWorse(lexical: seq<ScoredChunk>, dense: seq<ScoredChunk>, k: nat, a: string, b: string)
    requires UniqueIn(lexical) && UniqueIn(dense)
    requires NoWorse(RankOf(lexical, a), RankOf(lexical, b)) && NoWorse(RankOf(dense, a), RankOf(dense, b))
    ensures Score(lexical, dense, a, k) >= Score(lexical, dense, b, k)
  {
    NoWorseShare(lexical, k, a, b);
    NoWorseShare(dense, k, a, b);
  }

  lemma NoWorseShare(items: seq<ScoredChunk>, k: nat, a: string, b: string)
    requires UniqueIn(items) && NoWorse(RankOf(items, a), RankOf(items, b))
    ensures Contribution(items, a, k) >= Contribution(items, b, k)
  {
    ContributionIsShare(items, a, k);
    ContributionIsShare(items, b, k);
    if RankOf(items, b).Some? {
      ShareAntitone(RankOf(items, a).value, RankOf(items, b).value, k);
    } else if RankOf(items, a).Some? {
      ShareAntitone(RankOf(items, a).value, RankOf(items, a).value, k);
    }
  }

  /** An id a list holds gets at least 1 / (2k + 1) from it, if the list has at most k + 1 items. */
  lemma ShareFloor(items: seq<ScoredChunk>, k: nat, id: string)
    requires UniqueIn(items) && |items| <= k + 1 && RankOf(items, id).Some?
    ensures Contribution(items, id, k) >= Share(Some(k + 1), k)
  {
    ContributionIsShare(items, id, k);
    RankBounds(items, id);
    ShareAntitone(RankOf(items, id).value, k + 1, k);
  }

  /** An id in one list only gets at most 1 / (k + 1). */
  lemma ShareCeiling(items: seq<ScoredChunk>, k: nat, id: string)
    requires UniqueIn(items)
    ensures Contribution(items, id, k) <= Share(Some(1), k)
  {
    ContributionIsShare(items, id, k);
    ShareAntitone(1, 1, k);
    if RankOf(items, id).Some? {
      ShareAntitone(1, RankOf(items, id).value, k);
    }
  }

  /** Two floors are more than one ceiling: 2 / (2k + 1) > 1 / (k + 1). */
  lemma TwoFloorsBeatOneCeiling(k: nat)
    ensures Share(Some(k + 1), k) + Share(Some(k + 1), k) > Share(Some(1), k)
  {
    var a, b := (k + (k + 1)) as real, (k + 1) as real;
    assert 0.0 < a < 2.0 * b;
    assert 2.0 / a - 1.0 / b == (2.0 * b - a) / (a * b);
    assert a * b > 0.0;
    assert (2.0 * b - a) / (a * b) > 0.0;
    assert 1.0 / a + 1.0 / a == 2.0 / a;
  }

  /** With lists of at most k + 1 items, an id in both lists outscores every id in one. */
  lemma BothListsBeatOne(lexical: seq<ScoredChunk>, dense: seq<ScoredChunk>, k: nat, a: string, b: string)
    requires UniqueIn(lexical) && UniqueIn(dense) && |lexical| <= k + 1 && |dense| <= k + 1
    requires RankOf(lexical, a).Some? && RankOf(dense, a).Some?
    requires RankOf(lexical, b).None? || RankOf(dense, b).None?
    ensures Score(lexical, dense, a, k) > Score(lexical, dense, b, k)
  {
    ShareFloor(lexical, k, a);
    ShareFloor(dense, k, a);
    ShareCeiling(lexical, k, b);
    ShareCeiling(dense, k, b);
    ContributionIsShare(lexical, b, k);
    ContributionIsShare(dense, b, k);
    TwoFloorsBeatOneCeiling(k);
  }

  /** ... and so comes before it in the result. */
  lemma BothListsComeFirst(lexical: seq<ScoredChunk>, dense: seq<ScoredChunk>, k: nat, i: nat, j: nat)
    requires UniqueIn(lexical) && UniqueIn(dense) && |lexical| <= k + 1 && |dense| <= k + 1
    requires var r := Sort(ByScore(), FusedList(lexical, dense, k));
      && i < |r| && j < |r|
      && RankOf(lexical, r[i].chunk.id).Some? && RankOf(dense, r[i].chunk.id).Some?
      && (RankOf(lexical, r[j].chunk.id).None? || RankOf(dense, r[j].chunk.id).None?)
    ensures i < j
  {
    hide Sort, FusedList, Descending, Score, RankOf;
    var list := FusedList(lexical, dense, k);
    var r := Sort(ByScore(), list);
    FusionOrder(lexical, dense, k, 0.0);
    ExactScore(lexical, dense, k, r[i]);
    ExactScore(lexical, dense, k, r[j]);
    BothListsBeatOne(lexical, dense, k, r[i].chunk.id, r[j].chunk.id);
    if j <= i {
      DescendingAt(r, j, i);
    }
  }

  lemma DescendingAt(r: seq<ScoredChunk>, i: nat, j: nat)
    requires Descending(ByScore(), r) && i <= j < |r|
    ensures r[i].score >= r[j].score
  {
  }

  lemma ExactScore(lexical: seq<ScoredChunk>, dense: seq<ScoredChunk>, k: nat, sc: ScoredChunk)
    requires sc in Sort(ByScore(), FusedList(lexical, dense, k))
    ensures sc.score == Score(lexical, dense, sc.chunk.id, k)
  {
    hide Sort, FusedList, Score;
    var list := FusedList(lexical, dense, k);
    FusedListFacts(lexical, dense, k);
    SortPermutes(ByScore(), list);
    assert sc in multiset(Sort(ByScore(), list));
    assert sc in list;
    var m :| 0 <= m < |list| && list[m] == sc;
    assert Ids(Chunks(list))[m] == sc.chunk.id;
  }
}
