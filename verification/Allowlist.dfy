/**
 The in-process allowlist (src/rag_engine/governance/allowlist.py): the ids a session may
 retrieve, in candidate order.
 */
module Allowlist {
  import opened Schemas
  import opened Access

  function AllowedIds(chunks: seq<Chunk>, session: Session): seq<string> {
    if chunks == [] then []
    else
      var c := chunks[|chunks| - 1];
      AllowedIds(chunks[..|chunks| - 1], session) + if Retrievable(c, session) then [c.id] else []
  }

  method AuthorizedIds(session: Session, candidates: seq<Chunk>) returns (out: seq<string>)
    ensures out == AllowedIds(candidates, session)
  {
    hide Evaluate;
    out := [];
    for i := 0 to |candidates|
      invariant out == AllowedIds(candidates[..i], session)
    {
      assert candidates[..i + 1][..i] == candidates[..i];
      if Evaluate(candidates[i], session).decision != Deny {
        out := out + [candidates[i].id];
      }
    }
    assert candidates[..|candidates|] == candidates;
  }

  /** The ids of exactly the candidates that are not denied, in order. */
  lemma {:induction false} AllowedIdsAre(chunks: seq<Chunk>, session: Session)
    ensures AllowedIds(chunks, session) == Ids(Filter((c: Chunk) => DecisionOf(c, session) != Deny, chunks))
  {
    hide Evaluate;
    if chunks != [] {
      AllowedIdsAre(chunks[..|chunks| - 1], session);
    }
  }

  /** `a` with elements left out of `b`, order kept. */
  ghost predicate Subsequence<T>(a: seq<T>, b: seq<T>) {
    a == [] ||
    (b != [] && if a[|a| - 1] == b[|b| - 1] then Subsequence(a[..|a| - 1], b[..|b| - 1])
                else Subsequence(a, b[..|b| - 1]))
  }

  lemma {:induction false} SubsequenceExtends<T>(a: seq<T>, b: seq<T>, x: T)
    requires Subsequence(a, b)
    ensures Subsequence(a, b + [x]) && Subsequence(a + [x], b + [x])
  {
    assert (a + [x])[..|a|] == a && (b + [x])[..|b|] == b;
    if a != [] && a[|a| - 1] == x {
      SubsequenceDrop(a, b);
    }
  }

  lemma {:induction false} SubsequenceDrop<T>(a: seq<T>, b: seq<T>)
    requires a != [] && Subsequence(a, b)
    ensures Subsequence(a[..|a| - 1], b)
  {
    var a', b' := a[..|a| - 1], b[..|b| - 1];
    if a' != [] {
      if a[|a| - 1] == b[|b| - 1] {
        if a'[|a'| - 1] == b[|b| - 1] {
          SubsequenceDrop(a', b');
        }
      } else {
        SubsequenceDrop(a, b');
        if a'[|a'| - 1] == b[|b| - 1] {
          SubsequenceDrop(a', b');
        }
      }
    }
  }

  /** More level and more roles keep every allowed id, in order, unless a candidate is one that promotion can lose. */
  lemma {:induction false} AllowlistGrows(chunks: seq<Chunk>, s: Session, t: Session)
    requires ValidSession(s) && ValidSession(t) && Below(s, t)
    requires forall i :: 0 <= i < |chunks| ==> !LosesAccessByPromotion(chunks[i])
    ensures Subsequence(AllowedIds(chunks, s), AllowedIds(chunks, t))
  {
    hide Evaluate, LosesAccessByPromotion, ValidSession, Below;
    if chunks != [] {
      var n := |chunks| - 1;
      AllowlistGrows(chunks[..n], s, t);
      MonotoneStep(chunks[n], s, t);
      var a, b := AllowedIds(chunks[..n], s), AllowedIds(chunks[..n], t);
      SubsequenceExtends(a, b, chunks[n].id);
      assert a + [] == a && b + [] == b;
    }
  }
}
