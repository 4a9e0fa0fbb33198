/**
 The permission-aware post-filter (src/rag_engine/governance/filter.py): drop what is
 denied, redact what is masked or partial, pass what is allowed, and record every
 decision.
 */
module SecurityFilter {
  import opened Schemas
  import opened Access
  import opened Masking

  /** The candidates a session may see, as it may see them, in order. */
  function Admitted(candidates: seq<ScoredChunk>, session: Session): seq<ScoredChunk> {
    if candidates == [] then []
    else
      var sc := candidates[|candidates| - 1];
      Admitted(candidates[..|candidates| - 1], session) +
      if Retrievable(sc.chunk, session) then [RedactScored(sc, Evaluate(sc.chunk, session))] else []
  }

  /** The audit record: one decision per candidate, admitted or not. */
  function Trail(candidates: seq<ScoredChunk>, session: Session): (trail: seq<GovernanceDecision>)
    ensures |trail| == |candidates|
  {
    if candidates == [] then []
    else
      Trail(candidates[..|candidates| - 1], session) + [Evaluate(candidates[|candidates| - 1].chunk, session)]
  }

  method Apply(candidates: seq<ScoredChunk>, session: Session)
    returns (admitted: seq<ScoredChunk>, trail: seq<GovernanceDecision>)
    ensures admitted == Admitted(candidates, session)
    ensures trail == Trail(candidates, session)
  {
    admitted, trail := [], [];
    for i := 0 to |candidates|
      invariant admitted == Admitted(candidates[..i], session)
      invariant trail == Trail(candidates[..i], session)
    {
      assert candidates[..i + 1][..i] == candidates[..i];
      var decision := Evaluate(candidates[i].chunk, session);
      trail := trail + [decision];
      if decision.decision != Deny {
        admitted := admitted + [RedactScored(candidates[i], decision)];
      }
    }
    assert candidates[..|candidates|] == candidates;
  }

  lemma {:induction false} AdmittedAppend(a: seq<ScoredChunk>, b: seq<ScoredChunk>, session: Session)
    ensures Admitted(a + b, session) == Admitted(a, session) + Admitted(b, session)
  {
    hide Evaluate, Retrievable, RedactScored;
    if b == [] {
      assert a + b == a;
    } else {
      AdmittedAppend(a, b[..|b| - 1], session);
      assert (a + b)[..|a + b| - 1] == a + b[..|b| - 1];
    }
  }

  /** Everything admitted is the view of a retrievable candidate, with its score kept. */
  lemma {:induction false} AdmittedIsViewed(candidates: seq<ScoredChunk>, session: Session, k: nat)
    requires k < |Admitted(candidates, session)|
    ensures exists i :: 0 <= i < |candidates| && Retrievable(candidates[i].chunk, session)
              && Admitted(candidates, session)[k] == candidates[i].(chunk := View(candidates[i].chunk, session))
  {
    hide Evaluate;
    var init := candidates[..|candidates| - 1];
    if k < |Admitted(init, session)| {
      AdmittedIsViewed(init, session, k);
      var i :| 0 <= i < |init| && Retrievable(init[i].chunk, session)
        && Admitted(init, session)[k] == init[i].(chunk := View(init[i].chunk, session));
      assert candidates[i] == init[i];
    } else {
      assert Admitted(candidates, session)[k] ==
             candidates[|candidates| - 1].(chunk := View(candidates[|candidates| - 1].chunk, session));
    }
  }

  // ---- noninterference --------------------------------------------------------

  /** Candidates that differ only in what the session may not see. */
  ghost predicate LowEqualScored(a: ScoredChunk, b: ScoredChunk, session: Session) {
    && LowEqual(a.chunk, b.chunk, session)
    && (Retrievable(a.chunk, session) ==> a.(chunk := b.chunk) == b)
  }

  ghost predicate LowEqualLists(a: seq<ScoredChunk>, b: seq<ScoredChunk>, session: Session) {
    |a| == |b| && forall i :: 0 <= i < |a| ==> LowEqualScored(a[i], b[i], session)
  }

  lemma LowEqualSameResult(a: ScoredChunk, b: ScoredChunk, session: Session)
    requires LowEqualScored(a, b, session)
    ensures Evaluate(a.chunk, session) == Evaluate(b.chunk, session)
    ensures Retrievable(a.chunk, session) ==>
      RedactScored(a, Evaluate(a.chunk, session)) == RedactScored(b, Evaluate(b.chunk, session))
  {
  }

  lemma {:induction false} Noninterference(a: seq<ScoredChunk>, b: seq<ScoredChunk>, session: Session)
    requires LowEqualLists(a, b, session)
    ensures Admitted(a, session) == Admitted(b, session)
    ensures Trail(a, session) == Trail(b, session)
  {
    if a != [] {
      var n := |a| - 1;
      Noninterference(a[..n], b[..n], session);
      LowEqualSameResult(a[n], b[n], session);
    }
  }

  /** Sessions of one scope are admitted the same views. */
  lemma {:induction false} SameScopeSameAdmitted(candidates: seq<ScoredChunk>, s: Session, t: Session)
    requires SameScope(s, t)
    ensures Admitted(candidates, s) == Admitted(candidates, t)
  {
    if candidates != [] {
      var n := |candidates| - 1;
      SameScopeSameAdmitted(candidates[..n], s, t);
      SameScopeSameView(candidates[n].chunk, s, t);
    }
  }

  // ---- filtering twice ----------------------------------------------------------

  /** The candidates whose scoped grant survives redaction. */
  function KeepsGrant(candidates: seq<ScoredChunk>, session: Session): seq<ScoredChunk> {
    Filter((sc: ScoredChunk) => !LosesGrant(sc.chunk, session), candidates)
  }

  /** A second filter removes exactly the non-text chunks that were only partially granted. */
  lemma {:induction false} DoubleFilter(candidates: seq<ScoredChunk>, session: Session)
    ensures Admitted(Admitted(candidates, session), session) == Admitted(KeepsGrant(candidates, session), session)
  {
    if candidates != [] {
      var n := |candidates| - 1;
      var init, sc := candidates[..n], candidates[n];
      var keep := (sc: ScoredChunk) => !LosesGrant(sc.chunk, session);
      DoubleFilter(init, session);
      var last := if Retrievable(sc.chunk, session) then [RedactScored(sc, Evaluate(sc.chunk, session))] else [];
      AdmittedAppend(Admitted(init, session), last, session);
      AdmittedAppend(Filter(keep, init), if keep(sc) then [sc] else [], session);
      assert last != [] ==> last[..0] == [];
      assert [sc][..0] == [];
      if Retrievable(sc.chunk, session) {
        ViewOfView(sc.chunk, session);
      }
    }
  }

  /** With a lost grant, filtering again is shorter. */
  lemma {:induction false} LostGrantShortens(candidates: seq<ScoredChunk>, session: Session)
    ensures |Admitted(KeepsGrant(candidates, session), session)| <= |Admitted(candidates, session)|
    ensures KeepsGrant(candidates, session) == candidates
         || |Admitted(KeepsGrant(candidates, session), session)| < |Admitted(candidates, session)|
  {
    hide Evaluate, Redact;
    if candidates != [] {
      var n := |candidates| - 1;
      var init, sc := candidates[..n], candidates[n];
      var keep := (sc: ScoredChunk) => !LosesGrant(sc.chunk, session);
      LostGrantShortens(init, session);
      if keep(sc) {
        AdmittedAppend(Filter(keep, init), [sc], session);
        assert [sc][..0] == [];
      } else {
        assert Filter(keep, candidates) == Filter(keep, init) + [] == Filter(keep, init);
      }
    }
  }

  /** Filtering is idempotent exactly when no candidate is a partially granted non-text chunk. */
  lemma DoubleFilterIdentity(candidates: seq<ScoredChunk>, session: Session)
    ensures Admitted(Admitted(candidates, session), session) == Admitted(candidates, session)
       <==> forall sc :: sc in candidates ==> !LosesGrant(sc.chunk, session)
  {
    DoubleFilter(candidates, session);
    LostGrantShortens(candidates, session);
    var keep := (sc: ScoredChunk) => !LosesGrant(sc.chunk, session);
    FilterMembers(keep, candidates);
    if forall sc :: sc in candidates ==> keep(sc) {
      FilterAll(keep, candidates);
    }
  }

  /** A concrete image a scoped role is admitted to once and denied the second time. */
  lemma ImageLosesGrant()
    ensures
      var sec := SecurityContext([], 1, "SECURITY", "H", ["CISO"]);
      var image := Chunk("c", "d", "t", "x", "", sec, 0, "image", map[PARTIAL_FOR := Items([Text("ENG")])]);
      var session, once := Session("u", ["ENG"], 1), [ScoredChunk(image, 1.0, None, None)];
      && LosesGrant(image, session)
      && |Admitted(once, session)| == 1 && Admitted(Admitted(once, session), session) == []
  {
    var sec := SecurityContext([], 1, "SECURITY", "H", ["CISO"]);
    var m: Metadata := map[PARTIAL_FOR := Items([Text("ENG")])];
    var image := Chunk("c", "d", "t", "x", "", sec, 0, "image", m);
    var session, sc := Session("u", ["ENG"], 1), ScoredChunk(image, 1.0, None, None);
    assert Texts([Text("ENG")]) == ["ENG"];
    assert PartialFor(m) == {"ENG"} && Elements(["ENG"]) == {"ENG"} && Elements(["CISO"]) == {"CISO"};
    assert "ENG" in Elements(session.roles) * PartialFor(m);
    assert DecisionOf(image, session) == Partial;
    hide Evaluate, Redact, LosesGrant;
    AdmittedOne(sc, session);
    ViewOfView(image, session);
    AdmittedOne(sc.(chunk := View(image, session)), session);
  }

  lemma AdmittedOne(sc: ScoredChunk, session: Session)
    ensures Admitted([sc], session) == if Retrievable(sc.chunk, session) then [sc.(chunk := View(sc.chunk, session))] else []
  {
    hide Evaluate, Redact;
    assert [sc][..0] == [];
  }
}
