/**
 The relationship-tuple engine (src/rag_engine/governance/rebac/local.py): the decision
 re-derived from string facts, and exactly when it agrees with the access decision.
 */
module Rebac {
  import opened Schemas
  import opened Access
  import opened Allowlist
  import Decimal

  datatype Relation = PublicFlag | Class | MinLevel | NtkRole | PartialRole | AllowedRole

  /** One fact: (resource, relation, value). */
  datatype Tuple = Tuple(resource: string, relation: Relation, value: string)

  function RoleTuples(rid: string, relation: Relation, roles: seq<string>): seq<Tuple> {
    seq(|roles|, i requires 0 <= i < |roles| => Tuple(rid, relation, roles[i]))
  }

  function GovernanceTuples(chunk: Chunk): seq<Tuple> {
    var rid, sec := "chunk:" + chunk.id, chunk.security;
    [Tuple(rid, PublicFlag, if sec.IsPublic() then "true" else "false"),
     Tuple(rid, Class, sec.sensitivityClass),
     Tuple(rid, MinLevel, Decimal.ToString(sec.clearanceLevel))]
    + RoleTuples(rid, NtkRole, sec.needToKnowRoles)
    + RoleTuples(rid, PartialRole, PartialForList(chunk.metadata))
    + RoleTuples(rid, AllowedRole, sec.allowedRoles)
  }

  /** The facts dictionary of one chunk: single values overwrite, role values accumulate. */
  datatype Facts = Facts(
    publicFlag: string, cls: string, minLevel: string, ntk: set<string>, partial: set<string>, allowed: set<string>)

  const NO_FACTS := Facts("", "", "", {}, {}, {})

  function AddFact(f: Facts, t: Tuple): Facts {
    match t.relation
    case PublicFlag => f.(publicFlag := t.value)
    case Class => f.(cls := t.value)
    case MinLevel => f.(minLevel := t.value)
    case NtkRole => f.(ntk := f.ntk + {t.value})
    case PartialRole => f.(partial := f.partial + {t.value})
    case AllowedRole => f.(allowed := f.allowed + {t.value})
  }

  function AddFacts(f: Facts, tuples: seq<Tuple>): Facts {
    if tuples == [] then f else AddFact(AddFacts(f, tuples[..|tuples| - 1]), tuples[|tuples| - 1])
  }

  predicate Digits(s: string) {
    forall c :: c in s ==> Decimal.IsDigit(c)
  }

  /** May the session retrieve a chunk with these facts? Reads only the facts. */
  predicate FactsRetrievable(f: Facts, session: Session)
    requires Digits(f.minLevel)
  {
    var level, roles := session.clearanceLevel, Elements(session.roles);
    if f.publicFlag == "true" then true
    else if f.cls == PII_CLASS then level >= 2
    else if level < Decimal.Parse(f.minLevel) then false
    else if f.ntk != {} && roles !! f.ntk then f.partial != {} && roles * f.partial != {}
    else if f.cls == "" then !(roles !! f.allowed)
    else true
  }

  // ---- what the facts of a chunk come to ---------------------------------------------

  lemma {:induction false} AddFactsAppend(f: Facts, a: seq<Tuple>, b: seq<Tuple>)
    ensures AddFacts(f, a + b) == AddFacts(AddFacts(f, a), b)
  {
    if b == [] {
      assert a + b == a;
    } else {
      AddFactsAppend(f, a, b[..|b| - 1]);
      assert (a + b)[..|a + b| - 1] == a + b[..|b| - 1];
    }
  }

  lemma {:induction false} AddRoles(f: Facts, rid: string, relation: Relation, roles: seq<string>)
    requires relation in {NtkRole, PartialRole, AllowedRole}
    ensures AddFacts(f, RoleTuples(rid, relation, roles)) ==
            match relation
            case NtkRole => f.(ntk := f.ntk + Elements(roles))
            case PartialRole => f.(partial := f.partial + Elements(roles))
            case _ => f.(allowed := f.allowed + Elements(roles))
  {
    if roles != [] {
      var n := |roles| - 1;
      AddRoles(f, rid, relation, roles[..n]);
      assert RoleTuples(rid, relation, roles)[..n] == RoleTuples(rid, relation, roles[..n]);
      assert roles == roles[..n] + [roles[n]];
      assert Elements(roles) == Elements(roles[..n]) + {roles[n]};
    }
  }

  function FactsOf(chunk: Chunk): Facts {
    AddFacts(NO_FACTS, GovernanceTuples(chunk))
  }

  lemma ThreeFacts(a: Tuple, b: Tuple, c: Tuple)
    ensures AddFacts(NO_FACTS, [a, b, c]) == AddFact(AddFact(AddFact(NO_FACTS, a), b), c)
  {
    hide AddFact;
    assert [a, b, c][..2] == [a, b] && [a, b][..1] == [a] && [a][..0] == [];
    assert AddFacts(NO_FACTS, [a]) == AddFact(NO_FACTS, a);
    assert AddFacts(NO_FACTS, [a, b]) == AddFact(AddFacts(NO_FACTS, [a]), b);
  }

  lemma FactsAreTheAcl(chunk: Chunk)
    ensures var sec := chunk.security;
      FactsOf(chunk) == Facts(
        if sec.IsPublic() then "true" else "false", sec.sensitivityClass, Decimal.ToString(sec.clearanceLevel),
        Elements(sec.needToKnowRoles), PartialFor(chunk.metadata), Elements(sec.allowedRoles))
    ensures Digits(FactsOf(chunk).minLevel)
  {
    hide RoleTuples, PartialForList, Elements, AddFacts;
    var rid, sec := "chunk:" + chunk.id, chunk.security;
    var a := Tuple(rid, PublicFlag, if sec.IsPublic() then "true" else "false");
    var b, c := Tuple(rid, Class, sec.sensitivityClass), Tuple(rid, MinLevel, Decimal.ToString(sec.clearanceLevel));
    var ntk := RoleTuples(rid, NtkRole, sec.needToKnowRoles);
    var partial := RoleTuples(rid, PartialRole, PartialForList(chunk.metadata));
    var allowed := RoleTuples(rid, AllowedRole, sec.allowedRoles);
    ThreeFacts(a, b, c);
    AddFactsAppend(NO_FACTS, [a, b, c] + ntk + partial, allowed);
    AddFactsAppend(NO_FACTS, [a, b, c] + ntk, partial);
    AddFactsAppend(NO_FACTS, [a, b, c], ntk);
    var g := AddFacts(NO_FACTS, [a, b, c]);
    AddRoles(g, rid, NtkRole, sec.needToKnowRoles);
    AddRoles(AddFacts(g, ntk), rid, PartialRole, PartialForList(chunk.metadata));
    AddRoles(AddFacts(AddFacts(g, ntk), partial), rid, AllowedRole, sec.allowedRoles);
  }

  // ---- parity --------------------------------------------------------------------------------

  /** The class is one the access decision recognises, or the class is never looked at. */
  predicate Recognised(chunk: Chunk) {
    chunk.security.IsPublic() || chunk.security.sensitivityClass == "" || chunk.security.sensitivityClass in VALID_CLASSES
  }

  /** Need-to-know roles there are, and neither they nor the scoped roles are any a validated session can hold. */
  predicate OutOfReach(chunk: Chunk) {
    var ntk := Elements(chunk.security.needToKnowRoles);
    ntk != {} && forall r :: r in ntk + PartialFor(chunk.metadata) ==> !IsRole(r)
  }

  ghost predicate Agrees(chunk: Chunk)
    requires Digits(FactsOf(chunk).minLevel)
  {
    forall session :: ValidSession(session) ==> FactsRetrievable(FactsOf(chunk), session) == Retrievable(chunk, session)
  }

  lemma ParityAt(chunk: Chunk, session: Session)
    requires Recognised(chunk) || (ValidSession(session) && OutOfReach(chunk))
    ensures Digits(FactsOf(chunk).minLevel)
    ensures FactsRetrievable(FactsOf(chunk), session) == Retrievable(chunk, session)
  {
    hide FactsOf, IsRole, PartialFor;
    FactsAreTheAcl(chunk);
    Decimal.RoundTrip(chunk.security.clearanceLevel);
    if OutOfReach(chunk) && !Recognised(chunk) {
      var roles, ntk, partial := Elements(session.roles), Elements(chunk.security.needToKnowRoles), PartialFor(chunk.metadata);
      assert roles * ntk == {} && roles * partial == {};
    }
  }

  /** An unrecognised class within reach: some validated session is let in by the facts and denied by the decision. */
  lemma ParityFails(chunk: Chunk)
    requires chunk.security.clearanceLevel <= MAX_LEVEL && !Recognised(chunk) && !OutOfReach(chunk)
    ensures Digits(FactsOf(chunk).minLevel) && !Agrees(chunk)
  {
    hide FactsOf, IsRole, PartialFor;
    FactsAreTheAcl(chunk);
    Decimal.RoundTrip(chunk.security.clearanceLevel);
    var ntk, partial := Elements(chunk.security.needToKnowRoles), PartialFor(chunk.metadata);
    var roles := [];
    if ntk != {} {
      var r :| r in ntk + partial && IsRole(r);
      roles := [r];
      assert Elements(roles) == {r};
      assert r in Elements(roles) * ntk || r in Elements(roles) * partial;
    }
    var session := Session("", roles, MAX_LEVEL);
    assert ValidSession(session);
    assert FactsRetrievable(FactsOf(chunk), session) && !Retrievable(chunk, session);
  }

  /** For every session a validator lets through, the tuple engine agrees with the access decision exactly on these chunks. */
  lemma ParityExactly(chunk: Chunk)
    requires chunk.security.clearanceLevel <= MAX_LEVEL
    ensures Digits(FactsOf(chunk).minLevel)
    ensures Agrees(chunk) <==> Recognised(chunk) || OutOfReach(chunk)
  {
    hide FactsOf, FactsRetrievable, Retrievable, Recognised, OutOfReach, ValidSession;
    FactsAreTheAcl(chunk);
    if Recognised(chunk) || OutOfReach(chunk) {
      forall session | ValidSession(session)
        ensures FactsRetrievable(FactsOf(chunk), session) == Retrievable(chunk, session)
      {
        ParityAt(chunk, session);
      }
    } else {
      ParityFails(chunk);
    }
  }

  // ---- the engine object -----------------------------------------------------------------------

  /** Syncing only what is missing. */
  function AutoSync(facts: map<string, Facts>, chunks: seq<Chunk>): (r: map<string, Facts>)
    ensures facts.Keys <= r.Keys && forall c :: c in chunks ==> c.id in r
  {
    if chunks == [] then facts
    else
      var before, c := AutoSync(facts, chunks[..|chunks| - 1]), chunks[|chunks| - 1];
      assert forall d :: d in chunks ==> d in chunks[..|chunks| - 1] || d == c;
      if c.id in before then before else before[c.id := FactsOf(c)]
  }

  ghost predicate WellFormed(facts: map<string, Facts>) {
    forall id :: id in facts ==> Digits(facts[id].minLevel)
  }

  lemma {:induction false} AutoSyncWellFormed(facts: map<string, Facts>, chunks: seq<Chunk>)
    requires WellFormed(facts)
    ensures WellFormed(AutoSync(facts, chunks))
  {
    hide FactsOf, Digits;
    if chunks != [] {
      AutoSyncWellFormed(facts, chunks[..|chunks| - 1]);
      FactsAreTheAcl(chunks[|chunks| - 1]);
    }
  }

  /** What list-objects returns: each candidate judged by its facts, stored earlier or synced on the way. */
  ghost function Listed(facts: map<string, Facts>, chunks: seq<Chunk>, session: Session): seq<string>
    requires WellFormed(facts)
  {
    if chunks == [] then []
    else
      var c := chunks[|chunks| - 1];
      AutoSyncWellFormed(facts, chunks);
      Listed(facts, chunks[..|chunks| - 1], session) +
      if FactsRetrievable(AutoSync(facts, chunks)[c.id], session) then [c.id] else []
  }

  class LocalReBACAllowlist {
    var facts: map<string, Facts>

    ghost predicate Valid()
      reads this
    {
      WellFormed(facts)
    }

    constructor ()
      ensures Valid() && facts == map[]
    {
      facts := map[];
    }

    /** Rebuilds one chunk's facts from its tuples. */
    method SyncOne(chunk: Chunk)
      requires Valid()
      modifies this
      ensures Valid() && facts == old(facts)[chunk.id := FactsOf(chunk)]
    {
      hide Digits;
      var tuples, built := GovernanceTuples(chunk), NO_FACTS;
      for i := 0 to |tuples|
        invariant built == AddFacts(NO_FACTS, tuples[..i])
        invariant facts == old(facts)
      {
        assert tuples[..i + 1][..i] == tuples[..i];
        built := AddFact(built, tuples[i]);
      }
      assert tuples[..|tuples|] == tuples;
      FactsAreTheAcl(chunk);
      facts := facts[chunk.id := built];
    }

    method AuthorizedIds(session: Session, candidates: seq<Chunk>) returns (out: seq<string>)
      requires Valid()
      modifies this
      ensures Valid() && facts == AutoSync(old(facts), candidates)
      ensures out == Listed(old(facts), candidates, session)
    {
      hide FactsOf, FactsRetrievable, Digits;
      out := [];
      for i := 0 to |candidates|
        invariant Valid() && facts == AutoSync(old(facts), candidates[..i])
        invariant out == Listed(old(facts), candidates[..i], session)
      {
        assert candidates[..i + 1][..i] == candidates[..i];
        if candidates[i].id !in facts {
          SyncOne(candidates[i]);
        }
        if FactsRetrievable(facts[candidates[i].id], session) {
          out := out + [candidates[i].id];
        }
      }
      assert candidates[..|candidates|] == candidates;
    }
  }

  /** The stored facts of every candidate already known are those of its current record. */
  ghost predicate InSync(facts: map<string, Facts>, chunks: seq<Chunk>) {
    forall i :: 0 <= i < |chunks| && chunks[i].id in facts ==> facts[chunks[i].id] == FactsOf(chunks[i])
  }

  lemma {:induction false} AutoSyncAt(facts: map<string, Facts>, chunks: seq<Chunk>, id: string)
    ensures id in facts ==> AutoSync(facts, chunks)[id] == facts[id]
    ensures id !in facts && (forall i :: 0 <= i < |chunks| ==> chunks[i].id != id) ==> id !in AutoSync(facts, chunks)
  {
    hide FactsOf;
    if chunks != [] {
      AutoSyncAt(facts, chunks[..|chunks| - 1], id);
    }
  }

  /** After the candidates, the last one is judged by its current facts. */
  lemma AutoSyncKnowsLast(facts: map<string, Facts>, chunks: seq<Chunk>)
    requires chunks != [] && InSync(facts, chunks) && DistinctIds(chunks)
    ensures AutoSync(facts, chunks)[chunks[|chunks| - 1].id] == FactsOf(chunks[|chunks| - 1])
  {
    hide FactsOf;
    var n := |chunks| - 1;
    AutoSyncAt(facts, chunks[..n], chunks[n].id);
  }

  /** The tuple-derived allowlist is the in-process one, in order. */
  lemma {:induction false} AllowlistParity(facts: map<string, Facts>, chunks: seq<Chunk>, session: Session)
    requires WellFormed(facts) && InSync(facts, chunks) && DistinctIds(chunks)
    requires forall i :: 0 <= i < |chunks| ==> Recognised(chunks[i]) || (ValidSession(session) && OutOfReach(chunks[i]))
    ensures Listed(facts, chunks, session) == AllowedIds(chunks, session)
  {
    hide FactsOf, FactsRetrievable, Evaluate, Recognised, OutOfReach, ValidSession, Digits;
    if chunks != [] {
      var n := |chunks| - 1;
      AllowlistParity(facts, chunks[..n], session);
      AutoSyncKnowsLast(facts, chunks);
      ParityAt(chunks[n], session);
    }
  }
}
