/**
 The access decision (src/rag_engine/governance/access.py): who may read a chunk,
 and how much of it.
 */
module Access {
  import opened Schemas

  datatype Decision = Deny | Partial | Mask | Allow {
    /** How much a decision reveals. */
    function Rank(): nat {
      match this
      case Deny => 0
      case Partial => 1
      case Mask => 2
      case Allow => 3
    }
  }

  datatype Reason =
    | PublicContent
    | UnrecognizedClass(cls: string)
    | PiiCleared
    | PiiMasked
    | PiiBelowMinLevel
    | InsufficientClearance(have: nat, need: nat)
    | ScopedAccess
    | NeedToKnow(oneOf: set<string>)
    | RoleMismatch(oneOf: set<string>)
    | Satisfied

  datatype GovernanceDecision = GovernanceDecision(
    chunkId: string,
    parentDocId: string,
    decision: Decision,
    reason: Reason,
    requiredRoles: seq<string>,
    sessionRoles: seq<string>,
    maskReason: string,
    scope: string)

  const PII_CLASS := "D"
  const VALID_CLASSES: set<string> := {"A", "B", "C", "D", "E", "F", "G", "H", "I", "J", "K", "L", "M", "N"}
  const PARTIAL_FOR := "partial_for"

  /** The roles a chunk's metadata grants scoped access to, in order. */
  function PartialForList(m: Metadata): seq<string> {
    if PARTIAL_FOR !in m then []
    else
      match m[PARTIAL_FOR]
      case Items(vs) => Texts(vs)
      case Record(fields) => seq(|fields|, i requires 0 <= i < |fields| => fields[i].key)
      case Text(s) => seq(|s|, i requires 0 <= i < |s| => [s[i]])
      case _ => []
  }

  function Texts(vs: seq<Value>): seq<string> {
    if vs == [] then [] else (if vs[0].Text? then [vs[0].s] else []) + Texts(vs[1..])
  }

  function PartialFor(m: Metadata): set<string> {
    Elements(PartialForList(m))
  }

  function Evaluate(chunk: Chunk, session: Session): GovernanceDecision {
    var sec := chunk.security;
    var level := session.clearanceLevel;
    var roles := Elements(session.roles);
    var ntk := Elements(sec.needToKnowRoles);
    var partial := PartialFor(chunk.metadata);
    var (decision, reason) :=
      if sec.IsPublic() then (Allow, PublicContent)
      else if sec.sensitivityClass != "" && sec.sensitivityClass !in VALID_CLASSES then
        (Deny, UnrecognizedClass(sec.sensitivityClass))
      else if sec.sensitivityClass == PII_CLASS then
        if level >= 4 then (Allow, PiiCleared)
        else if level >= 2 then (Mask, PiiMasked)
        else (Deny, PiiBelowMinLevel)
      else if level < sec.clearanceLevel then (Deny, InsufficientClearance(level, sec.clearanceLevel))
      else if ntk != {} && roles !! ntk then
        if partial != {} && roles * partial != {} then (Partial, ScopedAccess)
        else (Deny, NeedToKnow(ntk))
      else if sec.sensitivityClass == "" && roles !! Elements(sec.allowedRoles) then
        (Deny, RoleMismatch(Elements(sec.allowedRoles)))
      else (Allow, Satisfied);
    GovernanceDecision(
      chunk.id, chunk.parentDocId, decision, reason, sec.allowedRoles, session.roles,
      if decision.Mask? then "pii_mask" else "",
      if decision.Partial? then "own_component" else "")
  }

  function DecisionOf(chunk: Chunk, session: Session): Decision {
    Evaluate(chunk, session).decision
  }

  predicate Retrievable(chunk: Chunk, session: Session) {
    DecisionOf(chunk, session) != Deny
  }

  // ---- the decision table ----------------------------------------------------

  /** The session holds one of the roles. */
  predicate HoldsOne(session: Session, roles: seq<string>) {
    exists i :: 0 <= i < |roles| && roles[i] in session.roles
  }

  lemma SharedRole(session: Session, wanted: seq<string>)
    ensures Elements(session.roles) !! Elements(wanted) <==> !HoldsOne(session, wanted)
    ensures Elements(wanted) == {} <==> wanted == []
  {
    if i :| 0 <= i < |wanted| && wanted[i] in session.roles {
      assert wanted[i] in Elements(session.roles) * Elements(wanted);
    }
    if wanted != [] {
      assert wanted[0] in Elements(wanted);
    }
  }

  lemma ClassLetters(cls: string)
    ensures cls in VALID_CLASSES <==> |cls| == 1 && 'A' <= cls[0] <= 'N'
  {
    if |cls| == 1 && 'A' <= cls[0] <= 'N' {
      assert cls == [cls[0]];
    }
  }

  /** Public: level 0, and no roles named or the public one among them. */
  predicate Open(sec: SecurityContext) {
    sec.clearanceLevel == 0 && (sec.allowedRoles == [] || "PUBLIC" in sec.allowedRoles)
  }

  /** No class, or one of the letters A to N. */
  predicate KnownClass(cls: string) {
    cls == "" || (|cls| == 1 && 'A' <= cls[0] <= 'N')
  }

  /** Past the class and level gates of a chunk that is neither public nor personal data. */
  predicate Cleared(sec: SecurityContext, level: nat) {
    !Open(sec) && KnownClass(sec.sensitivityClass) && sec.sensitivityClass != "D" && level >= sec.clearanceLevel
  }

  /** Need-to-know roles are named and the session holds none of them. */
  predicate Outside(sec: SecurityContext, session: Session) {
    sec.needToKnowRoles != [] && !HoldsOne(session, sec.needToKnowRoles)
  }

  /** When each decision is made. */
  lemma DecisionsExactly(chunk: Chunk, session: Session)
    ensures
      var sec, level, decision := chunk.security, session.clearanceLevel, DecisionOf(chunk, session);
      var cls := sec.sensitivityClass;
      var scoped := HoldsOne(session, PartialForList(chunk.metadata));
      && (decision == Mask <==> !Open(sec) && cls == "D" && 2 <= level <= 3)
      && (decision == Partial <==> Cleared(sec, level) && Outside(sec, session) && scoped)
      && (decision == Allow <==>
            (|| Open(sec) || (cls == "D" && level >= 4)
             || (Cleared(sec, level) && !Outside(sec, session) && (cls != "" || HoldsOne(session, sec.allowedRoles)))))
  {
    hide Elements, HoldsOne, PartialForList;
    SharedRole(session, chunk.security.needToKnowRoles);
    SharedRole(session, chunk.security.allowedRoles);
    SharedRole(session, PartialForList(chunk.metadata));
    ClassLetters(chunk.security.sensitivityClass);
    SharedPartial(session, chunk.metadata);
  }

  lemma SharedPartial(session: Session, m: Metadata)
    ensures Elements(session.roles) * PartialFor(m) == {} <==> Elements(session.roles) !! Elements(PartialForList(m))
  {
    hide PartialForList, Elements;
    var roles, partial := Elements(session.roles), PartialFor(m);
    if roles !! partial {
      assert roles * partial == {};
    } else {
      var r :| r in roles && r in partial;
      assert r in roles * partial;
    }
  }

  /** For which reason a chunk is denied. */
  lemma DenialsExactly(chunk: Chunk, session: Session)
    ensures
      var sec, level, reason := chunk.security, session.clearanceLevel, Evaluate(chunk, session).reason;
      var cls, need := sec.sensitivityClass, sec.clearanceLevel;
      && (reason == UnrecognizedClass(cls) <==> !Open(sec) && !KnownClass(cls))
      && (reason == PiiBelowMinLevel <==> !Open(sec) && cls == "D" && level < 2)
      && (reason == InsufficientClearance(level, need) <==> !Open(sec) && KnownClass(cls) && cls != "D" && level < need)
      && (reason == NeedToKnow(Elements(sec.needToKnowRoles)) <==>
            Cleared(sec, level) && Outside(sec, session) && !HoldsOne(session, PartialForList(chunk.metadata)))
      && (reason == RoleMismatch(Elements(sec.allowedRoles)) <==>
            Cleared(sec, level) && !Outside(sec, session) && cls == "" && !HoldsOne(session, sec.allowedRoles))
      && (DecisionOf(chunk, session) == Deny <==>
            (|| reason.UnrecognizedClass? || reason.PiiBelowMinLevel? || reason.InsufficientClearance?
             || reason.NeedToKnow? || reason.RoleMismatch?))
  {
    hide Elements, HoldsOne, PartialForList;
    SharedRole(session, chunk.security.needToKnowRoles);
    SharedRole(session, chunk.security.allowedRoles);
    SharedRole(session, PartialForList(chunk.metadata));
    ClassLetters(chunk.security.sensitivityClass);
    SharedPartial(session, chunk.metadata);
  }

  /** What the record of a decision says besides. */
  lemma DecisionRecord(chunk: Chunk, session: Session)
    ensures var d := Evaluate(chunk, session);
      && d.chunkId == chunk.id && d.parentDocId == chunk.parentDocId
      && d.requiredRoles == chunk.security.allowedRoles && d.sessionRoles == session.roles
      && d.maskReason == (if d.decision == Mask then "pii_mask" else "")
      && d.scope == (if d.decision == Partial then "own_component" else "")
  {
  }

  /** Who has scoped access: the texts of a list, the keys of a record, the letters of a text, and nobody otherwise. */
  lemma {:induction false} PartialForMeans(m: Metadata, role: string)
    ensures role in PartialForList(m) <==>
      && PARTIAL_FOR in m
      && match m[PARTIAL_FOR]
         case Items(vs) => Text(role) in vs
         case Record(fields) => exists i :: 0 <= i < |fields| && fields[i].key == role
         case Text(s) => |role| == 1 && role[0] in s
         case _ => false
  {
    if PARTIAL_FOR in m {
      var v := m[PARTIAL_FOR];
      if v.Items? {
        TextsAre(v.vs, role);
      } else if v.Text? {
        assert |role| == 1 ==> role == [role[0]];
      }
    }
  }

  lemma {:induction false} TextsAre(vs: seq<Value>, role: string)
    ensures role in Texts(vs) <==> Text(role) in vs
  {
    if vs != [] {
      TextsAre(vs[1..], role);
      assert vs == [vs[0]] + vs[1..];
    }
  }

  // ---- the scope is all of the session a decision reads --------------------

  /** The governance-relevant identity: level and role set. */
  ghost predicate SameScope(s: Session, t: Session) {
    s.clearanceLevel == t.clearanceLevel && Elements(s.roles) == Elements(t.roles)
  }

  /** `t` holds at least the level and the roles of `s`. */
  ghost predicate Below(s: Session, t: Session) {
    s.clearanceLevel <= t.clearanceLevel && Elements(s.roles) <= Elements(t.roles)
  }

  // ---- monotonicity, and exactly when it fails ------------------------------

  /** More level and more roles never lower the decision on this chunk. */
  ghost predicate Monotone(chunk: Chunk) {
    forall s, t :: ValidSession(s) && ValidSession(t) && Below(s, t) ==>
      DecisionOf(chunk, s).Rank() <= DecisionOf(chunk, t).Rank()
  }

  /**
   A chunk on which gaining a role can lose access: un-classed and not public, some
   role has scoped access without being a need-to-know or an allowed role, and some
   need-to-know role is not an allowed role. Gaining that need-to-know role leaves
   the scoped branch for the role gate, which denies.
   */
  predicate LosesAccessByPromotion(chunk: Chunk) {
    var sec := chunk.security;
    var allowed, ntk := Elements(sec.allowedRoles), Elements(sec.needToKnowRoles);
    && !sec.IsPublic()
    && sec.sensitivityClass == ""
    && (exists p :: p in PartialFor(chunk.metadata) && IsRole(p) && p !in ntk && p !in allowed)
    && (exists n :: n in ntk && IsRole(n) && n !in allowed)
  }

  lemma MonotoneStep(chunk: Chunk, s: Session, t: Session)
    requires ValidSession(s) && ValidSession(t) && Below(s, t)
    requires !LosesAccessByPromotion(chunk)
    ensures DecisionOf(chunk, s).Rank() <= DecisionOf(chunk, t).Rank()
  {
  }

  /** Holding only the scoped role gives scoped access. */
  lemma ScopedAlone(chunk: Chunk, p: string)
    requires chunk.security.clearanceLevel <= MAX_LEVEL && !chunk.security.IsPublic() && chunk.security.sensitivityClass == ""
    requires Elements(chunk.security.needToKnowRoles) != {} && p !in Elements(chunk.security.needToKnowRoles)
    requires p in PartialFor(chunk.metadata)
    ensures DecisionOf(chunk, Session("", [p], MAX_LEVEL)) == Partial
  {
    hide PartialFor;
    assert Elements([p]) == {p};
    assert p in Elements([p]) * PartialFor(chunk.metadata);
  }

  /** Holding a need-to-know role besides leads to the role gate. */
  lemma PromotedOut(chunk: Chunk, p: string, n: string)
    requires !chunk.security.IsPublic() && chunk.security.sensitivityClass == ""
    requires n in Elements(chunk.security.needToKnowRoles)
    requires p !in Elements(chunk.security.allowedRoles) && n !in Elements(chunk.security.allowedRoles)
    ensures DecisionOf(chunk, Session("", [p, n], MAX_LEVEL)) == Deny
  {
    hide PartialFor;
    assert Elements([p, n]) == {p, n};
    assert n in Elements([p, n]) * Elements(chunk.security.needToKnowRoles);
  }

  lemma PromotionFails(chunk: Chunk)
    requires chunk.security.clearanceLevel <= MAX_LEVEL && LosesAccessByPromotion(chunk)
    ensures !Monotone(chunk)
  {
    hide Evaluate, PartialFor, IsRole;
    var sec := chunk.security;
    var allowed, ntk := Elements(sec.allowedRoles), Elements(sec.needToKnowRoles);
    var p :| p in PartialFor(chunk.metadata) && IsRole(p) && p !in ntk && p !in allowed;
    var n :| n in ntk && IsRole(n) && n !in allowed;
    ScopedAlone(chunk, p);
    PromotedOut(chunk, p, n);
    var s, t := Session("", [p], MAX_LEVEL), Session("", [p, n], MAX_LEVEL);
    assert Below(s, t) && ValidSession(s) && ValidSession(t);
  }

  lemma MonotoneExactly(chunk: Chunk)
    requires chunk.security.clearanceLevel <= MAX_LEVEL
    ensures Monotone(chunk) <==> !LosesAccessByPromotion(chunk)
  {
    if LosesAccessByPromotion(chunk) {
      PromotionFails(chunk);
    } else {
      forall s, t | ValidSession(s) && ValidSession(t) && Below(s, t)
        ensures DecisionOf(chunk, s).Rank() <= DecisionOf(chunk, t).Rank()
      {
        MonotoneStep(chunk, s, t);
      }
    }
  }

  /** A concrete chunk that loses access: scoped role CONTRACTOR promoted to AUDITOR. */
  lemma PromotionCanDeny()
    ensures
      var sec := SecurityContext(["FINANCE"], 1, "OPS", "", ["AUDITOR"]);
      var chunk := Chunk("c", "d", "t", "x", "", sec, 0, "text", map[PARTIAL_FOR := Items([Text("CONTRACTOR")])]);
      && DecisionOf(chunk, Session("u", ["CONTRACTOR"], 1)) == Partial
      && DecisionOf(chunk, Session("u", ["CONTRACTOR", "AUDITOR"], 5)) == Deny
  {
    var m: Metadata := map[PARTIAL_FOR := Items([Text("CONTRACTOR")])];
    assert Texts([Text("CONTRACTOR")]) == ["CONTRACTOR"];
    assert PartialFor(m) == {"CONTRACTOR"};
    assert Elements(["CONTRACTOR"]) == {"CONTRACTOR"};
    assert "CONTRACTOR" in Elements(["CONTRACTOR"]) * PartialFor(m);
    assert Elements(["AUDITOR"]) == {"AUDITOR"} && Elements(["FINANCE"]) == {"FINANCE"};
    assert "AUDITOR" in Elements(["CONTRACTOR", "AUDITOR"]) * {"AUDITOR"};
    assert Elements(["CONTRACTOR", "AUDITOR"]) == {"CONTRACTOR", "AUDITOR"};
  }
}
