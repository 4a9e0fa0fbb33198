/**
 The reference matrix (seeds/access_matrix.py) and the leak oracle that drives the engine
 against it (src/rag_engine/catalog/oracle.py).
 */
module Oracle {
  import opened Schemas
  import opened Access

  datatype SensitivityClass = SensitivityClass(code: string, minLevel: nat, needToKnowRoles: seq<string>)

  /** The classes A to N, in order. */
  function Classes(): (table: seq<SensitivityClass>)
    ensures |table| == 14
  {
    [
      SensitivityClass("A", 0, []),
      SensitivityClass("B", 1, []),
      SensitivityClass("C", 2, []),
      SensitivityClass("D", 3, []),
      SensitivityClass("E", 4, ["FINANCE", "C_SUITE"]),
      SensitivityClass("F", 5, ["C_SUITE"]),
      SensitivityClass("G", 4, ["LEGAL", "C_SUITE", "STRATEGY"]),
      SensitivityClass("H", 4, ["CISO", "SECURITY", "BOARD"]),
      SensitivityClass("I", 5, ["HR", "C_SUITE"]),
      SensitivityClass("J", 4, ["HR", "C_SUITE"]),
      SensitivityClass("K", 3, ["HR", "C_SUITE"]),
      SensitivityClass("L", 2, ["FINANCE", "C_SUITE"]),
      SensitivityClass("M", 5, ["FINANCE", "C_SUITE"]),
      SensitivityClass("N", 5, ["FINANCE", "C_SUITE"])
    ]
  }

  /** The reference decision: written from the matrix, without the engine. */
  function EvaluateClass(sc: SensitivityClass, level: nat, roles: seq<string>): Decision {
    var roleSet := set r | r in roles :: Upper(r);
    if sc.code == "D" then
      if level >= 4 then Allow else if level >= 2 then Mask else Deny
    else if level < sc.minLevel then Deny
    else if sc.needToKnowRoles != [] && roleSet !! Elements(sc.needToKnowRoles) then Deny
    else Allow
  }

  /** An asset-level chunk of the class, as the catalog holds it. */
  function ChunkFor(sc: SensitivityClass): Chunk {
    var sec := SecurityContext(NormalRoles(sc.needToKnowRoles), sc.minLevel, "UNASSIGNED", sc.code,
                               NormalRoles(sc.needToKnowRoles));
    Chunk("c-" + sc.code, "asset-" + sc.code, "t", "x", "", sec, 0, "text", map[])
  }

  predicate NormalisedRoles(roles: seq<string>) {
    forall i :: 0 <= i < |roles| ==> IsRole(roles[i])
  }

  lemma UpperOfRole(r: string)
    requires IsRole(r)
    ensures Upper(r) == r
  {
  }

  lemma StripOfRole(r: string)
    requires IsRole(r)
    ensures Strip(r) == r
  {
  }

  lemma {:induction false} SessionKeepsRoles(roles: seq<string>)
    requires NormalisedRoles(roles)
    ensures SessionRoles(roles) == Some(roles)
  {
    hide Strip, Upper;
    if roles != [] {
      var r := roles[|roles| - 1];
      SessionKeepsRoles(roles[..|roles| - 1]);
      StripOfRole(r);
      UpperOfRole(r);
      assert roles == roles[..|roles| - 1] + [r] && !HasControl(r);
    }
  }

  /** Every entry of the table is well-formed: a recognised class and role names. */
  lemma TableIsWellFormed(i: nat)
    requires i < |Classes()|
    ensures Classes()[i].code in VALID_CLASSES && Classes()[i].minLevel <= MAX_LEVEL
    ensures NormalisedRoles(Classes()[i].needToKnowRoles)
    ensures Classes()[i].minLevel == 0 ==> Classes()[i].needToKnowRoles == []
  {
    hide IsRole;
    RoleNames();
  }

  lemma RoleNames()
    ensures IsRole("FINANCE") && IsRole("C_SUITE") && IsRole("LEGAL") && IsRole("STRATEGY") && IsRole("CISO")
    ensures IsRole("SECURITY") && IsRole("BOARD") && IsRole("HR")
  {
  }

  lemma NormalRolesSet(roles: seq<string>)
    requires NormalisedRoles(roles)
    ensures Elements(NormalRoles(roles)) == Elements(roles)
  {
    hide Strip, Upper, NormalRoles;
    forall r | r in roles
      ensures Upper(Strip(r)) == r && r != ""
    {
      assert IsRole(r);
      StripOfRole(r);
      UpperOfRole(r);
    }
  }

  /** On every class and for every validated caller, the engine decides as the reference does. */
  lemma EngineAgrees(i: nat, session: Session)
    requires i < |Classes()| && ValidSession(session)
    ensures DecisionOf(ChunkFor(Classes()[i]), session) == EvaluateClass(Classes()[i], session.clearanceLevel, session.roles)
  {
    var sc := Classes()[i];
    TableIsWellFormed(i);
    EngineAgreesOn(sc, session);
  }

  lemma EngineAgreesOn(sc: SensitivityClass, session: Session)
    requires ValidSession(session) && sc.code in VALID_CLASSES && NormalisedRoles(sc.needToKnowRoles)
    requires sc.minLevel == 0 ==> sc.needToKnowRoles == [] && sc.code != "D"
    ensures DecisionOf(ChunkFor(sc), session) == EvaluateClass(sc, session.clearanceLevel, session.roles)
  {
    hide NormalRoles, Upper, IsRole;
    NormalRolesSet(sc.needToKnowRoles);
    var ntk := NormalRoles(sc.needToKnowRoles);
    var upper := set r | r in session.roles :: Upper(r);
    forall r | r in session.roles
      ensures Upper(r) == r
    {
      UpperOfRole(r);
    }
    assert upper == Elements(session.roles);
    assert ntk == [] <==> sc.needToKnowRoles == [] by {
      assert ntk != [] ==> ntk[0] in Elements(ntk);
      assert sc.needToKnowRoles != [] ==> sc.needToKnowRoles[0] in Elements(sc.needToKnowRoles);
    }
    assert Elements(ntk) != {} <==> sc.needToKnowRoles != [] by {
      assert sc.needToKnowRoles != [] ==> sc.needToKnowRoles[0] in Elements(sc.needToKnowRoles);
    }
    assert PartialFor(ChunkFor(sc).metadata) == {};
  }

  // ---- the table, read by role and by level ----------------------------------------------

  lemma ReachedBy(sc: SensitivityClass, role: string)
    requires IsRole(role) && sc.minLevel <= MAX_LEVEL
    ensures EvaluateClass(sc, MAX_LEVEL, [role]) == Allow <==>
      sc.code == "D" || sc.needToKnowRoles == [] || role in sc.needToKnowRoles
  {
    hide Upper, IsRole;
    UpperOfRole(role);
    var roles := [role];
    assert (set r | r in roles :: Upper(r)) == {role};
    assert role in sc.needToKnowRoles <==> role in Elements(sc.needToKnowRoles);
  }

  /** The classes from A to N at which a caller of the top level is allowed with this one role. */
  predicate Opens(role: string, codes: set<char>) {
    forall i :: 0 <= i < |Classes()| ==>
      (EvaluateClass(Classes()[i], MAX_LEVEL, [role]) == Allow <==> 'A' + i as char in codes)
  }

  lemma RoleOpens(role: string, codes: set<char>)
    requires IsRole(role)
    requires forall i :: 0 <= i < |Classes()| ==>
      ('A' + i as char in codes <==> i == 3 || Classes()[i].needToKnowRoles == [] || role in Classes()[i].needToKnowRoles)
    ensures Opens(role, codes)
  {
    hide Classes, EvaluateClass, IsRole;
    forall i | 0 <= i < |Classes()|
      ensures EvaluateClass(Classes()[i], MAX_LEVEL, [role]) == Allow <==> 'A' + i as char in codes
    {
      TableIsWellFormed(i);
      ClassCode(i);
      ReachedBy(Classes()[i], role);
    }
  }

  lemma ClassCode(i: nat)
    requires i < |Classes()|
    ensures Classes()[i].code == ['A' + i as char]
  {
  }

  /** By role: clearance alone opens A to D, and each role its own. */
  lemma WhoReaches()
    ensures Opens("FINANCE", {'A', 'B', 'C', 'D', 'E', 'L', 'M', 'N'})
    ensures Opens("C_SUITE", {'A', 'B', 'C', 'D', 'E', 'F', 'G', 'I', 'J', 'K', 'L', 'M', 'N'})
    ensures Opens("HR", {'A', 'B', 'C', 'D', 'I', 'J', 'K'})
    ensures Opens("LEGAL", {'A', 'B', 'C', 'D', 'G'}) && Opens("STRATEGY", {'A', 'B', 'C', 'D', 'G'})
    ensures Opens("CISO", {'A', 'B', 'C', 'D', 'H'}) && Opens("SECURITY", {'A', 'B', 'C', 'D', 'H'})
    ensures Opens("BOARD", {'A', 'B', 'C', 'D', 'H'})
  {
    hide Opens;
    BusinessReaches();
    LawReaches();
    SecurityReaches();
  }

  lemma BusinessReaches()
    ensures Opens("FINANCE", {'A', 'B', 'C', 'D', 'E', 'L', 'M', 'N'})
    ensures Opens("C_SUITE", {'A', 'B', 'C', 'D', 'E', 'F', 'G', 'I', 'J', 'K', 'L', 'M', 'N'})
    ensures Opens("HR", {'A', 'B', 'C', 'D', 'I', 'J', 'K'})
  {
    hide Opens, EvaluateClass, IsRole;
    RoleNames();
    RoleOpens("FINANCE", {'A', 'B', 'C', 'D', 'E', 'L', 'M', 'N'});
    RoleOpens("C_SUITE", {'A', 'B', 'C', 'D', 'E', 'F', 'G', 'I', 'J', 'K', 'L', 'M', 'N'});
    RoleOpens("HR", {'A', 'B', 'C', 'D', 'I', 'J', 'K'});
  }

  lemma LawReaches()
    ensures Opens("LEGAL", {'A', 'B', 'C', 'D', 'G'}) && Opens("STRATEGY", {'A', 'B', 'C', 'D', 'G'})
  {
    hide Opens, EvaluateClass, IsRole;
    RoleNames();
    RoleOpens("LEGAL", {'A', 'B', 'C', 'D', 'G'});
    RoleOpens("STRATEGY", {'A', 'B', 'C', 'D', 'G'});
  }

  lemma SecurityReaches()
    ensures Opens("CISO", {'A', 'B', 'C', 'D', 'H'}) && Opens("SECURITY", {'A', 'B', 'C', 'D', 'H'})
    ensures Opens("BOARD", {'A', 'B', 'C', 'D', 'H'})
  {
    hide Opens, EvaluateClass, IsRole;
    RoleNames();
    RoleOpens("CISO", {'A', 'B', 'C', 'D', 'H'});
    RoleOpens("SECURITY", {'A', 'B', 'C', 'D', 'H'});
    RoleOpens("BOARD", {'A', 'B', 'C', 'D', 'H'});
  }

  /** By level: the classes a caller who satisfies every need to know is allowed. */
  lemma LevelReaches(level: nat, i: nat)
    requires i < |Classes()|
    ensures var allowed :=
        if level == 0 then {'A'} else if level == 1 then {'A', 'B'} else if level == 2 then {'A', 'B', 'C', 'L'}
        else if level == 3 then {'A', 'B', 'C', 'K', 'L'} else if level == 4 then {'A', 'B', 'C', 'D', 'E', 'G', 'H', 'J', 'K', 'L'}
        else {'A', 'B', 'C', 'D', 'E', 'F', 'G', 'H', 'I', 'J', 'K', 'L', 'M', 'N'};
      EvaluateClass(Classes()[i], level, Classes()[i].needToKnowRoles) == Allow <==> 'A' + i as char in allowed
  {
    hide EvaluateClass, NormalisedRoles;
    TableIsWellFormed(i);
    ClassCode(i);
    OwnRoles(Classes()[i], level);
  }

  lemma OwnRoles(sc: SensitivityClass, level: nat)
    requires NormalisedRoles(sc.needToKnowRoles)
    ensures EvaluateClass(sc, level, sc.needToKnowRoles) == Allow <==> level >= if sc.code == "D" then 4 else sc.minLevel
  {
    hide Upper, IsRole;
    var ntk := sc.needToKnowRoles;
    if ntk != [] {
      UpperOfRole(ntk[0]);
      assert Upper(ntk[0]) in (set r | r in ntk :: Upper(r)) && ntk[0] in Elements(ntk);
      assert ntk[0] in (set r | r in ntk :: Upper(r)) * Elements(ntk);
    }
  }

  // ---- the grid ---------------------------------------------------------------------------

  datatype Persona = Persona(key: string, clearanceLevel: nat, roles: seq<string>)

  datatype Cell = Cell(persona: string, code: string, decision: Decision, expected: Decision) {
    /** The engine reveals more than the reference permits. */
    predicate Leaked() {
      decision.Rank() > expected.Rank()
    }
  }

  /** The session a persona opens; None when the session record refuses it. */
  function SessionOf(p: Persona): Option<Session> {
    if p.clearanceLevel > MAX_LEVEL || SessionRoles(p.roles).None? then None
    else Some(Session(p.key, SessionRoles(p.roles).value, p.clearanceLevel))
  }

  function CellFor(p: Persona, session: Session, sc: SensitivityClass): Cell {
    Cell(p.key, sc.code, DecisionOf(ChunkFor(sc), session), EvaluateClass(sc, p.clearanceLevel, p.roles))
  }

  function Row(p: Persona, session: Session): (row: seq<Cell>)
    ensures |row| == |Classes()|
  {
    seq(|Classes()|, j requires 0 <= j < |Classes()| => CellFor(p, session, Classes()[j]))
  }

  /** One row of fourteen cells per persona. */
  function Grid(personas: seq<Persona>): seq<Cell>
    requires forall i :: 0 <= i < |personas| ==> SessionOf(personas[i]).Some?
  {
    if personas == [] then []
    else
      var p := personas[|personas| - 1];
      Grid(personas[..|personas| - 1]) + Row(p, SessionOf(p).value)
  }

  function LeakCount(cells: seq<Cell>): nat {
    if cells == [] then 0 else LeakCount(cells[..|cells| - 1]) + if cells[|cells| - 1].Leaked() then 1 else 0
  }

  method BuildOracleGrid(personas: seq<Persona>) returns (ok: bool, cells: seq<Cell>, leaks: nat)
    ensures ok <==> forall i :: 0 <= i < |personas| ==> SessionOf(personas[i]).Some?
    ensures ok ==> cells == Grid(personas) && leaks == LeakCount(cells)
  {
    hide SessionOf, CellFor, Classes;
    ok, cells, leaks := true, [], 0;
    for i := 0 to |personas|
      invariant forall m :: 0 <= m < i ==> SessionOf(personas[m]).Some?
      invariant ok && cells == Grid(personas[..i]) && leaks == LeakCount(cells)
    {
      var session := SessionOf(personas[i]);
      if session.None? {
        ok := false;
        return;
      }
      ghost var row := Row(personas[i], session.value);
      assert personas[..i + 1][..i] == personas[..i];
      for j := 0 to |Classes()|
        invariant cells == Grid(personas[..i]) + row[..j] && leaks == LeakCount(cells)
      {
        var cell := CellFor(personas[i], session.value, Classes()[j]);
        leaks := leaks + if cell.Leaked() then 1 else 0;
        assert (cells + [cell])[..|cells|] == cells;
        assert row[..j + 1] == row[..j] + [row[j]];
        cells := cells + [cell];
      }
      assert row[..|Classes()|] == row;
    }
    assert personas[..|personas|] == personas;
  }

  /** Persona p's cell for class c stands at 14p + c. */
  lemma {:induction false} GridAt(personas: seq<Persona>, p: nat, c: nat)
    requires p < |personas| && c < 14 && forall i :: 0 <= i < |personas| ==> SessionOf(personas[i]).Some?
    ensures |Grid(personas)| == 14 * |personas| && 14 * p + c < |Grid(personas)|
    ensures
      var persona, sc := personas[p], Classes()[c];
      var session := SessionOf(persona).value;
      Grid(personas)[14 * p + c] ==
      Cell(persona.key, sc.code, DecisionOf(ChunkFor(sc), session), EvaluateClass(sc, persona.clearanceLevel, persona.roles))
  {
    hide SessionOf, Classes, DecisionOf, EvaluateClass, ChunkFor;
    var n := |personas| - 1;
    if p < n {
      GridAt(personas[..n], p, c);
    } else if n > 0 {
      GridAt(personas[..n], 0, c);
    }
  }

  /** The leak count is the number of cells in which the engine reveals more than the reference. */
  lemma {:induction false} LeaksAreCounted(cells: seq<Cell>)
    ensures LeakCount(cells) == |set k: nat | k < |cells| && cells[k].expected.Rank() < cells[k].decision.Rank()|
  {
    var leaked := set k: nat | k < |cells| && cells[k].expected.Rank() < cells[k].decision.Rank();
    if cells == [] {
      assert leaked == {};
    } else {
      var n: nat := |cells| - 1;
      LeaksAreCounted(cells[..n]);
      var before := set k: nat | k < n && cells[..n][k].expected.Rank() < cells[..n][k].decision.Rank();
      assert leaked == before + if cells[n].Leaked() then {n} else {};
    }
  }

  predicate NormalisedPersona(p: Persona) {
    p.clearanceLevel <= MAX_LEVEL && NormalisedRoles(p.roles)
  }

  lemma CellAgrees(p: Persona, i: nat)
    requires NormalisedPersona(p) && i < |Classes()|
    ensures SessionOf(p) == Some(Session(p.key, p.roles, p.clearanceLevel))
    ensures var cell := CellFor(p, SessionOf(p).value, Classes()[i]); cell.decision == cell.expected
  {
    hide IsRole, DecisionOf;
    SessionKeepsRoles(p.roles);
    var session := Session(p.key, p.roles, p.clearanceLevel);
    forall r | r in session.roles
      ensures IsRole(r)
    {
      var k :| 0 <= k < |p.roles| && p.roles[k] == r;
    }
    EngineAgrees(i, session);
  }

  /** The grid of any roster of normalised personas: fourteen cells each, engine and reference alike in all, no leak. */
  lemma {:induction false} GridAgrees(personas: seq<Persona>)
    requires forall i :: 0 <= i < |personas| ==> NormalisedPersona(personas[i])
    ensures forall i :: 0 <= i < |personas| ==> SessionOf(personas[i]).Some?
    ensures var cells := Grid(personas);
      && |cells| == 14 * |personas|
      && (forall k :: 0 <= k < |cells| ==> cells[k].decision == cells[k].expected)
      && LeakCount(cells) == 0
  {
    hide NormalisedPersona, SessionOf, CellFor, Classes;
    forall i | 0 <= i < |personas|
      ensures SessionOf(personas[i]).Some?
    {
      CellAgrees(personas[i], 0);
    }
    if personas != [] {
      var p := personas[|personas| - 1];
      var row := Row(p, SessionOf(p).value);
      GridAgrees(personas[..|personas| - 1]);
      forall j | 0 <= j < |Classes()|
        ensures row[j].decision == row[j].expected
      {
        CellAgrees(p, j);
      }
    }
    AgreementIsLeakFree(Grid(personas));
  }

  lemma {:induction false} AgreementIsLeakFree(cells: seq<Cell>)
    requires forall k :: 0 <= k < |cells| ==> cells[k].decision == cells[k].expected
    ensures LeakCount(cells) == 0
  {
    if cells != [] {
      AgreementIsLeakFree(cells[..|cells| - 1]);
    }
  }
}
