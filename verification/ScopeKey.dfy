/**
 The permission boundary in the cache key (src/rag_engine/cache/key.py): the text
 that is hashed into a scope fingerprint, and that it identifies the scope.
 */
module ScopeKey {
  import opened Schemas
  import opened Access
  import Decimal

  const SEP: char := 0x1f as char

  // ---- code-point order on strings -----------------------------------------

  predicate Less(a: string, b: string) {
    b != "" && (a == "" || a[0] < b[0] || (a[0] == b[0] && Less(a[1..], b[1..])))
  }

  lemma {:induction false} LessTotal(a: string, b: string)
    ensures Less(a, b) || a == b || Less(b, a)
  {
    if a != "" && b != "" && a[0] == b[0] {
      LessTotal(a[1..], b[1..]);
      assert a == [a[0]] + a[1..] && b == [b[0]] + b[1..];
    }
  }

  lemma {:induction false} LessTransitive(a: string, b: string, c: string)
    requires Less(a, b) && Less(b, c)
    ensures Less(a, c)
  {
    if a != "" && a[0] == b[0] == c[0] {
      LessTransitive(a[1..], b[1..], c[1..]);
    }
  }

  lemma {:induction false} LessIrreflexive(a: string)
    ensures !Less(a, a)
  {
    if a != "" {
      LessIrreflexive(a[1..]);
    }
  }

  ghost predicate Ascending(s: seq<string>) {
    forall i, j :: 0 <= i < j < |s| ==> Less(s[i], s[j])
  }

  /** `sorted(set(...))`, one insertion at a time. */
  function Insert(s: seq<string>, x: string): seq<string> {
    if s == [] then [x]
    else if x == s[0] then s
    else if Less(x, s[0]) then [x] + s
    else [s[0]] + Insert(s[1..], x)
  }

  lemma {:induction false} InsertElements(s: seq<string>, x: string)
    ensures Elements(Insert(s, x)) == Elements(s) + {x}
  {
    if s != [] {
      InsertElements(s[1..], x);
      var t := Insert(s[1..], x);
      assert Elements(s) == {s[0]} + Elements(s[1..]);
      assert Elements([s[0]] + t) == {s[0]} + Elements(t);
      assert Elements([x] + s) == {x} + Elements(s);
    }
  }

  lemma AscendingCons(x: string, s: seq<string>)
    requires Ascending(s) && (s != [] ==> Less(x, s[0]))
    ensures Ascending([x] + s)
  {
    forall j | 0 <= j < |s|
      ensures Less(x, s[j])
    {
      if j > 0 {
        LessTransitive(x, s[0], s[j]);
      }
    }
  }

  lemma {:induction false} InsertAscending(s: seq<string>, x: string)
    requires Ascending(s)
    ensures Ascending(Insert(s, x)) && Insert(s, x) != []
    ensures Insert(s, x)[0] == x || (s != [] && Insert(s, x)[0] == s[0])
  {
    if s != [] && x != s[0] {
      LessTotal(x, s[0]);
      if Less(x, s[0]) {
        AscendingCons(x, s);
      } else {
        InsertAscending(s[1..], x);
        AscendingCons(s[0], Insert(s[1..], x));
      }
    }
  }

  function SortedRoles(roles: seq<string>): seq<string> {
    if roles == [] then [] else Insert(SortedRoles(roles[1..]), roles[0])
  }

  lemma {:induction false} SortedRolesCorrect(roles: seq<string>)
    ensures Ascending(SortedRoles(roles)) && Elements(SortedRoles(roles)) == Elements(roles)
  {
    if roles != [] {
      SortedRolesCorrect(roles[1..]);
      InsertAscending(SortedRoles(roles[1..]), roles[0]);
      InsertElements(SortedRoles(roles[1..]), roles[0]);
      assert Elements(roles) == Elements(roles[1..]) + {roles[0]};
    }
  }

  /** An ascending sequence is determined by its elements. */
  lemma {:induction false} AscendingUnique(s: seq<string>, t: seq<string>)
    requires Ascending(s) && Ascending(t) && Elements(s) == Elements(t)
    ensures s == t
  {
    assert s != [] ==> s[0] in Elements(s);
    assert t != [] ==> t[0] in Elements(t);
    if s != [] && t != [] {
      var i :| 0 <= i < |t| && t[i] == s[0];
      var j :| 0 <= j < |s| && s[j] == t[0];
      if i > 0 && j > 0 {
        LessTransitive(s[0], t[0], s[0]);
        LessIrreflexive(s[0]);
      }
      assert s[0] == t[0];
      LessIrreflexive(s[0]);
      assert s[0] !in s[1..] && t[0] !in t[1..];
      assert Elements(s) == {s[0]} + Elements(s[1..]);
      assert Elements(t) == {t[0]} + Elements(t[1..]);
      assert Elements(s[1..]) == Elements(s) - {s[0]} == Elements(t[1..]);
      AscendingUnique(s[1..], t[1..]);
      assert s == [s[0]] + s[1..] && t == [t[0]] + t[1..];
    }
  }

  // ---- the payload ---------------------------------------------------------

  function Join(parts: seq<string>): string {
    if parts == [] then ""
    else if |parts| == 1 then parts[0]
    else parts[0] + [SEP] + Join(parts[1..])
  }

  function ScopePayload(session: Session): string {
    "L" + Decimal.ToString(session.clearanceLevel) + [SEP] + Join(SortedRoles(session.roles))
  }

  /** Text before the first separator, and text after it, are determined. */
  lemma SplitUnique(a: string, x: string, b: string, y: string)
    requires SEP !in a && SEP !in b
    requires a + [SEP] + x == b + [SEP] + y
    ensures a == b && x == y
  {
    var s, t := a + [SEP] + x, b + [SEP] + y;
    assert s[|a|] == SEP && t[|b|] == SEP;
    assert forall i :: 0 <= i < |a| ==> s[i] == a[i] != SEP;
    assert forall i :: 0 <= i < |b| ==> t[i] == b[i] != SEP;
    assert |a| == |b|;
    assert a == s[..|a|] && b == t[..|b|];
    assert x == s[|a| + 1..] && y == t[|b| + 1..];
  }

  lemma JoinedHasSeparator(parts: seq<string>)
    requires |parts| >= 2
    ensures SEP in Join(parts)
  {
  }

  lemma {:induction false} JoinInjective(p: seq<string>, q: seq<string>)
    requires forall r :: r in p || r in q ==> IsRole(r)
    requires Join(p) == Join(q)
    ensures p == q
  {
    if |p| >= 2 {
      JoinedHasSeparator(p);
    }
    if |q| >= 2 {
      JoinedHasSeparator(q);
    }
    if p != [] {
      assert IsRole(p[0]);
    }
    if q != [] {
      assert IsRole(q[0]);
    }
    if |p| >= 2 && |q| >= 2 {
      SplitUnique(p[0], Join(p[1..]), q[0], Join(q[1..]));
      JoinInjective(p[1..], q[1..]);
      assert p == [p[0]] + p[1..] && q == [q[0]] + q[1..];
    }
  }

  /** Validated sessions have the same payload exactly when they have the same level and role set. */
  lemma PayloadIsScope(s: Session, t: Session)
    requires ValidSession(s) && ValidSession(t)
    ensures ScopePayload(s) == ScopePayload(t) <==> SameScope(s, t)
  {
    SortedRolesCorrect(s.roles);
    SortedRolesCorrect(t.roles);
    if SameScope(s, t) {
      AscendingUnique(SortedRoles(s.roles), SortedRoles(t.roles));
    }
    if ScopePayload(s) == ScopePayload(t) {
      var a, b := "L" + Decimal.ToString(s.clearanceLevel), "L" + Decimal.ToString(t.clearanceLevel);
      SplitUnique(a, Join(SortedRoles(s.roles)), b, Join(SortedRoles(t.roles)));
      assert a[1..] == Decimal.ToString(s.clearanceLevel) && b[1..] == Decimal.ToString(t.clearanceLevel);
      Decimal.RoundTrip(s.clearanceLevel);
      Decimal.RoundTrip(t.clearanceLevel);
      forall r | r in SortedRoles(s.roles) || r in SortedRoles(t.roles)
        ensures IsRole(r)
      {
        assert r in Elements(SortedRoles(s.roles)) || r in Elements(SortedRoles(t.roles));
      }
      JoinInjective(SortedRoles(s.roles), SortedRoles(t.roles));
    }
  }

  /** Without validation the separator can alias two scopes. */
  lemma UnvalidatedRolesAlias()
    ensures
      var s := Session("u", ["A", "B"], 1);
      var t := Session("u", [['A', SEP, 'B']], 1);
      ScopePayload(s) == ScopePayload(t) && !SameScope(s, t)
  {
    var s := Session("u", ["A", "B"], 1);
    assert SortedRoles(["B"]) == ["B"];
    assert SortedRoles(s.roles) == ["A", "B"];
    assert Join(["A", "B"]) == ['A', SEP, 'B'];
    assert SortedRoles([['A', SEP, 'B']]) == [['A', SEP, 'B']];
    assert "A" in Elements(s.roles);
  }
}
