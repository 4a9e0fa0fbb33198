/**
 The records that cross a layer boundary (src/rag_engine/schemas.py) and the
 two validators that normalise role names.
 */
module Schemas {

  datatype Option<+T> = None | Some(value: T)

  /** A metadata value. Python dictionaries hold anything; these are the shapes the engine meets. */
  datatype Value =
    | Text(s: string)
    | Number(r: real)
    | Flag(b: bool)
    | Null
    | Bytes(data: seq<int>)
    | Items(vs: seq<Value>)
    | Record(fields: seq<Field>)

  /** An entry of a dictionary, which keeps its entries in order. */
  datatype Field = Field(key: string, value: Value)

  type Metadata = map<string, Value>

  datatype SecurityContext = SecurityContext(
    allowedRoles: seq<string>,
    clearanceLevel: nat,
    ownerDepartment: string,
    sensitivityClass: string,
    needToKnowRoles: seq<string>)
  {
    predicate IsPublic() {
      clearanceLevel == 0 && (allowedRoles == [] || "PUBLIC" in allowedRoles)
    }
  }

  datatype Chunk = Chunk(
    id: string,
    parentDocId: string,
    parentTitle: string,
    content: string,
    contextualAnchor: string,
    security: SecurityContext,
    ordinal: int,
    modality: string,
    metadata: Metadata)

  datatype ScoredChunk = ScoredChunk(
    chunk: Chunk,
    score: real,
    lexicalRank: Option<nat>,
    denseRank: Option<nat>)

  datatype Session = Session(userId: string, roles: seq<string>, clearanceLevel: nat)

  const MAX_LEVEL: nat := 5

  // ---- sequences of records ---------------------------------------------

  function Elements<T>(s: seq<T>): set<T> {
    set x | x in s
  }

  function Ids(chunks: seq<Chunk>): seq<string> {
    seq(|chunks|, i requires 0 <= i < |chunks| => chunks[i].id)
  }

  function Chunks(scored: seq<ScoredChunk>): seq<Chunk> {
    seq(|scored|, i requires 0 <= i < |scored| => scored[i].chunk)
  }

  /** The row under an id, as a dictionary built from the list would hold it. */
  function RowFor(rows: seq<Chunk>, id: string): (r: Option<Chunk>)
    ensures r.Some? ==> r.value in rows && r.value.id == id
    ensures r.None? ==> forall c :: c in rows ==> c.id != id
  {
    if rows == [] then None
    else if rows[|rows| - 1].id == id then Some(rows[|rows| - 1])
    else RowFor(rows[..|rows| - 1], id)
  }

  ghost predicate Distinct<T>(s: seq<T>) {
    forall i, j :: 0 <= i < j < |s| ==> s[i] != s[j]
  }

  ghost predicate DistinctIds(rows: seq<Chunk>) {
    forall i, j :: 0 <= i < j < |rows| ==> rows[i].id != rows[j].id
  }

  /** The elements of `s` that satisfy `keep`, in order. */
  function Filter<T(!new)>(keep: T -> bool, s: seq<T>): (r: seq<T>)
    ensures |r| <= |s|
  {
    if s == [] then [] else Filter(keep, s[..|s| - 1]) + if keep(s[|s| - 1]) then [s[|s| - 1]] else []
  }

  lemma {:induction false} FilterMembers<T(!new)>(keep: T -> bool, s: seq<T>)
    ensures forall x :: x in Filter(keep, s) <==> x in s && keep(x)
  {
    if s != [] {
      FilterMembers(keep, s[..|s| - 1]);
      assert forall x :: x in s <==> x in s[..|s| - 1] || x == s[|s| - 1];
    }
  }

  lemma {:induction false} FilterAppend<T(!new)>(keep: T -> bool, s: seq<T>, t: seq<T>)
    ensures Filter(keep, s + t) == Filter(keep, s) + Filter(keep, t)
  {
    if t == [] {
      assert s + t == s;
    } else {
      FilterAppend(keep, s, t[..|t| - 1]);
      assert (s + t)[..|s + t| - 1] == s + t[..|t| - 1];
      assert (s + t)[|s + t| - 1] == t[|t| - 1];
      var last := if keep(t[|t| - 1]) then [t[|t| - 1]] else [];
      assert Filter(keep, s) + (Filter(keep, t[..|t| - 1]) + last) == (Filter(keep, s) + Filter(keep, t[..|t| - 1])) + last;
    }
  }

  lemma {:induction false} FilterAgree<T(!new)>(f: T -> bool, g: T -> bool, s: seq<T>)
    requires forall i :: 0 <= i < |s| ==> f(s[i]) == g(s[i])
    ensures Filter(f, s) == Filter(g, s)
  {
    if s != [] {
      FilterAgree(f, g, s[..|s| - 1]);
    }
  }

  lemma {:induction false} FilterAll<T(!new)>(keep: T -> bool, s: seq<T>)
    requires forall i :: 0 <= i < |s| ==> keep(s[i])
    ensures Filter(keep, s) == s
  {
    if s != [] {
      FilterAll(keep, s[..|s| - 1]);
    }
  }

  lemma SubsetSize<T>(a: set<T>, b: set<T>)
    requires a <= b
    ensures |a| <= |b|
  {
    assert b == a + (b - a);
  }

  // ---- role names ---------------------------------------------------------

  /** The characters `str.strip` removes. */
  predicate IsSpace(c: char) {
    var n := c as int;
    0x09 <= n <= 0x0d || 0x1c <= n <= 0x20 || n in {0x85, 0xa0, 0x1680, 0x2028, 0x2029, 0x202f, 0x205f, 0x3000}
    || 0x2000 <= n <= 0x200a
  }

  predicate IsControl(c: char) {
    c as int < 0x20
  }

  predicate IsLower(c: char) {
    'a' <= c <= 'z'
  }

  function UpperChar(c: char): (r: char)
    ensures !IsLower(r)
    ensures IsControl(r) == IsControl(c) && IsSpace(r) == IsSpace(c)
  {
    if IsLower(c) then (c as int - 32) as char else c
  }

  function Upper(s: string): (r: string)
    ensures |r| == |s| && forall i :: 0 <= i < |s| ==> r[i] == UpperChar(s[i])
  {
    if s == "" then "" else [UpperChar(s[0])] + Upper(s[1..])
  }

  function StripLeft(s: string): (r: string)
    ensures r == "" || !IsSpace(r[0])
  {
    if s != "" && IsSpace(s[0]) then StripLeft(s[1..]) else s
  }

  function StripRight(s: string): (r: string)
    ensures r == "" || !IsSpace(r[|r| - 1])
    ensures r <= s
  {
    if s != "" && IsSpace(s[|s| - 1]) then StripRight(s[..|s| - 1]) else s
  }

  function Strip(s: string): (r: string)
    ensures r == "" || (!IsSpace(r[0]) && !IsSpace(r[|r| - 1]))
  {
    StripRight(StripLeft(s))
  }

  /** `t` stands at position a of `s`, between white space only. */
  ghost predicate AllButSpace(s: string, t: string, a: nat) {
    && a + |t| <= |s| && s[a..a + |t|] == t
    && forall i :: 0 <= i < |s| && (i < a || a + |t| <= i) ==> IsSpace(s[i])
  }

  /** Stripping takes white space off both ends, all of it and nothing else. */
  lemma StripMeans(s: string)
    ensures exists a: nat :: AllButSpace(s, Strip(s), a)
    ensures Strip(s) == "" <==> forall i :: 0 <= i < |s| ==> IsSpace(s[i])
  {
    hide IsSpace, StripLeft, StripRight;
    var t := StripLeft(s);
    StripLeftMeans(s);
    StripRightMeans(t);
    EndsOff(s, t, Strip(s), |s| - |t|);
    assert AllButSpace(s, Strip(s), |s| - |t|);
    if Strip(s) != "" {
      assert s[|s| - |t|] == Strip(s)[0];
    }
  }

  /** Space off the left leaves t, and space off the right of that leaves r. */
  lemma EndsOff(s: string, t: string, r: string, a: nat)
    requires a + |t| == |s| && s[a..] == t && r <= t
    requires forall i :: 0 <= i < a ==> IsSpace(s[i])
    requires forall i :: |r| <= i < |t| ==> IsSpace(t[i])
    ensures AllButSpace(s, r, a)
  {
    hide IsSpace;
    forall i | a + |r| <= i < |s|
      ensures IsSpace(s[i])
    {
      assert s[i] == t[i - a];
    }
  }

  lemma {:induction false} StripLeftMeans(s: string)
    ensures |StripLeft(s)| <= |s| && s[|s| - |StripLeft(s)|..] == StripLeft(s)
    ensures forall i :: 0 <= i < |s| - |StripLeft(s)| ==> IsSpace(s[i])
  {
    hide IsSpace;
    if s != "" {
      StripLeftMeans(s[1..]);
    }
  }

  lemma {:induction false} StripRightMeans(s: string)
    ensures forall i :: |StripRight(s)| <= i < |s| ==> IsSpace(s[i])
  {
    hide IsSpace;
    if s != "" {
      StripRightMeans(s[..|s| - 1]);
    }
  }

  /** Upper-casing moves the letters a to z and nothing else. */
  lemma UpperMeans(s: string, i: nat)
    requires i < |s|
    ensures |Upper(s)| == |s|
    ensures 'a' <= s[i] <= 'z' ==> Upper(s)[i] as int == s[i] as int - 32
    ensures !('a' <= s[i] <= 'z') ==> Upper(s)[i] == s[i]
  {
  }

  predicate HasControl(s: string) {
    exists i :: 0 <= i < |s| && IsControl(s[i])
  }

  /** A role name as a validated session carries it. */
  predicate IsRole(r: string) {
    && r != ""
    && !IsSpace(r[0]) && !IsSpace(r[|r| - 1])
    && (forall i :: 0 <= i < |r| ==> !IsControl(r[i]) && !IsLower(r[i]))
  }

  lemma UpperIsRole(r: string)
    requires r != "" && !IsSpace(r[0]) && !IsSpace(r[|r| - 1]) && !HasControl(r)
    ensures IsRole(Upper(r))
  {
  }

  predicate ValidSession(s: Session) {
    s.clearanceLevel <= MAX_LEVEL && forall r :: r in s.roles ==> IsRole(r)
  }

  /** The session validator: strips, skips blanks, refuses control characters, upper-cases. */
  function SessionRoles(roles: seq<string>): Option<seq<string>> {
    if roles == [] then Some([])
    else
      var kept, r := SessionRoles(roles[..|roles| - 1]), Strip(roles[|roles| - 1]);
      if kept.None? || HasControl(r) then None
      else Some(kept.value + if r == "" then [] else [Upper(r)])
  }

  lemma {:induction false} RefusalIsFinal(roles: seq<string>, n: nat)
    requires n <= |roles| && SessionRoles(roles[..n]).None?
    ensures SessionRoles(roles).None?
  {
    if n < |roles| {
      assert roles[..|roles| - 1][..n] == roles[..n];
      RefusalIsFinal(roles[..|roles| - 1], n);
    } else {
      assert roles[..n] == roles;
    }
  }

  method ValidateRoles(roles: seq<string>) returns (out: Option<seq<string>>)
    ensures out == SessionRoles(roles)
  {
    var kept: seq<string> := [];
    for i := 0 to |roles|
      invariant SessionRoles(roles[..i]) == Some(kept)
    {
      var r := Strip(roles[i]);
      assert roles[..i + 1][..i] == roles[..i];
      if HasControl(r) {
        RefusalIsFinal(roles, i + 1);
        return None;
      }
      kept := kept + if r == "" then [] else [Upper(r)];
    }
    assert roles[..|roles|] == roles;
    out := Some(kept);
  }

  /** The validator refuses exactly the lists with a control character inside a name; what it accepts is role names. */
  lemma {:induction false} SessionRolesValid(roles: seq<string>)
    ensures SessionRoles(roles).None? <==> exists i :: 0 <= i < |roles| && HasControl(Strip(roles[i]))
    ensures SessionRoles(roles).Some? ==>
      forall i :: 0 <= i < |SessionRoles(roles).value| ==> IsRole(SessionRoles(roles).value[i])
  {
    hide Strip, HasControl, Upper, IsRole;
    if roles != [] {
      var n := |roles| - 1;
      var r := Strip(roles[n]);
      SessionRolesValid(roles[..n]);
      assert forall i :: 0 <= i < n ==> roles[..n][i] == roles[i];
      if r != "" && !HasControl(r) {
        UpperIsRole(r);
      }
    }
  }

  /** One clean name: refused for a character below the space, otherwise kept upper-cased, inner spaces and all. */
  lemma OneRole(r: string)
    requires r != "" && !IsSpace(r[0]) && !IsSpace(r[|r| - 1])
    ensures SessionRoles([r]) == if HasBelow(r, 32) then None else Some([Upper(r)])
  {
    hide Upper, Strip, IsSpace, SessionRoles, HasControl, HasBelow;
    StripClean(r);
    FirstRole([r]);
    ControlIsBelow(r);
    assert [] + [Upper(r)] == [Upper(r)];
  }

  lemma FirstRole(roles: seq<string>)
    requires |roles| == 1
    ensures SessionRoles(roles) ==
      if HasControl(Strip(roles[0])) then None
      else Some([] + if Strip(roles[0]) == "" then [] else [Upper(Strip(roles[0]))])
  {
    hide Upper, Strip, HasControl;
    assert roles[..|roles| - 1] == [];
  }

  lemma ControlIsBelow(s: string)
    ensures HasControl(s) <==> HasBelow(s, 32)
  {
  }

  predicate HasBelow(s: string, n: nat) {
    exists i :: 0 <= i < |s| && s[i] as int < n
  }

  lemma StripClean(r: string)
    requires r != "" && !IsSpace(r[0]) && !IsSpace(r[|r| - 1])
    ensures Strip(r) == r
  {
    hide IsSpace;
  }

  /** The chunk-side validator: the same normalisation, de-duplicated in first-seen order. */
  function NormalRoles(roles: seq<string>): (out: seq<string>)
    ensures Distinct(out) && "" !in out
    ensures forall k :: k in out <==> k != "" && exists r :: r in roles && Upper(Strip(r)) == k
  {
    if roles == [] then []
    else
      var init := roles[..|roles| - 1];
      var rest, key := NormalRoles(init), Upper(Strip(roles[|roles| - 1]));
      assert forall r :: r in roles <==> r in init || r == roles[|roles| - 1];
      assert key != "" ==> forall k :: k in rest + [key] <==> k in rest || k == key;
      if key == "" || key in rest then rest else rest + [key]
  }

  /** First-seen order: a list's names come first, and one more name is added exactly when it is new and not blank. */
  lemma NormalRolesAppend(roles: seq<string>, r: string)
    ensures var before, key := NormalRoles(roles), Upper(Strip(r));
      NormalRoles(roles + [r]) == if key == "" || key in before then before else before + [key]
  {
    hide Strip, Upper;
    assert (roles + [r])[..|roles|] == roles;
  }

  /** What a session keeps: each name that is not blank, stripped and upper-cased, in order. */
  lemma SessionRolesAppend(roles: seq<string>, r: string)
    requires SessionRoles(roles).Some? && !HasControl(Strip(r))
    ensures SessionRoles(roles + [r]) == Some(SessionRoles(roles).value + if Strip(r) == "" then [] else [Upper(Strip(r))])
  {
    hide Strip, Upper, HasControl;
    assert (roles + [r])[..|roles|] == roles;
  }

  method NormaliseRoles(roles: seq<string>) returns (out: seq<string>)
    ensures out == NormalRoles(roles)
  {
    var seen: set<string> := {};
    out := [];
    for i := 0 to |roles|
      invariant out == NormalRoles(roles[..i])
      invariant forall k :: k in seen <==> k in out
    {
      var key := Upper(Strip(roles[i]));
      assert roles[..i + 1][..i] == roles[..i];
      if key != "" && key !in seen {
        seen := seen + {key};
        out := out + [key];
      }
    }
    assert roles[..|roles|] == roles;
  }
}
