/** Sorting by descending key, ties in their old order: what `sorted(..., key=lambda s: -s.score)` computes. */
module StableSort {
  function Insert<T(!new)>(key: T -> real, sorted: seq<T>, x: T): seq<T> {
    if sorted != [] && key(sorted[|sorted| - 1]) < key(x)
    then Insert(key, sorted[..|sorted| - 1], x) + [sorted[|sorted| - 1]]
    else sorted + [x]
  }

  function Sort<T(!new)>(key: T -> real, s: seq<T>): seq<T> {
    if s == [] then [] else Insert(key, Sort(key, s[..|s| - 1]), s[|s| - 1])
  }

  ghost predicate Descending<T(!new)>(key: T -> real, s: seq<T>) {
    forall i, j :: 0 <= i < j < |s| ==> key(s[i]) >= key(s[j])
  }

  lemma {:induction false} InsertDescending<T(!new)>(key: T -> real, s: seq<T>, x: T)
    requires Descending(key, s)
    ensures Descending(key, Insert(key, s, x))
    ensures |Insert(key, s, x)| == |s| + 1
    ensures forall i :: 0 <= i <= |s| ==> key(Insert(key, s, x)[i]) >= key(x) || (i > 0 && key(Insert(key, s, x)[i]) == key(s[i - 1]))
  {
    if s != [] && key(s[|s| - 1]) < key(x) {
      InsertDescending(key, s[..|s| - 1], x);
    }
  }

  lemma {:induction false} SortDescending<T(!new)>(key: T -> real, s: seq<T>)
    ensures Descending(key, Sort(key, s))
  {
    if s != [] {
      SortDescending(key, s[..|s| - 1]);
      InsertDescending(key, Sort(key, s[..|s| - 1]), s[|s| - 1]);
    }
  }

  /** The elements of one key value, in order. */
  function Level<T(!new)>(key: T -> real, v: real, s: seq<T>): seq<T> {
    if s == [] then [] else Level(key, v, s[..|s| - 1]) + if key(s[|s| - 1]) == v then [s[|s| - 1]] else []
  }

  lemma LevelAppend<T(!new)>(key: T -> real, v: real, s: seq<T>, x: T)
    ensures Level(key, v, s + [x]) == Level(key, v, s) + if key(x) == v then [x] else []
  {
    assert (s + [x])[..|s|] == s;
  }

  lemma {:induction false} InsertLevel<T(!new)>(key: T -> real, v: real, s: seq<T>, x: T)
    ensures Level(key, v, Insert(key, s, x)) == Level(key, v, s) + if key(x) == v then [x] else []
  {
    hide Level;
    if s != [] && key(s[|s| - 1]) < key(x) {
      var init, last := s[..|s| - 1], s[|s| - 1];
      InsertLevel(key, v, init, x);
      assert s == init + [last];
      LevelAppend(key, v, init, last);
      LevelAppend(key, v, Insert(key, init, x), last);
    } else {
      LevelAppend(key, v, s, x);
    }
  }

  lemma {:induction false} InsertMultiset<T(!new)>(key: T -> real, s: seq<T>, x: T)
    ensures multiset(Insert(key, s, x)) == multiset(s) + multiset{x}
  {
    if s != [] && key(s[|s| - 1]) < key(x) {
      var n := |s| - 1;
      InsertMultiset(key, s[..n], x);
      assert s == s[..n] + [s[n]];
    }
  }

  /** Equal keys stay in order. */
  lemma {:induction false} SortStable<T(!new)>(key: T -> real, v: real, s: seq<T>)
    ensures Level(key, v, Sort(key, s)) == Level(key, v, s)
  {
    if s != [] {
      SortStable(key, v, s[..|s| - 1]);
      InsertLevel(key, v, Sort(key, s[..|s| - 1]), s[|s| - 1]);
    }
  }

  lemma {:induction false} SortPermutes<T(!new)>(key: T -> real, s: seq<T>)
    ensures multiset(Sort(key, s)) == multiset(s)
  {
    hide Insert;
    if s != [] {
      var n := |s| - 1;
      SortPermutes(key, s[..n]);
      InsertMultiset(key, Sort(key, s[..n]), s[n]);
      assert s == s[..n] + [s[n]];
    }
  }

  function Take<T>(s: seq<T>, k: nat): seq<T> {
    if |s| <= k then s else s[..k]
  }

  lemma {:induction false} SortMembers<T(!new)>(key: T -> real, s: seq<T>, i: nat)
    requires i < |Sort(key, s)|
    ensures Sort(key, s)[i] in s
  {
    SortPermutes(key, s);
    assert Sort(key, s)[i] in multiset(Sort(key, s));
  }

  /** The first k of a sorted list: as many as there are, and nothing left out has a greater key. */
  lemma TopK<T(!new)>(key: T -> real, s: seq<T>, k: nat)
    ensures var sorted, r := Sort(key, s), Take(Sort(key, s), k);
      && |r| == (if |s| <= k then |s| else k)
      && Descending(key, r)
      && multiset(r) + multiset(sorted[|r|..]) == multiset(s)
      && forall i, j :: 0 <= i < |r| <= j < |sorted| ==> key(sorted[j]) <= key(r[i])
  {
    hide Sort;
    var sorted := Sort(key, s);
    SortPermutes(key, s);
    SortDescending(key, s);
    assert |multiset(sorted)| == |multiset(s)|;
    var r := Take(sorted, k);
    assert sorted == r + sorted[|r|..];
  }

  /** The greatest n of a list by key, as many as there are, greatest first. */
  ghost predicate Top<T(!new)>(key: T -> real, all: seq<T>, n: nat, kept: seq<T>) {
    && |kept| == (if |all| <= n then |all| else n)
    && Descending(key, kept)
    && multiset(kept) <= multiset(all)
    && forall x: T, i :: x in multiset(all) - multiset(kept) && 0 <= i < |kept| ==> key(x) <= key(kept[i])
  }

  lemma SortedTop<T(!new)>(key: T -> real, s: seq<T>, n: nat)
    ensures Top(key, s, n, Take(Sort(key, s), n))
  {
    hide Sort, Descending;
    var sorted, r := Sort(key, s), Take(Sort(key, s), n);
    TopK(key, s, n);
    var rest := sorted[|r|..];
    assert multiset(s) - multiset(r) == multiset(rest);
    forall x: T, i | x in multiset(s) - multiset(r) && 0 <= i < |r|
      ensures key(x) <= key(r[i])
    {
      assert x in rest;
      var j :| 0 <= j < |rest| && rest[j] == x;
      assert key(sorted[|r| + j]) <= key(r[i]);
    }
  }
}
