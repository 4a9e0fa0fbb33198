/**
 What the chunker promises: nothing is lost, no window is empty or too long, and no other
 in-order grouping needs fewer windows.
 */
module ChunkerFacts {
  import Schemas
  import opened Chunker

  // ---- paragraphs --------------------------------------------------------------------

  function Rejoin(parts: seq<string>): string
    requires parts != []
  {
    if |parts| == 1 then parts[0] else parts[0] + BLANK + Rejoin(parts[1..])
  }

  lemma RejoinCons(part: string, parts: seq<string>)
    requires parts != []
    ensures Rejoin([part] + parts) == part + BLANK + Rejoin(parts)
  {
    assert ([part] + parts)[1..] == parts;
  }

  /** Splitting at blank lines loses only the blank lines. */
  lemma {:induction false} SplitRejoins(s: string)
    ensures Split(s) != [] && Rejoin(Split(s)) == s
    decreases |s|
  {
    hide Split, FirstBlank;
    SplitStep(s);
    var i := FirstBlank(s);
    if i < |s| {
      var rest := s[i + 2..];
      SplitRejoins(rest);
      RejoinCons(s[..i], Split(rest));
      BlankApart(s, i);
    }
  }

  lemma SplitStep(s: string)
    ensures var i := FirstBlank(s);
      Split(s) == if i == |s| then [s] else [s[..i]] + Split(s[i + 2..])
  {
    hide FirstBlank;
  }

  lemma BlankApart(s: string, i: nat)
    requires i + 2 <= |s| && s[i..i + 2] == BLANK
    ensures s[..i] + BLANK + s[i + 2..] == s
  {
    assert s == s[..i] + s[i..i + 2] + s[i + 2..];
  }

  /** No part holds a blank line, nor does one begin in it where it was cut: each cut is at the first blank line. */
  ghost predicate CutAtFirst(parts: seq<string>) {
    forall k :: 0 <= k < |parts| ==> CutBefore(parts[k] + if k < |parts| - 1 then "\n\n" else "", |parts[k]|)
  }

  ghost predicate CutBefore(text: string, n: nat) {
    forall j :: 0 <= j < n && j + 1 < |text| ==> !(text[j] == '\n' && text[j + 1] == '\n')
  }

  lemma {:induction false} FirstBlankIsFirst(s: string)
    ensures CutBefore(s, FirstBlank(s))
  {
    if |s| >= 2 && !(s[0] == '\n' && s[1] == '\n') {
      FirstBlankIsFirst(s[1..]);
      forall j | 0 <= j < FirstBlank(s) && j + 1 < |s|
        ensures !(s[j] == '\n' && s[j + 1] == '\n')
      {
        assert j > 0 ==> s[j] == s[1..][j - 1] && s[j + 1] == s[1..][j];
      }
    }
  }

  lemma {:induction false} SplitCutsAtFirst(s: string)
    ensures CutAtFirst(Split(s))
    decreases |s|
  {
    hide Split, FirstBlank, CutBefore;
    SplitStep(s);
    FirstBlankIsFirst(s);
    var i := FirstBlank(s);
    if i < |s| {
      SplitCutsAtFirst(s[i + 2..]);
      SplitRejoins(s[i + 2..]);
      PrefixCut(s, i);
    } else {
      assert s + "" == s;
    }
  }

  lemma PrefixCut(s: string, i: nat)
    requires i + 2 <= |s| && s[i..i + 2] == BLANK && CutBefore(s, i)
    ensures CutBefore(s[..i] + "\n\n", i)
  {
    assert s[..i] + BLANK == s[..i + 2];
  }

  /** The paragraphs are the parts in order, stripped, without the blank ones. */
  lemma {:induction false} ParagraphsAre(a: seq<string>, part: string)
    ensures NonBlank(a + [part]) == NonBlank(a) + if Schemas.Strip(part) == "" then [] else [Schemas.Strip(part)]
    ensures NonBlank([]) == []
  {
    hide Schemas.Strip;
    if a == [] {
      assert [] + [part] == [part];
    } else {
      ParagraphsAre(a[1..], part);
      assert (a + [part])[1..] == a[1..] + [part];
    }
  }

  /** A window of several paragraphs is their text joined by blank lines. */
  lemma {:induction false} JoinIsRejoin(ps: seq<string>)
    requires ps != []
    ensures Join(ps) == Rejoin(ps)
  {
    if |ps| > 1 {
      var n := |ps| - 1;
      JoinIsRejoin(ps[..n]);
      RejoinLast(ps[..n], ps[n]);
      assert ps == ps[..n] + [ps[n]];
    }
  }

  lemma {:induction false} RejoinLast(ps: seq<string>, last: string)
    requires ps != []
    ensures Rejoin(ps + [last]) == Rejoin(ps) + BLANK + last
  {
    var more := ps + [last];
    assert more[1..] == ps[1..] + [last];
    if |ps| == 1 {
      assert Rejoin(more[1..]) == last;
    } else {
      RejoinLast(ps[1..], last);
      assert ps[0] + BLANK + (Rejoin(ps[1..]) + BLANK + last) == ps[0] + BLANK + Rejoin(ps[1..]) + BLANK + last;
    }
  }

  // ---- nothing is lost ---------------------------------------------------------------

  function Flatten(groups: seq<seq<string>>): seq<string> {
    if groups == [] then [] else groups[0] + Flatten(groups[1..])
  }

  /** A group one window (or one hard split) may hold. */
  predicate Packable(group: seq<string>, size: nat) {
    group != [] && if |group[0]| > size then |group| == 1 else JoinLen(group) <= size
  }

  lemma {:induction false} ExtendFits(ps: seq<string>, size: nat, k: nat)
    requires k <= |ps| && JoinLen(ps[..k]) <= size
    ensures JoinLen(ps[..Extend(ps, size, k)]) <= size
    decreases |ps| - k
  {
    if k < |ps| && JoinLen(ps[..k + 1]) <= size {
      ExtendFits(ps, size, k + 1);
    }
  }

  /** The groups are packable and, end to end, are the paragraphs in order. */
  lemma {:induction false} GroupsPartition(ps: seq<string>, size: nat)
    ensures Flatten(Groups(ps, size)) == ps
    ensures forall i :: 0 <= i < |Groups(ps, size)| ==> Packable(Groups(ps, size)[i], size)
    decreases |ps|
  {
    if ps != [] {
      var k := if |ps[0]| > size then 1 else Extend(ps, size, 1);
      if |ps[0]| <= size {
        assert ps[..1] == [ps[0]];
        ExtendFits(ps, size, 1);
      }
      GroupsPartition(ps[k..], size);
      assert ps == ps[..k] + ps[k..];
    }
  }

  /** The part of each hard-split window before the next one starts, end to end. */
  function StridePrefixes(windows: seq<string>, stride: nat): string {
    if windows == [] then "" else windows[0][..Min(stride, |windows[0]|)] + StridePrefixes(windows[1..], stride)
  }

  lemma PrefixesCons(w: string, windows: seq<string>, stride: nat)
    ensures StridePrefixes([w] + windows, stride) == w[..Min(stride, |w|)] + StridePrefixes(windows, stride)
  {
    assert ([w] + windows)[1..] == windows;
  }

  lemma HardSplitHead(para: string, size: nat, stride: nat)
    requires stride >= 1
    ensures HardSplit(para, size, stride) ==
            if para == "" then []
            else [para[..Min(size, |para|)]] + HardSplit(para[Min(stride, |para|)..], size, stride)
  {
  }

  /** Window k of a hard split begins k strides in and holds as many characters as the size and the text allow. */
  lemma {:induction false} HardSplitAt(para: string, size: nat, stride: nat, k: nat)
    requires stride >= 1
    ensures k < |HardSplit(para, size, stride)| <==> k * stride < |para|
    ensures k * stride < |para| ==>
      HardSplit(para, size, stride)[k] == para[k * stride..if k * stride + size <= |para| then k * stride + size else |para|]
    decreases |para|
  {
    hide HardSplit;
    HardSplitHead(para, size, stride);
    if para != "" && k > 0 {
      HardSplitAt(para[Min(stride, |para|)..], size, stride, k - 1);
      Strides(k, stride);
    }
  }

  lemma Strides(k: nat, stride: nat)
    requires k > 0
    ensures k * stride == (k - 1) * stride + stride && (k - 1) * stride >= 0
  {
  }

  lemma PrefixOfWindow(para: string, size: nat, stride: nat)
    requires stride <= size
    ensures var w := para[..Min(size, |para|)];
      w[..Min(stride, |w|)] == para[..Min(stride, |para|)] && para[..Min(stride, |para|)] + para[Min(stride, |para|)..] == para
  {
  }

  lemma {:induction false} HardSplitCovers(para: string, size: nat, stride: nat)
    requires 1 <= stride <= size
    ensures StridePrefixes(HardSplit(para, size, stride), stride) == para
    decreases |para|
  {
    assert StridePrefixes([], stride) == "";
    hide HardSplit, StridePrefixes, Min;
    HardSplitHead(para, size, stride);
    if para != "" {
      var rest := para[Min(stride, |para|)..];
      HardSplitCovers(rest, size, stride);
      PrefixesCons(para[..Min(size, |para|)], HardSplit(rest, size, stride), stride);
      PrefixOfWindow(para, size, stride);
    }
  }

  lemma {:induction false} PrefixesTooShort(para: string, size: nat, stride: nat)
    requires stride >= 1
    ensures |StridePrefixes(HardSplit(para, size, stride), stride)| <= |para|
    ensures stride > size && |para| > size ==> |StridePrefixes(HardSplit(para, size, stride), stride)| < |para|
    decreases |para|
  {
    if para != "" {
      var rest := para[Min(stride, |para|)..];
      PrefixesTooShort(rest, size, stride);
      assert HardSplit(para, size, stride)[1..] == HardSplit(rest, size, stride);
    }
  }

  /** A hard split reconstructs an oversized paragraph exactly when the overlap is not negative and windows hold something. */
  lemma SplitLosesNothingExactly(para: string, size: nat, overlap: int)
    requires |para| > size
    ensures StridePrefixes(HardSplit(para, size, Stride(size, overlap)), Stride(size, overlap)) == para
       <==> overlap >= 0 && size >= 1
  {
    if overlap >= 0 && size >= 1 {
      HardSplitCovers(para, size, Stride(size, overlap));
    } else {
      PrefixesTooShort(para, size, Stride(size, overlap));
    }
  }

  /** A paragraph stands whole in one window, or a run of windows is its hard split and spells it. */
  ghost predicate Kept(windows: seq<string>, para: string, size: nat, stride: nat) {
    if |para| > size then
      exists j, k :: 0 <= j <= k <= |windows| && SpelledBy(windows[j..k], para, size, stride)
    else
      exists j :: 0 <= j < |windows| && Holds(windows[j], para)
  }

  ghost predicate SpelledBy(windows: seq<string>, para: string, size: nat, stride: nat) {
    stride >= 1 && windows == HardSplit(para, size, stride) && StridePrefixes(windows, stride) == para
  }

  ghost predicate Holds(window: string, para: string) {
    exists o :: StandsAt(window, para, o)
  }

  predicate StandsAt(window: string, para: string, o: nat) {
    o + |para| <= |window| && window[o..o + |para|] == para
  }

  lemma {:induction false} JoinHolds(ps: seq<string>, i: nat)
    requires i < |ps|
    ensures Holds(Join(ps), ps[i])
  {
    if |ps| == 1 {
      assert StandsAt(Join(ps), ps[i], 0);
    } else {
      var n := |ps| - 1;
      var init := Join(ps[..n]);
      if i == n {
        assert StandsAt(Join(ps), ps[i], |init| + 2);
      } else {
        JoinHolds(ps[..n], i);
        var o: nat :| StandsAt(init, ps[i], o);
        assert Join(ps)[o..o + |ps[i]|] == init[o..o + |ps[i]|];
        assert StandsAt(Join(ps), ps[i], o);
      }
    }
  }

  lemma {:induction false} JoinLenAt(ps: seq<string>, i: nat)
    requires i < |ps|
    ensures |ps[i]| <= JoinLen(ps)
  {
    if |ps| > 1 && i < |ps| - 1 {
      JoinLenAt(ps[..|ps| - 1], i);
    }
  }

  lemma GroupKept(group: seq<string>, size: nat, stride: nat, i: nat)
    requires Packable(group, size) && 1 <= stride <= size && i < |group|
    ensures Kept(Render(group, size, stride), group[i], size, stride)
  {
    hide Join, JoinLen, HardSplit, StridePrefixes, Holds;
    var windows := Render(group, size, stride);
    if |group[0]| > size {
      HardSplitCovers(group[0], size, stride);
      assert windows[0..|windows|] == windows;
    } else {
      JoinLenAt(group, i);
      JoinHolds(group, i);
      assert Holds(windows[0], group[i]);
    }
  }

  lemma KeptAmong(before: seq<string>, windows: seq<string>, after: seq<string>, para: string, size: nat, stride: nat)
    requires Kept(windows, para, size, stride)
    ensures Kept(before + windows + after, para, size, stride)
  {
    hide Holds, SpelledBy;
    var all, n := before + windows + after, |before|;
    if |para| > size {
      var j, k :| 0 <= j <= k <= |windows| && SpelledBy(windows[j..k], para, size, stride);
      assert all[n + j..n + k] == windows[j..k];
    } else {
      var j :| 0 <= j < |windows| && Holds(windows[j], para);
      assert all[n + j] == windows[j];
    }
  }

  lemma {:induction false} RenderKeeps(groups: seq<seq<string>>, size: nat, stride: nat, i: nat)
    requires 1 <= stride <= size
    requires forall g :: 0 <= g < |groups| ==> groups[g] != [] && Packable(groups[g], size)
    requires i < |Flatten(groups)|
    ensures Kept(RenderAll(groups, size, stride), Flatten(groups)[i], size, stride)
  {
    hide Kept, Render, Packable;
    var g, later := groups[0], RenderAll(groups[1..], size, stride);
    var first := Render(g, size, stride);
    if i < |g| {
      GroupKept(g, size, stride, i);
      KeptAmong([], first, later, g[i], size, stride);
      assert [] + first + later == first + later;
    } else {
      var para := Flatten(groups[1..])[i - |g|];
      RenderKeeps(groups[1..], size, stride, i - |g|);
      KeptAmong(first, later, [], para, size, stride);
      assert first + later + [] == first + later;
    }
  }

  /** Nothing a document says is lost: each of its paragraphs is kept by its windows. */
  lemma NothingIsLost(content: string, size: nat, overlap: int, i: nat)
    requires size >= 1 && overlap >= 0 && i < |Paragraphs(content)|
    ensures Kept(Windows(Paragraphs(content), size, Stride(size, overlap)), Paragraphs(content)[i], size, Stride(size, overlap))
  {
    hide Kept, Packable, Groups, RenderAll, Paragraphs;
    var ps := Paragraphs(content);
    GroupsPartition(ps, size);
    GroupsNonEmpty(ps, size);
    RenderKeeps(Groups(ps, size), size, Stride(size, overlap), i);
  }

  // ---- windows are non-empty and fit --------------------------------------------------------

  predicate Fits(w: string, size: nat) {
    1 <= |w| <= size
  }

  lemma {:induction false} HardSplitFits(para: string, size: nat, stride: nat)
    requires size >= 1 && stride >= 1
    ensures forall i :: 0 <= i < |HardSplit(para, size, stride)| ==> Fits(HardSplit(para, size, stride)[i], size)
    decreases |para|
  {
    if para != "" {
      HardSplitFits(para[Min(stride, |para|)..], size, stride);
    }
  }

  ghost predicate AllTrimmed(ps: seq<string>) {
    forall i :: 0 <= i < |ps| ==> Trimmed(ps[i])
  }

  lemma {:induction false} RenderFits(groups: seq<seq<string>>, size: nat, stride: nat)
    requires size >= 1 && stride >= 1
    requires forall i :: 0 <= i < |groups| ==> groups[i] != [] && Packable(groups[i], size)
    requires AllTrimmed(Flatten(groups))
    ensures forall i :: 0 <= i < |RenderAll(groups, size, stride)| ==> Fits(RenderAll(groups, size, stride)[i], size)
  {
    hide Fits, HardSplit, Trimmed, JoinLen, Join;
    if groups != [] {
      var g, rest := groups[0], Flatten(groups[1..]);
      assert forall i :: 0 <= i < |rest| ==> rest[i] == Flatten(groups)[|g| + i];
      assert forall i :: 0 <= i < |g| ==> g[i] == Flatten(groups)[i];
      RenderFits(groups[1..], size, stride);
      if |g[0]| > size {
        HardSplitFits(g[0], size, stride);
      } else {
        JoinFits(g, size);
      }
    }
  }

  lemma JoinFits(g: seq<string>, size: nat)
    requires g != [] && AllTrimmed(g) && JoinLen(g) <= size
    ensures Fits(Join(g), size)
  {
    JoinFacts(g);
  }

  /** Every window is non-empty and no longer than the size, exactly when the size is positive or there is nothing to window. */
  lemma WindowsFit(content: string, size: nat, stride: nat)
    requires stride >= 1
    ensures var windows := Windows(Paragraphs(content), size, stride);
      (forall i :: 0 <= i < |windows| ==> Fits(windows[i], size)) <==> size >= 1 || Paragraphs(content) == []
  {
    hide Split, NonBlank;
    var ps := Paragraphs(content);
    if size >= 1 {
      PositiveFits(content, size, stride);
    } else if ps == [] {
      NothingToPack(size, stride);
    } else {
      ZeroShows(ps, stride);
      assert !Fits(Windows(ps, size, stride)[0], size);
    }
  }

  lemma ZeroShows(ps: seq<string>, stride: nat)
    requires stride >= 1 && ps != [] && ps[0] != ""
    ensures Windows(ps, 0, stride) != [] && Windows(ps, 0, stride)[0] == ""
  {
    OversizedGroup(ps[0], ps[1..], 0, stride);
    assert [ps[0]] + ps[1..] == ps;
  }

  lemma PositiveFits(content: string, size: nat, stride: nat)
    requires size >= 1 && stride >= 1
    ensures var windows := Windows(Paragraphs(content), size, stride);
      forall i :: 0 <= i < |windows| ==> Fits(windows[i], size)
  {
    hide Fits, Trimmed, RenderAll;
    var ps := Paragraphs(content);
    GroupsPartition(ps, size);
    GroupsNonEmpty(ps, size);
    assert AllTrimmed(ps);
    RenderFits(Groups(ps, size), size, stride);
  }

  // ---- greedy packing is optimal -----------------------------------------------------------

  /** How many windows a group takes. */
  function Cost(group: seq<string>, size: nat, stride: nat): nat
    requires group != [] && stride >= 1
  {
    |Render(group, size, stride)|
  }

  function Total(groups: seq<seq<string>>, size: nat, stride: nat): nat
    requires stride >= 1 && forall i :: 0 <= i < |groups| ==> groups[i] != []
  {
    if groups == [] then 0 else Cost(groups[0], size, stride) + Total(groups[1..], size, stride)
  }

  function GreedyTotal(ps: seq<string>, size: nat, stride: nat): nat
    requires stride >= 1
  {
    |Windows(ps, size, stride)|
  }

  /** The first greedy group and what is left. */
  function First(ps: seq<string>, size: nat): (k: nat)
    requires ps != []
    ensures 1 <= k <= |ps|
  {
    if |ps[0]| > size then 1 else Extend(ps, size, 1)
  }

  lemma GreedyStep(ps: seq<string>, size: nat, stride: nat)
    requires ps != [] && stride >= 1
    ensures var k := First(ps, size);
      GreedyTotal(ps, size, stride) == Cost(ps[..k], size, stride) + GreedyTotal(ps[k..], size, stride)
  {
  }

  lemma {:induction false} JoinLenDrop(ps: seq<string>)
    requires |ps| >= 2
    ensures JoinLen(ps[1..]) <= JoinLen(ps) && |ps[1]| <= JoinLen(ps)
  {
    var init := ps[..|ps| - 1];
    if |ps| > 2 {
      JoinLenDrop(init);
      assert ps[1..][..|ps| - 2] == init[1..];
    }
  }

  /** No packable group is longer than the greedy one. */
  lemma FirstIsLongest(ps: seq<string>, size: nat, m: nat)
    requires 1 <= m <= |ps| && Packable(ps[..m], size)
    ensures m <= First(ps, size)
  {
    if |ps[0]| <= size {
      forall j | 1 < j <= m
        ensures JoinLen(ps[..j]) <= size
      {
        JoinLenPrefix(ps[..m], j);
        assert ps[..m][..j] == ps[..j];
      }
      ExtendFrom(ps, size, 1, m);
    }
  }

  /** Starting later never needs more windows. */
  lemma {:induction false} LaterIsCheaper(ps: seq<string>, size: nat, stride: nat, i: nat)
    requires i <= |ps| && stride >= 1
    ensures GreedyTotal(ps[i..], size, stride) <= GreedyTotal(ps, size, stride)
    decreases |ps|
  {
    hide GreedyTotal, Render, JoinLen, Extend;
    if i == 0 {
      assert ps[0..] == ps;
    } else {
      var rest := ps[1..];
      assert ps[i..] == rest[i - 1..];
      LaterIsCheaper(rest, size, stride, i - 1);
      OneLater(ps, size, stride);
    }
  }

  lemma {:induction false} OneLater(ps: seq<string>, size: nat, stride: nat)
    requires ps != [] && stride >= 1
    ensures GreedyTotal(ps[1..], size, stride) <= GreedyTotal(ps, size, stride)
    decreases |ps|, 0
  {
    hide GreedyTotal, JoinLen, Extend, HardSplit;
    var k := First(ps, size);
    GreedyStep(ps, size, stride);
    if k > 1 {
      var rest := ps[1..];
      assert ps[..1] == [ps[0]];
      SmallFirst(ps, size);
      assert ps[..k][1..] == rest[..k - 1];
      FirstIsLongest(rest, size, k - 1);
      GreedyStep(rest, size, stride);
      var n := First(rest, size);
      assert rest[n..] == ps[k..][n + 1 - k..];
      LaterIsCheaper(ps[k..], size, stride, n + 1 - k);
    }
  }

  /** A first group of several paragraphs: it fits, and without its first paragraph it still does. */
  lemma SmallFirst(ps: seq<string>, size: nat)
    requires ps != [] && First(ps, size) > 1
    ensures |ps[0]| <= size && Packable(ps[..First(ps, size)][1..], size) && |ps[1]| <= size
  {
    var k := First(ps, size);
    assert ps[..1] == [ps[0]];
    ExtendFits(ps, size, 1);
    JoinLenDrop(ps[..k]);
  }

  /** The greedy chunker uses the fewest windows of any in-order grouping of the same paragraphs. */
  lemma {:induction false} GreedyIsOptimal(groups: seq<seq<string>>, size: nat, stride: nat)
    requires stride >= 1 && forall i :: 0 <= i < |groups| ==> groups[i] != [] && Packable(groups[i], size)
    ensures GreedyTotal(Flatten(groups), size, stride) <= Total(groups, size, stride)
  {
    hide GreedyTotal, JoinLen, Extend, HardSplit;
    var ps := Flatten(groups);
    if groups == [] {
      NothingToPack(size, stride);
    } else {
      var g, later := groups[0], Flatten(groups[1..]);
      GreedyIsOptimal(groups[1..], size, stride);
      assert ps[..|g|] == g && ps[|g|..] == later;
      FirstIsLongest(ps, size, |g|);
      GreedyStep(ps, size, stride);
      var k := First(ps, size);
      assert ps[k..] == later[k - |g|..];
      LaterIsCheaper(later, size, stride, k - |g|);
      assert ps[0] == g[0] && ps[..k][0] == g[0];
    }
  }

  lemma NothingToPack(size: nat, stride: nat)
    requires stride >= 1
    ensures GreedyTotal([], size, stride) == 0
  {
  }
}
