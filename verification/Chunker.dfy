/**
 The deterministic chunker (src/rag_engine/ingestion/markdown_loader.py, chunk_document):
 greedy packing of paragraphs into windows, with an overlapping hard split of a paragraph
 that is too long for one.
 */
module Chunker {
  import opened Schemas

  const BLANK := "\n\n"

  // ---- paragraphs --------------------------------------------------------------------

  /** Where the first blank line starts, or the length when there is none. */
  function FirstBlank(s: string): (i: nat)
    ensures i == |s| || (i + 2 <= |s| && s[i..i + 2] == BLANK)
  {
    if |s| < 2 then |s|
    else if s[0] == '\n' && s[1] == '\n' then 0
    else FirstBlank(s[1..]) + 1
  }

  function Split(s: string): seq<string>
    decreases |s|
  {
    var i := FirstBlank(s);
    if i == |s| then [s] else [s[..i]] + Split(s[i + 2..])
  }

  predicate Trimmed(s: string) {
    s != "" && !IsSpace(s[0]) && !IsSpace(s[|s| - 1])
  }

  function NonBlank(parts: seq<string>): (ps: seq<string>)
    ensures forall i :: 0 <= i < |ps| ==> Trimmed(ps[i])
  {
    if parts == [] then []
    else (if Strip(parts[0]) == "" then [] else [Strip(parts[0])]) + NonBlank(parts[1..])
  }

  function Paragraphs(content: string): (ps: seq<string>)
    ensures forall i :: 0 <= i < |ps| ==> Trimmed(ps[i])
  {
    NonBlank(Split(content))
  }

  // ---- windows -----------------------------------------------------------------------

  /** Paragraphs joined by blank lines, and the length that has. */
  function Join(ps: seq<string>): string
    requires ps != []
  {
    if |ps| == 1 then ps[0] else Join(ps[..|ps| - 1]) + BLANK + ps[|ps| - 1]
  }

  function JoinLen(ps: seq<string>): nat {
    if ps == [] then 0
    else if |ps| == 1 then |ps[0]|
    else JoinLen(ps[..|ps| - 1]) + 2 + |ps[|ps| - 1]|
  }

  function Min(a: nat, b: nat): nat {
    if a <= b then a else b
  }

  function Stride(size: nat, overlap: int): (stride: nat)
    ensures stride >= 1
  {
    if size - overlap < 1 then 1 else size - overlap
  }

  /** Windows of `size` characters, a stride apart, until the text runs out. */
  function HardSplit(para: string, size: nat, stride: nat): seq<string>
    requires stride >= 1
    decreases |para|
  {
    if para == "" then []
    else [para[..Min(size, |para|)]] + HardSplit(para[Min(stride, |para|)..], size, stride)
  }

  /** The longest prefix of at least k paragraphs that still fits one window. */
  function Extend(ps: seq<string>, size: nat, k: nat): (n: nat)
    requires k <= |ps|
    ensures k <= n <= |ps|
    decreases |ps| - k
  {
    if k < |ps| && JoinLen(ps[..k + 1]) <= size then Extend(ps, size, k + 1) else k
  }

  /** Greedy groups: an oversized paragraph alone, otherwise as many paragraphs as fit. */
  function Groups(ps: seq<string>, size: nat): seq<seq<string>>
    decreases |ps|
  {
    if ps == [] then []
    else
      var k := if |ps[0]| > size then 1 else Extend(ps, size, 1);
      [ps[..k]] + Groups(ps[k..], size)
  }

  function Render(group: seq<string>, size: nat, stride: nat): seq<string>
    requires group != [] && stride >= 1
  {
    if |group[0]| > size then HardSplit(group[0], size, stride) else [Join(group)]
  }

  /** What a list of groups renders to. */
  function RenderAll(groups: seq<seq<string>>, size: nat, stride: nat): seq<string>
    requires stride >= 1 && forall i :: 0 <= i < |groups| ==> groups[i] != []
  {
    if groups == [] then [] else Render(groups[0], size, stride) + RenderAll(groups[1..], size, stride)
  }

  lemma {:induction false} GroupsNonEmpty(ps: seq<string>, size: nat)
    ensures forall i :: 0 <= i < |Groups(ps, size)| ==> Groups(ps, size)[i] != []
    decreases |ps|
  {
    if ps != [] {
      var k := if |ps[0]| > size then 1 else Extend(ps, size, 1);
      GroupsNonEmpty(ps[k..], size);
    }
  }

  function Windows(ps: seq<string>, size: nat, stride: nat): seq<string>
    requires stride >= 1
  {
    GroupsNonEmpty(ps, size);
    RenderAll(Groups(ps, size), size, stride)
  }

  // ---- the loop packs greedily -----------------------------------------------------------

  lemma {:induction false} ExtendFrom(ps: seq<string>, size: nat, k: nat, m: nat)
    requires k <= m <= |ps|
    requires forall j :: k < j <= m ==> JoinLen(ps[..j]) <= size
    ensures Extend(ps, size, k) == Extend(ps, size, m)
    decreases m - k
  {
    if k < m {
      ExtendFrom(ps, size, k + 1, m);
    }
  }

  lemma {:induction false} JoinLenPrefix(ps: seq<string>, j: nat)
    requires j <= |ps|
    ensures JoinLen(ps[..j]) <= JoinLen(ps)
  {
    if j < |ps| {
      var init := ps[..|ps| - 1];
      JoinLenPrefix(init, j);
      assert init[..j] == ps[..j];
    } else {
      assert ps[..j] == ps;
    }
  }

  /** A group that fits and cannot take the next paragraph is the first greedy group. */
  lemma FlushGroup(cur: seq<string>, rest: seq<string>, size: nat, stride: nat)
    requires cur != [] && JoinLen(cur) <= size && stride >= 1
    requires rest != [] ==> JoinLen(cur + [rest[0]]) > size
    ensures Windows(cur + rest, size, stride) == [Join(cur)] + Windows(rest, size, stride)
  {
    var ps := cur + rest;
    JoinLenPrefix(cur, 1);
    forall j | 1 < j <= |cur|
      ensures JoinLen(ps[..j]) <= size
    {
      JoinLenPrefix(cur, j);
      assert ps[..j] == cur[..j];
    }
    ExtendFrom(ps, size, 1, |cur|);
    assert ps[..|cur|] == cur && ps[|cur|..] == rest;
    if rest != [] {
      assert ps[..|cur| + 1] == cur + [rest[0]];
    }
    GroupsNonEmpty(ps, size);
    GroupsNonEmpty(rest, size);
    assert cur[..1][0] == cur[0];
    assert Groups(ps, size) == [cur] + Groups(rest, size);
    assert Groups(ps, size)[1..] == Groups(rest, size);
  }

  lemma OversizedGroup(para: string, rest: seq<string>, size: nat, stride: nat)
    requires |para| > size && stride >= 1
    ensures Windows([para] + rest, size, stride) == HardSplit(para, size, stride) + Windows(rest, size, stride)
  {
  }

  lemma {:induction false} JoinFacts(ps: seq<string>)
    requires ps != [] && forall i :: 0 <= i < |ps| ==> Trimmed(ps[i])
    ensures |Join(ps)| == JoinLen(ps) && Trimmed(Join(ps))
  {
    if |ps| > 1 {
      JoinFacts(ps[..|ps| - 1]);
    }
  }

  lemma StripTrimmed(s: string)
    requires Trimmed(s)
    ensures Strip(s) == s
  {
  }

  /** The text from a position, which may lie past its end. */
  function From(para: string, start: nat): string {
    para[Min(start, |para|)..]
  }

  /** The window at a start position, and the windows from the next one. */
  lemma HardSplitStep(para: string, start: nat, size: nat, stride: nat)
    requires start < |para| && stride >= 1
    ensures HardSplit(From(para, start), size, stride) ==
            [para[start..Min(start + size, |para|)]] + HardSplit(From(para, start + stride), size, stride)
  {
    var rest := para[start..];
    var w, later := rest[..Min(size, |rest|)], rest[Min(stride, |rest|)..];
    assert HardSplit(rest, size, stride) == [w] + HardSplit(later, size, stride);
    hide HardSplit;
    assert w == para[start..Min(start + size, |para|)];
    assert later == From(para, start + stride);
  }

  lemma HardSplitEnds(para: string, start: nat, size: nat, stride: nat)
    requires stride >= 1
    ensures start >= |para| ==> HardSplit(From(para, start), size, stride) == []
    ensures From(para, 0) == para
  {
    assert From(para, 0) == para[0..] == para;
  }

  method HardSplitLoop(para: string, size: nat, overlap: int) returns (windows: seq<string>)
    ensures windows == HardSplit(para, size, Stride(size, overlap))
  {
    hide HardSplit, Stride, From;
    windows := [];
    var start, stride := 0, Stride(size, overlap);
    ghost var whole := HardSplit(para, size, stride);
    HardSplitEnds(para, start, size, stride);
    while start < |para|
      invariant windows + HardSplit(From(para, start), size, stride) == whole
      decreases |para| - start
    {
      HardSplitStep(para, start, size, stride);
      var w := para[start..Min(start + size, |para|)];
      Reassociate(windows, [w], HardSplit(From(para, start + stride), size, stride));
      windows := windows + [w];
      start := start + stride;
    }
    HardSplitEnds(para, start, size, stride);
    assert windows + [] == windows;
  }

  lemma Reassociate<T>(a: seq<T>, b: seq<T>, c: seq<T>)
    ensures a + (b + c) == (a + b) + c
  {
  }

  /** Adding a paragraph that fits to a non-empty buffer. */
  lemma GrowBuffer(cur: seq<string>, para: string)
    requires cur != [] && Trimmed(para) && forall j :: 0 <= j < |cur| ==> Trimmed(cur[j])
    ensures Strip(Join(cur) + BLANK + para) == Join(cur + [para])
    ensures |Join(cur)| == JoinLen(cur) && JoinLen(cur + [para]) == JoinLen(cur) + 2 + |para|
    ensures Join(cur) != "" && Join(cur + [para]) != ""
  {
    hide Strip;
    assert (cur + [para])[..|cur|] == cur;
    JoinFacts(cur);
    JoinFacts(cur + [para]);
    StripTrimmed(Join(cur + [para]));
  }

  /** Putting out a full buffer, or an oversized paragraph, leaves the windows of the rest to come. */
  lemma Flushed(windows: seq<string>, cur: seq<string>, rest: seq<string>, size: nat, stride: nat)
    requires cur != [] && JoinLen(cur) <= size && stride >= 1
    requires rest != [] ==> JoinLen(cur + [rest[0]]) > size
    ensures windows + Windows(cur + rest, size, stride) == (windows + [Join(cur)]) + Windows(rest, size, stride)
  {
    hide Windows, Join, JoinLen;
    FlushGroup(cur, rest, size, stride);
    Reassociate(windows, [Join(cur)], Windows(rest, size, stride));
  }

  lemma Oversized(windows: seq<string>, para: string, rest: seq<string>, size: nat, stride: nat)
    requires |para| > size && stride >= 1
    ensures windows + Windows([para] + rest, size, stride) ==
            (windows + HardSplit(para, size, stride)) + Windows(rest, size, stride)
  {
    hide Windows, HardSplit;
    OversizedGroup(para, rest, size, stride);
    Reassociate(windows, HardSplit(para, size, stride), Windows(rest, size, stride));
  }

  method ChunkDocument(content: string, size: nat, overlap: int) returns (windows: seq<string>)
    ensures windows == Windows(Paragraphs(content), size, Stride(size, overlap))
  {
    hide Windows, Join, JoinLen, HardSplit, Strip, Paragraphs, Stride, Trimmed;
    var ps, stride, buf := Paragraphs(content), Stride(size, overlap), "";
    ghost var cur: seq<string> := [];
    ghost var all := Windows(ps, size, stride);
    windows := [];
    assert [] + ps[0..] == ps && [] + all == all;
    for i := 0 to |ps|
      invariant (buf == "") == (cur == []) && (cur != [] ==> buf == Join(cur) && JoinLen(cur) <= size)
      invariant forall j :: 0 <= j < |cur| ==> Trimmed(cur[j])
      invariant windows + Windows(cur + ps[i..], size, stride) == all
    {
      var para := ps[i];
      ghost var rest := ps[i + 1..];
      assert ps[i..] == [para] + rest && [] + ([para] + rest) == [para] + rest;
      if cur != [] {
        GrowBuffer(cur, para);
      }
      if buf != "" && |buf| + |para| + 2 > size {
        Flushed(windows, cur, [para] + rest, size, stride);
        windows := windows + [buf];
        buf, cur := "", [];
      }
      if |para| > size {
        if buf != "" {
          windows := windows + [buf];
          buf, cur := "", [];
        }
        Oversized(windows, para, rest, size, stride);
        var pieces := HardSplitLoop(para, size, overlap);
        windows := windows + pieces;
        assert [] + rest == rest;
      } else {
        Reassociate(cur, [para], rest);
        SingleParagraph(para);
        buf := if buf != "" then Strip(buf + BLANK + para) else para;
        cur := if cur == [] then [para] else cur + [para];
      }
    }
    assert cur + ps[|ps|..] == cur + [] == cur;
    NoWindows(size, stride);
    if buf != "" {
      Flushed(windows, cur, [], size, stride);
      windows := windows + [buf];
    }
    assert windows + [] == windows;
  }

  lemma SingleParagraph(para: string)
    requires Trimmed(para)
    ensures Join([para]) == para && JoinLen([para]) == |para| && para != ""
  {
  }

  lemma NoWindows(size: nat, stride: nat)
    requires stride >= 1
    ensures Windows([], size, stride) == []
  {
  }
}
