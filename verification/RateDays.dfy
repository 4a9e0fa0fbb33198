/**
 Exactly which limits keep every half-open day of a key within its daily cap. The cap counts
 from the first call of a rolling window, so a day may straddle two windows.
 */
module RateDays {
  import opened RateLimiter
  import opened RateBounds

  function Lesser(l: Limits): int {
    if l.perMin <= l.instancePerMin then l.perMin else l.instancePerMin
  }

  const MINUTES_A_DAY: int := 1440

  /** No key ever gets more than its daily cap in a half-open day. */
  ghost predicate DayCapHolds(l: Limits) {
    forall h, key, a :: Run(l, h) ==> InDay(AcceptedBy(h, key), a) <= l.perDay
  }

  // ---- a cap too large to reach ----------------------------------------------------------

  lemma {:induction false} OwnAmongAll(h: seq<Call>, key: string, a: real, b: real)
    ensures CountIn(AcceptedBy(h, key), a, b) <= CountIn(AcceptedTimes(h), a, b)
  {
    hide CountIn;
    if h != [] {
      var n := |h| - 1;
      OwnAmongAll(h[..n], key, a, b);
      var all, own := AcceptedTimes(h[..n]), AcceptedBy(h[..n], key);
      assert all + [] == all && own + [] == own;
      CountInAppend(all, h[n].time, a, b);
      CountInAppend(own, h[n].time, a, b);
    }
  }

  /** How many of the times fall in the minute that begins at a. */
  function PerMinute(times: seq<real>, a: real): nat {
    CountIn(times, a, a + MINUTE)
  }

  ghost predicate MinuteCapped(times: seq<real>, cap: nat) {
    forall a :: PerMinute(times, a) <= cap
  }

  lemma {:induction false} MinutesAddUp(times: seq<real>, cap: nat, a: real, n: nat)
    requires MinuteCapped(times, cap)
    ensures CountIn(times, a, a + MINUTE * n as real) <= n * cap
  {
    hide CountIn;
    if n == 0 {
      assert a + MINUTE * n as real == a;
      Backwards(times, a, a);
    } else {
      var m := a + MINUTE * (n - 1) as real;
      assert a + MINUTE * n as real == m + MINUTE;
      MinutesAddUp(times, cap, a, n - 1);
      CountSplit(times, a, m, m + MINUTE);
      assert PerMinute(times, m) <= cap;
      assert (n - 1) * cap + cap == n * cap;
    }
  }

  /** What the minute caps allow in a day, whatever the daily cap. */
  lemma DayWithinMinutes(l: Limits, h: seq<Call>, key: string, a: real)
    requires Run(l, h)
    ensures InDay(AcceptedBy(h, key), a) <= MINUTES_A_DAY * Cap(Lesser(l))
  {
    hide Run, CountIn, AcceptedBy, AcceptedTimes;
    var times := AcceptedBy(h, key);
    forall b
      ensures PerMinute(times, b) <= Cap(Lesser(l))
    {
      MinuteBound(l, h, key, b);
      OwnAmongAll(h, key, b, b + MINUTE);
    }
    MinutesAddUp(times, Cap(Lesser(l)), a, MINUTES_A_DAY);
    assert MINUTE * MINUTES_A_DAY as real == DAY;
  }

  // ---- a cap of one --------------------------------------------------------------------------

  ghost predicate DayApart(times: seq<real>) {
    forall i, j :: 0 <= i < j < |times| ==> times[j] - times[i] >= DAY
  }

  /** Under a cap of one each acceptance opens a window, and is its only one. */
  ghost predicate OnePerWindow(times: seq<real>, d: Day) {
    && DayApart(times)
    && (d.NoDay? ==> times == [])
    && (d.Day? ==> times != [] && times[|times| - 1] == d.start && d.count == 1)
  }

  lemma {:induction false} RecentNone(times: seq<real>, t: real)
    requires forall i :: 0 <= i < |times| ==> t - times[i] >= MINUTE
    ensures Recent(times, t) == []
  {
    if times != [] {
      RecentNone(times[1..], t);
    }
  }

  /** A call that opens a window is accepted, unless the instance is full. */
  lemma OpeningAccepted(l: Limits, h: seq<Call>, key: string, t: real)
    requires l.perDay == 1 && l.perMin >= 1
    requires OnePerWindow(AcceptedBy(h, key), DayOf(h, key))
    requires DayOf(h, key).NoDay? || t - DayOf(h, key).start >= DAY
    ensures Due(l, h, key, t) in {Accepted, InstanceLimited}
    ensures OnePerWindow(AcceptedBy(h, key) + [t], Day(t, 1))
  {
    hide Recent, DayOf, AcceptedBy, AcceptedTimes;
    RecentNone(AcceptedBy(h, key), t);
  }

  lemma {:induction false} OneHolds(l: Limits, h: seq<Call>, key: string)
    requires Run(l, h) && l.perDay == 1 && l.perMin >= 1
    ensures OnePerWindow(AcceptedBy(h, key), DayOf(h, key))
  {
    if h != [] {
      var n := |h| - 1;
      var c, times, d := h[n], AcceptedBy(h[..n], key), DayOf(h[..n], key);
      OneHolds(l, h[..n], key);
      assert c.outcome == Due(l, h[..n], c.key, c.time);
      hide OnePerWindow, Recent, Run;
      assert times + [] == times;
      if c.key == key && c.outcome != InstanceLimited {
        if d.NoDay? || c.time - d.start >= DAY {
          OpeningAccepted(l, h[..n], key, c.time);
        } else {
          WindowUsed(times, d);
        }
      }
    }
  }

  lemma WindowUsed(times: seq<real>, d: Day)
    requires OnePerWindow(times, d) && d.Day?
    ensures d.count == 1
  {
  }

  lemma {:induction false} ApartCount(times: seq<real>, a: real)
    requires DayApart(times)
    ensures InDay(times, a) <= 1
  {
    if times != [] {
      var n := |times| - 1;
      ApartCount(times[..n], a);
      if a <= times[n] < a + DAY {
        NoneFrom(times[..n], a);
        CountSplit(times[..n], a, a, a + DAY);
      }
    }
  }

  // ---- a run over the cap ------------------------------------------------------------------------

  function Burst(key: string, t: real, n: nat): seq<Call> {
    if n == 0 then [] else Burst(key, t, n - 1) + [Call(key, t, Accepted)]
  }

  function Copies(t: real, n: nat): (times: seq<real>)
    ensures |times| == n && forall i :: 0 <= i < n ==> times[i] == t
  {
    if n == 0 then [] else Copies(t, n - 1) + [t]
  }

  /** All calls are this key's, so its acceptances are all there are. */
  ghost predicate Sole(h: seq<Call>, key: string) {
    AcceptedTimes(h) == AcceptedBy(h, key)
  }

  lemma SoleNext(h: seq<Call>, c: Call)
    requires Sole(h, c.key)
    ensures Sole(h + [c], c.key)
    ensures AcceptedBy(h + [c], c.key) == AcceptedBy(h, c.key) + if c.outcome == Accepted then [c.time] else []
    ensures c.outcome != InstanceLimited ==>
      var d := Rolled(DayOf(h, c.key), c.time);
      DayOf(h + [c], c.key) == if c.outcome == Accepted then d.(count := d.count + 1) else d
    ensures LastTime(h + [c]) == c.time
  {
    assert (h + [c])[..|h|] == h;
  }

  /** After n - 1 of a burst that has room, the next call is accepted. */
  lemma BurstDue(l: Limits, h: seq<Call>, before: seq<Call>, key: string, t: real, n: nat)
    requires Run(l, h) && Sole(before, key) && (h != [] ==> LastTime(h) + MINUTE <= t)
    requires 1 <= n <= Lesser(l) && Rolled(DayOf(before, key), t).count < l.perDay
    requires AcceptedBy(before, key) == AcceptedBy(h, key) + Copies(t, n - 1)
    ensures Due(l, before, key, t) == Accepted
  {
    hide Run, Sole, AcceptedTimes, AcceptedBy, DayOf, Recent, LastTime;
    NoneRecent(l, h, key, t);
    RecentAppend(AcceptedBy(h, key), Copies(t, n - 1), t);
    RecentAll(Copies(t, n - 1), t);
    assert [] + Copies(t, n - 1) == Copies(t, n - 1);
    SoleTimes(before, key);
  }

  /** A minute after the last call, up to the minute caps may be accepted at once, if the day has room. */
  lemma {:induction false} AddBurst(l: Limits, h: seq<Call>, key: string, t: real, n: nat)
    requires Run(l, h) && Sole(h, key) && (h != [] ==> LastTime(h) + MINUTE <= t)
    requires 1 <= n <= Lesser(l) && Rolled(DayOf(h, key), t).count + n <= l.perDay
    ensures var g, d := h + Burst(key, t, n), Rolled(DayOf(h, key), t);
      && Run(l, g) && Sole(g, key) && LastTime(g) == t
      && AcceptedBy(g, key) == AcceptedBy(h, key) + Copies(t, n)
      && DayOf(g, key) == d.(count := d.count + n)
  {
    hide Run, Sole, AcceptedTimes, AcceptedBy, DayOf, Recent, LastTime, Due;
    var before, c := h + Burst(key, t, n - 1), Call(key, t, Accepted);
    var times := AcceptedBy(h, key);
    if n == 1 {
      assert before == h && times + [] == times;
    } else {
      AddBurst(l, h, key, t, n - 1);
    }
    BurstDue(l, h, before, key, t, n);
    LastOfNothing(h, before);
    RunNext(l, before, c);
    SoleNext(before, c);
    assert h + Burst(key, t, n) == before + [c];
    Appended(times, Copies(t, n - 1), t);
  }

  lemma Appended(a: seq<real>, b: seq<real>, t: real)
    ensures (a + b) + [t] == a + (b + [t])
  {
  }

  lemma LastOfNothing(h: seq<Call>, g: seq<Call>)
    ensures g != [] && g == h ==> h != []
  {
  }

  lemma SoleTimes(h: seq<Call>, key: string)
    requires Sole(h, key)
    ensures AcceptedTimes(h) == AcceptedBy(h, key)
  {
  }

  lemma NoneRecent(l: Limits, h: seq<Call>, key: string, t: real)
    requires Run(l, h) && (h != [] ==> LastTime(h) + MINUTE <= t)
    ensures Recent(AcceptedBy(h, key), t) == []
  {
    hide Recent, Run;
    EmptyAccepted(key);
    AcceptedSorted(l, h, key);
    RecentNone(AcceptedBy(h, key), t);
  }

  /** A burst as large as the minute caps allow, every minute, until q are accepted. */
  function Fill(l: Limits, key: string, t: real, q: nat): seq<Call>
    requires Lesser(l) >= 1
    decreases q
  {
    if q <= Lesser(l) then Burst(key, t, q)
    else Burst(key, t, Lesser(l)) + Fill(l, key, t + MINUTE, q - Lesser(l))
  }

  lemma {:induction false} CopiesIn(times: seq<real>, t: real, n: nat, a: real, b: real)
    requires a <= t < b
    ensures CountIn(times + Copies(t, n), a, b) == CountIn(times, a, b) + n
  {
    hide CountIn;
    if n == 0 {
      assert times + Copies(t, n) == times;
    } else {
      CopiesIn(times, t, n - 1, a, b);
      CountInAppend(times + Copies(t, n - 1), t, a, b);
      assert times + Copies(t, n) == (times + Copies(t, n - 1)) + [t];
    }
  }

  /** q acceptances within k minutes of one window, all of them in [a, b). */
  lemma {:induction false} AddFill(l: Limits, h: seq<Call>, key: string, t: real, q: nat, k: nat, a: real, b: real)
    requires Run(l, h) && Sole(h, key) && h != [] && LastTime(h) + MINUTE <= t
    requires Lesser(l) >= 1 && k >= 1 && 1 <= q <= k * Lesser(l)
    requires var d := Rolled(DayOf(h, key), t);
      d.count + q <= l.perDay && t + MINUTE * (k - 1) as real < d.start + DAY
    requires a <= t && t + MINUTE * (k - 1) as real < b
    ensures var g, d := h + Fill(l, key, t, q), Rolled(DayOf(h, key), t);
      && Run(l, g) && Sole(g, key) && t <= LastTime(g) <= t + MINUTE * (k - 1) as real
      && DayOf(g, key) == d.(count := d.count + q)
      && CountIn(AcceptedBy(g, key), a, b) == CountIn(AcceptedBy(h, key), a, b) + q
    decreases q
  {
    hide Run, Sole, AcceptedBy, AcceptedTimes, DayOf, CountIn, Burst, Copies, LastTime;
    var m := Lesser(l);
    if q <= m {
      AddBurst(l, h, key, t, q);
      CopiesIn(AcceptedBy(h, key), t, q, a, b);
    } else {
      assert k * m - m == (k - 1) * m;
      assert k >= 2;
      var g := h + Burst(key, t, m);
      AddBurst(l, h, key, t, m);
      CopiesIn(AcceptedBy(h, key), t, m, a, b);
      assert t + MINUTE + MINUTE * (k - 2) as real == t + MINUTE * (k - 1) as real;
      BurstNonEmpty(key, t, m);
      AddFill(l, g, key, t + MINUTE, q - m, k - 1, a, b);
      assert h + Fill(l, key, t, q) == g + Fill(l, key, t + MINUTE, q - m);
    }
  }

  lemma BurstNonEmpty(key: string, t: real, n: nat)
    requires n >= 1
    ensures Burst(key, t, n) != []
  {
  }

  /**
   One acceptance opens a window; more come in its last minute, and the rest fill the next
   window from its first moment: one more than the cap, in one day.
   */
  lemma OverTheCap(l: Limits) returns (h: seq<Call>)
    requires Lesser(l) >= 1 && 2 <= l.perDay < MINUTES_A_DAY * Lesser(l)
    ensures Run(l, h) && InDay(AcceptedBy(h, ""), DAY - MINUTE) == l.perDay + 1
  {
    hide Run, Sole, CountIn, AcceptedBy, Fill;
    var m := Lesser(l);
    var c := if l.perDay <= 1439 * m then 1 else l.perDay + 1 - 1439 * m;
    var q := l.perDay + 1 - c;
    var h1 := LateInFirst(l, c);
    AddFill(l, h1, "", DAY, q, 1439, DAY - MINUTE, DAY - MINUTE + DAY);
    h := h1 + Fill(l, "", DAY, q);
  }

  lemma LateInFirst(l: Limits, c: nat) returns (h: seq<Call>)
    requires 1 <= c <= Lesser(l) && c + 1 <= l.perDay
    ensures Run(l, h) && Sole(h, "") && h != [] && LastTime(h) == DAY - MINUTE
    ensures DayOf(h, "") == Day(0.0, c + 1)
    ensures InDay(AcceptedBy(h, ""), DAY - MINUTE) == c
  {
    assert [] + Burst("", 0.0, 1) == Burst("", 0.0, 1);
    AddBurst(l, [], "", 0.0, 1);
    var h0 := Burst("", 0.0, 1);
    assert DayOf(h0, "") == Day(0.0, 1);
    hide Run, Sole, CountIn, Burst, Copies, AcceptedBy, AcceptedTimes, DayOf;
    OneAtZero(h0, DAY - MINUTE, DAY - MINUTE + DAY);
    AddBurst(l, h0, "", DAY - MINUTE, c);
    CopiesIn(AcceptedBy(h0, ""), DAY - MINUTE, c, DAY - MINUTE, DAY - MINUTE + DAY);
    BurstNonEmpty("", DAY - MINUTE, c);
    h := h0 + Burst("", DAY - MINUTE, c);
  }

  lemma OneAtZero(h: seq<Call>, a: real, b: real)
    requires AcceptedBy(h, "") == AcceptedBy([], "") + Copies(0.0, 1) && a > 0.0
    ensures CountIn(AcceptedBy(h, ""), a, b) == 0 && h != []
  {
    assert AcceptedBy(h, "") == [0.0];
    assert [0.0][..0] == [];
  }

  /** The daily cap holds for every half-open day exactly for a cap of one, or one that the minute caps keep out of reach. */
  lemma DayCapExactly(l: Limits)
    requires l.perMin >= 1 && l.perDay >= 1
    ensures DayCapHolds(l) <==>
      l.perDay == 1 || l.instancePerMin <= 0 || l.perDay >= MINUTES_A_DAY * Lesser(l)
  {
    hide Run, AcceptedBy, InDay, OnePerWindow;
    if l.perDay == 1 || l.instancePerMin <= 0 || l.perDay >= MINUTES_A_DAY * Lesser(l) {
      forall h, key, a | Run(l, h)
        ensures InDay(AcceptedBy(h, key), a) <= l.perDay
      {
        if l.perDay == 1 {
          OneHolds(l, h, key);
          ApartIn(AcceptedBy(h, key), DayOf(h, key), a);
        } else {
          DayWithinMinutes(l, h, key, a);
        }
      }
    } else {
      var h := OverTheCap(l);
      assert InDay(AcceptedBy(h, ""), DAY - MINUTE) > l.perDay;
    }
  }

  lemma ApartIn(times: seq<real>, d: Day, a: real)
    requires OnePerWindow(times, d)
    ensures InDay(times, a) <= 1
  {
    ApartCount(times, a);
  }

  // ---- twice the cap is reached --------------------------------------------------------------------

  lemma AddOne(l: Limits, h: seq<Call>, key: string, t: real)
    requires Run(l, h) && Sole(h, key) && (h != [] ==> LastTime(h) + MINUTE <= t)
    requires 1 <= Lesser(l) && Rolled(DayOf(h, key), t).count + 1 <= l.perDay
    ensures var g, d := h + [Call(key, t, Accepted)], Rolled(DayOf(h, key), t);
      && Run(l, g) && Sole(g, key) && LastTime(g) == t
      && AcceptedBy(g, key) == AcceptedBy(h, key) + [t]
      && DayOf(g, key) == d.(count := d.count + 1)
  {
    AddBurst(l, h, key, t, 1);
    assert Burst(key, t, 1) == [Call(key, t, Accepted)] by {
      assert Burst(key, t, 0) == [];
    }
    OneCopy(t);
  }

  const TIGHT := Limits(1, 2, 50)

  /** Two acceptances in the first window, and a refused call that opens the second. */
  lemma RefusedOpens() returns (h: seq<Call>)
    ensures Run(TIGHT, h) && Sole(h, "") && h != [] && LastTime(h) == DAY && DayOf(h, "") == Day(DAY, 0)
    ensures AcceptedBy(h, "") == [0.0, 86399.0]
  {
    hide Run, Sole, DayOf, AcceptedBy, AcceptedTimes, Recent;
    EmptyAccepted("");
    NothingYetCalled("");
    h := [];
    AddOne(TIGHT, h, "", 0.0);
    h := h + [Call("", 0.0, Accepted)];
    AddOne(TIGHT, h, "", 86399.0);
    h := h + [Call("", 86399.0, Accepted)];
    assert AcceptedBy(h, "") == [] + [0.0] + [86399.0] == [0.0] + [86399.0];
    RecentNone([0.0], DAY);
    RecentAll([86399.0], DAY);
    RecentAppend([0.0], [86399.0], DAY);
    SoleTimes(h, "");
    var refused := Call("", DAY, RateLimited);
    assert Due(TIGHT, h, "", DAY) == RateLimited;
    RunNext(TIGHT, h, refused);
    SoleNext(h, refused);
    assert [0.0] + [86399.0] + [] == [0.0, 86399.0];
    h := h + [refused];
  }

  lemma NothingYetCalled(key: string)
    ensures Run(TIGHT, []) && Sole([], key) && DayOf([], key) == NoDay
  {
  }

  /** One more acceptance, counted in the day that begins at a. */
  lemma AddCounted(h: seq<Call>, times: seq<real>, d: Day, t: real, a: real) returns (g: seq<Call>)
    requires Run(TIGHT, h) && Sole(h, "") && h != [] && LastTime(h) + MINUTE <= t
    requires DayOf(h, "") == d && AcceptedBy(h, "") == times && Rolled(d, t).count + 1 <= TIGHT.perDay
    requires a <= t < a + DAY
    ensures Run(TIGHT, g) && Sole(g, "") && g != [] && LastTime(g) == t
    ensures DayOf(g, "") == Rolled(d, t).(count := Rolled(d, t).count + 1) && AcceptedBy(g, "") == times + [t]
    ensures InDay(times + [t], a) == InDay(times, a) + 1
  {
    hide Run, Sole, DayOf, AcceptedBy, AcceptedTimes, CountIn, Rolled, LastTime;
    AddOne(TIGHT, h, "", t);
    CountInAppend(times, t, a, a + DAY);
    g := h + [Call("", t, Accepted)];
  }

  lemma NoneBefore(a: real)
    requires a > 86399.0
    ensures InDay([0.0, 86399.0], a) == 0
  {
    NoneFrom([0.0, 86399.0], a);
    CountSplit([0.0, 86399.0], a, a, a + DAY);
  }

  /** A window opened by a refused call has all of its cap left for its end, next to the whole of the next one. */
  lemma TwiceTheCap() returns (h: seq<Call>)
    ensures Run(TIGHT, h) && InDay(AcceptedBy(h, ""), 172730.0) == 2 * TIGHT.perDay
  {
    hide Run, Sole, DayOf, AcceptedBy, AcceptedTimes, InDay, LastTime;
    h := RefusedOpens();
    NoneBefore(172730.0);
    var times := [0.0, 86399.0];
    h := AddCounted(h, times, Day(DAY, 0), 172730.0, 172730.0);
    times := times + [172730.0];
    h := AddCounted(h, times, Day(DAY, 1), 172790.0, 172730.0);
    times := times + [172790.0];
    h := AddCounted(h, times, Day(DAY, 2), 172850.0, 172730.0);
    times := times + [172850.0];
    h := AddCounted(h, times, Day(172850.0, 1), 172910.0, 172730.0);
  }

  // ---- and exactly when -------------------------------------------------------------------------------

  /** The window's first call was accepted. */
  ghost predicate Opened(times: seq<real>, d: Day) {
    (d.NoDay? ==> times == []) && (d.Day? ==> forall e :: e > d.start ==> CountIn(times, d.start, e) >= 1)
  }

  /** As the day invariant, with one less before the window and in any day. */
  ghost predicate BelowTwice(l: Limits, times: seq<real>, d: Day) {
    && Opened(times, d)
    && (d.Day? ==>
          && CountFrom(times, d.start) == d.count <= l.perDay
          && forall a :: a > d.start - DAY ==> CountIn(times, a, d.start) <= l.perDay - 1)
    && forall a :: InDay(times, a) <= 2 * l.perDay - 1
  }

  lemma {:induction false} RecentOwn(h: seq<Call>, key: string, t: real)
    ensures |Recent(AcceptedBy(h, key), t)| <= |Recent(AcceptedTimes(h), t)|
  {
    hide Recent;
    if h != [] {
      var n := |h| - 1;
      RecentOwn(h[..n], key, t);
      var all, own := AcceptedTimes(h[..n]), AcceptedBy(h[..n], key);
      assert all + [] == all && own + [] == own;
      RecentAppend(all, [h[n].time], t);
      RecentAppend(own, [h[n].time], t);
    }
  }

  lemma {:induction false} RecentAtMost(times: seq<real>, t: real, a: real)
    requires a <= t - MINUTE
    ensures |Recent(times, t)| <= CountFrom(times, a)
  {
    if times != [] {
      var n := |times| - 1;
      RecentAtMost(times[..n], t, a);
      RecentAppend(times[..n], [times[n]], t);
      assert times[..n] + [times[n]] == times;
      assert Recent([times[n]], t) == InMinute(times[n], t);
    }
  }

  /** All but the first acceptance of an opened window come after any later moment. */
  lemma AfterOpening(times: seq<real>, d: Day, a: real)
    requires d.Day? && Opened(times, d) && CountFrom(times, d.start) == d.count && a > d.start
    ensures CountFrom(times, a) <= d.count - 1
  {
    CountSplit(times, d.start, a, a);
    assert CountIn(times, d.start, a) >= 1;
  }

  /** When a window has no more room than a minute, or the instance no more than a key, an opening call is never rate-limited. */
  lemma OpeningNotLimited(l: Limits, h: seq<Call>, key: string, t: real)
    requires l.perMin >= 1 && l.perDay >= 1 && (l.perDay <= l.perMin || l.instancePerMin <= l.perMin)
    requires BelowTwice(l, AcceptedBy(h, key), DayOf(h, key))
    requires DayOf(h, key).NoDay? || t - DayOf(h, key).start >= DAY
    ensures Due(l, h, key, t) in {Accepted, InstanceLimited}
  {
    hide Recent, DayOf, AcceptedBy, AcceptedTimes, CountIn, CountFrom;
    var times, d := AcceptedBy(h, key), DayOf(h, key);
    RecentOwn(h, key, t);
    if d.Day? {
      AfterOpening(times, d, d.start + MINUTE);
      RecentAtMost(times, t, d.start + MINUTE);
    } else {
      RecentNone(times, t);
    }
  }

  lemma OpenKeeps(l: Limits, times: seq<real>, d: Day, t: real)
    requires l.perDay >= 1 && BelowTwice(l, times, d) && WithinDay(times, d) && (d.Day? ==> t - d.start >= DAY)
    ensures BelowTwice(l, times + [t], Day(t, 1))
  {
    hide CountIn, CountFrom;
    NoneFrom(times, t);
    CountInAppend(times, t, t, t);
    forall e | e > t
      ensures CountIn(times + [t], t, e) >= 1
    {
      CountInAppend(times, t, t, e);
    }
    forall a
      ensures a > t - DAY ==> CountIn(times + [t], a, t) <= l.perDay - 1
      ensures InDay(times + [t], a) <= 2 * l.perDay - 1
    {
      CountInAppend(times, t, a, t);
      CountInAppend(times, t, a, a + DAY);
      assert InDay(times, a) <= 2 * l.perDay - 1;
      if a > t - DAY {
        LateCount(l, times, d, t, a);
      }
    }
  }

  lemma LateCount(l: Limits, times: seq<real>, d: Day, t: real, a: real)
    requires l.perDay >= 1 && BelowTwice(l, times, d) && (d.Day? ==> t - d.start >= DAY) && a > t - DAY
    ensures CountIn(times, a, t) <= l.perDay - 1 && InDay(times, a) <= l.perDay - 1
  {
    hide CountIn, CountFrom;
    if d.Day? {
      AfterOpening(times, d, a);
      CountSplit(times, a, a + DAY, a + DAY);
      if a <= t {
        CountSplit(times, a, t, t);
      } else {
        Backwards(times, a, t);
      }
    } else {
      CountNothing(a, t);
      CountNothing(a, a + DAY);
    }
  }

  lemma StayKeeps(l: Limits, times: seq<real>, d: Day, t: real)
    requires BelowTwice(l, times, d) && d.Day? && d.count < l.perDay && d.start <= t < d.start + DAY
    ensures BelowTwice(l, times + [t], d.(count := d.count + 1))
  {
    hide CountIn, CountFrom;
    CountInAppend(times, t, d.start, d.start);
    forall e | e > d.start
      ensures CountIn(times + [t], d.start, e) >= 1
    {
      CountInAppend(times, t, d.start, e);
    }
    forall a
      ensures a > d.start - DAY ==> CountIn(times + [t], a, d.start) <= l.perDay - 1
      ensures InDay(times + [t], a) <= 2 * l.perDay - 1
    {
      CountInAppend(times, t, a, d.start);
      CountInAppend(times, t, a, a + DAY);
      assert InDay(times, a) <= 2 * l.perDay - 1;
      if a <= t < a + DAY {
        if a <= d.start {
          CountSplit(times, a, d.start, a + DAY);
          CountSplit(times, d.start, a + DAY, a + DAY);
        } else {
          CountSplit(times, d.start, a, a + DAY);
          CountSplit(times, a, a + DAY, a + DAY);
        }
      }
    }
  }

  lemma BelowTwiceEmpty(l: Limits)
    requires l.perDay >= 1
    ensures BelowTwice(l, [], NoDay)
  {
  }

  lemma LastDue(l: Limits, h: seq<Call>)
    requires Run(l, h) && h != []
    ensures var n := |h| - 1; Run(l, h[..n]) && h[n].outcome == Due(l, h[..n], h[n].key, h[n].time)
  {
    hide Due;
  }

  /** A call accepted in a running window finds room in it, and comes after its start. */
  lemma AcceptedInWindow(l: Limits, h: seq<Call>, key: string)
    requires Run(l, h) && h != []
    ensures var n := |h| - 1;
      var c, d := h[n], DayOf(h[..n], key);
      c.key == key && c.outcome == Accepted && d.Day? && c.time - d.start < DAY ==> d.count < l.perDay && d.start <= c.time
  {
    hide Recent, AcceptedBy, AcceptedTimes;
    AcceptedWithinDay(l, h[..|h| - 1], key);
  }

  lemma {:induction false} BelowTwiceHolds(l: Limits, h: seq<Call>, key: string)
    requires Run(l, h) && l.perMin >= 1 && l.perDay >= 1 && (l.perDay <= l.perMin || l.instancePerMin <= l.perMin)
    ensures BelowTwice(l, AcceptedBy(h, key), DayOf(h, key))
  {
    hide BelowTwice, Run, WithinDay, Due;
    if h == [] {
      BelowTwiceEmpty(l);
    } else {
      var n := |h| - 1;
      var c, times, d := h[n], AcceptedBy(h[..n], key), DayOf(h[..n], key);
      LastDue(l, h);
      BelowTwiceHolds(l, h[..n], key);
      AcceptedWithinDay(l, h[..n], key);
      AcceptedInWindow(l, h, key);
      assert times + [] == times;
      if c.key == key && c.outcome != InstanceLimited {
        if d.NoDay? || c.time - d.start >= DAY {
          OpeningNotLimited(l, h[..n], key, c.time);
          OpenKeeps(l, times, d, c.time);
        } else if c.outcome == Accepted {
          StayKeeps(l, times, d, c.time);
        }
      }
    }
  }

  /** With a full minute behind it and room on the instance, the call that opens the second window is rate-limited. */
  lemma RefusedDue(l: Limits, h: seq<Call>)
    requires 1 <= l.perMin < l.perDay && l.perMin < l.instancePerMin && Sole(h, "")
    requires AcceptedBy(h, "") == Copies(0.0, 1) + Copies(86399.0, l.perMin) && DayOf(h, "").Day? && DayOf(h, "").start == 0.0
    ensures Due(l, h, "", DAY) == RateLimited
  {
    hide Sole, AcceptedBy, AcceptedTimes, DayOf, Recent, Copies;
    RecentNone(Copies(0.0, 1), DAY);
    RecentAll(Copies(86399.0, l.perMin), DAY);
    RecentAppend(Copies(0.0, 1), Copies(86399.0, l.perMin), DAY);
    SoleTimes(h, "");
    assert [] + Copies(86399.0, l.perMin) == Copies(86399.0, l.perMin);
  }

  lemma NothingCalled(l: Limits)
    requires l.perDay >= 1 && Lesser(l) >= 1
    ensures Run(l, []) && Sole([], "") && DayOf([], "") == NoDay && AcceptedBy([], "") == []
    ensures Due(l, [], "", 0.0) == Accepted
  {
  }

  lemma OneCopy(t: real)
    ensures Copies(t, 1) == [t]
  {
  }

  lemma FirstCall(l: Limits) returns (h: seq<Call>)
    requires l.perDay >= 1 && Lesser(l) >= 1
    ensures Run(l, h) && Sole(h, "") && h != [] && LastTime(h) == 0.0
    ensures AcceptedBy(h, "") == Copies(0.0, 1) && DayOf(h, "") == Day(0.0, 1)
  {
    hide Run, Sole, DayOf, Copies, AcceptedBy, AcceptedTimes, LastTime, Due;
    var c := Call("", 0.0, Accepted);
    NothingCalled(l);
    RunNext(l, [], c);
    SoleNext([], c);
    OneCopy(0.0);
    assert [] + [0.0] == [0.0];
    h := [] + [c];
  }

  /** A refused opening: one acceptance, as many as a minute takes at the window's end, and a refused call a second later. */
  lemma RefusedOpening(l: Limits) returns (h: seq<Call>)
    requires 1 <= l.perMin < l.perDay && l.perMin < l.instancePerMin
    ensures Run(l, h) && Sole(h, "") && h != [] && LastTime(h) == DAY && DayOf(h, "") == Day(DAY, 0)
    ensures InDay(AcceptedBy(h, ""), 129600.0) == 0
  {
    hide Run, Sole, InDay, Burst, Copies, AcceptedBy, AcceptedTimes, DayOf, LastTime, Due;
    var h0 := FirstCall(l);
    AddBurst(l, h0, "", 86399.0, l.perMin);
    var h1 := h0 + Burst("", 86399.0, l.perMin);
    LastOfSome(h0, Burst("", 86399.0, l.perMin));
    RefusedDue(l, h1);
    var refused := Call("", DAY, RateLimited);
    RunNext(l, h1, refused);
    SoleNext(h1, refused);
    h := h1 + [refused];
    var times := Copies(0.0, 1) + Copies(86399.0, l.perMin);
    assert times + [] == times;
    EarlyOnly(times, 129600.0);
  }

  lemma LastOfSome(a: seq<Call>, b: seq<Call>)
    ensures a != [] ==> a + b != []
  {
  }

  lemma EarlyOnly(times: seq<real>, a: real)
    requires forall i :: 0 <= i < |times| ==> times[i] < a
    ensures InDay(times, a) == 0
  {
    NoneFrom(times, a);
    CountSplit(times, a, a, a + DAY);
  }

  /** Both windows then spend their whole cap within half a day of where they meet. */
  lemma BothWindowsFull(l: Limits) returns (h: seq<Call>)
    requires 1 <= l.perMin < l.perDay <= 720 * l.perMin && l.perMin < l.instancePerMin
    ensures Run(l, h) && InDay(AcceptedBy(h, ""), 129600.0) == 2 * l.perDay
  {
    hide Run, Sole, AcceptedBy, DayOf, CountIn, Fill, LastTime;
    var a, b := 129600.0, 129600.0 + DAY;
    var h0 := RefusedOpening(l);
    AddFill(l, h0, "", a, l.perDay, 720, a, b);
    var h1 := h0 + Fill(l, "", a, l.perDay);
    assert h1 != [];
    AddFill(l, h1, "", 2.0 * DAY, l.perDay, 720, a, b);
    h := h1 + Fill(l, "", 2.0 * DAY, l.perDay);
  }

  /** Some run has a half-open day with twice the cap in it. */
  ghost predicate ReachesTwice(l: Limits) {
    exists h, key, a :: Run(l, h) && InDay(AcceptedBy(h, key), a) == 2 * l.perDay
  }

  /** Twice the cap is reached exactly when a window can be opened by a refused call and two whole caps fit a day's minutes. */
  lemma TwiceExactly(l: Limits)
    requires l.perMin >= 1 && l.perDay >= 1
    ensures ReachesTwice(l) <==> l.perMin < l.perDay <= 720 * l.perMin && l.perMin < l.instancePerMin
  {
    hide Run, AcceptedBy, InDay;
    if l.perMin < l.perDay <= 720 * l.perMin && l.perMin < l.instancePerMin {
      var h := BothWindowsFull(l);
    } else {
      forall h, key, a | Run(l, h)
        ensures InDay(AcceptedBy(h, key), a) < 2 * l.perDay
      {
        if l.perDay <= l.perMin || l.instancePerMin <= l.perMin {
          BelowTwiceHolds(l, h, key);
        } else {
          DayWithinMinutes(l, h, key, a);
        }
      }
    }
  }
}
