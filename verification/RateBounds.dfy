/**
 What the limiter's outcomes add up to over any run: how many requests fit in a minute,
 and in a day.
 */
module RateBounds {
  import Schemas
  import opened RateLimiter

  /** How many of the times fall in [a, b). */
  function CountIn(times: seq<real>, a: real, b: real): nat {
    if times == [] then 0
    else CountIn(times[..|times| - 1], a, b) + if a <= times[|times| - 1] < b then 1 else 0
  }

  /** How many of the times are a or later. */
  function CountFrom(times: seq<real>, a: real): nat {
    if times == [] then 0
    else CountFrom(times[..|times| - 1], a) + if a <= times[|times| - 1] then 1 else 0
  }

  lemma CountInAppend(times: seq<real>, x: real, a: real, b: real)
    ensures CountIn(times + [x], a, b) == CountIn(times, a, b) + if a <= x < b then 1 else 0
    ensures CountFrom(times + [x], a) == CountFrom(times, a) + if a <= x then 1 else 0
  {
    assert (times + [x])[..|times|] == times;
  }

  lemma CountNothing(a: real, b: real)
    ensures CountIn([], a, b) == 0
  {
  }

  // ---- the sliding minute -------------------------------------------------------------

  lemma {:induction false} RecentCount(times: seq<real>, t: real, a: real)
    requires a > t - MINUTE
    ensures CountIn(times, a, a + MINUTE) <= |Recent(times, t)|
  {
    if times != [] {
      var n := |times| - 1;
      RecentCount(times[..n], t, a);
      RecentAppend(times[..n], [times[n]], t);
      assert times[..n] + [times[n]] == times;
      assert Recent([times[n]], t) == InMinute(times[n], t);
    }
  }

  function Cap(limit: int): nat {
    if limit < 0 then 0 else limit
  }

  /** Any half-open minute of any run holds at most the instance limit of acceptances, and at most the key limit of one key's. */
  lemma {:induction false} MinuteBound(l: Limits, h: seq<Call>, key: string, a: real)
    requires Run(l, h)
    ensures CountIn(AcceptedTimes(h), a, a + MINUTE) <= Cap(l.instancePerMin)
    ensures CountIn(AcceptedBy(h, key), a, a + MINUTE) <= Cap(l.perMin)
  {
    hide CountIn, Recent, DayOf, Rolled;
    CountNothing(a, a + MINUTE);
    if h != [] {
      var n := |h| - 1;
      var c := h[n];
      MinuteBound(l, h[..n], key, a);
      var all, own := AcceptedTimes(h[..n]), AcceptedBy(h[..n], key);
      assert all + [] == all && own + [] == own;
      if c.outcome == Accepted {
        CountInAppend(all, c.time, a, a + MINUTE);
        CountInAppend(own, c.time, a, a + MINUTE);
        if a <= c.time < a + MINUTE {
          RecentCount(all, c.time, a);
          RecentCount(own, c.time, a);
        }
      }
    }
  }

  // ---- the day ----------------------------------------------------------------------------

  /** How many of the times fall in the day that begins at a. */
  function InDay(times: seq<real>, a: real): nat {
    CountIn(times, a, a + DAY)
  }

  /**
   What one key's history keeps about its current day: the day holds its acceptances,
   no more than the cap; any earlier day's last acceptances, back to a day before the
   start, are no more than the cap; and no half-open day of the past exceeds twice it.
   */
  ghost predicate DayInvariant(l: Limits, times: seq<real>, d: Day) {
    && (d.NoDay? ==> times == [])
    && (d.Day? ==>
          && CountFrom(times, d.start) == d.count <= l.perDay
          && forall a :: a >= d.start - DAY ==> CountIn(times, a, d.start) <= l.perDay)
    && forall a :: InDay(times, a) <= 2 * Cap(l.perDay)
  }

  lemma {:induction false} CountSplit(times: seq<real>, a: real, m: real, b: real)
    requires a <= m <= b
    ensures CountIn(times, a, b) == CountIn(times, a, m) + CountIn(times, m, b)
    ensures CountFrom(times, a) == CountIn(times, a, m) + CountFrom(times, m)
    ensures CountIn(times, a, b) <= CountFrom(times, a)
  {
    if times != [] {
      CountSplit(times[..|times| - 1], a, m, b);
    }
  }

  lemma {:induction false} NoneFrom(times: seq<real>, a: real)
    requires forall i :: 0 <= i < |times| ==> times[i] < a
    ensures CountFrom(times, a) == 0
  {
    if times != [] {
      NoneFrom(times[..|times| - 1], a);
    }
  }

  /** Everything accepted in the day is less than a day after its start. */
  ghost predicate WithinDay(times: seq<real>, d: Day) {
    d.Day? ==> forall i :: 0 <= i < |times| ==> times[i] < d.start + DAY
  }

  lemma {:induction false} AcceptedWithinDay(l: Limits, h: seq<Call>, key: string)
    requires Run(l, h)
    ensures WithinDay(AcceptedBy(h, key), DayOf(h, key))
    ensures h != [] && DayOf(h, key).Day? ==> DayOf(h, key).start <= LastTime(h)
    ensures h == [] ==> DayOf(h, key).NoDay?
  {
    if h != [] {
      AcceptedWithinDay(l, h[..|h| - 1], key);
      AcceptedSorted(l, h[..|h| - 1], key);
    }
  }

  /** Rolling to a new day: the old day's acceptances become the ones before the start. */
  lemma RollKeeps(l: Limits, times: seq<real>, d: Day, t: real)
    requires l.perDay >= 1
    requires DayInvariant(l, times, d) && WithinDay(times, d)
    ensures DayInvariant(l, times, Rolled(d, t))
  {
    if d.Day? && t - d.start >= DAY {
      NoneFrom(times, t);
      forall a | a >= t - DAY
        ensures CountIn(times, a, t) <= l.perDay
      {
        CountSplit(times, d.start, a, a);
        if a <= t {
          CountSplit(times, a, t, t);
        } else {
          Backwards(times, a, t);
        }
      }
    }
  }

  lemma {:induction false} Backwards(times: seq<real>, a: real, b: real)
    requires a >= b
    ensures CountIn(times, a, b) == 0
  {
    if times != [] {
      Backwards(times[..|times| - 1], a, b);
    }
  }

  lemma AcceptKeeps(l: Limits, times: seq<real>, d: Day, t: real)
    requires DayInvariant(l, times, d) && d.Day? && d.count < l.perDay
    requires d.start <= t < d.start + DAY
    ensures DayInvariant(l, times + [t], d.(count := d.count + 1))
  {
    CountInAppend(times, t, d.start, d.start);
    forall a | a >= d.start - DAY
      ensures CountIn(times + [t], a, d.start) <= l.perDay
    {
      CountInAppend(times, t, a, d.start);
    }
    forall a
      ensures InDay(times + [t], a) <= 2 * Cap(l.perDay)
    {
      CountInAppend(times, t, a, a + DAY);
      assert InDay(times, a) <= 2 * Cap(l.perDay);
      if a <= t < a + DAY {
        if a <= d.start {
          CountSplit(times, a, d.start, a + DAY);
        } else {
          CountSplit(times, d.start, a, a + DAY);
        }
        CountSplit(times, if a <= d.start then d.start else a, a + DAY, a + DAY);
      }
    }
  }

  lemma {:induction false} DayHolds(l: Limits, h: seq<Call>, key: string)
    requires Run(l, h) && l.perDay >= 1
    ensures DayInvariant(l, AcceptedBy(h, key), DayOf(h, key))
  {
    hide DayInvariant, Recent, WithinDay;
    if h == [] {
      NothingYet(l);
    } else {
      var n := |h| - 1;
      var c, times := h[n], AcceptedBy(h[..n], key);
      DayHolds(l, h[..n], key);
      AcceptedWithinDay(l, h[..n], key);
      assert times + [] == times;
      if c.key == key && c.outcome != InstanceLimited {
        RollKeeps(l, times, DayOf(h[..n], key), c.time);
        if c.outcome == Accepted {
          AcceptKeeps(l, times, Rolled(DayOf(h[..n], key), c.time), c.time);
        }
      }
    }
  }

  lemma NothingYet(l: Limits)
    requires l.perDay >= 1
    ensures DayInvariant(l, [], NoDay)
  {
  }

  /** Any half-open day of any run holds at most twice the daily cap of one key's acceptances. */
  lemma DayBound(l: Limits, h: seq<Call>, key: string, a: real)
    requires Run(l, h) && l.perDay >= 1
    ensures InDay(AcceptedBy(h, key), a) <= 2 * l.perDay
  {
    DayHolds(l, h, key);
  }

  /** The rolling day itself never holds more than the cap. */
  lemma RollingDayBound(l: Limits, h: seq<Call>, key: string)
    requires Run(l, h) && l.perDay >= 1
    ensures DayOf(h, key).Day? ==>
      CountFrom(AcceptedBy(h, key), DayOf(h, key).start) == DayOf(h, key).count <= l.perDay
  {
    DayHolds(l, h, key);
  }

  // ---- all of them, key by key -----------------------------------------------------------

  function SumBy(h: seq<Call>, keys: seq<string>): nat {
    if keys == [] then 0 else SumBy(h, keys[..|keys| - 1]) + |AcceptedBy(h, keys[|keys| - 1])|
  }

  /** What a last call adds to one key's acceptances. */
  lemma OwnNext(h: seq<Call>, key: string)
    requires h != []
    ensures var c := h[|h| - 1];
      |AcceptedBy(h, key)| == |AcceptedBy(h[..|h| - 1], key)| + if c.outcome == Accepted && c.key == key then 1 else 0
  {
  }

  lemma LastKeyApart(keys: seq<string>, k: string)
    requires keys != [] && Schemas.Distinct(keys)
    ensures Schemas.Distinct(keys[..|keys| - 1]) && keys[|keys| - 1] !in keys[..|keys| - 1]
    ensures k in keys <==> k in keys[..|keys| - 1] || k == keys[|keys| - 1]
  {
  }

  lemma {:induction false} SumNext(h: seq<Call>, keys: seq<string>)
    requires h != [] && Schemas.Distinct(keys)
    ensures var c := h[|h| - 1];
      SumBy(h, keys) == SumBy(h[..|h| - 1], keys) + if c.outcome == Accepted && c.key in keys then 1 else 0
  {
    hide AcceptedBy, Schemas.Distinct;
    if keys != [] {
      var init, key := keys[..|keys| - 1], keys[|keys| - 1];
      LastKeyApart(keys, h[|h| - 1].key);
      SumNext(h, init);
      OwnNext(h, key);
    }
  }

  lemma {:induction false} NoSum(keys: seq<string>)
    ensures SumBy([], keys) == 0
  {
    if keys != [] {
      NoSum(keys[..|keys| - 1]);
    }
  }

  /** Every acceptance is one key's: the total is the sum over any list of the history's keys. */
  lemma {:induction false} TotalIsSum(h: seq<Call>, keys: seq<string>)
    requires Schemas.Distinct(keys) && forall i :: 0 <= i < |h| ==> h[i].key in keys
    ensures |AcceptedTimes(h)| == SumBy(h, keys)
  {
    hide SumBy, Schemas.Distinct;
    if h == [] {
      NoSum(keys);
    } else {
      TotalIsSum(h[..|h| - 1], keys);
      SumNext(h, keys);
    }
  }

  // ---- each outcome, from the calls themselves ------------------------------------------------

  /** The call was accepted less than a minute before t, for the key if one is given. */
  predicate InLastMinute(c: Call, t: real, key: Schemas.Option<string>) {
    c.outcome == Accepted && t - c.time < 60.0 && (key == Schemas.None || key == Schemas.Some(c.key))
  }

  /** The accepted calls of the last minute: everybody's, or one key's. */
  ghost function LastMinute(h: seq<Call>, t: real, key: Schemas.Option<string>): set<nat> {
    set i: nat | i < |h| && InLastMinute(h[i], t, key)
  }

  lemma LastMinuteNext(h: seq<Call>, c: Call, t: real, key: Schemas.Option<string>)
    ensures |LastMinute(h + [c], t, key)| == |LastMinute(h, t, key)| + if InLastMinute(c, t, key) then 1 else 0
  {
    hide InLastMinute;
    var n: nat, before := |h|, LastMinute(h, t, key);
    if InLastMinute(c, t, key) {
      assert LastMinute(h + [c], t, key) == before + {n};
    } else {
      assert LastMinute(h + [c], t, key) == before;
    }
  }

  lemma RecentNext(times: seq<real>, x: real, t: real)
    ensures |Recent(times + [x], t)| == |Recent(times, t)| + if t - x < 60.0 then 1 else 0
  {
    RecentAppend(times, [x], t);
    assert Recent([x], t) == InMinute(x, t);
  }

  lemma {:induction false} MinuteCounts(h: seq<Call>, key: string, t: real)
    ensures |Recent(AcceptedTimes(h), t)| == |LastMinute(h, t, Schemas.None)|
    ensures |Recent(AcceptedBy(h, key), t)| == |LastMinute(h, t, Schemas.Some(key))|
  {
    hide Recent, LastMinute;
    if h == [] {
      NobodyYet(t, key);
    } else {
      var n := |h| - 1;
      MinuteCounts(h[..n], key, t);
      assert h == h[..n] + [h[n]];
      LastMinuteNext(h[..n], h[n], t, Schemas.None);
      LastMinuteNext(h[..n], h[n], t, Schemas.Some(key));
      RecentNext(AcceptedTimes(h[..n]), h[n].time, t);
      RecentNext(AcceptedBy(h[..n], key), h[n].time, t);
      assert AcceptedTimes(h[..n]) + [] == AcceptedTimes(h[..n]) && AcceptedBy(h[..n], key) + [] == AcceptedBy(h[..n], key);
    }
  }

  lemma NobodyYet(t: real, key: string)
    ensures Recent([], t) == [] && LastMinute([], t, Schemas.None) == {} && LastMinute([], t, Schemas.Some(key)) == {}
  {
  }

  /** Call s opens the key's day: it is the key's first past the instance limit, or comes 24 hours or more after the day before it. */
  ghost predicate Opens(h: seq<Call>, key: string, s: nat) {
    && s < |h| && h[s].key == key && h[s].outcome != InstanceLimited
    && match DayOf(h[..s], key)
       case NoDay => true
       case Day(start, _) => h[s].time - start >= 86400.0
  }

  predicate AcceptedOf(c: Call, key: string) {
    c.key == key && c.outcome == Accepted
  }

  /** The key's accepted calls from the s-th on. */
  ghost function AcceptedSince(h: seq<Call>, key: string, s: nat): set<nat> {
    set i: nat | s <= i < |h| && AcceptedOf(h[i], key)
  }

  /** The day that stands was opened by one call, every later call of the key fell in it, and it counts the accepted ones. */
  ghost predicate Stands(h: seq<Call>, key: string, s: nat, d: Day) {
    && Opens(h, key, s) && d == Day(h[s].time, |AcceptedSince(h, key, s)|)
    && forall i :: s <= i < |h| && h[i].key == key && h[i].outcome != InstanceLimited ==> h[i].time - h[s].time < 86400.0
  }

  /** A key has a day exactly when a call of it got past the instance limit, and then it is the one that stands. */
  lemma {:induction false} DayMeans(h: seq<Call>, key: string)
    ensures DayOf(h, key).NoDay? <==> forall i :: 0 <= i < |h| && h[i].key == key ==> h[i].outcome == InstanceLimited
    ensures DayOf(h, key).Day? ==> exists s: nat :: Stands(h, key, s, DayOf(h, key))
  {
    hide Stands;
    if h != [] {
      var n := |h| - 1;
      DayMeans(h[..n], key);
      assert forall i :: 0 <= i < n ==> h[..n][i] == h[i];
      if DayOf(h, key).Day? {
        if n == 0 || DayOf(h[..n], key).NoDay? || DayOf(h, key) != DayOf(h[..n], key) {
          DayOpens(h, h[..n], key);
        }
        if DayOf(h[..n], key).Day? {
          var s: nat :| Stands(h[..n], key, s, DayOf(h[..n], key));
          DayStays(h, h[..n], key, s);
        }
      }
    }
  }

  /** The last call rolls the key's day, or there was none. */
  predicate Rolls(before: seq<Call>, c: Call, key: string) {
    && c.key == key && c.outcome != InstanceLimited
    && match DayOf(before, key)
       case NoDay => true
       case Day(start, _) => c.time - start >= 86400.0
  }

  lemma DayOpens(h: seq<Call>, before: seq<Call>, key: string)
    requires h != [] && before == h[..|h| - 1]
    ensures Rolls(before, h[|h| - 1], key) ==> Stands(h, key, |h| - 1, DayOf(h, key))
  {
    var n := |h| - 1;
    if Rolls(before, h[n], key) {
      assert AcceptedSince(h, key, n) == if h[n].outcome == Accepted then {n} else {};
    }
  }

  lemma DayStays(h: seq<Call>, before: seq<Call>, key: string, s: nat)
    requires h != [] && before == h[..|h| - 1] && Stands(before, key, s, DayOf(before, key))
    ensures !Rolls(before, h[|h| - 1], key) ==> Stands(h, key, s, DayOf(h, key))
  {
    hide AcceptedSince;
    SinceNext(h, key, s);
    assert before[..s] == h[..s];
    assert forall i :: 0 <= i < |before| ==> before[i] == h[i];
  }

  lemma SinceNext(h: seq<Call>, key: string, s: nat)
    requires h != [] && s < |h| - 1
    ensures |AcceptedSince(h, key, s)| == |AcceptedSince(h[..|h| - 1], key, s)| + if AcceptedOf(h[|h| - 1], key) then 1 else 0
  {
    hide AcceptedOf;
    var n: nat := |h| - 1;
    var before := AcceptedSince(h[..n], key, s);
    assert forall i: nat :: i < n ==> h[..n][i] == h[i];
    if AcceptedOf(h[n], key) {
      assert AcceptedSince(h, key, s) == before + {n};
    } else {
      assert AcceptedSince(h, key, s) == before;
    }
  }

  /** Which outcome a call gets: the three limits in turn, each against a count of calls. */
  lemma DueExactly(l: Limits, h: seq<Call>, key: string, t: real)
    ensures
      var all, own, day := |LastMinute(h, t, Schemas.None)|, |LastMinute(h, t, Schemas.Some(key))|, DayOf(h, key);
      var today := if day.Day? && t - day.start < 86400.0 then day.count else 0;
      var outcome := Due(l, h, key, t);
      && (outcome == InstanceLimited <==> all >= l.instancePerMin)
      && (outcome == DailyCapped <==> all < l.instancePerMin && today >= l.perDay)
      && (outcome == RateLimited <==> all < l.instancePerMin && today < l.perDay && own >= l.perMin)
      && (outcome == Accepted <==> all < l.instancePerMin && today < l.perDay && own < l.perMin)
  {
    hide Recent, LastMinute, DayOf;
    MinuteCounts(h, key, t);
  }
}
