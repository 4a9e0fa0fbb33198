/**
 The request limiter (src/rag_engine/deploy/guards.py): an instance-wide and a per-key
 sliding minute, and a per-key daily cap. The object is proved against the history of the
 calls made on it; the bounds are then proved of histories.
 */
module RateLimiter {

  datatype Outcome = Accepted | InstanceLimited | DailyCapped | RateLimited

  datatype Call = Call(key: string, time: real, outcome: Outcome)

  datatype Limits = Limits(perMin: int, perDay: int, instancePerMin: int)

  const MINUTE: real := 60.0
  const DAY: real := 86400.0

  // ---- what the history says ------------------------------------------------------

  function LastTime(h: seq<Call>): real {
    if h == [] then 0.0 else h[|h| - 1].time
  }

  /** When requests were accepted: all of them, or one key's. */
  function AcceptedTimes(h: seq<Call>): seq<real> {
    if h == [] then []
    else AcceptedTimes(h[..|h| - 1]) + if h[|h| - 1].outcome == Accepted then [h[|h| - 1].time] else []
  }

  function AcceptedBy(h: seq<Call>, key: string): seq<real> {
    if h == [] then []
    else
      var c := h[|h| - 1];
      AcceptedBy(h[..|h| - 1], key) + if c.outcome == Accepted && c.key == key then [c.time] else []
  }

  /** The times less than a minute before t. */
  function Recent(times: seq<real>, t: real): (r: seq<real>)
    ensures |r| <= |times|
  {
    if times == [] then []
    else InMinute(times[0], t) + Recent(times[1..], t)
  }

  function InMinute(time: real, t: real): (r: seq<real>)
    ensures |r| <= 1
  {
    if t - time < MINUTE then [time] else []
  }

  /** A key's rolling day: when it started and how many acceptances it holds. */
  datatype Day = NoDay | Day(start: real, count: nat)

  /** A day older than 24 hours is replaced by one that starts now. */
  function Rolled(d: Day, t: real): (r: Day)
    ensures r.Day?
  {
    if d.NoDay? || t - d.start >= DAY then Day(t, 0) else d
  }

  /** The day moves at every call of the key that passes the instance limit, accepted or not. */
  function DayOf(h: seq<Call>, key: string): Day {
    if h == [] then NoDay
    else
      var before, c := DayOf(h[..|h| - 1], key), h[|h| - 1];
      if c.key != key || c.outcome == InstanceLimited then before
      else
        var d := Rolled(before, c.time);
        if c.outcome == Accepted then d.(count := d.count + 1) else d
  }

  /** The outcome a call must have, from the history alone. */
  function Due(l: Limits, h: seq<Call>, key: string, t: real): Outcome {
    if |Recent(AcceptedTimes(h), t)| >= l.instancePerMin then InstanceLimited
    else if Rolled(DayOf(h, key), t).count >= l.perDay then DailyCapped
    else if |Recent(AcceptedBy(h, key), t)| >= l.perMin then RateLimited
    else Accepted
  }

  /** A history the limiter can produce: time does not run back, and every outcome is due. */
  ghost predicate Run(l: Limits, h: seq<Call>) {
    h == [] ||
    (var n := |h| - 1;
     && Run(l, h[..n])
     && (n > 0 ==> h[n - 1].time <= h[n].time)
     && h[n].outcome == Due(l, h[..n], h[n].key, h[n].time))
  }

  // ---- pruning a sorted window -------------------------------------------------------

  ghost predicate Sorted(times: seq<real>) {
    forall i, j :: 0 <= i < j < |times| ==> times[i] <= times[j]
  }

  lemma {:induction false} RecentAll(times: seq<real>, t: real)
    requires forall i :: 0 <= i < |times| ==> t - times[i] < MINUTE
    ensures Recent(times, t) == times
  {
    if times != [] {
      RecentAll(times[1..], t);
    }
  }

  lemma {:induction false} RecentAppend(a: seq<real>, b: seq<real>, t: real)
    ensures Recent(a + b, t) == Recent(a, t) + Recent(b, t)
  {
    hide InMinute;
    if a == [] {
      assert a + b == b;
    } else {
      RecentAppend(a[1..], b, t);
      assert (a + b)[1..] == a[1..] + b;
      assert InMinute(a[0], t) + (Recent(a[1..], t) + Recent(b, t)) == InMinute(a[0], t) + Recent(a[1..], t) + Recent(b, t);
    }
  }

  /** What is out of the window stays out as time goes on. */
  lemma {:induction false} RecentRecent(times: seq<real>, t: real, u: real)
    requires t <= u
    ensures Recent(Recent(times, t), u) == Recent(times, u)
  {
    if times != [] {
      RecentRecent(times[1..], t, u);
      RecentAppend(InMinute(times[0], t), Recent(times[1..], t), u);
    }
  }

  lemma {:induction false} RecentSorted(times: seq<real>, t: real)
    requires Sorted(times)
    ensures Sorted(Recent(times, t)) && (Recent(times, t) != [] ==> times[0] <= Recent(times, t)[0])
  {
    if times != [] {
      RecentSorted(times[1..], t);
    }
  }

  method Prune(window: seq<real>, t: real) returns (pruned: seq<real>)
    requires Sorted(window)
    ensures pruned == Recent(window, t)
  {
    pruned := window;
    while pruned != [] && t - pruned[0] >= MINUTE
      invariant Sorted(pruned) && Recent(pruned, t) == Recent(window, t)
    {
      pruned := pruned[1..];
    }
    RecentAll(pruned, t);
  }

  // ---- what the fields stand for ---------------------------------------------------------

  ghost predicate UpTo(times: seq<real>, t: real) {
    Sorted(times) && forall i :: 0 <= i < |times| ==> times[i] <= t
  }

  lemma UpToAppend(times: seq<real>, s: real, t: real)
    requires UpTo(times, s) && s <= t
    ensures UpTo(times + [t], t) && UpTo(times, t)
  {
  }

  lemma {:induction false} AcceptedSorted(l: Limits, h: seq<Call>, key: string)
    requires Run(l, h)
    ensures UpTo(AcceptedTimes(h), LastTime(h)) && UpTo(AcceptedBy(h, key), LastTime(h))
  {
    hide Due;
    if h != [] {
      var n := |h| - 1;
      AcceptedSorted(l, h[..n], key);
      assert AcceptedTimes(h[..n]) + [] == AcceptedTimes(h[..n]);
      assert AcceptedBy(h[..n], key) + [] == AcceptedBy(h[..n], key);
      if n > 0 {
        UpToAppend(AcceptedTimes(h[..n]), LastTime(h[..n]), h[n].time);
        UpToAppend(AcceptedBy(h[..n], key), LastTime(h[..n]), h[n].time);
      }
    }
  }

  function WindowFor(window: map<string, seq<real>>, key: string): seq<real> {
    if key in window then window[key] else []
  }

  function CountFor(dayCount: map<string, nat>, key: string): nat {
    if key in dayCount then dayCount[key] else 0
  }

  function DayFor(dayStart: map<string, real>, dayCount: map<string, nat>, key: string): Day {
    if key in dayStart then Day(dayStart[key], CountFor(dayCount, key)) else NoDay
  }

  /** A window is the history's acceptances as of some moment no later than the last call. */
  ghost predicate AsOf(times: seq<real>, h: seq<Call>, w: seq<real>) {
    if h == [] then w == [] else exists since :: since <= LastTime(h) && w == Recent(times, since)
  }

  ghost predicate TracksWindows(h: seq<Call>, window: map<string, seq<real>>) {
    forall key :: AsOf(AcceptedBy(h, key), h, WindowFor(window, key))
  }

  ghost predicate TracksDays(h: seq<Call>, dayStart: map<string, real>, dayCount: map<string, nat>) {
    forall key :: DayFor(dayStart, dayCount, key) == DayOf(h, key)
  }

  /** Pruning a window that was right at some earlier moment makes it right now. */
  lemma PruneAsOf(l: Limits, h: seq<Call>, times: seq<real>, w: seq<real>, t: real)
    requires AsOf(times, h, w) && Sorted(times) && (h == [] ==> times == [])
    requires h != [] ==> LastTime(h) <= t
    ensures Sorted(w) && Recent(w, t) == Recent(times, t)
  {
    if h != [] {
      var since :| since <= LastTime(h) && w == Recent(times, since);
      RecentSorted(times, since);
      RecentRecent(times, since, t);
    }
  }

  lemma PrunedAsOf(h: seq<Call>, c: Call, times: seq<real>, accepted: bool)
    requires h != [] ==> LastTime(h) <= c.time
    ensures AsOf(times + (if accepted then [c.time] else []), h + [c],
                 Recent(times, c.time) + if accepted then [c.time] else [])
  {
    var added := if accepted then [c.time] else [];
    RecentAppend(times, added, c.time);
    RecentAll(added, c.time);
  }

  lemma UntouchedAsOf(h: seq<Call>, c: Call, times: seq<real>, w: seq<real>)
    requires AsOf(times, h, w) && (h == [] ==> times == [])
    requires h != [] ==> LastTime(h) <= c.time
    ensures AsOf(times, h + [c], w)
  {
    if h == [] {
      assert w == Recent(times, c.time);
    }
  }

  lemma WindowsNext(h: seq<Call>, c: Call, window: map<string, seq<real>>, pruned: bool)
    requires TracksWindows(h, window) && (h != [] ==> LastTime(h) <= c.time)
    requires c.outcome == Accepted ==> pruned
    ensures TracksWindows(h + [c],
      if !pruned then window
      else window[c.key := Recent(AcceptedBy(h, c.key), c.time) + if c.outcome == Accepted then [c.time] else []])
  {
    hide Recent;
    assert (h + [c])[..|h|] == h;
    forall key
      ensures if pruned && key == c.key
              then AsOf(AcceptedBy(h + [c], key), h + [c],
                        Recent(AcceptedBy(h, key), c.time) + if c.outcome == Accepted then [c.time] else [])
              else AsOf(AcceptedBy(h + [c], key), h + [c], WindowFor(window, key))
    {
      if pruned && key == c.key {
        PrunedAsOf(h, c, AcceptedBy(h, key), c.outcome == Accepted);
      } else {
        assert AcceptedBy(h, key) + [] == AcceptedBy(h, key);
        UntouchedAsOf(h, c, AcceptedBy(h, key), WindowFor(window, key));
      }
    }
  }

  lemma DaysNext(h: seq<Call>, c: Call, dayStart: map<string, real>, dayCount: map<string, nat>)
    requires TracksDays(h, dayStart, dayCount) && c.outcome != InstanceLimited
    ensures var d := Rolled(DayOf(h, c.key), c.time);
      TracksDays(h + [c], dayStart[c.key := d.start],
                 dayCount[c.key := d.count + if c.outcome == Accepted then 1 else 0])
  {
    assert (h + [c])[..|h|] == h;
    var d := Rolled(DayOf(h, c.key), c.time);
    var count := d.count + if c.outcome == Accepted then 1 else 0;
    forall key
      ensures DayFor(dayStart[c.key := d.start], dayCount[c.key := count], key) == DayOf(h + [c], key)
    {
      assert DayFor(dayStart, dayCount, key) == DayOf(h, key);
    }
  }

  lemma DaysUnmoved(h: seq<Call>, c: Call, dayStart: map<string, real>, dayCount: map<string, nat>)
    requires TracksDays(h, dayStart, dayCount) && c.outcome == InstanceLimited
    ensures TracksDays(h + [c], dayStart, dayCount)
  {
    assert (h + [c])[..|h|] == h;
  }

  lemma RunNext(l: Limits, h: seq<Call>, c: Call)
    requires Run(l, h) && (h != [] ==> LastTime(h) <= c.time)
    requires c.outcome == Due(l, h, c.key, c.time)
    ensures Run(l, h + [c])
    ensures AcceptedTimes(h + [c]) == AcceptedTimes(h) + if c.outcome == Accepted then [c.time] else []
  {
    assert (h + [c])[..|h|] == h;
  }

  lemma SortedUpTo(times: seq<real>, t: real)
    requires UpTo(times, t)
    ensures Sorted(times)
  {
  }

  lemma EmptyAccepted(key: string)
    ensures AcceptedTimes([]) == [] && AcceptedBy([], key) == []
  {
  }

  lemma DayForKey(h: seq<Call>, dayStart: map<string, real>, dayCount: map<string, nat>, key: string)
    requires TracksDays(h, dayStart, dayCount)
    ensures DayFor(dayStart, dayCount, key) == DayOf(h, key)
  {
  }

  lemma WindowForKey(h: seq<Call>, window: map<string, seq<real>>, key: string)
    requires TracksWindows(h, window)
    ensures AsOf(AcceptedBy(h, key), h, WindowFor(window, key))
  {
  }

  // ---- the limiter -----------------------------------------------------------------------

  class RateLimiter {
    const limits: Limits
    var window: map<string, seq<real>>
    var dayCount: map<string, nat>
    var dayStart: map<string, real>
    var instanceWindow: seq<real>
    ghost var history: seq<Call>

    ghost predicate Valid()
      reads this
    {
      && Run(limits, history)
      && AsOf(AcceptedTimes(history), history, instanceWindow)
      && TracksWindows(history, window)
      && TracksDays(history, dayStart, dayCount)
    }

    constructor (perMin: int, perDay: int, instancePerMin: int)
      requires perMin >= 1 && perDay >= 1
      ensures Valid() && history == [] && limits == Limits(perMin, perDay, instancePerMin)
    {
      limits := Limits(perMin, perDay, instancePerMin);
      window, dayCount, dayStart, instanceWindow, history := map[], map[], map[], [], [];
    }

    /** A day that is missing or a day old starts now, empty; reading a defaultdict stores the default. */
    method RollDay(key: string, t: real)
      modifies this`dayStart, this`dayCount
      ensures var d := Rolled(DayFor(old(dayStart), old(dayCount), key), t);
        dayStart == old(dayStart)[key := d.start] && dayCount == old(dayCount)[key := d.count]
    {
      if key !in dayStart || t - dayStart[key] >= DAY {
        dayStart := dayStart[key := t];
        dayCount := dayCount[key := 0];
      }
      dayCount := dayCount[key := CountFor(dayCount, key)];
      assert dayStart == dayStart[key := dayStart[key]];
    }

    /** Every call gets exactly the outcome its history makes due, and is added to the history. */
    method Check(key: string, t: real) returns (outcome: Outcome)
      requires Valid()
      requires history != [] ==> LastTime(history) <= t
      modifies this
      ensures Valid()
      ensures outcome == Due(limits, old(history), key, t)
      ensures history == old(history) + [Call(key, t, outcome)]
    {
      hide Run, TracksWindows, TracksDays, AsOf, Sorted, UpTo, Recent, AcceptedTimes, AcceptedBy, LastTime, DayOf, Rolled,
           DayFor, WindowFor;
      ghost var h, c := history, Call(key, t, Due(limits, history, key, t));
      AcceptedSorted(limits, h, key);
      EmptyAccepted(key);
      SortedUpTo(AcceptedTimes(h), LastTime(h));
      SortedUpTo(AcceptedBy(h, key), LastTime(h));
      PruneAsOf(limits, h, AcceptedTimes(h), instanceWindow, t);
      PrunedAsOf(h, c, AcceptedTimes(h), c.outcome == Accepted);
      RunNext(limits, h, c);
      history := h + [c];

      instanceWindow := Prune(instanceWindow, t);
      if |instanceWindow| >= limits.instancePerMin {
        assert instanceWindow + [] == instanceWindow;
        WindowsNext(h, c, window, false);
        DaysUnmoved(h, c, dayStart, dayCount);
        return InstanceLimited;
      }
      DayForKey(h, dayStart, dayCount, key);
      ghost var start, count := dayStart, dayCount;
      RollDay(key, t);
      DaysNext(h, c, start, count);
      if dayCount[key] >= limits.perDay {
        assert instanceWindow + [] == instanceWindow;
        WindowsNext(h, c, window, false);
        return DailyCapped;
      }
      WindowForKey(h, window, key);
      PruneAsOf(limits, h, AcceptedBy(h, key), WindowFor(window, key), t);
      WindowsNext(h, c, window, true);
      var w := Prune(WindowFor(window, key), t);
      if |w| >= limits.perMin {
        assert instanceWindow + [] == instanceWindow && w + [] == w;
        window := window[key := w];
        return RateLimited;
      }
      window := window[key := w + [t]];
      dayCount := dayCount[key := dayCount[key] + 1];
      assert dayCount == count[key := Rolled(DayOf(h, key), t).count + 1];
      instanceWindow := instanceWindow + [t];
      outcome := Accepted;
    }
  }
}
