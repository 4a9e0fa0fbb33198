/**
 Whole runs of the semantic cache: the size bound, and what least-recently-used
 eviction may take.
 */
module CacheRuns {
  import opened Schemas
  import opened ScopeKey
  import opened SemanticCache

  datatype Op =
    | GetOp(query: string, session: Session, govern: Govern, now: real)
    | PutOp(entry: Entry, now: real)
    | InvalidateOp(chunkId: string)

  ghost function Served(cfg: Config, st: Store, op: Op): (r: Option<nat>)
    requires op.GetOp?
    ensures r.Some? ==> r.value < |st.slots|
  {
    Lookup(cfg, st.slots, ScopePayload(op.session), op.query, op.govern, op.now)
  }

  ghost function Step(cfg: Config, st: Store, op: Op): Store {
    match op
    case GetOp(_, _, _, _) => Store(AfterGet(st.slots, Served(cfg, st, op)), st.counter)
    case PutOp(entry, now) => AfterPut(cfg, st, entry, now)
    case InvalidateOp(chunkId) => Store(AfterInvalidate(st.slots, chunkId), st.counter)
  }

  ghost function Run(cfg: Config, st: Store, ops: seq<Op>): Store
    decreases |ops|
  {
    if ops == [] then st else Run(cfg, Step(cfg, st, ops[0]), ops[1..])
  }

  lemma StepKeepsKeysFresh(cfg: Config, st: Store, op: Op)
    requires KeysFresh(st)
    ensures KeysFresh(Step(cfg, st, op))
  {
    match op
    case GetOp(_, _, _, _) =>
      if Served(cfg, st, op).Some? {
        GetKeepsKeysFresh(st, Served(cfg, st, op).value);
      }
    case PutOp(entry, now) => PutKeepsKeysFresh(cfg, st, entry, now);
    case InvalidateOp(chunkId) =>
      FilterKeepsKeysFresh((s: Slot) => chunkId !in s.entry.chunkIds, st.slots, st.counter);
  }

  lemma {:induction false} WithoutShortens(slots: seq<Slot>, slot: Slot)
    requires slot in slots
    ensures |MoveToEnd(slots, slot)| <= |slots|
  {
    var n := |slots| - 1;
    if slots[n] != slot {
      assert slot in slots[..n];
      WithoutShortens(slots[..n], slot);
    }
  }

  /** From an empty cache, every state of every run is within the cap and has fresh keys. */
  lemma {:induction false} SizeBound(cfg: Config, st: Store, ops: seq<Op>)
    requires KeysFresh(st) && |st.slots| <= cfg.maxEntries
    ensures KeysFresh(Run(cfg, st, ops)) && |Run(cfg, st, ops).slots| <= cfg.maxEntries
    decreases |ops|
  {
    if ops != [] {
      StepKeepsKeysFresh(cfg, st, ops[0]);
      if ops[0].GetOp? && Served(cfg, st, ops[0]).Some? {
        WithoutShortens(st.slots, st.slots[Served(cfg, st, ops[0]).value]);
      }
      SizeBound(cfg, Step(cfg, st, ops[0]), ops[1..]);
    }
  }

  // ---- recency ----------------------------------------------------------------------

  /** The keys more recent than `slot`. */
  function After(slots: seq<Slot>, slot: Slot): set<Key> {
    if slots == [] || slots[|slots| - 1] == slot then {}
    else After(slots[..|slots| - 1], slot) + {slots[|slots| - 1].key}
  }

  function Keys(slots: seq<Slot>): set<Key> {
    set i | 0 <= i < |slots| :: slots[i].key
  }

  /** The keys an operation puts or hits. */
  ghost function Touches(cfg: Config, st: Store, op: Op): set<Key> {
    match op
    case GetOp(_, _, _, _) => if Served(cfg, st, op).Some? then {st.slots[Served(cfg, st, op).value].key} else {}
    case PutOp(entry, _) => {Key(entry.scope, st.counter + 1)}
    case InvalidateOp(_) => {}
  }

  ghost function TouchedIn(cfg: Config, st: Store, ops: seq<Op>): set<Key>
    decreases |ops|
  {
    if ops == [] then {} else Touches(cfg, st, ops[0]) + TouchedIn(cfg, Step(cfg, st, ops[0]), ops[1..])
  }

  lemma {:induction false} AfterFilter(keep: Slot -> bool, slots: seq<Slot>, slot: Slot)
    requires keep(slot)
    ensures After(Filter(keep, slots), slot) <= After(slots, slot)
  {
    if slots != [] && slots[|slots| - 1] != slot {
      var n := |slots| - 1;
      AfterFilter(keep, slots[..n], slot);
      var kept := Filter(keep, slots[..n]);
      assert kept + [] == kept && (kept + [slots[n]])[..|kept|] == kept;
    }
  }

  lemma {:induction false} AfterNewest(slots: seq<Slot>, slot: Slot, d: nat)
    requires d <= |slots|
    ensures After(slots[d..], slot) <= After(slots, slot)
    ensures slot !in slots[d..] ==> Keys(slots[d..]) <= After(slots, slot)
  {
    if d < |slots| {
      var n := |slots| - 1;
      assert slots[d..][..n - d] == slots[..n][d..];
      assert slots[d..][n - d] == slots[n];
      if slots[n] != slot {
        AfterNewest(slots[..n], slot, d);
        forall k | k in Keys(slots[d..]) && slot !in slots[d..]
          ensures k in After(slots, slot)
        {
          var i :| 0 <= i < |slots[d..]| && slots[d..][i].key == k;
          if i < n - d {
            assert slots[..n][d..][i].key == k;
          }
        }
      }
    }
  }

  lemma {:induction false} KeyCount(slots: seq<Slot>, counter: nat)
    requires KeysFresh(Store(slots, counter))
    ensures |Keys(slots)| == |slots|
  {
    if slots != [] {
      var n := |slots| - 1;
      KeyCount(slots[..n], counter);
      assert Keys(slots) == Keys(slots[..n]) + {slots[n].key};
    }
  }

  /** The n newest slots have n keys, and the key of a slot they leave out is not among them. */
  lemma NewestKeys(slots: seq<Slot>, counter: nat, n: nat, slot: Slot)
    requires KeysFresh(Store(slots, counter)) && n < |slots| && slot in slots
    ensures |Keys(Newest(slots, n))| == n
    ensures slot !in Newest(slots, n) ==> slot.key !in Keys(Newest(slots, n))
  {
    var d := |slots| - n;
    assert Newest(slots, n) == slots[d..];
    KeyCount(slots[d..], counter);
    var i :| 0 <= i < |slots| && slots[i] == slot;
    if i >= d {
      assert slots[d..][i - d] == slot;
    }
  }

  /** The slot is spared by what an operation removes on purpose: invalidation and expiry. */
  predicate Spares(op: Op, slot: Slot) {
    match op
    case GetOp(_, _, _, _) => true
    case PutOp(_, now) => !slot.entry.Expired(now)
    case InvalidateOp(chunkId) => chunkId !in slot.entry.chunkIds
  }

  lemma GetRecency(slots: seq<Slot>, hit: Slot, slot: Slot)
    requires slot in slots && hit in slots && (slot == hit || slot.key != hit.key)
    ensures slot in MoveToEnd(slots, hit)
    ensures After(MoveToEnd(slots, hit), slot) <= After(slots, slot) + {hit.key}
  {
    var keep := (s: Slot) => s.key != hit.key;
    FilterMembers(keep, slots);
    assert MoveToEnd(slots, hit)[..|Without(slots, hit.key)|] == Without(slots, hit.key);
    if slot != hit {
      AfterFilter(keep, slots, slot);
      assert slot in Without(slots, hit.key);
    }
  }

  function Grown(st: Store, entry: Entry): seq<Slot> {
    st.slots + [Slot(Key(entry.scope, st.counter + 1), entry)]
  }

  /** Cutting to the n newest: a slot that is cut had n other keys after it. */
  ghost predicate CutKeys(live: seq<Slot>, n: nat, slot: Slot) {
    |live| > n ==>
      |Keys(Newest(live, n))| == n && (slot !in Newest(live, n) ==> slot.key !in Keys(Newest(live, n)))
  }

  lemma PutCutKeys(st: Store, entry: Entry, now: real, n: nat, slot: Slot)
    requires KeysFresh(st) && slot in Unexpired(Grown(st, entry), now)
    ensures CutKeys(Unexpired(Grown(st, entry), now), n, slot)
  {
    var live := Unexpired(Grown(st, entry), now);
    FilterKeepsKeysFresh((s: Slot) => !s.entry.Expired(now), Grown(st, entry), st.counter + 1);
    if |live| > n {
      NewestKeys(live, st.counter + 1, n, slot);
    }
  }

  lemma CutRecency(live: seq<Slot>, n: nat, slot: Slot)
    requires slot in live && CutKeys(live, n, slot)
    ensures After(Newest(live, n), slot) <= After(live, slot)
    ensures slot !in Newest(live, n) ==> |After(live, slot) - {slot.key}| >= n
  {
    if |live| > n {
      AfterNewest(live, slot, |live| - n);
      if slot !in Newest(live, n) {
        SubsetSize(Keys(Newest(live, n)), After(live, slot) - {slot.key});
      }
    }
  }

  lemma GrownRecency(st: Store, entry: Entry, now: real, slot: Slot)
    requires slot in st.slots && !slot.entry.Expired(now)
    ensures slot in Unexpired(Grown(st, entry), now)
    ensures After(Unexpired(Grown(st, entry), now), slot)
         <= After(st.slots, slot) + {Key(entry.scope, st.counter + 1)}
  {
    var grown := Grown(st, entry);
    var keep := (s: Slot) => !s.entry.Expired(now);
    assert grown[..|st.slots|] == st.slots;
    assert slot in grown;
    FilterMembers(keep, grown);
    AfterFilter(keep, grown, slot);
  }

  lemma PutRecency(cfg: Config, st: Store, entry: Entry, now: real, slot: Slot)
    requires slot in st.slots && !slot.entry.Expired(now)
    requires CutKeys(Unexpired(Grown(st, entry), now), cfg.maxEntries, slot)
    ensures StepRecency(cfg, st, PutOp(entry, now), slot)
  {
    hide CutKeys, Unexpired, Newest, After, Filter, Keys;
    var live := Unexpired(Grown(st, entry), now);
    GrownRecency(st, entry, now, slot);
    assert Step(cfg, st, PutOp(entry, now)).slots == Newest(live, cfg.maxEntries);
    CutRecency(live, cfg.maxEntries, slot);
    SubsetSize(After(live, slot) - {slot.key}, After(st.slots, slot) + {Key(entry.scope, st.counter + 1)} - {slot.key});
  }

  lemma HitRecency(cfg: Config, st: Store, op: Op, slot: Slot)
    requires KeysFresh(st) && op.GetOp? && slot in st.slots
    ensures StepRecency(cfg, st, op, slot)
  {
    if Served(cfg, st, op).Some? {
      GetRecency(st.slots, st.slots[Served(cfg, st, op).value], slot);
    }
  }

  lemma InvalidateRecency(cfg: Config, st: Store, chunkId: string, slot: Slot)
    requires slot in st.slots && chunkId !in slot.entry.chunkIds
    ensures StepRecency(cfg, st, InvalidateOp(chunkId), slot)
  {
    var keep := (s: Slot) => chunkId !in s.entry.chunkIds;
    FilterMembers(keep, st.slots);
    AfterFilter(keep, st.slots, slot);
  }

  /** After one operation a slot stays, behind touched keys only, or the cap has pushed it out. */
  ghost predicate StepRecency(cfg: Config, st: Store, op: Op, slot: Slot) {
    var st', ahead := Step(cfg, st, op), After(st.slots, slot) + Touches(cfg, st, op);
    if slot in st'.slots then After(st'.slots, slot) <= ahead else |ahead - {slot.key}| >= cfg.maxEntries
  }

  lemma SparedRecency(cfg: Config, st: Store, op: Op, slot: Slot)
    requires KeysFresh(st) && slot in st.slots && Spares(op, slot)
    ensures StepRecency(cfg, st, op, slot)
  {
    match op
    case GetOp(_, _, _, _) => HitRecency(cfg, st, op, slot);
    case PutOp(entry, now) =>
      GrownRecency(st, entry, now, slot);
      PutCutKeys(st, entry, now, cfg.maxEntries, slot);
      PutRecency(cfg, st, entry, now, slot);
    case InvalidateOp(chunkId) => InvalidateRecency(cfg, st, chunkId, slot);
  }

  /**
   An entry that no operation of a run invalidated or found expired is gone at the end
   only if at least `maxEntries` other keys were ahead of it at the start or put or hit since.
   */
  lemma {:induction false} EvictedOnlyByRecency(cfg: Config, st: Store, ops: seq<Op>, slot: Slot)
    requires KeysFresh(st) && slot in st.slots
    requires forall i :: 0 <= i < |ops| ==> Spares(ops[i], slot)
    ensures slot in Run(cfg, st, ops).slots
         || |After(st.slots, slot) + TouchedIn(cfg, st, ops) - {slot.key}| >= cfg.maxEntries
    decreases |ops|
  {
    if ops != [] {
      var st' := Step(cfg, st, ops[0]);
      SparedRecency(cfg, st, ops[0], slot);
      StepKeepsKeysFresh(cfg, st, ops[0]);
      if slot in st'.slots {
        EvictedOnlyByRecency(cfg, st', ops[1..], slot);
        SubsetSize(After(st'.slots, slot) + TouchedIn(cfg, st', ops[1..]) - {slot.key},
               After(st.slots, slot) + TouchedIn(cfg, st, ops) - {slot.key});
      } else {
        SubsetSize(After(st.slots, slot) + Touches(cfg, st, ops[0]) - {slot.key},
               After(st.slots, slot) + TouchedIn(cfg, st, ops) - {slot.key});
      }
    }
  }

  lemma DistinctKeyIsLast(st: Store, slot: Slot)
    requires KeysFresh(st) && slot in st.slots && st.slots[|st.slots| - 1].key == slot.key
    ensures After(st.slots, slot) == {}
  {
  }

  /** What a put leaves before the cut: the new entry last, unless it was born expired. */
  lemma UnexpiredGrown(st: Store, entry: Entry, now: real)
    ensures var last := Slot(Key(entry.scope, st.counter + 1), entry);
      Unexpired(st.slots + [last], now) == Unexpired(st.slots, now) + if entry.Expired(now) then [] else [last]
  {
    var last := Slot(Key(entry.scope, st.counter + 1), entry);
    assert (st.slots + [last])[..|st.slots|] == st.slots;
  }

  lemma NewKeyUnused(st: Store, now: real, slot: Slot)
    requires KeysFresh(st) && slot.key.n == st.counter + 1
    ensures slot !in Unexpired(st.slots, now)
  {
    FilterMembers((s: Slot) => !s.entry.Expired(now), st.slots);
  }

  lemma PutIsLast(cfg: Config, st: Store, entry: Entry, now: real, slot: Slot)
    requires KeysFresh(st)
    requires slot in AfterPut(cfg, st, entry, now).slots && slot.key == Key(entry.scope, st.counter + 1)
    ensures var slots := AfterPut(cfg, st, entry, now).slots; slots[|slots| - 1].key == slot.key
  {
    UnexpiredGrown(st, entry, now);
    NewKeyUnused(st, now, slot);
    hide Filter, KeysFresh;
  }

  /** Right after a put or a hit nothing is ahead. */
  lemma MostRecentIsLast(cfg: Config, st: Store, op: Op, slot: Slot)
    requires KeysFresh(st)
    requires slot in Step(cfg, st, op).slots && slot.key in Touches(cfg, st, op)
    ensures After(Step(cfg, st, op).slots, slot) == {}
  {
    hide After, Filter, KeysFresh, Newest;
    StepKeepsKeysFresh(cfg, st, op);
    if op.PutOp? {
      PutIsLast(cfg, st, op.entry, op.now, slot);
    }
    DistinctKeyIsLast(Step(cfg, st, op), slot);
  }

  lemma {:induction false} RunAppend(cfg: Config, st: Store, a: seq<Op>, b: seq<Op>)
    ensures Run(cfg, st, a + b) == Run(cfg, Run(cfg, st, a), b)
    decreases |a|
  {
    hide Step;
    if a == [] {
      assert a + b == b;
    } else {
      assert (a + b)[1..] == a[1..] + b;
      RunAppend(cfg, Step(cfg, st, a[0]), a[1..], b);
    }
  }

  const EMPTY := Store([], 0)

  /**
   A run from an empty cache, split at a put or hit of an entry: as long as the entry is
   spared, it is gone at the end only if the rest of the run put or hit at least
   `maxEntries` other keys.
   */
  lemma EvictedSinceTouch(cfg: Config, before: seq<Op>, touch: Op, rest: seq<Op>, slot: Slot)
    requires var st := Run(cfg, EMPTY, before);
      slot in Step(cfg, st, touch).slots && slot.key in Touches(cfg, st, touch)
    requires forall i :: 0 <= i < |rest| ==> Spares(rest[i], slot)
    ensures var st := Step(cfg, Run(cfg, EMPTY, before), touch);
      slot in Run(cfg, EMPTY, before + [touch] + rest).slots
      || |TouchedIn(cfg, st, rest) - {slot.key}| >= cfg.maxEntries
  {
    hide Touches, TouchedIn, After, Spares;
    var st := Run(cfg, EMPTY, before);
    SizeBound(cfg, EMPTY, before);
    var next := Step(cfg, st, touch);
    MostRecentIsLast(cfg, st, touch, slot);
    StepKeepsKeysFresh(cfg, st, touch);
    hide Step, KeysFresh;
    assert Run(cfg, st, [touch]) == next by {
      assert [touch][1..] == [];
    }
    RunAppend(cfg, EMPTY, before, [touch]);
    RunAppend(cfg, EMPTY, before + [touch], rest);
    EvictedOnlyByRecency(cfg, next, rest, slot);
    assert {} + TouchedIn(cfg, next, rest) - {slot.key} == TouchedIn(cfg, next, rest) - {slot.key};
  }
}
