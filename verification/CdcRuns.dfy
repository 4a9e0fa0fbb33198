/**
 Whole runs of change events: where each chunk ends depends on the newest accepted event
 delivered for it, not on order, repeats, refusals or what happens to other chunks; and
 exactly when that is so.
 */
module CdcRuns {
  import opened Schemas
  import opened Cdc

  datatype Delivery = Delivery(event: Event, faults: nat -> Fault)

  function Step(s: CdcState, d: Delivery, maxRetries: nat): CdcState {
    ApplyEvent(s, d.event, d.faults, maxRetries).0
  }

  function Run(s: CdcState, ds: seq<Delivery>, maxRetries: nat): CdcState
    decreases |ds|
  {
    if ds == [] then s else Run(Step(s, ds[0], maxRetries), ds[1..], maxRetries)
  }

  // ---- one event -----------------------------------------------------------------

  /** Some attempt within the retry budget succeeds. */
  ghost predicate GetsThrough(e: Event, faults: nat -> Fault, attempt: nat, maxRetries: nat) {
    exists k :: attempt <= k <= maxRetries && Succeeds(e, faults(k))
  }

  lemma AttemptRows(s: CdcState, e: Event, f: Fault)
    ensures var t := AfterAttempt(s, e, f);
      && t.versions == s.versions
      && (Succeeds(e, f) ==> RowFor(t.rows, e.chunkId) == Effect(e))
      && forall id :: id != e.chunkId ==> RowFor(t.rows, id) == RowFor(s.rows, id)
  {
    hide RowFor, Effect;
    if Dispatchable(e) {
      forall id {
        StoreEffectRows(s.rows, e, id);
      }
    }
  }

  /**
   The retry loop: it applies exactly when an attempt in the budget succeeds, and then
   the chunk's row is the event's effect; a dropped event leaves the versions alone; no
   other chunk is touched either way.
   */
  lemma {:induction false} AttemptsFacts(s: CdcState, e: Event, faults: nat -> Fault, attempt: nat, maxRetries: nat)
    requires attempt <= maxRetries
    ensures var (t, outcome) := Attempts(s, e, faults, attempt, maxRetries);
      && outcome == (if GetsThrough(e, faults, attempt, maxRetries) then Applied else Dropped)
      && (outcome == Applied ==> RowFor(t.rows, e.chunkId) == Effect(e))
      && t.versions == (if outcome == Applied then s.versions[e.chunkId := e.sourceVersion] else s.versions)
      && forall id :: id != e.chunkId ==> RowFor(t.rows, id) == RowFor(s.rows, id)
    decreases maxRetries - attempt
  {
    var after := AfterAttempt(s, e, faults(attempt));
    AttemptRows(s, e, faults(attempt));
    if !Succeeds(e, faults(attempt)) && attempt < maxRetries {
      AttemptsFacts(after, e, faults, attempt + 1, maxRetries);
      assert GetsThrough(e, faults, attempt, maxRetries) ==> GetsThrough(e, faults, attempt + 1, maxRetries);
    }
  }

  lemma StepFacts(s: CdcState, d: Delivery, maxRetries: nat)
    ensures var (t, outcome) := ApplyEvent(s, d.event, d.faults, maxRetries);
      var e := d.event;
      && outcome == (if Stale(s, e) then SkippedStale
                     else if GetsThrough(e, d.faults, 0, maxRetries) then Applied else Dropped)
      && (outcome == SkippedStale ==> t == s)
      && (outcome == Applied ==> RowFor(t.rows, e.chunkId) == Effect(e))
      && t.versions == (if outcome == Applied then s.versions[e.chunkId := e.sourceVersion] else s.versions)
      && forall id :: id != e.chunkId ==> RowFor(t.rows, id) == RowFor(s.rows, id)
  {
    AttemptsFacts(s, d.event, d.faults, 0, maxRetries);
  }

  /** The same facts of one step of a run. */
  lemma StepAs(s: CdcState, d: Delivery, maxRetries: nat)
    ensures var t, e := Step(s, d, maxRetries), d.event;
      var applied := !Stale(s, e) && GetsThrough(e, d.faults, 0, maxRetries);
      && (Stale(s, e) ==> t == s)
      && (applied ==> RowFor(t.rows, e.chunkId) == Effect(e) && Dispatchable(e))
      && t.versions == (if applied then s.versions[e.chunkId := e.sourceVersion] else s.versions)
      && forall id :: id != e.chunkId ==> RowFor(t.rows, id) == RowFor(s.rows, id)
  {
    hide RowFor;
    StepFacts(s, d, maxRetries);
  }

  /** A refused payload fails every attempt before it has any effect. */
  lemma {:induction false} RefusedIsIdentity(s: CdcState, e: Event, faults: nat -> Fault, attempt: nat, maxRetries: nat)
    requires attempt <= maxRetries && !Dispatchable(e)
    ensures Attempts(s, e, faults, attempt, maxRetries) == (s, Dropped)
    decreases maxRetries - attempt
  {
    if attempt < maxRetries {
      RefusedIsIdentity(s, e, faults, attempt + 1, maxRetries);
    }
  }

  lemma RefusedStep(s: CdcState, d: Delivery, maxRetries: nat)
    requires !Dispatchable(d.event)
    ensures Step(s, d, maxRetries) == s
  {
    RefusedIsIdentity(s, d.event, d.faults, 0, maxRetries);
  }

  // ---- the newest accepted event of a chunk decides ------------------------------------

  ghost predicate Delivered(ds: seq<Delivery>, e: Event) {
    exists i :: 0 <= i < |ds| && ds[i].event == e
  }

  /** No accepted delivery for e's chunk is newer than e. */
  ghost predicate IsNewest(ds: seq<Delivery>, e: Event) {
    forall i :: 0 <= i < |ds| && ds[i].event.chunkId == e.chunkId && Dispatchable(ds[i].event) ==>
      ds[i].event.sourceVersion <= e.sourceVersion
  }

  /** Whatever accepted event shares e's chunk and version wants the same row. */
  ghost predicate TiesAgree(ds: seq<Delivery>, e: Event) {
    forall i :: (0 <= i < |ds| && ds[i].event.chunkId == e.chunkId && Dispatchable(ds[i].event)
      && ds[i].event.sourceVersion == e.sourceVersion) ==> Effect(ds[i].event) == Effect(e)
  }

  /** Some delivery of e's chunk and version gets through. */
  ghost predicate EverGetsThrough(ds: seq<Delivery>, e: Event, maxRetries: nat) {
    exists i :: 0 <= i < |ds| && ds[i].event.chunkId == e.chunkId && ds[i].event.sourceVersion == e.sourceVersion
      && GetsThrough(ds[i].event, ds[i].faults, 0, maxRetries)
  }

  /** Once the newest version is recorded, nothing a run delivers for the chunk changes its row again. */
  lemma {:induction false} SettledStays(s: CdcState, ds: seq<Delivery>, e: Event, maxRetries: nat)
    requires IsNewest(ds, e)
    requires e.chunkId in s.versions && s.versions[e.chunkId] == e.sourceVersion
    ensures var t := Run(s, ds, maxRetries);
      && RowFor(t.rows, e.chunkId) == RowFor(s.rows, e.chunkId)
      && e.chunkId in t.versions && t.versions[e.chunkId] == e.sourceVersion
    decreases |ds|
  {
    hide Dispatchable, Effect, GetsThrough, Step;
    if ds != [] {
      StepAs(s, ds[0], maxRetries);
      if !Dispatchable(ds[0].event) {
        RefusedStep(s, ds[0], maxRetries);
      }
      SettledStays(Step(s, ds[0], maxRetries), ds[1..], e, maxRetries);
    }
  }

  /**
   If the newest accepted event of a chunk ever gets through, the chunk ends as that event
   left it, whatever else was delivered, refused, dropped, repeated or reordered around it.
   */
  lemma {:induction false} NewestWins(s: CdcState, ds: seq<Delivery>, e: Event, maxRetries: nat)
    requires IsNewest(ds, e) && TiesAgree(ds, e) && !Stale(s, e)
    requires EverGetsThrough(ds, e, maxRetries)
    ensures var t := Run(s, ds, maxRetries);
      && RowFor(t.rows, e.chunkId) == Effect(e)
      && e.chunkId in t.versions && t.versions[e.chunkId] == e.sourceVersion
    decreases |ds|
  {
    hide Dispatchable, Effect, GetsThrough, Step;
    var d, t := ds[0], Step(s, ds[0], maxRetries);
    StepAs(s, d, maxRetries);
    var same := d.event.chunkId == e.chunkId && d.event.sourceVersion == e.sourceVersion;
    if same && GetsThrough(d.event, d.faults, 0, maxRetries) {
      SettledStays(t, ds[1..], e, maxRetries);
    } else {
      var i :| 0 <= i < |ds| && ds[i].event.chunkId == e.chunkId && ds[i].event.sourceVersion == e.sourceVersion
        && GetsThrough(ds[i].event, ds[i].faults, 0, maxRetries);
      assert ds[1..][i - 1] == ds[i];
      assert !Stale(t, e);
      NewestWins(t, ds[1..], e, maxRetries);
    }
  }

  /** No delivery for the chunk is both accepted and new. */
  ghost predicate NothingToApply(s: CdcState, ds: seq<Delivery>, id: string) {
    forall i :: 0 <= i < |ds| && ds[i].event.chunkId == id && Dispatchable(ds[i].event) ==> Stale(s, ds[i].event)
  }

  /** A chunk for which nothing accepted and new is delivered keeps its row and version. */
  lemma {:induction false} UnmovedStays(s: CdcState, ds: seq<Delivery>, id: string, maxRetries: nat)
    requires NothingToApply(s, ds, id)
    ensures var t := Run(s, ds, maxRetries);
      && RowFor(t.rows, id) == RowFor(s.rows, id)
      && (id in t.versions <==> id in s.versions)
      && (id in s.versions ==> t.versions[id] == s.versions[id])
    decreases |ds|
  {
    hide Dispatchable, Effect, GetsThrough, Step;
    if ds != [] {
      StepAs(s, ds[0], maxRetries);
      if !Dispatchable(ds[0].event) {
        RefusedStep(s, ds[0], maxRetries);
      }
      UnmovedStays(Step(s, ds[0], maxRetries), ds[1..], id, maxRetries);
    }
  }

  // ---- convergence, chunk by chunk --------------------------------------------------------

  /** e is the newest event of its chunk that can apply. */
  ghost predicate Top(s: CdcState, ds: seq<Delivery>, e: Event) {
    Delivered(ds, e) && Dispatchable(e) && !Stale(s, e) && IsNewest(ds, e)
  }

  /** Nothing can apply to the chunk, or its newest applicable events agree and one of them gets through. */
  ghost predicate Settled(s: CdcState, ds: seq<Delivery>, id: string, maxRetries: nat) {
    NothingToApply(s, ds, id)
    || exists e :: Top(s, ds, e) && e.chunkId == id && TiesAgree(ds, e) && EverGetsThrough(ds, e, maxRetries)
  }

  ghost predicate SameAt(t: CdcState, u: CdcState, id: string) {
    && RowFor(t.rows, id) == RowFor(u.rows, id)
    && (id in t.versions <==> id in u.versions)
    && (id in t.versions ==> t.versions[id] == u.versions[id])
  }

  ghost predicate SameFor(ds: seq<Delivery>, es: seq<Delivery>, id: string) {
    forall e: Event :: e.chunkId == id ==> (Delivered(ds, e) <==> Delivered(es, e))
  }

  lemma NothingElsewhere(s: CdcState, ds: seq<Delivery>, es: seq<Delivery>, id: string)
    requires SameFor(ds, es, id) && NothingToApply(s, ds, id)
    ensures NothingToApply(s, es, id)
  {
    hide Dispatchable, Stale;
    forall j | 0 <= j < |es| && es[j].event.chunkId == id && Dispatchable(es[j].event)
      ensures Stale(s, es[j].event)
    {
      assert Delivered(es, es[j].event) && Delivered(ds, es[j].event);
    }
  }

  /**
   Two runs that deliver the same events for a chunk leave it with the same row and version,
   if in each of them it is settled. What they deliver for other chunks does not matter.
   */
  lemma ConvergesAt(s: CdcState, ds: seq<Delivery>, es: seq<Delivery>, maxRetries: nat, id: string)
    requires SameFor(ds, es, id) && Settled(s, ds, id, maxRetries) && Settled(s, es, id, maxRetries)
    ensures SameAt(Run(s, ds, maxRetries), Run(s, es, maxRetries), id)
  {
    hide Dispatchable, Stale, Effect, Run, EverGetsThrough, NothingToApply;
    if NothingToApply(s, ds, id) {
      NothingElsewhere(s, ds, es, id);
      UnmovedStays(s, ds, id, maxRetries);
      UnmovedStays(s, es, id, maxRetries);
    } else {
      if NothingToApply(s, es, id) {
        NothingElsewhere(s, es, ds, id);
        assert false;
      }
      var e :| Top(s, ds, e) && e.chunkId == id && TiesAgree(ds, e) && EverGetsThrough(ds, e, maxRetries);
      var f :| Top(s, es, f) && f.chunkId == id && TiesAgree(es, f) && EverGetsThrough(es, f, maxRetries);
      assert Delivered(es, e) && Delivered(ds, f);
      assert e.sourceVersion == f.sourceVersion && Effect(e) == Effect(f);
      NewestWins(s, ds, e, maxRetries);
      NewestWins(s, es, f, maxRetries);
    }
  }

  ghost predicate SameEnd(t: CdcState, u: CdcState) {
    forall id :: SameAt(t, u, id)
  }

  lemma SameVersions(t: CdcState, u: CdcState)
    requires SameEnd(t, u)
    ensures t.versions == u.versions
  {
    hide RowFor;
    forall id
      ensures id in t.versions <==> id in u.versions
      ensures id in t.versions ==> t.versions[id] == u.versions[id]
    {
      assert SameAt(t, u, id);
    }
  }

  /** ... and if that holds of every chunk, the runs end with the same rows and the same versions. */
  lemma Convergence(s: CdcState, ds: seq<Delivery>, es: seq<Delivery>, maxRetries: nat)
    requires forall id :: SameFor(ds, es, id) && Settled(s, ds, id, maxRetries) && Settled(s, es, id, maxRetries)
    ensures SameEnd(Run(s, ds, maxRetries), Run(s, es, maxRetries))
    ensures Run(s, ds, maxRetries).versions == Run(s, es, maxRetries).versions
  {
    hide SameFor, Settled, Run;
    forall id
      ensures SameAt(Run(s, ds, maxRetries), Run(s, es, maxRetries), id)
    {
      ConvergesAt(s, ds, es, maxRetries, id);
    }
    SameVersions(Run(s, ds, maxRetries), Run(s, es, maxRetries));
  }

  // ---- without faults, and exactly when --------------------------------------------------

  ghost predicate FaultFree(ds: seq<Delivery>) {
    forall i, k :: 0 <= i < |ds| ==> ds[i].faults(k) == NoFault
  }

  /** The newest applicable events of each chunk want the same row. */
  ghost predicate TopsAgree(s: CdcState, ds: seq<Delivery>) {
    forall e, f :: Top(s, ds, e) && Top(s, ds, f) && e.chunkId == f.chunkId ==> Effect(e) == Effect(f)
  }

  lemma {:induction false} TopExists(s: CdcState, ds: seq<Delivery>, id: string) returns (e: Event)
    requires !NothingToApply(s, ds, id)
    ensures Top(s, ds, e) && e.chunkId == id
  {
    hide Dispatchable;
    var n := |ds| - 1;
    var init, last := ds[..n], ds[n].event;
    assert forall i :: 0 <= i < n ==> ds[i] == init[i];
    if NothingToApply(s, init, id) {
      e := last;
    } else {
      var f := TopExists(s, init, id);
      var k :| 0 <= k < |init| && init[k].event == f;
      assert ds[k].event == f;
      e := if last.chunkId == id && Dispatchable(last) && last.sourceVersion > f.sourceVersion then last else f;
    }
  }

  lemma FaultFreeSettles(s: CdcState, ds: seq<Delivery>, id: string, maxRetries: nat)
    requires FaultFree(ds) && TopsAgree(s, ds)
    ensures Settled(s, ds, id, maxRetries)
  {
    hide Dispatchable, Effect;
    if !NothingToApply(s, ds, id) {
      var e := TopExists(s, ds, id);
      forall i | 0 <= i < |ds| && ds[i].event.chunkId == e.chunkId && Dispatchable(ds[i].event)
        && ds[i].event.sourceVersion == e.sourceVersion
        ensures Effect(ds[i].event) == Effect(e)
      {
        assert Top(s, ds, ds[i].event);
      }
      var k :| 0 <= k < |ds| && ds[k].event == e;
      assert Succeeds(e, ds[k].faults(0));
      assert GetsThrough(ds[k].event, ds[k].faults, 0, maxRetries);
    }
  }

  lemma TopsAgreeElsewhere(s: CdcState, ds: seq<Delivery>, es: seq<Delivery>)
    requires TopsAgree(s, ds) && forall id :: SameFor(ds, es, id)
    ensures TopsAgree(s, es)
  {
    hide Dispatchable, Effect, Stale;
    forall e, f | Top(s, es, e) && Top(s, es, f) && e.chunkId == f.chunkId
      ensures Effect(e) == Effect(f)
    {
      TopElsewhere(s, ds, es, e);
      TopElsewhere(s, ds, es, f);
    }
  }

  lemma TopElsewhere(s: CdcState, ds: seq<Delivery>, es: seq<Delivery>, e: Event)
    requires Top(s, es, e) && SameFor(ds, es, e.chunkId)
    ensures Top(s, ds, e)
  {
    hide Dispatchable, Stale;
    forall i | 0 <= i < |ds| && ds[i].event.chunkId == e.chunkId && Dispatchable(ds[i].event)
      ensures ds[i].event.sourceVersion <= e.sourceVersion
    {
      assert Delivered(ds, ds[i].event) && Delivered(es, ds[i].event);
    }
  }

  /** Fault-free runs over the same events, in any order and with any repeats, end alike as soon as the newest applicable events agree. */
  lemma FaultFreeConvergence(s: CdcState, ds: seq<Delivery>, es: seq<Delivery>, maxRetries: nat)
    requires FaultFree(ds) && FaultFree(es) && TopsAgree(s, ds)
    requires forall id :: SameFor(ds, es, id)
    ensures SameEnd(Run(s, ds, maxRetries), Run(s, es, maxRetries))
  {
    hide FaultFree, TopsAgree, SameFor, Settled, SameEnd;
    TopsAgreeElsewhere(s, ds, es);
    forall id
      ensures Settled(s, ds, id, maxRetries) && Settled(s, es, id, maxRetries)
    {
      FaultFreeSettles(s, ds, id, maxRetries);
      FaultFreeSettles(s, es, id, maxRetries);
    }
    Convergence(s, ds, es, maxRetries);
  }

  /** One event per chunk and version. */
  ghost predicate VersionsUnique(ds: seq<Delivery>) {
    forall i, j :: (0 <= i < |ds| && 0 <= j < |ds| && ds[i].event.chunkId == ds[j].event.chunkId
      && ds[i].event.sourceVersion == ds[j].event.sourceVersion) ==> ds[i].event == ds[j].event
  }

  /** With one event per chunk and version they always agree. */
  lemma UniqueVersionsConverge(s: CdcState, ds: seq<Delivery>, es: seq<Delivery>, maxRetries: nat)
    requires FaultFree(ds) && FaultFree(es) && VersionsUnique(ds)
    requires forall id :: SameFor(ds, es, id)
    ensures SameEnd(Run(s, ds, maxRetries), Run(s, es, maxRetries))
  {
    hide FaultFree, SameFor, SameEnd, Dispatchable, Effect, Stale;
    forall e, f | Top(s, ds, e) && Top(s, ds, f) && e.chunkId == f.chunkId
      ensures Effect(e) == Effect(f)
    {
      var i :| 0 <= i < |ds| && ds[i].event == e;
      var j :| 0 <= j < |ds| && ds[j].event == f;
      assert e.sourceVersion <= f.sourceVersion <= e.sourceVersion;
    }
    FaultFreeConvergence(s, ds, es, maxRetries);
  }

  /** Every reordering ends alike. */
  ghost predicate OrderFree(s: CdcState, ds: seq<Delivery>, maxRetries: nat) {
    forall es :: multiset(es) == multiset(ds) ==> SameEnd(Run(s, ds, maxRetries), Run(s, es, maxRetries))
  }

  lemma ReorderingDelivers(ds: seq<Delivery>, es: seq<Delivery>)
    requires multiset(es) == multiset(ds)
    ensures forall id :: SameFor(ds, es, id)
    ensures FaultFree(ds) ==> FaultFree(es)
  {
    forall d: Delivery
      ensures d in ds <==> d in es
    {
      assert d in multiset(ds) <==> d in multiset(es);
    }
    forall i | 0 <= i < |ds|
      ensures Delivered(es, ds[i].event)
    {
      assert ds[i] in es;
    }
    forall i | 0 <= i < |es|
      ensures Delivered(ds, es[i].event) && es[i] in ds
    {
      assert es[i] in ds;
    }
  }

  /** The reordering that delivers one event first. */
  function Fronted(ds: seq<Delivery>, i: nat): seq<Delivery>
    requires i < |ds|
  {
    [ds[i]] + (ds[..i] + ds[i + 1..])
  }

  lemma FrontedReorders(ds: seq<Delivery>, i: nat)
    requires i < |ds|
    ensures multiset(Fronted(ds, i)) == multiset(ds)
  {
    assert ds == ds[..i] + [ds[i]] + ds[i + 1..];
  }

  /** Delivered first, a newest applicable event decides its chunk. */
  lemma FirstDecides(s: CdcState, ds: seq<Delivery>, i: nat, maxRetries: nat)
    requires FaultFree(ds) && i < |ds| && Top(s, ds, ds[i].event)
    ensures RowFor(Run(s, Fronted(ds, i), maxRetries).rows, ds[i].event.chunkId) == Effect(ds[i].event)
  {
    hide Effect, Dispatchable, RowFor, Step;
    var d, rest := ds[i], ds[..i] + ds[i + 1..];
    assert Fronted(ds, i)[1..] == rest;
    StepAs(s, d, maxRetries);
    assert Succeeds(d.event, d.faults(0));
    assert GetsThrough(d.event, d.faults, 0, maxRetries);
    assert forall j :: 0 <= j < |rest| ==> rest[j] == if j < i then ds[j] else ds[j + 1];
    SettledStays(Step(s, d, maxRetries), rest, d.event, maxRetries);
  }

  /** Without faults, the order of deliveries does not matter exactly when the newest applicable events of each chunk want the same row. */
  lemma OrderFreeExactly(s: CdcState, ds: seq<Delivery>, maxRetries: nat)
    requires FaultFree(ds)
    ensures OrderFree(s, ds, maxRetries) <==> TopsAgree(s, ds)
  {
    hide FaultFree, Effect, Dispatchable, Stale, IsNewest, Run, Fronted, SameFor;
    if TopsAgree(s, ds) {
      forall es | multiset(es) == multiset(ds)
        ensures SameEnd(Run(s, ds, maxRetries), Run(s, es, maxRetries))
      {
        ReorderingDelivers(ds, es);
        FaultFreeConvergence(s, ds, es, maxRetries);
      }
    }
    if OrderFree(s, ds, maxRetries) {
      forall e, f | Top(s, ds, e) && Top(s, ds, f) && e.chunkId == f.chunkId
        ensures Effect(e) == Effect(f)
      {
        var i :| 0 <= i < |ds| && ds[i].event == e;
        var j :| 0 <= j < |ds| && ds[j].event == f;
        FirstDecides(s, ds, i, maxRetries);
        FirstDecides(s, ds, j, maxRetries);
        FrontedReorders(ds, i);
        FrontedReorders(ds, j);
        assert SameAt(Run(s, ds, maxRetries), Run(s, Fronted(ds, i), maxRetries), e.chunkId);
        assert SameAt(Run(s, ds, maxRetries), Run(s, Fronted(ds, j), maxRetries), e.chunkId);
      }
    }
  }

  // ---- what the contract on versions is for, and what a drop leaves behind ----------------

  /** Two events under one version: whichever comes first wins, so order matters. */
  lemma SharedVersionsDiverge()
    ensures
      var p := Payload(None, Some("a"), None, None, None, None);
      var a, b := Event(Update, "c", 1, p), Event(Update, "c", 1, p.(text := Some("b")));
      var s := CdcState([], map[], None);
      var da, db := Delivery(a, k => NoFault), Delivery(b, k => NoFault);
      RowFor(Run(s, [da, db], 0).rows, "c") != RowFor(Run(s, [db, da], 0).rows, "c")
  {
    var p := Payload(None, Some("a"), None, None, None, None);
    var a, b := Event(Update, "c", 1, p), Event(Update, "c", 1, p.(text := Some("b")));
    var s := CdcState([], map[], None);
    var da, db := Delivery(a, k => NoFault), Delivery(b, k => NoFault);
    FirstWins(s, da, db);
    FirstWins(s, db, da);
  }

  lemma FirstWins(s: CdcState, d: Delivery, f: Delivery)
    requires d.event.chunkId == f.event.chunkId && d.event.sourceVersion == f.event.sourceVersion
    requires !Stale(s, d.event) && Succeeds(d.event, d.faults(0))
    ensures RowFor(Run(s, [d, f], 0).rows, d.event.chunkId) == Effect(d.event)
  {
    StepFacts(s, d, 0);
    assert GetsThrough(d.event, d.faults, 0, 0);
    var t := Step(s, d, 0);
    StepFacts(t, f, 0);
    assert [d, f][1..] == [f] && [f][1..] == [];
    assert Run(s, [d, f], 0) == Run(t, [f], 0) == Run(Step(t, f, 0), [], 0);
  }

  lemma StoreEffectIdempotent(rows: seq<Chunk>, e: Event)
    requires Dispatchable(e)
    ensures StoreEffect(StoreEffect(rows, e), e) == StoreEffect(rows, e)
  {
    var keep := (c: Chunk) => c.id != e.chunkId;
    var rest := Filter(keep, rows);
    var added := if e.op == Delete then [] else [RowOf(e).value];
    FilterAppend(keep, rest, added);
    assert added != [] ==> added[..0] == [] && Filter(keep, added) == Filter(keep, []) + [];
    FilterMembers(keep, rows);
    forall i | 0 <= i < |rest|
      ensures keep(rest[i])
    {
      assert rest[i] in rest;
    }
    FilterAll(keep, rest);
    assert Filter(keep, rest + added) == rest;
  }

  /** Some attempt left the store changed. */
  ghost predicate StoreTookEffect(e: Event, faults: nat -> Fault, attempt: nat, maxRetries: nat) {
    Dispatchable(e) && exists k :: attempt <= k <= maxRetries && faults(k) != StoreRaises(false)
  }

  lemma {:induction false} DroppedRow(s: CdcState, e: Event, faults: nat -> Fault, attempt: nat, maxRetries: nat)
    requires attempt <= maxRetries && !GetsThrough(e, faults, attempt, maxRetries)
    ensures var t := Attempts(s, e, faults, attempt, maxRetries).0;
      RowFor(t.rows, e.chunkId) ==
      if StoreTookEffect(e, faults, attempt, maxRetries) then Effect(e) else RowFor(s.rows, e.chunkId)
    decreases maxRetries - attempt
  {
    hide RowFor, Effect;
    var after := AfterAttempt(s, e, faults(attempt));
    assert !Succeeds(e, faults(attempt));
    AttemptRow(s, e, faults(attempt));
    if attempt < maxRetries {
      forall k | attempt + 1 <= k <= maxRetries
        ensures !Succeeds(e, faults(k))
      {
      }
      DroppedRow(after, e, faults, attempt + 1, maxRetries);
    }
  }

  lemma AttemptRow(s: CdcState, e: Event, f: Fault)
    ensures RowFor(AfterAttempt(s, e, f).rows, e.chunkId) ==
            if Dispatchable(e) && f != StoreRaises(false) then Effect(e) else RowFor(s.rows, e.chunkId)
  {
    hide RowFor;
    if Dispatchable(e) {
      StoreEffectRows(s.rows, e, e.chunkId);
    }
  }

  /** A dropped event leaves its chunk's row as it was exactly when no attempt got as far as the store, or it asked for nothing new. */
  lemma DropLeavesRowExactly(s: CdcState, e: Event, faults: nat -> Fault, maxRetries: nat)
    requires !Stale(s, e) && !GetsThrough(e, faults, 0, maxRetries)
    ensures var (t, outcome) := ApplyEvent(s, e, faults, maxRetries);
      && outcome == Dropped
      && (RowFor(t.rows, e.chunkId) == RowFor(s.rows, e.chunkId)
          <==> !StoreTookEffect(e, faults, 0, maxRetries) || Effect(e) == RowFor(s.rows, e.chunkId))
  {
    hide RowFor, Effect, GetsThrough, Attempts;
    AttemptsFacts(s, e, faults, 0, maxRetries);
    DroppedRow(s, e, faults, 0, maxRetries);
  }

  /** An event whose cache invalidation keeps raising is dropped with its row change in place and the cache untouched. */
  lemma {:induction false} DropKeepsRow(s: CdcState, e: Event, faults: nat -> Fault, attempt: nat, maxRetries: nat)
    requires attempt <= maxRetries && Dispatchable(e)
    requires forall k :: faults(k) == CacheRaises(false)
    ensures Attempts(s, e, faults, attempt, maxRetries) == (s.(rows := StoreEffect(s.rows, e)), Dropped)
    decreases maxRetries - attempt
  {
    hide StoreEffect, RowOf, Invalidated;
    var after := s.(rows := StoreEffect(s.rows, e));
    StoreEffectIdempotent(s.rows, e);
    if attempt < maxRetries {
      DropKeepsRow(after, e, faults, attempt + 1, maxRetries);
    }
  }
}
