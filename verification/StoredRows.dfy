/**
 What a change event stores, from its payload's own fields, and what governance then makes of it.
 */
module StoredRows {
  import opened Schemas
  import opened Access
  import opened Masking
  import opened SecurityFilter
  import opened ScopeKey
  import opened SemanticCache
  import opened Cdc
  import opened Pipeline
  import opened PipelineRuns
  import opened PipelineAnswers

  /** The row a payload describes, each absent key at its default. */
  ghost predicate Describes(p: Payload, id: string, row: Chunk) {
    && row.id == id
    && row.content == (match p.text case None => "" case Some(text) => text)
    && row.parentDocId == row.parentTitle == (match p.assetId case None => id case Some(asset) => asset)
    && row.security.clearanceLevel == (match p.level case None => 0 case Some(level) => level)
    && row.security.sensitivityClass == (match p.cls case None => "" case Some(cls) => cls)
    && row.security.allowedRoles == (match p.allowedRoles case None => [] case Some(roles) => NormalRoles(roles))
    && row.security.needToKnowRoles == (match p.needToKnow case None => [] case Some(roles) => NormalRoles(roles))
    && row.security.ownerDepartment == "UNASSIGNED"
    && row.contextualAnchor == "" && row.ordinal == 0 && row.modality == "text" && row.metadata == map[]
  }

  /** An event is refused exactly for its version or its level, and is otherwise what it says. */
  lemma ChangeMeans(st: State, e: Event)
    ensures
      var (st', outcome) := ChangeStep(st, e);
      var row := RowFor(st'.cdc.rows, e.chunkId);
      && (outcome == SkippedStale <==> e.chunkId in st.cdc.versions && e.sourceVersion <= st.cdc.versions[e.chunkId])
      && (outcome == Dropped <==>
            && (e.chunkId in st.cdc.versions ==> e.sourceVersion > st.cdc.versions[e.chunkId])
            && e.op != Delete && e.payload.level.Some? && !(0 <= e.payload.level.value <= 5))
      && (outcome != Applied ==> st' == st)
      && (outcome == Applied ==>
            && (if e.op == Delete then row.None? else row.Some? && Describes(e.payload, e.chunkId, row.value))
            && (forall id :: id != e.chunkId ==> RowFor(st'.cdc.rows, id) == RowFor(st.cdc.rows, id))
            && st'.cdc.versions == st.cdc.versions[e.chunkId := e.sourceVersion]
            && st'.index == (if e.op == Delete then st.index else st'.cdc.rows))
  {
    hide StoreEffect, ChangeStep, RowFor;
    ChangeOutcome(st, e);
    if !Stale(st.cdc, e) && Dispatchable(e) {
      forall id {
        StoreEffectRows(st.cdc.rows, e, id);
      }
    }
  }

  /** The decision on the stored row, for every session, from the payload alone: it is never partial. */
  lemma StoredDecision(p: Payload, id: string, row: Chunk, session: Session)
    requires Describes(p, id, row)
    ensures
      var level := (match p.level case None => 0 case Some(n) => n);
      var cls := (match p.cls case None => "" case Some(c) => c);
      var allowed := (match p.allowedRoles case None => [] case Some(roles) => NormalRoles(roles));
      var needed := (match p.needToKnow case None => [] case Some(roles) => NormalRoles(roles));
      var open := level == 0 && (allowed == [] || "PUBLIC" in allowed);
      && (DecisionOf(row, session) == Mask <==> !open && cls == "D" && 2 <= session.clearanceLevel <= 3)
      && (DecisionOf(row, session) == Deny <==>
            && !open
            && if cls == "D" then session.clearanceLevel < 2
               else
                 || (cls != "" && !(|cls| == 1 && 'A' <= cls[0] <= 'N'))
                 || session.clearanceLevel < level
                 || (needed != [] && !HoldsOne(session, needed))
                 || (cls == "" && !HoldsOne(session, allowed)))
      && DecisionOf(row, session) != Partial
  {
    hide Evaluate, NormalRoles;
    DecisionsExactly(row, session);
    assert PartialForList(row.metadata) == [];
  }

  // ---- after the change ------------------------------------------------------------------

  lemma OnlyRow(rows: seq<Chunk>, e: Event, c: Chunk)
    requires Dispatchable(e) && e.op != Delete && c in StoreEffect(rows, e) && c.id == e.chunkId
    ensures c == RowOf(e).value
  {
    hide RowOf;
    FilterMembers((c: Chunk) => c.id != e.chunkId, rows);
  }

  /** A row of the changed chunk is denied to everyone below the new level. */
  lemma ReclassifiedDenies(st: State, e: Event, session: Session, c: Chunk)
    requires ChangeStep(st, e).1 == Applied && e.op != Delete
    requires e.payload.level.Some? && session.clearanceLevel < e.payload.level.value
    requires e.payload.cls != Some("D")
    requires c in ChangeStep(st, e).0.index && c.id == e.chunkId
    ensures DecisionOf(c, session) == Deny
  {
    hide StoreEffect, ChangeStep, RowFor, Evaluate, RowOf, NormalRoles;
    ChangeOutcome(st, e);
    OnlyRow(st.cdc.rows, e, c);
    RowOfDescribes(e);
    StoredDecision(e.payload, e.chunkId, c, session);
  }

  lemma RowOfDescribes(e: Event)
    requires RowOf(e).Some?
    ensures Describes(e.payload, e.chunkId, RowOf(e).value)
  {
  }

  ghost predicate Cites(response: Response, id: string) {
    exists k :: 0 <= k < |response.citations| && response.citations[k].chunkId == id
  }

  ghost predicate DeniedId(rows: seq<Chunk>, id: string, session: Session) {
    forall i :: 0 <= i < |rows| && rows[i].id == id ==> DecisionOf(rows[i], session) == Deny
  }

  lemma DeniedNotAdmitted(engine: Engine, index: seq<Chunk>, question: string, session: Session, id: string, k: nat)
    requires DeniedId(index, id, session) && k < |Admitted(Retrieve(engine, index, question), session)|
    ensures Admitted(Retrieve(engine, index, question), session)[k].chunk.id != id
  {
    hide Evaluate, Retrieve, Admitted;
    var candidates := Retrieve(engine, index, question);
    AdmittedIsViewed(candidates, session, k);
    var i :| 0 <= i < |candidates| && Retrievable(candidates[i].chunk, session)
      && Admitted(candidates, session)[k] == candidates[i].(chunk := View(candidates[i].chunk, session));
    RetrievedIsIndexed(engine, index, question, i);
  }

  lemma DeniedNotCitedCold(engine: Engine, index: seq<Chunk>, question: string, session: Session, id: string)
    requires DeniedId(index, id, session)
    ensures !Cites(ColdResponse(engine, index, question, session), id)
  {
    hide Evaluate, AnswerFrom, Retrieve, Admitted, Trail;
    forall k | 0 <= k < |Admitted(Retrieve(engine, index, question), session)|
      ensures Admitted(Retrieve(engine, index, question), session)[k].chunk.id != id
    {
      DeniedNotAdmitted(engine, index, question, session, id, k);
    }
  }

  lemma DeniedNotCitedWarm(cfg: Config, live: seq<Chunk>, slot: Slot, question: string, session: Session, id: string)
    requires DeniedId(live, id, session)
    ensures !Cites(WarmResponse(live, ResultOf(cfg, slot, question, GovernFn(live, session))), id)
  {
    hide Evaluate, GovernIds, RowFor;
    var hit := ResultOf(cfg, slot, question, GovernFn(live, session));
    GovernElements(live, slot.entry.chunkIds, session);
    assert id in hit.chunkIds ==> id in Elements(GovernIds(live, slot.entry.chunkIds, session));
    var cited := Filter((c: Chunk) => c.id in hit.chunkIds, live);
    FilterMembers((c: Chunk) => c.id in hit.chunkIds, live);
    forall k | 0 <= k < |cited|
      ensures cited[k].id != id
    {
      assert cited[k] in cited;
    }
  }

  lemma AllDenied(st: State, e: Event, session: Session)
    requires ChangeStep(st, e).1 == Applied && e.op != Delete
    requires e.payload.level.Some? && session.clearanceLevel < e.payload.level.value
    requires e.payload.cls != Some("D")
    ensures var st' := ChangeStep(st, e).0;
      st'.index == st'.cdc.rows && DeniedId(st'.index, e.chunkId, session)
  {
    hide ChangeStep, DecisionOf, StoreEffect;
    ChangeOutcome(st, e);
    var rows := ChangeStep(st, e).0.index;
    forall i | 0 <= i < |rows| && rows[i].id == e.chunkId
      ensures DecisionOf(rows[i], session) == Deny
    {
      ReclassifiedDenies(st, e, session, rows[i]);
    }
  }

  /**
   A reclassification that applies takes effect at once: whatever is asked, whatever the ranking
   brings up and whatever the cache held, no answer to a session below the new level cites the chunk.
   */
  lemma ReclassifiedHides(engine: Engine, cfg: Config, st: State, e: Event, question: string, session: Session, clock: Clock)
    requires ChangeStep(st, e).1 == Applied && e.op != Delete
    requires e.payload.level.Some? && session.clearanceLevel < e.payload.level.value
    requires e.payload.cls != Some("D")
    ensures var st' := ChangeStep(st, e).0;
      && !Cites(ColdResponse(engine, st'.index, question, session), e.chunkId)
      && (st'.cdc.cache.Some? ==> !Cites(QueryStep(engine, cfg, st', question, session, clock).1, e.chunkId))
  {
    hide ChangeStep, DeniedId, Cites, Lookup, GovernIds, ColdResponse, WarmResponse, ColdEntry, AfterPut, AfterGet;
    var st' := ChangeStep(st, e).0;
    AllDenied(st, e, session);
    DeniedNotCitedCold(engine, st'.index, question, session, e.chunkId);
    if st'.cdc.cache.Some? {
      var served := WarmSlot(cfg, st', question, session, clock.lookup);
      if served.Some? {
        DeniedNotCitedWarm(cfg, st'.cdc.rows, st'.cdc.cache.value.slots[served.value], question, session, e.chunkId);
      }
    }
  }

  lemma RetrievedIsIndexed(engine: Engine, index: seq<Chunk>, question: string, i: nat)
    requires i < |Retrieve(engine, index, question)|
    ensures Retrieve(engine, index, question)[i].chunk in index
  {
  }
}
