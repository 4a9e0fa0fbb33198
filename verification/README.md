# Governed retrieval, verified

A Dafny model of a permission-aware question-answering engine, with proofs of what it
promises. A user asks a question; the engine retrieves chunks, decides for each what the
user's session may see (`allow`, `mask`, `partial`, `deny`), drops or redacts accordingly,
and generates an answer from what is left. Answers are cached by authorisation scope and
served again only after governance is re-derived; change events rewrite the live chunks and
invalidate the cache; a rate limiter guards the door.

Check everything with `dafny verify dfyconfig.toml`.

## How the model is laid out

| files | what they model |
|---|---|
| `Schemas`, `Decimal`, `StableSort` | records, role validators, list and number helpers |
| `Access`, `Masking`, `SecurityFilter` | the decision procedure, redaction, the filter and its noninterference |
| `Allowlist`, `Rebac`, `Oracle` | the allowlist, the decision re-derived from string tuples, the independent access matrix |
| `ScopeKey`, `SemanticCache`, `CacheRuns` | the scope payload, the LRU/TTL cache, its runs |
| `Cdc`, `CdcRuns` | change events with retries and faults, convergence of runs |
| `Grader`, `CorrectiveLoop` | the self-correcting loop and its judges |
| `Pipeline`, `PipelineRuns`, `PipelineAnswers`, `PipelineHistory`, `PipelineHits` | the whole state machine: live rows, index, cache, versions; its invariant; what answers rest on; what a state owes to its run; what a hit gives back |
| `AnswerText`, `StoredRows`, `CacheTimes` | the same in raw terms: the text of an answer and its grades, the row a change stores, the clock |
| `Chunker`, `ChunkerFacts`, `Ingestion` | windows of a document, chunk ids, indexing |
| `Fusion`, `FusionFacts`, `Reranker`, `Hybrid`, `HybridPool` | reciprocal rank fusion, reranking, the hybrid retriever and what it returns |
| `VectorIndex`, `VectorPath` | id bijection, allowlisted vector search, drop-before-search |
| `RateLimiter`, `RateBounds`, `RateDays` | the three windows, bounds over every run, and exactly when the daily cap holds |
| `AstGate`, `ResultMasking` | projection sources of a SELECT, masking of result rows |
| `ReEmbed` | the re-embedding migration |

Code that updates state is a class whose methods are proved equal to a function of the old
state; the theorems are about those functions and about all their runs. Embedding
similarity, ranking scores, tokenisation, generation, SQL functions and reformulation are
arbitrary functions passed as parameters, so each theorem holds for every choice of them.
Times and scores are reals, clock readings are arguments, and a raised exception is a
`None` or an outcome.

The central result is `PipelineRuns.RunsAreCoherent` with `PipelineAnswers.EveryWarmAnswer`:
after any sequence of queries and change events, every cached answer that is served equals
what generation would produce now from the requester's own redacted views of exactly the
live chunks the entry names.

## Where the code does less than it says

Each of these is stated as an exact condition, or shown on a concrete input.

- More clearance or more roles can lower a decision: on an un-classed chunk, gaining a
  need-to-know role leaves the scoped branch for the role gate, which may deny
  (`Access.MonotoneExactly`, `Access.PromotionCanDeny`).
- A deletion is not re-indexed (src/rag_engine/pipeline.py:171), so a cold answer can rest on
  a deleted chunk: exactly from the deletion of an indexed chunk until a change that is not a
  deletion applies (`PipelineHistory.ColdRestsOnRun`, `PipelineHistory.DeletedStillCited`).
- A warm answer cites the stored rows, not their redacted views
  (src/rag_engine/pipeline.py:312): a masked chunk asked about twice is cited by its content
  the second time (`PipelineHits.WarmCitesMasked`). After any run the citations are those of
  the views exactly when the put that is served was let see no masked or partial row with more
  than its token in it (`PipelineHits.WarmCitationsExactly`).
- A cache entry without chunk ids can be served, although the lookup's comment says at least
  one chunk must survive: one does exactly when the put admitted one
  (`PipelineHits.SurvivorExactly`). No change invalidates such an entry, so a grant does not
  reach it: a refusal is served again, without the denial, after the chunk was made public
  (`PipelineHits.EmptyHitMissesGrant`).
- A warm answer is the one a cold query would give now, whatever the generator, exactly when
  the cold query would admit the same ids in the same order (`PipelineAnswers.WarmEqualsCold`);
  the rest of a warm response repeats its put's only where that one blocked nothing
  (`PipelineHits.WarmAgainstPut`).
- The vector index caps a search at the number of mapped ids, denied ones included. Should an
  allowed id be held more than once, adding a denied chunk can add a hit
  (`VectorPath.RepeatedIdShows`); `VectorPath.CapShowsExactly` says when, and with distinct ids
  it never does (`VectorPath.DropBeforeSearch`).
- Change events of one chunk and version need not converge: without faults the order does not
  matter exactly when the newest applicable events of each chunk want the same row
  (`CdcRuns.OrderFreeExactly`, and `CdcRuns.SharedVersionsDiverge` at one input).
- A dropped event leaves its chunk's row as it was exactly when no attempt got as far as the
  store, or it asked for nothing new (`CdcRuns.DropLeavesRowExactly`).
- The daily cap counts from the first call of a rolling window, so a half-open day that
  straddles two windows can exceed it, up to twice (`RateDays.TwiceTheCap`). It holds for
  every half-open day exactly for a cap of one, or one the minute caps keep out of reach
  (`RateDays.DayCapExactly`), and twice the cap is reached exactly as `RateDays.TwiceExactly`
  says.
- A second filter is not the identity on non-text chunks admitted as partial: their grant is
  scrubbed, and they are denied the second time (`SecurityFilter.DoubleFilterIdentity`, and
  `SecurityFilter.ImageLosesGrant` at one input).
- The tuple engine lets in some validated session the decision procedure denies exactly for an
  unrecognised class on a chunk that is not public, unless it has need-to-know roles and no
  validated session can hold them or a scoped one (`Rebac.ParityExactly`).
- A negative overlap, or a chunk size of zero, loses text in a hard split
  (`ChunkerFacts.SplitLosesNothingExactly`).
- The re-embedding loop does not end when rows outnumber a batch and the batch size is zero or
  the versions are the same (`ReEmbed.StuckOtherwise`).
- Masking by projection source depends on a computed column coming back under the name the
  parser reads off it; an unaliased call does not (`ResultMasking.MaskingHidesExactly`,
  `ResultMasking.UnnamedCallShows`).

## Model

| member | source | states |
|---|---|---|
| Schemas.NormaliseRoles | src/rag_engine/schemas.py:54-66 | the access record's role list is the strip/upper-case images of the given names, blanks dropped, each once, in first-seen order |
| Schemas.SessionRolesValid | src/rag_engine/schemas.py:134-149 | a session is refused exactly when some stripped role holds a control character; what is kept is non-empty, stripped, upper-case and control-free |
| Schemas.ValidateRoles | src/rag_engine/schemas.py:134-149 | the validating loop computes that list or refuses |
| Schemas.StripMeans | src/rag_engine/schemas.py:54-66 | stripping takes the white space off both ends and nothing else; it leaves nothing exactly of blank text |
| Schemas.UpperMeans | src/rag_engine/schemas.py:54-66 | upper-casing moves the letters a to z and no other character |
| Schemas.NormalRolesAppend | src/rag_engine/schemas.py:54-66 | one more name goes last exactly when it is neither blank nor there already |
| Schemas.SessionRolesAppend | src/rag_engine/schemas.py:134-149 | one more name is kept, stripped and upper-cased, unless it is blank |
| Schemas.OneRole | src/rag_engine/schemas.py:134-149 | a name without outer white space is refused exactly for a character below the space, and otherwise kept, upper-cased |
| Access.MonotoneExactly | src/rag_engine/governance/access.py:30-112 | more level and more roles never lower the decision on a chunk, exactly when the chunk is not one where a need-to-know role can displace a scoped grant |
| Access.PromotionCanDeny | src/rag_engine/governance/access.py:77-108 | a concrete chunk and a role that turns partial access into none |
| Access.DecisionsExactly | src/rag_engine/governance/access.py:30-112 | allow, mask and partial each hold exactly under their condition on the record, the metadata and the session |
| Access.DenialsExactly | src/rag_engine/governance/access.py:30-112 | a denial has one of five reasons, each given exactly under its condition |
| Access.DecisionRecord | src/rag_engine/governance/access.py:32-37 | the record names the chunk, its document and roles and the session's roles, with a mask reason exactly when masked and a scope exactly when partial |
| Access.PartialForMeans | src/rag_engine/governance/access.py:83-85 | who has scoped access, for each shape of the metadata value |
| Masking.LowEqualSameView | src/rag_engine/governance/masking.py:52-98 | rows differing only in what a session may not see get one decision and one redacted view |
| Masking.ViewOfView | src/rag_engine/governance/masking.py:64-98 | redacting a redacted chunk keeps decision and content, unless it was non-text and partial, and then it is denied |
| Masking.ScrubDropsGrant | src/rag_engine/multimodal/payload.py:57-74 | the withheld chunk's metadata carries no scoped grant, and scrubbing twice is scrubbing once |
| Masking.ViewReveals | src/rag_engine/governance/masking.py:52-98 | an allowed chunk is seen whole; any other keeps its record and position, shows a token of its decision and modality, loses its anchor, and unless it is text keeps only the listed scalars of its metadata |
| SecurityFilter.Apply | src/rag_engine/governance/filter.py:28-42 | the loop admits the retrievable candidates in order, redacted, and records one decision per candidate |
| SecurityFilter.AdmittedIsViewed | src/rag_engine/governance/filter.py:28-42 | every admitted chunk is the session's own view of a retrievable candidate, with its score and ranks |
| SecurityFilter.Noninterference | src/rag_engine/governance/filter.py:28-42 | two candidate lists differing only in content the session may not see give identical admitted lists and trails |
| SecurityFilter.SameScopeSameAdmitted | src/rag_engine/governance/filter.py:28-42 | sessions of one scope are admitted the same chunks with the same redactions |
| SecurityFilter.DoubleFilter | src/rag_engine/governance/filter.py:28-42 | filtering filter output removes exactly the partially granted non-text chunks |
| SecurityFilter.DoubleFilterIdentity | src/rag_engine/governance/filter.py:28-42 | it is the identity if and only if there were none |
| SecurityFilter.ImageLosesGrant | src/rag_engine/governance/filter.py:28-42 | an image and a session that is admitted to it once and denied it the second time |
| ScopeKey.PayloadIsScope | src/rag_engine/cache/key.py:32-46 | two validated sessions have the same fingerprint payload if and only if they have the same level and role set |
| ScopeKey.UnvalidatedRolesAlias | src/rag_engine/schemas.py:134-149 | without the control-character check two scopes would share a payload |
| ScopeKey.SortedRolesCorrect | src/rag_engine/cache/key.py:33-37 | the canonical role tuple is strictly ascending and has the session's roles |
| Decimal.RoundTrip | src/rag_engine/governance/rebac/local.py:48-71 | a level written in decimal reads back as itself |
| SemanticCache.FindBest | src/rag_engine/cache/semantic_cache.py:109-118 | the scan finds the first entry of greatest similarity among the unexpired ones of the scope, or that there is none above the floor |
| SemanticCache.SemanticCache.Get | src/rag_engine/cache/semantic_cache.py:96-153 | a lookup serves the slot `Lookup` names, moves it to the end and returns its answer, re-governed ids and count; a miss changes nothing |
| SemanticCache.SemanticCache.Put | src/rag_engine/cache/semantic_cache.py:173-200 | a put appends under a fresh key, then drops the expired, then keeps the newest up to the cap |
| SemanticCache.SemanticCache.InvalidateChunk | src/rag_engine/cache/semantic_cache.py:202-212 | invalidation removes exactly the entries naming the chunk |
| SemanticCache.SemanticCache.Evict | src/rag_engine/cache/semantic_cache.py:214-220 | eviction drops expired entries, then the least recently used over the cap |
| SemanticCache.ServesUnique | src/rag_engine/cache/semantic_cache.py:109-139 | at most one entry can answer a lookup |
| SemanticCache.PutKeepsKeysFresh | src/rag_engine/cache/semantic_cache.py:186-200 | keys stay distinct and below the counter across a put |
| CacheTimes.LookupExactly | src/rag_engine/cache/semantic_cache.py:109-139 | an entry is served if and only if it is of the scope, its age is at most its ttl, it is the first of greatest similarity among such entries, above -1 and at the threshold or above, and re-governance gives back its very ids |
| CacheTimes.HitMeans | src/rag_engine/cache/semantic_cache.py:141-153 | a hit has the entry's answer and withheld count, the re-governed ids, and the similarity of the two questions |
| CacheTimes.PutLeaves | src/rag_engine/cache/semantic_cache.py:173-220 | a put leaves, in order, the newest of the entries no older than their ttl, as many as the cap, the new one last under the next key |
| CacheRuns.SizeBound | src/rag_engine/cache/semantic_cache.py:214-220 | in every run the cache never exceeds its cap and its keys stay fresh |
| CacheRuns.EvictedOnlyByRecency | src/rag_engine/cache/semantic_cache.py:96-220 | over any run, an entry that neither expired nor was invalidated is gone only if at least `max_entries` other keys were ahead of it at the start or put or hit during the run |
| CacheRuns.EvictedSinceTouch | src/rag_engine/cache/semantic_cache.py:96-220 | from an empty cache, splitting a run at a put or hit of the entry, it is gone only if the rest of the run put or hit `max_entries` other keys |
| CacheRuns.MostRecentIsLast | src/rag_engine/cache/semantic_cache.py:141-199 | the entry an operation touches ends as the most recent one |
| Cdc.CdcProcessor.Dispatch | src/rag_engine/cdc/processor.py:108-120 | one attempt changes the store, then the cache, as far as the fault lets it |
| Cdc.CdcProcessor.Apply | src/rag_engine/cdc/processor.py:73-106 | the retry loop computes the bounded-attempts function: skip if stale, apply and record on the first success, drop after the budget |
| Cdc.StoreEffectRows | src/rag_engine/pipeline.py:184-200 | a store effect sets the event's row to its effect and touches no other; `StoredRows.ChangeMeans` says which row that is |
| StoredRows.ChangeMeans | src/rag_engine/pipeline.py:156-208 | an event is stale exactly by its version and dropped exactly for a level outside 0 to 5; applied, the live row of its chunk has the payload's text, asset, level, class and normalised roles, each at its default when absent, or is gone, and no other row moves |
| StoredRows.StoredDecision | src/rag_engine/pipeline.py:188-192 | the decision on such a row, for every session, from the payload alone |
| StoredRows.ReclassifiedDenies | src/rag_engine/pipeline.py:156-173 | after an applied change to a level, whatever the class but D, every session below it is denied every indexed row of the chunk |
| StoredRows.ReclassifiedHides | src/rag_engine/pipeline.py:156-173 | from then on no answer to such a session, cold or warm, cites the chunk, whatever is asked, ranked or cached |
| CdcRuns.AttemptsFacts | src/rag_engine/cdc/processor.py:86-106 | an event applies if and only if some attempt in the budget succeeds; then its row is its effect and its version is recorded; no other chunk moves either way |
| CdcRuns.SettledStays | src/rag_engine/cdc/processor.py:80-91 | once the newest accepted version is recorded no delivery, failed, refused or stale, changes the chunk's row |
| CdcRuns.NewestWins | src/rag_engine/cdc/processor.py:73-106 | if a chunk's newest accepted event ever gets through, the chunk ends as that event left it, whatever the order, repeats, refusals and failures |
| CdcRuns.ConvergesAt | src/rag_engine/cdc/processor.py:73-120 | chunk by chunk, with faults: two runs delivering the same events for a chunk leave it with the same row and version, if in each nothing can apply to it or its newest applicable events agree and one gets through |
| CdcRuns.Convergence | src/rag_engine/cdc/processor.py:73-120 | and if that holds of every chunk the runs end with the same rows and versions |
| CdcRuns.UniqueVersionsConverge | src/rag_engine/cdc/processor.py:73-120 | without faults, one event per chunk and version is enough: any two runs over the same events end alike, refused and stale ones included |
| CdcRuns.OrderFreeExactly | src/rag_engine/cdc/processor.py:73-120 | without faults every reordering ends alike if and only if the newest accepted, non-stale events of each chunk want the same row |
| CdcRuns.UnmovedStays | src/rag_engine/cdc/processor.py:73-120 | a chunk for which nothing accepted and new is delivered keeps its row and version |
| CdcRuns.SharedVersionsDiverge | src/rag_engine/cdc/processor.py:80-84 | two events of one version make the order matter |
| CdcRuns.DropKeepsRow | src/rag_engine/cdc/processor.py:95-104 | an event dropped because its invalidation keeps raising leaves its row change behind |
| CdcRuns.DropLeavesRowExactly | src/rag_engine/cdc/processor.py:86-120 | a dropped event leaves its chunk's row as it was if and only if no attempt reached the store or the event's effect was already there |
| CorrectiveLoop.Run | src/rag_engine/selfrag/loop.py:96-187 | the loop returns the outcome of the first iteration whose verdict is final, or of the last one in the budget; `RecordsMean` and `LastRecordDecides` say what that is |
| CorrectiveLoop.OutcomeMeaning | src/rag_engine/selfrag/loop.py:115-187 | it serves the last answer if and only if that context was graded sufficient and the answer grounded; each stop reason holds exactly when its grades say so; a raising judge always abstains; what is returned is filter output or nothing |
| CorrectiveLoop.OutcomeSteps | src/rag_engine/selfrag/loop.py:101-163 | between one and `max_iterations` records, one an iteration in order, and only the last can end the run |
| CorrectiveLoop.RecordsMean | src/rag_engine/selfrag/loop.py:96-163 | for any collaborators: the first record asks the question put, each later one the reformulation of the one before, each records the size of the filter's output for its own query and the judges' grades of it, and the run goes on exactly until a record is final or the budget is spent |
| CorrectiveLoop.LastRecordDecides | src/rag_engine/selfrag/loop.py:115-187 | the whole result follows from the last record: its generated answer and context if sufficient and grounded, otherwise nothing and the reason |
| Grader.GradesMean | src/rag_engine/selfrag/grader.py:74-107 | a question is covered, and an answer grounded, if and only if there are chunks and tokens and the number of its tokens found in some chunk is at least the threshold times their number; the score is that share |
| CorrectiveLoop.OutcomeIsUnique | src/rag_engine/selfrag/loop.py:96-179 | a run has exactly one possible outcome |
| CorrectiveLoop.LoopNoninterference | src/rag_engine/selfrag/loop.py:103-115 | systems whose retrievers differ only in what the session may not see return identical results, records included |
| CorrectiveLoop.StationaryOutcome | src/rag_engine/pipeline.py:244-267 | with nothing reformulated the first verdict decides the run |
| Pipeline.RAGPipeline.Query | src/rag_engine/pipeline.py:295-370 | a query is the warm step or the cold step of the state machine: response, cache touch or put, nothing else; `AnswerText` says what it answers |
| Pipeline.RAGPipeline.ApplyChange | src/rag_engine/pipeline.py:156-173 | a change event moves rows, versions and cache as the processor does, and re-indexes unless it is a deletion; `StoredRows` says what it stores |
| Pipeline.RAGPipeline.IndexChunks | src/rag_engine/pipeline.py:126-127 | indexing replaces the live rows and the index and leaves cache and versions |
| Pipeline.LoopAnswer | src/rag_engine/pipeline.py:244-267 | the corrective loop's answer inside the pipeline is one grading of the one admitted context, which `AnswerText.AnswerFromIs` spells out |
| AnswerText.AnswerFromIs | src/rag_engine/pipeline.py:244-267 | the answer from some views is the text generated from them, or the abstention exactly when self-RAG is on and the question or the text is not well supported by them |
| AnswerText.ColdAnswerText | src/rag_engine/pipeline.py:330-349 | a cold answer is that one, from the session's views of what it may retrieve of the candidates |
| AnswerText.QueryAnswerText | src/rag_engine/pipeline.py:295-370 | in a coherent state any answer is that one: cold, or to the put-time question from the views of the live rows the served entry names |
| AnswerText.ColdResponseMeans | src/rag_engine/pipeline.py:330-370 | a cold response cites each view, trails each candidate's decision, counts the denied and the not allowed, and reports denial exactly when there were candidates and none was admitted |
| AnswerText.RetrievedAre | src/rag_engine/pipeline.py:269-279 | what is retrieved is the indexed chunk of each ranked position that is in the index, in rank order, with its score and ranks |
| AnswerText.RetrievableRowsAre | src/rag_engine/governance/filter.py:28-42 | the rows behind a context are the candidates' chunks that are not denied, in order |
| AnswerText.AskedTwice | src/rag_engine/cache/semantic_cache.py:56-220 | one question put twice by one session to the same chunks: the second time is served from the cache if and only if the entry was within its ttl at the put's eviction and at the second lookup, the cap is at least one, and the question is similar enough to itself |
| AnswerText.OneServed | src/rag_engine/cache/semantic_cache.py:96-153 | a lone entry of the scope with its ids live is served if and only if it is no older than its ttl and similar enough |
| AnswerText.ServedThenExpired | src/rag_engine/cache/semantic_cache.py:56-57 | with the default ttl of 900, an answer put at 0 is served at 900 and not at 10000 |
| PipelineRuns.QueryKeepsCoherence | src/rag_engine/pipeline.py:295-370 | a query keeps the invariant: index agrees with the live rows, and each entry's answer was made from redacted views of rows that are still the same or gone |
| PipelineRuns.ChangeOutcome | src/rag_engine/pipeline.py:156-208 | in the pipeline an event applies exactly when it is new and its payload is accepted; otherwise the whole state stands still |
| PipelineRuns.ChangeKeepsCoherence | src/rag_engine/pipeline.py:156-208 | a change event keeps the invariant |
| PipelineRuns.StoreKeepsIndexAgrees | src/rag_engine/pipeline.py:171-172 | the live rows stay the indexed rows minus the deleted ids, in order |
| PipelineRuns.RunsAreCoherent | src/rag_engine/pipeline.py:120-370 | the invariant holds after every sequence of queries and changes |
| PipelineAnswers.EveryWarmAnswer | src/rag_engine/pipeline.py:302-324 | in every reachable state a served answer equals regenerating now, for the requester, from the views of exactly the live chunks the entry names, all of which are live |
| PipelineAnswers.WarmAnswer | src/rag_engine/pipeline.py:302-324 | the same in any coherent state, with the put-time withheld count |
| PipelineAnswers.ServedExactly | src/rag_engine/cache/semantic_cache.py:120-139 | in a coherent state the best entry is served if and only if every chunk it names is still live |
| PipelineAnswers.WarmEqualsCold | src/rag_engine/pipeline.py:302-370 | in a coherent state the context behind a warm answer and that of asking its put-time question cold now give every generator the same answer, if and only if the cold query admits the same ids in the same order |
| PipelineAnswers.GovernElements | src/rag_engine/pipeline.py:281-293 | re-governance returns exactly the stored ids that are live and retrievable |
| PipelineAnswers.RegovernanceIgnoresContent | src/rag_engine/pipeline.py:281-293 | re-governance reads ids and decisions only: a row whose text changed under the same decision passes it |
| PipelineAnswers.ColdNoninterference | src/rag_engine/pipeline.py:330-370 | a cold response, citations, counts and trail included, is independent of what the session may not see |
| PipelineAnswers.ColdRestsOnLiveExactly | src/rag_engine/pipeline.py:171-172 | in a coherent state no ranking can bring up a dead chunk if and only if no id is stale, that is if index and live list are one |
| PipelineAnswers.StaleAfterChange | src/rag_engine/pipeline.py:171-172 | an applied deletion adds its id to the stale ones, any other applied change clears them |
| PipelineHistory.StaleIdsOfRun | src/rag_engine/pipeline.py:156-173 | in every state of every run the stale ids are those of indexed chunks deleted since the last applied change that was not a deletion |
| PipelineHistory.ColdRestsOnRun | src/rag_engine/pipeline.py:156-173 | after a run no ranking can bring up a dead chunk if and only if the run left no such deletion |
| PipelineHistory.DeletedStillCited | src/rag_engine/pipeline.py:171-172 | a run of one deletion after which the cold response cites the deleted chunk |
| PipelineHistory.EntriesFromPuts | src/rag_engine/pipeline.py:354-357 | in every state of every run each cached entry is what one cold query of the run put, and every row its answer was made from is gone or unchanged since |
| PipelineHistory.ServedFromItsPut | src/rag_engine/pipeline.py:302-324 | a served answer rests on exactly the rows its own put was let see, all live |
| PipelineHits.WarmCitationsExactly | src/rag_engine/pipeline.py:312-317 | after any run a warm answer's citations are those of the redacted views if and only if no row its put was let see was masked or partial with more than its token |
| PipelineHits.WarmCitesMasked | src/rag_engine/pipeline.py:302-324 | a run of one query after which the warm citation is a masked chunk's content and the cold one its token |
| PipelineHits.SurvivorExactly | src/rag_engine/cache/semantic_cache.py:99-139 | after any run a served entry has a live admitted chunk if and only if its put admitted one |
| PipelineHits.EmptyHitMissesGrant | src/rag_engine/pipeline.py:156-173 | a run of one query and one change that makes the only chunk public, after which the old refusal is served without citations where a cold query would cite the chunk |
| PipelineHits.WarmAgainstPut | src/rag_engine/pipeline.py:312-370 | a whole warm response against its put's: same answer, withheld and admitted counts; the retrieved and blocked counts, the denial flag and the trail are the same if and only if nothing was blocked, nothing was blocked, something was admitted or nothing retrieved, and nothing was retrieved |
| RateLimiter.Prune | src/rag_engine/deploy/guards.py:52-54 | popping the front of a sorted window leaves exactly the times of the last minute |
| RateLimiter.RateLimiter.Check | src/rag_engine/deploy/guards.py:49-74 | for every history, a call is refused, and with which reason, exactly when the acceptances of the history say so; the windows stay those of the history |
| RateBounds.MinuteBound | src/rag_engine/deploy/guards.py:52-70 | no half-open minute of any run holds more acceptances than the instance cap, or than the key cap for one key |
| RateBounds.DayBound | src/rag_engine/deploy/guards.py:58-64 | no half-open day holds more than twice a key's daily cap |
| RateDays.DayCapExactly | src/rag_engine/deploy/guards.py:49-74 | the cap itself holds for every half-open day of every run if and only if it is one, or at least 1440 times the lesser minute cap, or the instance accepts nothing |
| RateDays.TwiceTheCap | src/rag_engine/deploy/guards.py:58-70 | a run whose half-open day holds twice the cap |
| RateDays.OverTheCap | src/rag_engine/deploy/guards.py:49-74 | for any other limits a run whose half-open day holds one more than the cap |
| RateDays.TwiceExactly | src/rag_engine/deploy/guards.py:49-74 | some run has a half-open day with twice the cap if and only if the cap exceeds a key's minute cap and is at most 720 times it, and the instance takes more a minute than a key |
| RateBounds.TotalIsSum | src/rag_engine/deploy/guards.py:71-74 | total acceptances are the sum over the keys |
| RateBounds.RollingDayBound | src/rag_engine/deploy/guards.py:58-73 | the current window's counter is the acceptances since its start, at most the cap |
| RateBounds.DueExactly | src/rag_engine/deploy/guards.py:49-74 | each outcome holds exactly under its condition on the number of accepted calls of the last minute, everybody's and the key's, and on the key's day |
| RateBounds.DayMeans | src/rag_engine/deploy/guards.py:58-64 | a key's day was opened by its first call past the instance limit, or the first 24 hours or more after the day before; every later call of the key fell in it, and it counts those accepted |
| Allowlist.AuthorizedIds | src/rag_engine/governance/allowlist.py:57-64 | the allowlist is the retrievable ids in order |
| Allowlist.AllowedIdsAre | src/rag_engine/governance/allowlist.py:57-64 | those are the ids of exactly the candidates that are not denied |
| Allowlist.AllowlistGrows | src/rag_engine/governance/allowlist.py:57-64 | away from the promotion exception a stronger session's allowlist has the weaker one's as a subsequence |
| Rebac.FactsAreTheAcl | src/rag_engine/governance/rebac/local.py:48-71 | the string facts of a chunk hold its whole access record, the level through its decimal form |
| Rebac.ParityExactly | src/rag_engine/governance/rebac/local.py:74-116 | the decision derived from the facts agrees with the access decision for every validated session if and only if the class is recognised, or the chunk public, or its need-to-know and scoped roles are none a validated session can hold |
| Rebac.AllowlistParity | src/rag_engine/governance/rebac/local.py:141-152 | with current facts and distinct ids, on such chunks the tuple-derived allowlist is the in-process one, in order |
| Rebac.LocalReBACAllowlist.AuthorizedIds | src/rag_engine/governance/rebac/local.py:141-152 | unknown candidates are synced as they are met, known ones keep their stored facts |
| Oracle.EngineAgrees | seeds/access_matrix.py:69-90 | the engine's decision equals the independent matrix for all fourteen classes and every valid session |
| Oracle.EngineAgreesOn | src/rag_engine/catalog/oracle.py:42-58 | the same for any table whose public rows are plain |
| Oracle.BuildOracleGrid | src/rag_engine/catalog/oracle.py:61-99 | the nested loops build the grid and count its leaks, or refuse when a persona is no valid session |
| Oracle.GridAgrees | src/rag_engine/catalog/oracle.py:61-99 | for every roster of normalised personas the grid has fourteen cells each, all in agreement, and no leak |
| Oracle.GridAt | src/rag_engine/catalog/oracle.py:61-99 | the cell of persona p and class c stands at 14p + c and holds both decisions |
| Oracle.LeaksAreCounted | src/rag_engine/catalog/oracle.py:61-99 | the leak count is the number of cells in which the engine reveals more than the matrix permits |
| Oracle.WhoReaches | seeds/access_matrix.py:38-66 | read by role: which classes each role opens at the top level |
| Oracle.LevelReaches | seeds/access_matrix.py:38-66 | read by level: which classes a caller with every role is allowed at each |
| Chunker.ChunkDocument | src/rag_engine/ingestion/markdown_loader.py:116-134 | the loop computes greedy groups joined by blank lines, with oversized paragraphs hard-split |
| Chunker.HardSplitLoop | src/rag_engine/ingestion/markdown_loader.py:127-130 | the inner loop cuts windows of the size at every stride |
| ChunkerFacts.SplitRejoins | src/rag_engine/ingestion/markdown_loader.py:116-116 | splitting at blank lines loses nothing |
| ChunkerFacts.SplitCutsAtFirst | src/rag_engine/ingestion/markdown_loader.py:116-116 | each cut is at the first blank line, and no part holds one |
| ChunkerFacts.ParagraphsAre | src/rag_engine/ingestion/markdown_loader.py:116-116 | the paragraphs are the parts in order, stripped, blank ones left out |
| ChunkerFacts.JoinIsRejoin | src/rag_engine/ingestion/markdown_loader.py:119-134 | a window of several paragraphs is their text with blank lines between |
| ChunkerFacts.HardSplitAt | src/rag_engine/ingestion/markdown_loader.py:127-130 | window k of a hard split begins k strides in and holds as much as size and text allow; there are as many as strides begin inside the text |
| ChunkerFacts.GroupsPartition | src/rag_engine/ingestion/markdown_loader.py:119-134 | the groups are the paragraphs in order, each group packable |
| ChunkerFacts.HardSplitCovers | src/rag_engine/ingestion/markdown_loader.py:127-130 | the stride-long prefixes of the windows spell the paragraph |
| ChunkerFacts.SplitLosesNothingExactly | src/rag_engine/ingestion/markdown_loader.py:123-130 | an oversized paragraph is recovered from its windows if and only if the overlap is not negative and the size is not zero |
| ChunkerFacts.NothingIsLost | src/rag_engine/ingestion/markdown_loader.py:116-134 | every paragraph of a document stands whole in one of its windows, or a run of them is its hard split and spells it |
| ChunkerFacts.WindowsFit | src/rag_engine/ingestion/markdown_loader.py:116-134 | every window is non-empty and no longer than the size, if and only if the size is positive or there is no paragraph |
| ChunkerFacts.GreedyIsOptimal | src/rag_engine/ingestion/markdown_loader.py:119-134 | no other in-order grouping of the paragraphs gives fewer windows |
| Ingestion.IndexDocuments | src/rag_engine/pipeline.py:120-128 | indexing concatenates each document's annotated chunks |
| Ingestion.ChunkOrigin | src/rag_engine/ingestion/markdown_loader.py:136-149 | every chunk inherits the access record and metadata of the document its id names |
| Ingestion.ChunkAt | src/rag_engine/ingestion/markdown_loader.py:136-149 | the index of some documents, position by position: window i of a document is a chunk under its id and i, with that text, its anchor, position, title, access record and metadata, and there are no others |
| Ingestion.PadMeans | src/rag_engine/ingestion/markdown_loader.py:138-138 | the position in a chunk id reads back, in three digits or as many as it needs |
| Ingestion.ChunkIdInjective | src/rag_engine/ingestion/markdown_loader.py:138-138 | a chunk id determines its document and position, whatever characters the document id has |
| Ingestion.IndexedIdsAreDistinct | src/rag_engine/ingestion/markdown_loader.py:136-149 | documents with distinct ids give chunks with distinct ids |
| Ingestion.RunsFromDocuments | src/rag_engine/pipeline.py:120-370 | so every run that starts by indexing documents keeps the pipeline's invariant |
| Fusion.ReciprocalRankFusion | src/rag_engine/retrieval/fusion.py:15-36 | the two dictionaries and the final sort compute the stable sort of the union, each id once with its ranks and exact score |
| FusionFacts.FusedListFacts | src/rag_engine/retrieval/fusion.py:21-35 | the fused list holds exactly the ids of the union, once each, first-seen first, with the exact sum of reciprocal ranks |
| FusionFacts.FusionOrder | src/rag_engine/retrieval/fusion.py:36-36 | the result is a permutation of it, descending, ties in first-seen order |
| FusionFacts.ScoreFromRanks | src/rag_engine/retrieval/fusion.py:21-30 | where no list repeats an id its score is 1 / (k + rank) for each list that holds it, added up |
| FusionFacts.BetterRanksScoreNoWorse | src/rag_engine/retrieval/fusion.py:21-30 | better-or-equal ranks in both lists never score worse |
| FusionFacts.BothListsComeFirst | src/rag_engine/retrieval/fusion.py:15-36 | with lists of at most k + 1 items every chunk in both lists precedes every chunk in one |
| Reranker.Rerank | src/rag_engine/retrieval/rerank.py:20-37 | the loop rescores every candidate and returns the first of the stable sort |
| Reranker.RerankKeepsBest | src/rag_engine/retrieval/rerank.py:34-37 | every candidate is given half its score, half the share of the question's tokens it has and a quarter for the phrase; the result has as many as asked or all, descending, and nothing left out has a greater final score |
| Reranker.EmbeddingTextMeans | src/rag_engine/schemas.py:115-119 | a blank anchor adds nothing, a clean one its own line before the content |
| Hybrid.HybridRetriever.Retrieve | src/rag_engine/retrieval/hybrid.py:46-56 | retrieval refuses exactly when nothing was indexed, and otherwise fuses, cuts and reranks both engines' hits; `HybridPool.HybridExactly` says what that returns |
| Hybrid.HybridFacts | src/rag_engine/retrieval/hybrid.py:46-56 | at most `final_top_k` chunks, all of them indexed, each id once |
| HybridPool.LegHitsAre | src/rag_engine/retrieval/hybrid.py:50-52 | an engine's hits are the chunks at the positions in the index among the first `top_k` of its order, in order, each with its score and its rank in that order |
| HybridPool.HybridExactly | src/rag_engine/retrieval/hybrid.py:46-56 | of all ids either engine found, the greatest fused scores up to `rerank_top_k` are reranked and the greatest blended scores up to `final_top_k` returned, greatest first, each with its chunk, its blended score and its last rank in each list |
| HybridPool.NothingCut | src/rag_engine/retrieval/hybrid.py:46-56 | when neither cut binds the result holds exactly the ids either engine found |
| HybridPool.BothEnginesCount | src/rag_engine/retrieval/hybrid.py:50-56 | two chunks, each found by one engine only: both are returned |
| Hybrid.HybridIsARanking | src/rag_engine/pipeline.py:269-279 | the hybrid retriever is an instance of the pipeline's abstract ranking, so the pipeline's theorems hold of it |
| VectorIndex.IdMap.ToU64 | src/rag_engine/retrieval/id_map.py:20-30 | known ids keep their key, new ones get an unused one, and the maps stay inverse |
| VectorIndex.IdMap.FromDict | src/rag_engine/retrieval/id_map.py:46-52 | restoring from the saved forward map gives back the same bijection |
| VectorIndex.SearchThrough | src/rag_engine/retrieval/turbovec_index.py:61-75 | searching by numeric key and translating back is searching the ids |
| VectorIndex.TurboVecIndex.Search | src/rag_engine/retrieval/turbovec_index.py:52-75 | without an allowlist a search returns the most similar of all that is held, with one the most similar of the allowed ids, and nothing for an allowlist without indexed ids |
| VectorIndex.TurboVecIndex.Add | src/rag_engine/retrieval/turbovec_index.py:44-49 | a batch is added whole and in order, or not at all: refused exactly when the lengths differ or its new ids outnumber the keys left; which ids are mapped afterwards |
| VectorIndex.IdMap.KeysFor | src/rag_engine/retrieval/turbovec_index.py:47-47 | each id of a batch gets a key that stands for it, no earlier key changes, and the mapped ids are the old ones and the batch's |
| VectorPath.TurboVecRetriever.RetrieveForSession | src/rag_engine/retrieval/turbovec_retriever.py:52-73 | allowlist, capped search, hydration and reranking compute the path's function, for every index |
| VectorPath.PathExactly | src/rag_engine/retrieval/turbovec_retriever.py:52-73 | of the held vectors whose ids some row not denied bears, the most similar to the question up to k and the mapped ids, each as its row, and of those the greatest blended scores up to the final cut |
| VectorPath.PathLength | src/rag_engine/retrieval/turbovec_retriever.py:52-73 | the result is as long as the shown vectors, k, the mapped ids and the final cut allow |
| VectorPath.VectorPathNoninterference | src/rag_engine/retrieval/turbovec_retriever.py:52-73 | adding, removing or editing chunks the session is denied leaves its retrieved list unchanged, as long as the cap does not show their number |
| VectorPath.DropBeforeSearch | src/rag_engine/retrieval/turbovec_retriever.py:52-73 | ... which needs nothing more when the index holds no id twice |
| VectorPath.HeldIsMapped | src/rag_engine/retrieval/turbovec_index.py:47-48 | every id an index holds is a mapped one |
| VectorPath.CapShowsExactly | src/rag_engine/retrieval/turbovec_index.py:69-69 | the coarse list is the same however many denied ids are mapped, if and only if k or the allowed vectors are at most the allowed mapped ids |
| VectorPath.RepeatedIdShows | src/rag_engine/retrieval/turbovec_index.py:44-75 | an index holding one allowed id twice, to which adding a denied chunk adds a hit |
| VectorPath.NothingLeftToDeny | src/rag_engine/retrieval/turbovec_retriever.py:52-73 | the later filter denies none of what the vector path returns |
| VectorPath.CapIsHarmless | src/rag_engine/retrieval/turbovec_index.py:69-69 | a cap that covers k or the allowed vectors changes no result |
| AstGate.ProjectionSources | src/rag_engine/sql/ast_gate.py:96-119 | the loop describes each projection in order: its key, its source columns, star and resolvability |
| AstGate.FoldMeans | src/rag_engine/texttosql/result_masking.py:63-63 | folding moves the letters A to Z and no other character |
| AstGate.EvalAgrees | src/rag_engine/sql/ast_gate.py:112-112 | the columns found in an expression are all it depends on, under every reading of its functions |
| AstGate.EvalDepends | src/rag_engine/sql/ast_gate.py:112-112 | and none is spurious: under some reading each column found changes the value |
| ResultMasking.MaskRows | src/rag_engine/texttosql/result_masking.py:46-98 | the redaction loop and the cell-by-cell overwrite compute the masked rows on every path: unmasked, no masked column, with and without a syntax tree |
| ResultMasking.CellExactly | src/rag_engine/texttosql/result_masking.py:46-98 | a cell is replaced if and only if the flag is set and its key names a masked column or some projection under the key is unresolvable or reads one, the last of them deciding the token; any other cell stays |
| ResultMasking.MaskingHidesExactly | src/rag_engine/texttosql/result_masking.py:59-98 | masked output is the same for all base rows differing only in masked columns, under every reading of functions, if and only if each projection computed from one returns under a redacted or masked key |
| ResultMasking.NamedQueriesHide | src/rag_engine/texttosql/result_masking.py:67-90 | aliases, spelling, expressions and stars never get a masked value through when computed columns come back under the name the gate read |
| ResultMasking.UnnamedCallShows | src/rag_engine/texttosql/result_masking.py:67-90 | an unaliased call over a masked column is not hidden |
| ResultMasking.MaskingKeepsShape | src/rag_engine/texttosql/result_masking.py:81-90 | the number of rows and the keys are kept, and a cell is what it was or one of the two tokens |
| ReEmbed.ReEmbedder.ReembedAll | src/rag_engine/cdc/reembed.py:64-84 | whenever the batch loop ends, it ends with the migrated table, returns the initial number of old rows, and tells the cache exactly when there were any |
| ReEmbed.StuckOtherwise | src/rag_engine/cdc/reembed.py:71-80 | otherwise there are more old rows than a batch and a pass leaves as many as it found, so the loop does not end |
| ReEmbed.ReEmbedder.ReembedBatch | src/rag_engine/cdc/reembed.py:72-78 | a batch rebuilds exactly the first old rows of the table, in place |
| ReEmbed.MigratedFacts | src/rag_engine/cdc/reembed.py:86-97 | a new version leaves no row on the old one; class, level, text and asset are kept, the vector is that of the text, other columns go, and other rows are untouched |
| ReEmbed.ResumeReachesTheSameTable | src/rag_engine/cdc/reembed.py:64-84 | from any partly migrated table the migration reaches the table an undisturbed run reaches |

## Left out

- HTTP endpoints, tracing, audit sinks, demo data, estate metadata and evaluation: plumbing and display.
- The database-backed store, the durable cache, connectors and the graph, lexical and structured modes: thin wrappers over database queries.
- Foreign calls: the warehouse client, hosted generators and graders, telemetry export.
- SQL parsing and printing, the read-only gate, common table expressions, derived tables, subqueries, struct fields; aggregates, GROUP BY, DISTINCT, ORDER BY and WHERE over a masked column, which are outside a row-by-row model.
- SHA-256 is taken as collision-free: the cache compares scope payloads, not their digests; citation hashes and quote shortening are not modelled.
- Okapi scoring, cosine numerics, hashing embeddings and the vector library: functions, with the library's search taken as the top k of the allowed keys, ties in insertion order, and a key added twice held twice.
- Floating-point rounding: scores, times and ratios are reals.
- Case mapping and folding are ASCII only; other characters stand for themselves.
- The extractive generator and the citation builder beyond its fields: generation is any function of the question and the admitted views, which covers it.
- The pipeline over the vector retriever: the vector path is modelled by itself, since a change event does not reach its source.
- `index_multimodal`, `query_warehouse`, and indexing again in the middle of a run: indexing does not clear the cache, so a run has one indexing.
- Querying before anything was indexed raises in the source; the pipeline starts from an indexed state. `Hybrid.HybridRetriever.Retrieve` models the refusal.
- Access.MonotoneExactly: levels above five, which the access record refuses, are not considered.
- A metadata grant that is a number, a flag or a null, or a list holding lists or dictionaries, raises in the source; here those parts grant nothing.
- A retriever or generator that raises inside the corrective loop ends the request in the source; here only graders raise.
- Saving the vector file itself.
- Chunker.ChunkDocument: a negative chunk size, which slices from the end of a paragraph in the source, is not modelled.
- ResultMasking.MaskRows: the order of keys inside a row and of source columns inside a projection is not modelled; the theorems hold for every order of the latter.
- ReEmbed.ReEmbedder.ReembedAll: asks for the condition under which the source's loop ends, `Ends`; a negative batch size is not modelled. Row ids are record ids, not `table:key` strings, which the source would split.
- Concurrent calls: every step is atomic.
