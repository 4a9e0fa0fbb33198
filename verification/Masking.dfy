/**
 Redaction of an admitted chunk (src/rag_engine/governance/masking.py) and the
 metadata scrub for withheld non-text chunks (src/rag_engine/multimodal/payload.py).
 */
module Masking {
  import opened Schemas
  import opened Access

  const PII_TOKEN := "[REDACTED]"
  const FIELD_ACL_TOKEN := "[RESTRICTED]"
  const PARTIAL_TOKEN := "[PARTIAL \U{2014} scoped access; full content withheld]"
  const WITHHOLD_KEEP_KEYS: set<string> := {"modality", "source_uri", "page", "ordinal", "caption"}
  const TEXT := "text"

  function ReasonToken(maskReason: string): string {
    if maskReason == "field_acl_mask" then FIELD_ACL_TOKEN else PII_TOKEN
  }

  function TokenFor(d: GovernanceDecision): string {
    match d.decision
    case Mask => ReasonToken(if d.maskReason == "" then "pii_mask" else d.maskReason)
    case Partial => PARTIAL_TOKEN
    case _ => ""
  }

  predicate IsScalar(v: Value) {
    v.Text? || v.Number? || v.Flag? || v.Null?
  }

  /** What a withheld chunk keeps: allow-listed keys, and only scalars under them. */
  function Scrub(m: Metadata): Metadata {
    map k | k in m && k in WITHHOLD_KEEP_KEYS && IsScalar(m[k]) :: m[k]
  }

  /** What stands in for the content of a chunk that is not allowed. */
  function Withheld(modality: string, d: GovernanceDecision): string {
    var token := if TokenFor(d) == "" then PII_TOKEN else TokenFor(d);
    if modality == TEXT then token else token + " [" + modality + " withheld]"
  }

  function Redact(chunk: Chunk, d: GovernanceDecision): Chunk {
    if d.decision == Allow then chunk
    else
      var redacted := chunk.(content := Withheld(chunk.modality, d), contextualAnchor := "");
      if chunk.modality == TEXT then redacted else redacted.(metadata := Scrub(chunk.metadata))
  }

  function RedactScored(sc: ScoredChunk, d: GovernanceDecision): ScoredChunk {
    sc.(chunk := Redact(sc.chunk, d))
  }

  /** A chunk as a session may see it. */
  function View(chunk: Chunk, session: Session): Chunk {
    Redact(chunk, Evaluate(chunk, session))
  }

  /**
   What a view reveals: an allowed chunk whole; otherwise its record and position, a token for
   its content, no anchor, its metadata if it is text, and else only the listed scalars.
   */
  lemma ViewReveals(chunk: Chunk, session: Session)
    ensures
      var v, decision := View(chunk, session), DecisionOf(chunk, session);
      && (decision == Allow ==> v == chunk)
      && (decision != Allow ==>
            && v.id == chunk.id && v.parentDocId == chunk.parentDocId && v.parentTitle == chunk.parentTitle
            && v.security == chunk.security && v.ordinal == chunk.ordinal && v.modality == chunk.modality
            && v.contextualAnchor == ""
            && v.content ==
                 (if decision == Partial then "[PARTIAL \U{2014} scoped access; full content withheld]" else "[REDACTED]")
                 + (if chunk.modality == "text" then "" else " [" + chunk.modality + " withheld]")
            && (chunk.modality == "text" ==> v.metadata == chunk.metadata)
            && (chunk.modality != "text" ==> forall k ::
                  (k in v.metadata <==>
                     && k in chunk.metadata && k in {"modality", "source_uri", "page", "ordinal", "caption"}
                     && (chunk.metadata[k].Text? || chunk.metadata[k].Number? || chunk.metadata[k].Flag? || chunk.metadata[k].Null?))
                  && (k in v.metadata ==> v.metadata[k] == chunk.metadata[k])))
  {
  }

  // ---- what redaction hides ------------------------------------------------

  /**
   Two rows a session cannot tell apart. A denied chunk is known by its audit record
   only; a masked or partial one also by its title, position and kept metadata; an
   allowed one entirely.
   */
  ghost predicate LowEqual(a: Chunk, b: Chunk, session: Session) {
    && a.id == b.id && a.parentDocId == b.parentDocId && a.security == b.security
    && PartialFor(a.metadata) == PartialFor(b.metadata)
    && (Retrievable(a, session) ==>
          && a.parentTitle == b.parentTitle && a.ordinal == b.ordinal && a.modality == b.modality
          && if a.modality == TEXT then a.metadata == b.metadata else Scrub(a.metadata) == Scrub(b.metadata))
    && (DecisionOf(a, session) == Allow ==> a == b)
  }

  lemma LowEqualSameView(a: Chunk, b: Chunk, session: Session)
    requires LowEqual(a, b, session)
    ensures Evaluate(a, session) == Evaluate(b, session)
    ensures Retrievable(a, session) ==> View(a, session) == View(b, session)
  {
  }

  /** Sessions of one scope get the same decision and the same view. */
  lemma SameScopeSameView(chunk: Chunk, s: Session, t: Session)
    requires SameScope(s, t)
    ensures DecisionOf(chunk, s) == DecisionOf(chunk, t)
    ensures View(chunk, s) == View(chunk, t)
  {
  }

  // ---- redacting a redacted chunk -------------------------------------------

  /** A scoped grant on non-text content: the redaction erases the grant itself. */
  predicate LosesGrant(chunk: Chunk, session: Session) {
    DecisionOf(chunk, session) == Partial && chunk.modality != TEXT
  }

  lemma ScrubDropsGrant(m: Metadata)
    ensures PartialFor(Scrub(m)) == {}
    ensures Scrub(Scrub(m)) == Scrub(m)
  {
  }

  /** Viewing a view again changes nothing, except that a lost grant turns into a denial. */
  lemma ViewOfView(chunk: Chunk, session: Session)
    requires Retrievable(chunk, session)
    ensures var v := View(chunk, session);
      if LosesGrant(chunk, session) then !Retrievable(v, session)
      else DecisionOf(v, session) == DecisionOf(chunk, session) && View(v, session) == v
  {
  }
}
