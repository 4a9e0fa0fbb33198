/**
 The bounded self-correcting loop (src/rag_engine/selfrag/loop.py): retrieve, filter,
 grade, generate, grade again; serve a grounded answer or abstain.

 The collaborators are functions. The first argument of each is the iteration number, so
 a retriever, grader or generator whose answers change between calls is covered too.
 */
module CorrectiveLoop {
  import opened Schemas
  import opened SecurityFilter

  datatype RelevanceGrade = RelevanceGrade(sufficient: bool, score: real)
  datatype GroundednessGrade = GroundednessGrade(grounded: bool, score: real)

  /** A grader that raises answers None. */
  datatype Parts = Parts(
    retrieve: (nat, string, Session) -> seq<ScoredChunk>,
    gradeRelevance: (nat, string, seq<ScoredChunk>) -> Option<RelevanceGrade>,
    generate: (nat, string, seq<ScoredChunk>) -> string,
    gradeGroundedness: (nat, string, string, seq<ScoredChunk>) -> Option<GroundednessGrade>,
    reformulate: (string, nat) -> string)

  datatype Action = Reretrieve | Return | GraderDegraded
  datatype StopReason = StoppedGrounded | StoppedUngrounded | InsufficientRetrieval | StoppedDegraded

  datatype LoopStep = LoopStep(
    iteration: nat,
    query: string,
    nRetrieved: nat,
    relevance: Option<RelevanceGrade>,
    groundedness: Option<GroundednessGrade>,
    action: Action)

  datatype LoopResult = LoopResult(
    answer: string,
    abstained: bool,
    iterations: nat,
    stopReason: StopReason,
    chunks: seq<ScoredChunk>,
    steps: seq<LoopStep>)

  // ---- what one iteration comes to --------------------------------------------

  /** The query after k reformulations; iteration k + 1 asks it. */
  function QueryAt(p: Parts, query: string, k: nat): string {
    if k == 0 then query else p.reformulate(QueryAt(p, query, k - 1), k)
  }

  /** The context of iteration k + 1: filter output for the fixed session, never the raw candidates. */
  function Context(p: Parts, query: string, session: Session, k: nat): seq<ScoredChunk> {
    Admitted(p.retrieve(k + 1, QueryAt(p, query, k), session), session)
  }

  function AnswerAt(p: Parts, query: string, session: Session, k: nat): string {
    p.generate(k + 1, QueryAt(p, query, k), Context(p, query, session, k))
  }

  datatype Verdict =
    | Blind
    | Insufficient(rel: RelevanceGrade)
    | Unjudged(rel: RelevanceGrade)
    | Judged(rel: RelevanceGrade, gnd: GroundednessGrade)
  {
    /** A verdict that ends the loop before the budget does. */
    predicate Final() {
      Blind? || Unjudged? || (Judged? && gnd.grounded)
    }
  }

  /** How the judges take one iteration's query and context. */
  function Judge(p: Parts, i: nat, q: string, ctx: seq<ScoredChunk>): Verdict {
    match p.gradeRelevance(i, q, ctx)
    case None => Blind
    case Some(rel) =>
      if !rel.sufficient then Insufficient(rel)
      else
        match p.gradeGroundedness(i, q, p.generate(i, q, ctx), ctx)
        case None => Unjudged(rel)
        case Some(gnd) => Judged(rel, gnd)
  }

  /** The provenance record a verdict leaves. */
  function StepFor(i: nat, q: string, ctx: seq<ScoredChunk>, v: Verdict): LoopStep {
    LoopStep(
      i, q, |ctx|,
      if v.Blind? then None else Some(v.rel),
      if v.Judged? then Some(v.gnd) else None,
      if v.Blind? || v.Unjudged? then GraderDegraded else if v.Final() then Return else Reretrieve)
  }

  function VerdictAt(p: Parts, query: string, session: Session, k: nat): Verdict {
    Judge(p, k + 1, QueryAt(p, query, k), Context(p, query, session, k))
  }

  function StepAt(p: Parts, query: string, session: Session, k: nat): LoopStep {
    StepFor(k + 1, QueryAt(p, query, k), Context(p, query, session, k), VerdictAt(p, query, session, k))
  }

  /** The records of the first n iterations. */
  function StepsTo(p: Parts, query: string, session: Session, n: nat): (steps: seq<LoopStep>)
    ensures |steps| == n
  {
    if n == 0 then [] else StepsTo(p, query, session, n - 1) + [StepAt(p, query, session, n - 1)]
  }

  /** None of the first n iterations ends the loop. */
  predicate NoneFinal(p: Parts, query: string, session: Session, n: nat) {
    n == 0 || (NoneFinal(p, query, session, n - 1) && !VerdictAt(p, query, session, n - 1).Final())
  }

  /** Serve the last answer if it was graded sufficient and grounded; otherwise abstain, with the reason. */
  function Conclude(last: Verdict, ctx: seq<ScoredChunk>, answer: string, steps: seq<LoopStep>): LoopResult {
    match last
    case Judged(_, gnd) =>
      if gnd.grounded then LoopResult(answer, false, |steps|, StoppedGrounded, ctx, steps)
      else LoopResult("", true, |steps|, StoppedUngrounded, ctx, steps)
    case Insufficient(_) => LoopResult("", true, |steps|, InsufficientRetrieval, [], steps)
    case _ => LoopResult("", true, |steps|, StoppedDegraded, [], steps)
  }

  /** What a run that ends with its iteration k + 1 returns. */
  function Outcome(p: Parts, query: string, session: Session, k: nat): LoopResult {
    Conclude(VerdictAt(p, query, session, k), Context(p, query, session, k), AnswerAt(p, query, session, k),
             StepsTo(p, query, session, k + 1))
  }

  /** Iteration k + 1 is where a run ends: the first final verdict, or the budget. */
  ghost predicate EndsAt(p: Parts, query: string, session: Session, maxIterations: nat, k: nat) {
    && k < maxIterations
    && NoneFinal(p, query, session, k)
    && (k + 1 < maxIterations ==> VerdictAt(p, query, session, k).Final())
  }

  ghost predicate IsOutcome(p: Parts, query: string, session: Session, maxIterations: nat, r: LoopResult) {
    && r.iterations >= 1
    && EndsAt(p, query, session, maxIterations, r.iterations - 1)
    && r == Outcome(p, query, session, r.iterations - 1)
  }

  /** One pass of the loop body, up to the decision whether to stop. */
  method Iterate(p: Parts, i: nat, q: string, session: Session)
    returns (v: Verdict, chunks: seq<ScoredChunk>, answer: string)
    ensures chunks == Admitted(p.retrieve(i, q, session), session)
    ensures v == Judge(p, i, q, chunks)
    ensures v.Judged? ==> answer == p.generate(i, q, chunks)
  {
    var trail;
    chunks, trail := Apply(p.retrieve(i, q, session), session);
    answer := "";
    var rel := p.gradeRelevance(i, q, chunks);
    if rel.None? {
      return Blind, chunks, answer;
    }
    if !rel.value.sufficient {
      return Insufficient(rel.value), chunks, answer;
    }
    answer := p.generate(i, q, chunks);
    var gnd := p.gradeGroundedness(i, q, answer, chunks);
    if gnd.None? {
      return Unjudged(rel.value), chunks, answer;
    }
    v := Judged(rel.value, gnd.value);
  }

  /** What iteration k + 1 adds, and what it returns if it ends the run. */
  lemma IterationFacts(p: Parts, query: string, session: Session, maxIterations: nat, k: nat)
    requires k < maxIterations && NoneFinal(p, query, session, k)
    ensures
      var q, ctx := QueryAt(p, query, k), Context(p, query, session, k);
      var v := VerdictAt(p, query, session, k);
      var steps := StepsTo(p, query, session, k) + [StepFor(k + 1, q, ctx, v)];
      && ctx == Admitted(p.retrieve(k + 1, q, session), session)
      && v == Judge(p, k + 1, q, ctx)
      && QueryAt(p, query, k + 1) == p.reformulate(q, k + 1)
      && StepsTo(p, query, session, k + 1) == steps
      && (!v.Final() ==> NoneFinal(p, query, session, k + 1))
      && (v.Blind? || v.Unjudged? ==>
            IsOutcome(p, query, session, maxIterations, LoopResult("", true, k + 1, StoppedDegraded, [], steps)))
      && (v.Judged? && v.gnd.grounded ==>
            IsOutcome(p, query, session, maxIterations,
                      LoopResult(p.generate(k + 1, q, ctx), false, k + 1, StoppedGrounded, ctx, steps)))
  {
    hide Admitted;
  }

  /** The loop itself: a result, or the records and last generated context of an exhausted budget. */
  method Attempts(p: Parts, query: string, session: Session, maxIterations: nat)
    returns (done: Option<LoopResult>, steps: seq<LoopStep>, best: seq<ScoredChunk>)
    requires maxIterations >= 1
    ensures done.Some? ==> IsOutcome(p, query, session, maxIterations, done.value)
    ensures done.None? ==> steps == StepsTo(p, query, session, maxIterations)
    ensures done.None? ==> NoneFinal(p, query, session, maxIterations)
    ensures done.None? && VerdictAt(p, query, session, maxIterations - 1).Judged? ==>
      best == Context(p, query, session, maxIterations - 1)
  {
    hide Admitted, Judge, StepFor, Outcome;
    var currentQuery := query;
    var i := 0;
    steps, best := [], [];
    while i < maxIterations
      invariant 0 <= i <= maxIterations
      invariant currentQuery == QueryAt(p, query, i)
      invariant steps == StepsTo(p, query, session, i) && NoneFinal(p, query, session, i)
      invariant i > 0 && VerdictAt(p, query, session, i - 1).Judged? ==> best == Context(p, query, session, i - 1)
    {
      IterationFacts(p, query, session, maxIterations, i);
      var v, chunks, answer := Iterate(p, i + 1, currentQuery, session);
      steps := steps + [StepFor(i + 1, currentQuery, chunks, v)];
      if v.Blind? || v.Unjudged? {
        return Some(LoopResult("", true, i + 1, StoppedDegraded, [], steps)), steps, best;
      }
      if v.Judged? {
        if v.gnd.grounded {
          return Some(LoopResult(answer, false, i + 1, StoppedGrounded, chunks, steps)), steps, best;
        }
        best := chunks;
      }
      currentQuery := p.reformulate(currentQuery, i + 1);
      i := i + 1;
    }
    done := None;
  }

  method Run(p: Parts, query: string, session: Session, maxIterations: nat) returns (result: LoopResult)
    requires maxIterations >= 1
    ensures IsOutcome(p, query, session, maxIterations, result)
  {
    hide Admitted;
    var done, steps, best := Attempts(p, query, session, maxIterations);
    if done.Some? {
      return done.value;
    }
    var last := steps[maxIterations - 1];
    assert last == StepAt(p, query, session, maxIterations - 1);
    if last.groundedness.Some? && !last.groundedness.value.grounded {
      result := LoopResult("", true, maxIterations, StoppedUngrounded, best, steps);
    } else {
      result := LoopResult("", true, maxIterations, InsufficientRetrieval, [], steps);
    }
  }

  // ---- noninterference -------------------------------------------------------------

  /** Two systems that differ only in what their retrievers return, and there only in what the session may not see. */
  ghost predicate LowEqualParts(p: Parts, q: Parts, session: Session) {
    && p.gradeRelevance == q.gradeRelevance && p.generate == q.generate
    && p.gradeGroundedness == q.gradeGroundedness && p.reformulate == q.reformulate
    && forall i, text :: LowEqualLists(p.retrieve(i, text, session), q.retrieve(i, text, session), session)
  }

  lemma {:induction false} SameQueries(p: Parts, q: Parts, query: string, k: nat)
    requires p.reformulate == q.reformulate
    ensures QueryAt(p, query, k) == QueryAt(q, query, k)
  {
    if k > 0 {
      SameQueries(p, q, query, k - 1);
    }
  }

  lemma SameIteration(p: Parts, q: Parts, query: string, session: Session, k: nat)
    requires LowEqualParts(p, q, session)
    ensures Context(p, query, session, k) == Context(q, query, session, k)
    ensures AnswerAt(p, query, session, k) == AnswerAt(q, query, session, k)
    ensures VerdictAt(p, query, session, k) == VerdictAt(q, query, session, k)
    ensures StepAt(p, query, session, k) == StepAt(q, query, session, k)
  {
    SameQueries(p, q, query, k);
    var text := QueryAt(p, query, k);
    Noninterference(p.retrieve(k + 1, text, session), q.retrieve(k + 1, text, session), session);
  }

  lemma {:induction false} SameIterations(p: Parts, q: Parts, query: string, session: Session, n: nat)
    requires LowEqualParts(p, q, session)
    ensures StepsTo(p, query, session, n) == StepsTo(q, query, session, n)
    ensures NoneFinal(p, query, session, n) == NoneFinal(q, query, session, n)
  {
    if n > 0 {
      SameIterations(p, q, query, session, n - 1);
      SameIteration(p, q, query, session, n - 1);
    }
  }

  lemma {:induction false} NoneFinalAt(p: Parts, query: string, session: Session, n: nat, k: nat)
    requires k < n && NoneFinal(p, query, session, n)
    ensures !VerdictAt(p, query, session, k).Final()
  {
    hide VerdictAt;
    if k < n - 1 {
      NoneFinalAt(p, query, session, n - 1, k);
    }
  }

  // ---- what a result means ----------------------------------------------------------

  lemma {:induction false} StepsAt(p: Parts, query: string, session: Session, n: nat, i: nat)
    requires i < n
    ensures StepsTo(p, query, session, n)[i] == StepAt(p, query, session, i)
  {
    hide StepAt;
    if i < n - 1 {
      StepsAt(p, query, session, n - 1, i);
    }
  }

  /**
   In the graders' own terms: an answer is served exactly when the last context was graded
   sufficient and its answer grounded, a judge that raises always means abstaining, and what
   is returned is the admitted context of that iteration or nothing.
   */
  lemma OutcomeMeaning(p: Parts, query: string, session: Session, maxIterations: nat, r: LoopResult)
    requires IsOutcome(p, query, session, maxIterations, r)
    ensures
      var k := r.iterations - 1;
      var q := QueryAt(p, query, k);
      var ctx := Admitted(p.retrieve(k + 1, q, session), session);
      var answer := p.generate(k + 1, q, ctx);
      var rel, gnd := p.gradeRelevance(k + 1, q, ctx), p.gradeGroundedness(k + 1, q, answer, ctx);
      var sufficient := rel.Some? && rel.value.sufficient;
      && (!r.abstained <==> sufficient && gnd.Some? && gnd.value.grounded)
      && (r.stopReason == StoppedUngrounded <==> sufficient && gnd.Some? && !gnd.value.grounded)
      && (r.stopReason == InsufficientRetrieval <==> rel.Some? && !sufficient)
      && (r.stopReason == StoppedDegraded <==> rel.None? || (sufficient && gnd.None?))
      && (!r.abstained ==> r.stopReason == StoppedGrounded && r.answer == answer && r.chunks == ctx)
      && (r.abstained ==> r.answer == "" && (r.chunks == [] || r.chunks == ctx))
  {
    hide Admitted;
  }

  /** One record an iteration, in order, within the budget; only the last iteration may end the run. */
  lemma OutcomeSteps(p: Parts, query: string, session: Session, maxIterations: nat, r: LoopResult, i: nat)
    requires IsOutcome(p, query, session, maxIterations, r) && i < r.iterations
    ensures 1 <= r.iterations <= maxIterations && |r.steps| == r.iterations
    ensures r.steps[i] == StepAt(p, query, session, i) && r.steps[i].iteration == i + 1
    ensures i + 1 < r.iterations ==> r.steps[i].action == Reretrieve
  {
    hide Judge, Admitted, VerdictAt;
    StepsAt(p, query, session, r.iterations, i);
    if i + 1 < r.iterations {
      NoneFinalAt(p, query, session, r.iterations - 1, i);
    }
  }

  /** What a judge that raised or a grade of either kind leads to. */
  function ActionOn(rel: Option<RelevanceGrade>, gnd: Option<GroundednessGrade>): Action {
    if rel.None? || (rel.value.sufficient && gnd.None?) then GraderDegraded
    else if rel.value.sufficient && gnd.value.grounded then Return
    else Reretrieve
  }

  /** Record i of a run: the filter's output for its own query, graded as the judges grade it. */
  ghost predicate RecordFor(p: Parts, session: Session, i: nat, step: LoopStep) {
    var ctx := Admitted(p.retrieve(i + 1, step.query, session), session);
    && step.iteration == i + 1
    && step.nRetrieved == |ctx|
    && step.relevance == p.gradeRelevance(i + 1, step.query, ctx)
    && step.groundedness ==
       (if step.relevance.Some? && step.relevance.value.sufficient
        then p.gradeGroundedness(i + 1, step.query, p.generate(i + 1, step.query, ctx), ctx) else None)
    && step.action == ActionOn(step.relevance, step.groundedness)
  }

  /** The records of a run tell it: the question asked first, each reformulation after it, each context and its grades. */
  lemma RecordsMean(p: Parts, query: string, session: Session, maxIterations: nat, r: LoopResult, i: nat)
    requires IsOutcome(p, query, session, maxIterations, r) && i < r.iterations
    ensures |r.steps| == r.iterations <= maxIterations
    ensures r.steps[0].query == query
    ensures i > 0 ==> r.steps[i].query == p.reformulate(r.steps[i - 1].query, i)
    ensures RecordFor(p, session, i, r.steps[i])
    ensures r.steps[i].action != Reretrieve ==> i + 1 == r.iterations
    ensures i + 1 == r.iterations < maxIterations ==> r.steps[i].action != Reretrieve
  {
    hide Admitted, NoneFinal, StepsTo;
    StepsAt(p, query, session, r.iterations, 0);
    StepsAt(p, query, session, r.iterations, i);
    if i > 0 {
      StepsAt(p, query, session, r.iterations, i - 1);
    }
    if i + 1 < r.iterations {
      NoneFinalAt(p, query, session, r.iterations - 1, i);
    }
  }

  /** ... and its last record decides what it returns. */
  lemma LastRecordDecides(p: Parts, query: string, session: Session, maxIterations: nat, r: LoopResult)
    requires IsOutcome(p, query, session, maxIterations, r)
    ensures |r.steps| == r.iterations
    ensures
      var last := r.steps[r.iterations - 1];
      var ctx := Admitted(p.retrieve(r.iterations, last.query, session), session);
      var judged := last.relevance.Some? && last.relevance.value.sufficient && last.groundedness.Some?;
      r == if judged && last.groundedness.value.grounded then
             LoopResult(p.generate(r.iterations, last.query, ctx), false, r.iterations, StoppedGrounded, ctx, r.steps)
           else if judged then LoopResult("", true, r.iterations, StoppedUngrounded, ctx, r.steps)
           else LoopResult("", true, r.iterations,
                           if last.action == GraderDegraded then StoppedDegraded else InsufficientRetrieval, [], r.steps)
  {
    hide Admitted, NoneFinal, StepsTo;
    StepsAt(p, query, session, r.iterations, r.iterations - 1);
  }

  lemma SameOutcome(p: Parts, q: Parts, query: string, session: Session, k: nat)
    requires LowEqualParts(p, q, session)
    ensures Outcome(p, query, session, k) == Outcome(q, query, session, k)
  {
    SameIteration(p, q, query, session, k);
    SameIterations(p, q, query, session, k + 1);
  }

  /** A run cannot pass an iteration that ends it. */
  lemma EndIsUnique(p: Parts, query: string, session: Session, maxIterations: nat, m: nat, n: nat)
    requires EndsAt(p, query, session, maxIterations, m) && EndsAt(p, query, session, maxIterations, n)
    ensures m == n
  {
    if m < n {
      NoneFinalAt(p, query, session, n, m);
    } else if n < m {
      NoneFinalAt(p, query, session, m, n);
    }
  }

  lemma SameEnd(p: Parts, q: Parts, query: string, session: Session, maxIterations: nat, k: nat)
    requires LowEqualParts(p, q, session)
    ensures EndsAt(p, query, session, maxIterations, k) == EndsAt(q, query, session, maxIterations, k)
  {
    SameIteration(p, q, query, session, k);
    SameIterations(p, q, query, session, k);
  }

  lemma OutcomeIsUnique(p: Parts, query: string, session: Session, maxIterations: nat, r: LoopResult, t: LoopResult)
    requires IsOutcome(p, query, session, maxIterations, r)
    requires IsOutcome(p, query, session, maxIterations, t)
    ensures r == t
  {
    EndIsUnique(p, query, session, maxIterations, r.iterations - 1, t.iterations - 1);
  }

  lemma SameOutcomes(p: Parts, q: Parts, query: string, session: Session, maxIterations: nat, r: LoopResult)
    requires LowEqualParts(p, q, session)
    requires IsOutcome(p, query, session, maxIterations, r)
    ensures IsOutcome(q, query, session, maxIterations, r)
  {
    hide LowEqualParts, EndsAt, Outcome;
    SameEnd(p, q, query, session, maxIterations, r.iterations - 1);
    SameOutcome(p, q, query, session, r.iterations - 1);
  }

  /** Runs of low-equal systems end alike: same answer, context, provenance and reason. */
  lemma LoopNoninterference(p: Parts, q: Parts, query: string, session: Session, maxIterations: nat,
                            r: LoopResult, t: LoopResult)
    requires LowEqualParts(p, q, session)
    requires IsOutcome(p, query, session, maxIterations, r)
    requires IsOutcome(q, query, session, maxIterations, t)
    ensures r == t
  {
    SameOutcomes(p, q, query, session, maxIterations, r);
    OutcomeIsUnique(q, query, session, maxIterations, r, t);
  }

  // ---- the pipeline's instance: the query is never reformulated -------------------

  /** Every iteration sees the same question, the same candidates and the same judges. */
  ghost predicate Stationary(p: Parts, session: Session) {
    && (forall q, i :: p.reformulate(q, i) == q)
    && (forall i, q :: p.retrieve(i, q, session) == p.retrieve(1, q, session))
    && (forall i, q, c :: p.gradeRelevance(i, q, c) == p.gradeRelevance(1, q, c))
    && (forall i, q, c :: p.generate(i, q, c) == p.generate(1, q, c))
    && (forall i, q, a, c :: p.gradeGroundedness(i, q, a, c) == p.gradeGroundedness(1, q, a, c))
  }

  lemma {:induction false} StationaryIterations(p: Parts, query: string, session: Session, k: nat)
    requires Stationary(p, session)
    ensures QueryAt(p, query, k) == query
    ensures Context(p, query, session, k) == Context(p, query, session, 0)
    ensures AnswerAt(p, query, session, k) == AnswerAt(p, query, session, 0)
    ensures VerdictAt(p, query, session, k) == VerdictAt(p, query, session, 0)
  {
    if k > 0 {
      StationaryIterations(p, query, session, k - 1);
    }
  }

  /** Retrying without reformulating cannot help: the first verdict decides the whole run. */
  lemma StationaryOutcome(p: Parts, query: string, session: Session, maxIterations: nat, r: LoopResult)
    requires Stationary(p, session)
    requires IsOutcome(p, query, session, maxIterations, r)
    ensures var v := VerdictAt(p, query, session, 0);
      && (r.abstained <==> !(v.Judged? && v.gnd.grounded))
      && (!r.abstained ==> r.answer == AnswerAt(p, query, session, 0))
      && r.iterations == if v.Final() then 1 else maxIterations
  {
    hide Admitted;
    StationaryIterations(p, query, session, r.iterations - 1);
  }
}
