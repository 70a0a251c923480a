/** What the activities of a run are given, and which answers of the world they bring back, place by place. */
module Inputs {
  import opened Options
  import opened QaReport
  import opened Workflows
  import opened WorkflowProofs

  // ----- The review loop -----

  /** What stays the same for all reviews and executions of a run. */
  datatype Given = Given(snapshot: string, evidence: Evidence, maxAttempts: int, maxTurns: int)

  predicate IsGiven(g: Given, a: Activity) {
    && (a.SantosReview? ==> a.snapshot == g.snapshot && a.evidence == g.evidence && a.maxAttempts == g.maxAttempts)
    && (a.LamponneExecute? ==> a.maxTurns == g.maxTurns)
  }

  predicate LoopActivity(g: Given, a: Activity) {
    (a.SantosReview? || a.LamponneExecute?) && IsGiven(g, a)
  }

  /** Executions and reviews bring back the answers of the world in order, from the e-th and the v-th on. */
  predicate Answers(world: World, t: seq<Activity>, e: nat, v: nat) {
    t == []
    || ((t[0].LamponneExecute? ==> t[0].execution == world.execute(e))
        && (t[0].SantosReview? ==> t[0].qa == world.review(v))
        && Answers(world, t[1..], if t[0].LamponneExecute? then e + 1 else e, if t[0].SantosReview? then v + 1 else v))
  }

  lemma {:induction false} LoopIsGiven(world: World, config: Config, retryable: ReportJson -> bool, snapshot: string,
                                       evidence: Evidence, attempt: nat, executed: nat, raw: string,
                                       last: Option<QaOutput>, g: Given)
    requires g == Given(snapshot, evidence, config.maxCorrectionAttempts, config.maxExecutionTurns)
    ensures var t := QaLoop(world, config, retryable, snapshot, evidence, attempt, executed, raw, last).trace;
            (forall i :: 0 <= i < |t| ==> LoopActivity(g, t[i])) && Answers(world, t, executed, attempt)
    decreases config.maxCorrectionAttempts - attempt
  {
    if attempt < config.maxCorrectionAttempts {
      var qa := world.review(attempt);
      var event := ReviewEvent(world, config, snapshot, evidence, attempt, raw);
      if qa.finalStatus == "COMPLETED" || attempt + 1 == config.maxCorrectionAttempts {
        LoopEnds(world, config, retryable, snapshot, evidence, attempt, executed, raw, last);
        assert [event][1..] == [];
      } else {
        LoopGoesOn(world, config, retryable, snapshot, evidence, attempt, executed, raw, last);
        if retryable(qa.report) {
          var next := world.execute(executed).finalResponse;
          LoopIsGiven(world, config, retryable, snapshot, evidence, attempt + 1, executed + 1, next, Some(qa), g);
          var rest := QaLoop(world, config, retryable, snapshot, evidence, attempt + 1, executed + 1, next, Some(qa));
          AnswersTwoMore(world, event, CorrectionEvent(world, config, executed, qa.report), rest.trace, executed,
                         attempt);
        } else {
          LoopIsGiven(world, config, retryable, snapshot, evidence, attempt + 1, executed, raw, Some(qa), g);
          var rest := QaLoop(world, config, retryable, snapshot, evidence, attempt + 1, executed, raw, Some(qa));
          assert ([event] + rest.trace)[1..] == rest.trace;
        }
      }
    }
  }

  lemma AnswersTwoMore(world: World, review: Activity, correction: Activity, rest: seq<Activity>, e: nat, v: nat)
    requires review.SantosReview? && review.qa == world.review(v)
    requires correction.LamponneExecute? && correction.execution == world.execute(e)
    requires Answers(world, rest, e + 1, v + 1)
    ensures Answers(world, [review, correction] + rest, e, v)
  {
    var t := [review, correction] + rest;
    assert t[1..][0] == correction && t[1..][1..] == rest;
  }

  lemma {:induction false} AnswersAppend(world: World, a: seq<Activity>, b: seq<Activity>, e: nat, v: nat)
    requires Answers(world, a, e, v) && Answers(world, b, e + Executions(a), v + Reviews(a))
    ensures Answers(world, a + b, e, v)
  {
    if a == [] {
      assert a + b == b;
    } else {
      assert (a + b)[1..] == a[1..] + b;
      AnswersAppend(world, a[1..], b, if a[0].LamponneExecute? then e + 1 else e,
                    if a[0].SantosReview? then v + 1 else v);
    }
  }

  lemma {:induction false} NothingToAnswer(world: World, t: seq<Activity>, e: nat, v: nat)
    requires forall i :: 0 <= i < |t| ==> !t[i].SantosReview? && !t[i].LamponneExecute?
    ensures Answers(world, t, e, v)
  {
    if t != [] { NothingToAnswer(world, t[1..], e, v); }
  }

  /** The n-th execution brings back the n-th answer, and the n-th review the n-th verdict. */
  lemma {:induction false} AnswersMean(world: World, t: seq<Activity>, e: nat, v: nat, i: nat)
    requires Answers(world, t, e, v) && i < |t|
    ensures t[i].LamponneExecute? ==> t[i].execution == world.execute(e + Executions(t[..i]))
    ensures t[i].SantosReview? ==> t[i].qa == world.review(v + Reviews(t[..i]))
  {
    if i > 0 {
      AnswersMean(world, t[1..], if t[0].LamponneExecute? then e + 1 else e, if t[0].SantosReview? then v + 1 else v,
                  i - 1);
      assert t[..i][1..] == t[1..][..i - 1];
    }
  }

  lemma OpeningAnswers(world: World, head: seq<Activity>, exec: seq<Activity>)
    requires forall i :: 0 <= i < |head| ==> !head[i].SantosReview? && !head[i].LamponneExecute?
    requires exec != [] && exec[0].LamponneExecute? && exec[0].execution == world.execute(0)
    requires forall i :: 1 <= i < |exec| ==> exec[i].WebVerify?
    ensures Answers(world, head + exec, 0, 0) && Executions(head + exec) == 1 && Reviews(head + exec) == 0
  {
    NoneIn(head);
    NothingToAnswer(world, head, 0, 0);
    NoneIn(exec[1..]);
    NothingToAnswer(world, exec[1..], 1, 0);
    AnswersAppend(world, head, exec, 0, 0);
    ReviewsAppend(head, exec);
  }

  /** Head, first execution, loop and tail of a run answer in order. */
  lemma PartsAnswer(world: World, before: seq<Activity>, reviews: seq<Activity>, tail: seq<Activity>)
    requires Answers(world, before, 0, 0) && Executions(before) == 1 && Reviews(before) == 0
    requires Answers(world, reviews, 1, 0)
    requires forall i :: 0 <= i < |tail| ==> !tail[i].SantosReview? && !tail[i].LamponneExecute?
    ensures Answers(world, before + reviews + tail, 0, 0)
  {
    AnswersAppend(world, before, reviews, 0, 0);
    NothingToAnswer(world, tail, Executions(before + reviews), Reviews(before + reviews));
    AnswersAppend(world, before + reviews, tail, 0, 0);
  }

  lemma PartAt(a: seq<Activity>, b: seq<Activity>, c: seq<Activity>, d: seq<Activity>, i: nat)
    requires i < |a + b + c + d|
    ensures (a + b + c + d)[i] == if i < |a| then a[i]
                                  else if i < |a| + |b| then b[i - |a|]
                                  else if i < |a| + |b| + |c| then c[i - |a| - |b|]
                                  else d[i - |a| - |b| - |c|]
  {
  }

  // ----- DCE runs -----

  /** The vision fields of a run: only if pages were extracted. */
  function FieldsOf(v: VisionOutput): string {
    if v.pages > 0 then v.fields else ""
  }

  /** The opening of a DCE run that is not halted. */
  predicate DceOpening(t: seq<Activity>) {
    |t| >= 4 && t[0].SantosPlan? && t[1].MedinaInvestigate? && t[2].GeminiVision? && t[3].LamponneExecute?
  }

  /** The citation report that is made of the investigation's snapshot and the vision's fields. */
  function ReportOn(world: World, t: seq<Activity>): CitationReport
    requires DceOpening(t)
  {
    world.citationReport(t[1].investigation.snapshot, FieldsOf(t[2].vision))
  }

  predicate Verifies(t: seq<Activity>) {
    |t| > 4 && t[4].WebVerify?
  }

  /** The evidence of the web, empty if it was not asked. */
  function WebEvidence(t: seq<Activity>): string {
    if Verifies(t) then t[4].verification else ""
  }

  /** The lines of a DCE run's progress, by the activities that they are about. */
  function DceLines(t: seq<Activity>, qa: QaOutput): seq<ProgressLine>
    requires DceOpening(t)
  {
    [PlanLine(t[0].plan.phaseResult), InvestigateLine(t[1].investigation.phaseResult),
     VisionLine(t[2].vision.pages, t[2].vision.source), ExecuteLine(t[3].execution.toolCalls), QaLine(qa.phaseResult)]
  }

  /** What the activity at a place of a DCE run is given, by the activities at other places. */
  ghost predicate DceGivenAt(world: World, input: Input, default: Config, t: seq<Activity>, i: nat)
    requires DceOpening(t) && i < |t|
  {
    var report := ReportOn(world, t);
    match t[i]
    case SantosReview(snapshot, _, evidence, maxAttempts, _) =>
      && snapshot == t[1].investigation.snapshot
      && evidence == Evidence(FieldsOf(t[2].vision), report.text, WebEvidence(t))
      && maxAttempts == (if input.e2eFastMode then 1 else default.maxCorrectionAttempts)
    case LamponneExecute(_, maxTurns, _) => maxTurns == if input.e2eFastMode then 3 else default.maxExecutionTurns
    case WebVerify(ambiguous, verification) =>
      i == 4 && ambiguous == report.text && verification == world.verify(report.text)
    case RavennaSynthesize(progress, output, qaReport, matrix, citations, web, synthesis) =>
      && t[i - 1].SantosReview? && progress == DceLines(t, t[i - 1].qa)
      && output == t[3].execution.finalResponse
      && qaReport == t[i - 1].qa.report && matrix == t[i - 1].qa.matrix
      && citations == report.text && web == WebEvidence(t) && synthesis == world.synthesize
    case DeliverCallback(url, result) =>
      t[i - 1].RavennaSynthesize? && url == input.callbackUrl && result == t[i - 1].synthesis.result
    case PostJobLearn(session) => LearnsFromSynthesis(t, i, session)
    case _ => true
  }

  /** Learning gets the progress that synthesis was given, and the line of the synthesis. */
  ghost predicate LearnsFromSynthesis(t: seq<Activity>, i: nat, session: seq<ProgressLine>) {
    exists s :: 0 <= s < i < |t| && SessionOf(t[s], session)
  }

  predicate SessionOf(a: Activity, session: seq<ProgressLine>) {
    a.RavennaSynthesize? && session == a.progress + [SynthesizeLine(a.synthesis.phaseResult)]
  }

  /** The parts of a DCE run that is not halted, and the last review if there is one. */
  lemma DceParts(world: World, input: Input, default: Config) returns (reviews: seq<Activity>, tail: seq<Activity>)
    requires !world.investigation.halted
    ensures var config := ConfigForInput(input, default);
            && DceRun(world, input, default).trace == DceHead(world) + DceExecution(world, config) + reviews + tail
            && reviews == DceReviews(world, config).trace
            && (reviews == [] ==> tail == [])
            && (reviews != [] ==> reviews[|reviews| - 1].SantosReview?
                                  && tail == DceTail(world, input, reviews[|reviews| - 1].qa))
  {
    var config := ConfigForInput(input, default);
    var run := DceReviews(world, config);
    reviews, tail := run.trace, if run.last.Some? then DceTail(world, input, run.last.value) else [];
    if config.maxCorrectionAttempts > 0 {
      LoopIsReviewPhase(world, config, HasRetryableBlocking, world.investigation.snapshot, DceEvidence(world), 0, 1,
                        world.execute(0).finalResponse, None);
    } else {
      var t := DceHead(world) + DceExecution(world, config);
      assert t + [] == t && t + [] + [] == t;
    }
  }

  lemma DceOpens(world: World, input: Input, default: Config)
    requires !world.investigation.halted
    ensures var t := DceRun(world, input, default).trace;
            && DceOpening(t) && t[..3] == DceHead(world) && t[3].execution == world.execute(0)
            && (Verifies(t) <==> ReportOn(world, t).webVerificationRecommended)
            && WebEvidence(t) == WebOf(world)
  {
    var t, exec := DceRun(world, input, default).trace, DceExecution(world, ConfigForInput(input, default));
    var reviews, tail := DceParts(world, input, default);
    assert forall i :: 0 <= i < 3 ==> t[i] == DceHead(world)[i];
    assert t[3] == exec[0];
    if CitationsOf(world).webVerificationRecommended {
      assert t[4] == exec[1];
    } else if |t| > 4 {
      DceHasReview(world, input, default, reviews);
      assert t[4] == reviews[0];
    }
  }

  lemma DceHasReview(world: World, input: Input, default: Config, reviews: seq<Activity>)
    requires reviews == DceReviews(world, ConfigForInput(input, default)).trace
    ensures reviews != [] ==> reviews[0].SantosReview?
  {
  }

  /** In every DCE run every activity is given what the activities before it brought back. */
  lemma DceRunIsGiven(world: World, input: Input, default: Config, i: nat)
    requires !world.investigation.halted && i < |DceRun(world, input, default).trace|
    ensures var t := DceRun(world, input, default).trace;
            && DceOpening(t) && (Verifies(t) <==> ReportOn(world, t).webVerificationRecommended)
            && DceGivenAt(world, input, default, t, i)
  {
    var config := ConfigForInput(input, default);
    var first := 3 + |DceExecution(world, config)|;
    DceOpens(world, input, default);
    if i < first {
      DceStartIsGiven(world, input, default, i);
    } else if i < first + |DceReviews(world, config).trace| {
      DceReviewIsGiven(world, input, default, i);
    } else {
      DceTailIsGiven(world, input, default, i);
    }
  }

  lemma DceStartIsGiven(world: World, input: Input, default: Config, i: nat)
    requires !world.investigation.halted && i < |DceRun(world, input, default).trace|
    requires i < 3 + |DceExecution(world, ConfigForInput(input, default))|
    ensures DceOpening(DceRun(world, input, default).trace)
            && DceGivenAt(world, input, default, DceRun(world, input, default).trace, i)
  {
    var reviews, tail := DceParts(world, input, default);
    DceOpens(world, input, default);
    PartAt(DceHead(world), DceExecution(world, ConfigForInput(input, default)), reviews, tail, i);
  }

  lemma DceReviewIsGiven(world: World, input: Input, default: Config, i: nat)
    requires !world.investigation.halted && i < |DceRun(world, input, default).trace|
    requires var first := 3 + |DceExecution(world, ConfigForInput(input, default))|;
             first <= i < first + |DceReviews(world, ConfigForInput(input, default)).trace|
    ensures DceOpening(DceRun(world, input, default).trace)
            && DceGivenAt(world, input, default, DceRun(world, input, default).trace, i)
  {
    var config := ConfigForInput(input, default);
    var g := Given(world.investigation.snapshot, DceEvidence(world), config.maxCorrectionAttempts,
                   config.maxExecutionTurns);
    var reviews, tail := DceParts(world, input, default);
    DceOpens(world, input, default);
    PartAt(DceHead(world), DceExecution(world, config), reviews, tail, i);
    LoopIsGiven(world, config, HasRetryableBlocking, world.investigation.snapshot, DceEvidence(world), 0, 1,
                world.execute(0).finalResponse, None, g);
    assert LoopActivity(g, DceRun(world, input, default).trace[i]);
  }

  lemma DceTailIsGiven(world: World, input: Input, default: Config, i: nat)
    requires !world.investigation.halted && i < |DceRun(world, input, default).trace|
    requires 3 + |DceExecution(world, ConfigForInput(input, default))|
             + |DceReviews(world, ConfigForInput(input, default)).trace| <= i
    ensures DceOpening(DceRun(world, input, default).trace)
            && DceGivenAt(world, input, default, DceRun(world, input, default).trace, i)
  {
    var t, head, exec := DceRun(world, input, default).trace, DceHead(world),
                         DceExecution(world, ConfigForInput(input, default));
    var reviews, tail := DceParts(world, input, default);
    var s := 3 + |exec| + |reviews|;
    DceOpens(world, input, default);
    PartAt(head, exec, reviews, tail, i);
    PartAt(head, exec, reviews, tail, s);
    PartAt(head, exec, reviews, tail, s - 1);
    assert t[i].PostJobLearn? ==> SessionOf(t[s], t[i].session);
  }

  /** Its executions and reviews bring back the answers of the world in order. */
  lemma DceRunAnswers(world: World, input: Input, default: Config)
    ensures Answers(world, DceRun(world, input, default).trace, 0, 0)
  {
    var config := ConfigForInput(input, default);
    if world.investigation.halted {
      NothingToAnswer(world, DceHead(world), 0, 0);
    } else {
      var reviews, tail := DceParts(world, input, default);
      var g := Given(world.investigation.snapshot, DceEvidence(world), config.maxCorrectionAttempts,
                     config.maxExecutionTurns);
      LoopIsGiven(world, config, HasRetryableBlocking, world.investigation.snapshot, DceEvidence(world), 0, 1,
                  world.execute(0).finalResponse, None, g);
      OpeningAnswers(world, DceHead(world), DceExecution(world, config));
      PartsAnswer(world, DceHead(world) + DceExecution(world, config), reviews, tail);
    }
  }

  /** A finished run hands out what its synthesis brought back. */
  lemma DceHandsOut(world: World, input: Input, default: Config) returns (s: nat)
    requires DceRun(world, input, default).result.Finished?
    ensures var t, r := DceRun(world, input, default).trace, DceRun(world, input, default).result;
            && s < |t| && t[s].RavennaSynthesize?
            && r.response == t[s].synthesis.result && r.reportUrl == Some(t[s].synthesis.reportUrl)
            && r.qaSummary == t[s].report
  {
    var config := ConfigForInput(input, default);
    var reviews, tail := DceParts(world, input, default);
    s := 3 + |DceExecution(world, config)| + |reviews|;
    PartAt(DceHead(world), DceExecution(world, config), reviews, tail, s);
  }

  // ----- HAS and IDP runs -----

  /** The opening of a HAS or IDP run that is not halted. */
  predicate PlainOpening(t: seq<Activity>) {
    |t| >= 3 && t[0].SantosPlan? && t[1].MedinaInvestigate? && t[2].LamponneExecute?
  }

  function PlainLines(t: seq<Activity>, qa: QaOutput): seq<ProgressLine>
    requires PlainOpening(t)
  {
    [PlanLine(t[0].plan.phaseResult), InvestigateLine(t[1].investigation.phaseResult),
     ExecuteLine(t[2].execution.toolCalls), QaLine(qa.phaseResult)]
  }

  /** These workflows have no evidence, and neither vision nor web nor callback. */
  ghost predicate PlainGivenAt(world: World, config: Config, t: seq<Activity>, i: nat)
    requires PlainOpening(t) && i < |t|
  {
    match t[i]
    case SantosReview(snapshot, _, evidence, maxAttempts, _) =>
      && snapshot == t[1].investigation.snapshot && evidence == Evidence("", "", "")
      && maxAttempts == config.maxCorrectionAttempts
    case LamponneExecute(_, maxTurns, _) => maxTurns == config.maxExecutionTurns
    case RavennaSynthesize(progress, output, qaReport, matrix, citations, web, synthesis) =>
      && t[i - 1].SantosReview? && progress == PlainLines(t, t[i - 1].qa)
      && output == t[2].execution.finalResponse && qaReport == t[i - 1].qa.report
      && matrix == "" && citations == "" && web == "" && synthesis == world.synthesize
    case PostJobLearn(session) => LearnsFromSynthesis(t, i, session)
    case SantosPlan(_) => i == 0
    case MedinaInvestigate(_) => i == 1
    case _ => false
  }

  lemma PlainParts(world: World, domain: PlainDomain, config: Config)
    returns (reviews: seq<Activity>, tail: seq<Activity>)
    requires !world.investigation.halted
    ensures PlainRun(world, domain, config).trace == PlainHead(world) + PlainExecution(world, config) + reviews + tail
    ensures reviews == PlainReviews(world, config).trace
    ensures reviews == [] ==> tail == []
    ensures reviews != [] ==>
              reviews[|reviews| - 1].SantosReview? && tail == PlainTail(world, reviews[|reviews| - 1].qa)
  {
    var run := PlainReviews(world, config);
    reviews, tail := run.trace, if run.last.Some? then PlainTail(world, run.last.value) else [];
    if config.maxCorrectionAttempts > 0 {
      LoopIsReviewPhase(world, config, Always, world.investigation.snapshot, NO_EVIDENCE, 0, 1,
                        world.execute(0).finalResponse, None);
    } else {
      var t := PlainHead(world) + PlainExecution(world, config);
      assert t + [] == t && t + [] + [] == t;
    }
  }

  /** In every HAS and IDP run every activity is given what the activities before it brought back. */
  lemma PlainRunIsGiven(world: World, domain: PlainDomain, config: Config, i: nat)
    requires !world.investigation.halted && i < |PlainRun(world, domain, config).trace|
    ensures var t := PlainRun(world, domain, config).trace; PlainOpening(t) && PlainGivenAt(world, config, t, i)
  {
    var t := PlainRun(world, domain, config).trace;
    var head, exec := PlainHead(world), PlainExecution(world, config);
    var reviews, tail := PlainParts(world, domain, config);
    assert forall k :: 0 <= k < 2 ==> t[k] == head[k];
    assert t[2] == exec[0];
    PartAt(head, exec, reviews, tail, i);
    if 3 <= i < 3 + |reviews| {
      var g := Given(world.investigation.snapshot, NO_EVIDENCE, config.maxCorrectionAttempts, config.maxExecutionTurns);
      LoopIsGiven(world, config, Always, world.investigation.snapshot, NO_EVIDENCE, 0, 1,
                  world.execute(0).finalResponse,
                  None, g);
      assert LoopActivity(g, t[i]);
    } else if i >= 3 + |reviews| {
      var s := 3 + |reviews|;
      PartAt(head, exec, reviews, tail, s);
      PartAt(head, exec, reviews, tail, s - 1);
      assert t[i].PostJobLearn? ==> SessionOf(t[s], t[i].session);
    }
  }

  lemma PlainRunAnswers(world: World, domain: PlainDomain, config: Config)
    ensures Answers(world, PlainRun(world, domain, config).trace, 0, 0)
  {
    if world.investigation.halted {
      NothingToAnswer(world, PlainHead(world), 0, 0);
    } else {
      var reviews, tail := PlainParts(world, domain, config);
      var g := Given(world.investigation.snapshot, NO_EVIDENCE, config.maxCorrectionAttempts, config.maxExecutionTurns);
      LoopIsGiven(world, config, Always, world.investigation.snapshot, NO_EVIDENCE, 0, 1,
                  world.execute(0).finalResponse,
                  None, g);
      OpeningAnswers(world, PlainHead(world), PlainExecution(world, config));
      PartsAnswer(world, PlainHead(world) + PlainExecution(world, config), reviews, tail);
    }
  }

  /** Only a HAS run hands out the address of its report. */
  lemma PlainHandsOut(world: World, domain: PlainDomain, config: Config) returns (s: nat)
    requires PlainRun(world, domain, config).result.Finished?
    ensures var t, r := PlainRun(world, domain, config).trace, PlainRun(world, domain, config).result;
            && s < |t| && t[s].RavennaSynthesize?
            && r.response == t[s].synthesis.result && r.qaSummary == t[s].report
            && r.reportUrl == if domain == Has then Some(t[s].synthesis.reportUrl) else None
  {
    var reviews, tail := PlainParts(world, domain, config);
    s := 3 + |reviews|;
    PartAt(PlainHead(world), PlainExecution(world, config), reviews, tail, s);
  }
}
