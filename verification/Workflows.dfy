/** The operativo workflows of the three domains as runs that leave a trace of activities. */
module Workflows {
  import opened Options
  import opened QaReport
  import opened Sequences

  // ----- What goes over to the activities and what comes back -----

  datatype PlanOutput = PlanOutput(phaseResult: string, planJson: string)
  datatype InvestigateOutput = InvestigateOutput(phaseResult: string, snapshot: string, halted: bool, risk: string)
  datatype VisionOutput = VisionOutput(pages: int, source: string, fields: string)
  datatype ExecuteOutput = ExecuteOutput(finalResponse: string, toolCalls: nat)
  datatype QaOutput = QaOutput(report: ReportJson, finalStatus: string, phaseResult: string, matrix: string)
  datatype SynthesizeOutput = SynthesizeOutput(result: string, reportUrl: string, phaseResult: string)
  datatype CitationReport = CitationReport(text: string, webVerificationRecommended: bool)

  /** The message of an execution: the plan, or the report of the review that rejected the last output. */
  datatype Task = FollowPlan(planJson: string) | ApplyCorrections(report: ReportJson)

  /** What a review gets besides snapshot and output. */
  datatype Evidence = Evidence(vision: string, citations: string, web: string)

  datatype ProgressLine =
    | PlanLine(result: string)
    | InvestigateLine(result: string)
    | VisionLine(pages: int, source: string)
    | ExecuteLine(toolCalls: nat)
    | QaLine(result: string)
    | SynthesizeLine(result: string)

  /** One executed activity, with its input and its output. */
  datatype Activity =
    | SantosPlan(plan: PlanOutput)
    | MedinaInvestigate(investigation: InvestigateOutput)
    | GeminiVision(vision: VisionOutput)
    | LamponneExecute(task: Task, maxTurns: int, execution: ExecuteOutput)
    | WebVerify(ambiguous: string, verification: string)
    | SantosReview(snapshot: string, raw: string, evidence: Evidence, maxAttempts: int, qa: QaOutput)
    | RavennaSynthesize(progress: seq<ProgressLine>, output: string, report: ReportJson, matrix: string,
                        citations: string, web: string, synthesis: SynthesizeOutput)
    | DeliverCallback(url: string, result: string)
    | PostJobLearn(session: seq<ProgressLine>)

  /** What the activities answer; executions and reviews by how many there were before. */
  datatype World = World(
    plan: PlanOutput,
    investigation: InvestigateOutput,
    vision: VisionOutput,
    execute: nat -> ExecuteOutput,
    review: nat -> QaOutput,
    citationReport: (string, string) -> CitationReport,
    verify: string -> string,
    synthesize: SynthesizeOutput)

  datatype Config = Config(maxExecutionTurns: int, maxCorrectionAttempts: int)

  const E2E_FAST_CONFIG := Config(3, 1)

  datatype Input = Input(callbackUrl: string, e2eFastMode: bool)

  function ConfigForInput(input: Input, default: Config): Config {
    if input.e2eFastMode then E2E_FAST_CONFIG else default
  }

  datatype Status = Completed | NeedsReview

  /** How a run ends. A limit of no attempts leaves no review to return, which raises. */
  datatype RunResult =
    | Halted(risk: string)
    | Raised
    | Finished(status: Status, response: string, reportUrl: Option<string>, qaSummary: ReportJson)

  function StatusOf(qa: QaOutput): Status {
    if qa.finalStatus == "COMPLETED" then Completed else NeedsReview
  }

  // ----- The review loop -----

  /** What a loop leaves: its activities and the review that it returns. */
  datatype LoopRun = LoopRun(trace: seq<Activity>, last: Option<QaOutput>)

  function ReviewEvent(world: World, config: Config, snapshot: string, evidence: Evidence, attempt: nat,
                       raw: string): Activity {
    SantosReview(snapshot, raw, evidence, config.maxCorrectionAttempts, world.review(attempt))
  }

  function CorrectionEvent(world: World, config: Config, executed: nat, report: ReportJson): Activity {
    LamponneExecute(ApplyCorrections(report), config.maxExecutionTurns, world.execute(executed))
  }

  /**
   The review loop from an attempt on: `executed` executions so far, `raw` the output under review,
   `retryable` the test that a rejected report must pass before it is corrected.
   */
  function QaLoop(world: World, config: Config, retryable: ReportJson -> bool, snapshot: string, evidence: Evidence,
                  attempt: nat, executed: nat, raw: string, last: Option<QaOutput>): LoopRun
    decreases config.maxCorrectionAttempts - attempt
  {
    if attempt >= config.maxCorrectionAttempts then LoopRun([], last)
    else
      var qa := world.review(attempt);
      var event := ReviewEvent(world, config, snapshot, evidence, attempt, raw);
      if qa.finalStatus == "COMPLETED" then LoopRun([event], Some(qa))
      else if attempt < config.maxCorrectionAttempts - 1 && retryable(qa.report) then
        var rest := QaLoop(world, config, retryable, snapshot, evidence, attempt + 1, executed + 1,
                           world.execute(executed).finalResponse, Some(qa));
        LoopRun([event, CorrectionEvent(world, config, executed, qa.report)] + rest.trace, rest.last)
      else
        var rest := QaLoop(world, config, retryable, snapshot, evidence, attempt + 1, executed, raw, Some(qa));
        LoopRun([event] + rest.trace, rest.last)
  }

  predicate Always(report: ReportJson) { true }

  /** The activities executed so far. */
  class History {
    var events: seq<Activity>

    constructor ()
      ensures events == []
    {
      events := [];
    }

    method Execute(a: Activity)
      modifies this
      ensures events == old(events) + [a]
    {
      events := events + [a];
    }
  }

  const NO_EVIDENCE := Evidence("", "", "")

  /** `CPCOperativoWorkflow._qa_with_retry`. */
  method DceQaWithRetry(world: World, config: Config, history: History, snapshot: string, raw: string,
                        evidence: Evidence)
    returns (r: Option<QaOutput>)
    modifies history
    ensures var run := QaLoop(world, config, HasRetryableBlocking, snapshot, evidence, 0, 1, raw, None);
            history.events == old(history.events) + run.trace && r == run.last
  {
    var current, executed := raw, 1;
    r := None;
    ghost var run := QaLoop(world, config, HasRetryableBlocking, snapshot, evidence, 0, 1, raw, None);
    ghost var rest := run;
    var attempt := 0;
    while attempt < config.maxCorrectionAttempts
      invariant 0 <= attempt
      invariant rest == QaLoop(world, config, HasRetryableBlocking, snapshot, evidence, attempt, executed, current, r)
      invariant old(history.events) + run.trace == history.events + rest.trace && run.last == rest.last
    {
      ghost var before, now := history.events, rest;
      var qa := world.review(attempt);
      history.Execute(SantosReview(snapshot, current, evidence, config.maxCorrectionAttempts, qa));
      if qa.finalStatus == "COMPLETED" {
        return Some(qa);
      }
      ghost var added := [ReviewEvent(world, config, snapshot, evidence, attempt, current)];
      if attempt < config.maxCorrectionAttempts - 1 && HasRetryableBlocking(qa.report) {
        var correction := world.execute(executed);
        history.Execute(LamponneExecute(ApplyCorrections(qa.report), config.maxExecutionTurns, correction));
        added := added + [CorrectionEvent(world, config, executed, qa.report)];
        current, executed := correction.finalResponse, executed + 1;
      }
      r := Some(qa);
      attempt := attempt + 1;
      rest := QaLoop(world, config, HasRetryableBlocking, snapshot, evidence, attempt, executed, current, r);
      assert now.trace == added + rest.trace && now.last == rest.last;
      assert history.events == before + added;
      Regrouped(before, added, rest.trace);
    }
  }

  /** `_qa_with_retry` of the HAS and IDP workflows: every rejected output is corrected. */
  method PlainQaWithRetry(world: World, config: Config, history: History, snapshot: string, raw: string)
    returns (r: Option<QaOutput>)
    modifies history
    ensures var run := QaLoop(world, config, Always, snapshot, NO_EVIDENCE, 0, 1, raw, None);
            history.events == old(history.events) + run.trace && r == run.last
  {
    var current, executed := raw, 1;
    r := None;
    ghost var run := QaLoop(world, config, Always, snapshot, NO_EVIDENCE, 0, 1, raw, None);
    ghost var rest := run;
    var attempt := 0;
    while attempt < config.maxCorrectionAttempts
      invariant 0 <= attempt
      invariant rest == QaLoop(world, config, Always, snapshot, NO_EVIDENCE, attempt, executed, current, r)
      invariant old(history.events) + run.trace == history.events + rest.trace && run.last == rest.last
    {
      ghost var before, now := history.events, rest;
      var qa := world.review(attempt);
      history.Execute(SantosReview(snapshot, current, NO_EVIDENCE, config.maxCorrectionAttempts, qa));
      if qa.finalStatus == "COMPLETED" {
        return Some(qa);
      }
      ghost var added := [ReviewEvent(world, config, snapshot, NO_EVIDENCE, attempt, current)];
      if attempt < config.maxCorrectionAttempts - 1 {
        var correction := world.execute(executed);
        history.Execute(LamponneExecute(ApplyCorrections(qa.report), config.maxExecutionTurns, correction));
        added := added + [CorrectionEvent(world, config, executed, qa.report)];
        current, executed := correction.finalResponse, executed + 1;
      }
      r := Some(qa);
      attempt := attempt + 1;
      rest := QaLoop(world, config, Always, snapshot, NO_EVIDENCE, attempt, executed, current, r);
      assert now.trace == added + rest.trace && now.last == rest.last;
      assert history.events == before + added;
      Regrouped(before, added, rest.trace);
    }
  }

  // ----- Whole runs -----

  datatype Run = Run(trace: seq<Activity>, result: RunResult)

  function VisionJson(world: World): string {
    if world.vision.pages > 0 then world.vision.fields else ""
  }

  function CitationsOf(world: World): CitationReport {
    world.citationReport(world.investigation.snapshot, VisionJson(world))
  }

  function WebOf(world: World): string {
    if CitationsOf(world).webVerificationRecommended then world.verify(CitationsOf(world).text) else ""
  }

  function DceEvidence(world: World): Evidence {
    Evidence(VisionJson(world), CitationsOf(world).text, WebOf(world))
  }

  function DceHead(world: World): seq<Activity> {
    [SantosPlan(world.plan), MedinaInvestigate(world.investigation), GeminiVision(world.vision)]
  }

  /** The first execution and, if recommended, the web verification. */
  function DceExecution(world: World, config: Config): seq<Activity> {
    [LamponneExecute(FollowPlan(world.plan.planJson), config.maxExecutionTurns, world.execute(0))]
    + if CitationsOf(world).webVerificationRecommended then [WebVerify(CitationsOf(world).text, WebOf(world))] else []
  }

  function DceReviews(world: World, config: Config): LoopRun {
    QaLoop(world, config, HasRetryableBlocking, world.investigation.snapshot, DceEvidence(world), 0, 1,
           world.execute(0).finalResponse, None)
  }

  function DceProgress(world: World, qa: QaOutput): seq<ProgressLine> {
    [PlanLine(world.plan.phaseResult), InvestigateLine(world.investigation.phaseResult),
     VisionLine(world.vision.pages, world.vision.source), ExecuteLine(world.execute(0).toolCalls),
     QaLine(qa.phaseResult)]
  }

  /** Synthesis of the first output, the callback if asked for, and learning unless the run is a fast one. */
  function DceTail(world: World, input: Input, qa: QaOutput): seq<Activity> {
    [RavennaSynthesize(DceProgress(world, qa), world.execute(0).finalResponse, qa.report, qa.matrix,
                       CitationsOf(world).text, WebOf(world), world.synthesize)]
    + (if input.callbackUrl != "" then [DeliverCallback(input.callbackUrl, world.synthesize.result)] else [])
    + if input.e2eFastMode then []
      else [PostJobLearn(DceProgress(world, qa) + [SynthesizeLine(world.synthesize.phaseResult)])]
  }

  function DceRun(world: World, input: Input, default: Config): Run {
    var config := ConfigForInput(input, default);
    var reviews := DceReviews(world, config);
    if world.investigation.halted then Run(DceHead(world), Halted(world.investigation.risk))
    else if reviews.last.None? then Run(DceHead(world) + DceExecution(world, config) + reviews.trace, Raised)
    else
      var qa := reviews.last.value;
      Run(DceHead(world) + DceExecution(world, config) + reviews.trace + DceTail(world, input, qa),
          Finished(StatusOf(qa), world.synthesize.result, Some(world.synthesize.reportUrl), qa.report))
  }

  /** The part of a run behind its reviews. */
  method FinishDce(world: World, input: Input, history: History, lines: seq<ProgressLine>, output: string,
                   review: QaOutput, citations: string, web: string)
    requires lines == DceProgress(world, review) && output == world.execute(0).finalResponse
    requires citations == CitationsOf(world).text && web == WebOf(world)
    modifies history
    ensures history.events == old(history.events) + DceTail(world, input, review)
  {
    history.Execute(RavennaSynthesize(lines, output, review.report, review.matrix, citations, web, world.synthesize));
    var progress := lines + [SynthesizeLine(world.synthesize.phaseResult)];
    if input.callbackUrl != "" {
      history.Execute(DeliverCallback(input.callbackUrl, world.synthesize.result));
    }
    if !input.e2eFastMode {
      history.Execute(PostJobLearn(progress));
    }
  }

  /** `CPCOperativoWorkflow.run`. */
  method RunDce(world: World, input: Input, default: Config, history: History) returns (r: RunResult)
    requires history.events == []
    modifies history
    ensures Run(history.events, r) == DceRun(world, input, default)
  {
    var config := ConfigForInput(input, default);
    history.Execute(SantosPlan(world.plan));
    var progress := [PlanLine(world.plan.phaseResult)];
    history.Execute(MedinaInvestigate(world.investigation));
    history.Execute(GeminiVision(world.vision));
    progress := progress + [InvestigateLine(world.investigation.phaseResult),
                            VisionLine(world.vision.pages, world.vision.source)];
    if world.investigation.halted {
      return Halted(world.investigation.risk);
    }
    var execution := world.execute(0);
    history.Execute(LamponneExecute(FollowPlan(world.plan.planJson), config.maxExecutionTurns, execution));
    progress := progress + [ExecuteLine(execution.toolCalls)];
    var vision := VisionJson(world);
    var citations := world.citationReport(world.investigation.snapshot, vision);
    var web := "";
    if citations.webVerificationRecommended {
      web := world.verify(citations.text);
      history.Execute(WebVerify(citations.text, web));
    }
    assert history.events == DceHead(world) + DceExecution(world, config);
    var qa := DceQaWithRetry(world, config, history, world.investigation.snapshot, execution.finalResponse,
                             Evidence(vision, citations.text, web));
    if qa.None? { return Raised; }
    var review := qa.value;
    progress := progress + [QaLine(review.phaseResult)];
    assert progress == DceProgress(world, review);
    FinishDce(world, input, history, progress, execution.finalResponse, review, citations.text, web);
    r := Finished(StatusOf(review), world.synthesize.result, Some(world.synthesize.reportUrl), review.report);
  }

  /** The two domains without vision, citations and callback. */
  datatype PlainDomain = Has | Idp

  function PlainHead(world: World): seq<Activity> {
    [SantosPlan(world.plan), MedinaInvestigate(world.investigation)]
  }

  function PlainExecution(world: World, config: Config): seq<Activity> {
    [LamponneExecute(FollowPlan(world.plan.planJson), config.maxExecutionTurns, world.execute(0))]
  }

  function PlainReviews(world: World, config: Config): LoopRun {
    QaLoop(world, config, Always, world.investigation.snapshot, NO_EVIDENCE, 0, 1, world.execute(0).finalResponse, None)
  }

  function PlainProgress(world: World, qa: QaOutput): seq<ProgressLine> {
    [PlanLine(world.plan.phaseResult), InvestigateLine(world.investigation.phaseResult),
     ExecuteLine(world.execute(0).toolCalls), QaLine(qa.phaseResult)]
  }

  function PlainTail(world: World, qa: QaOutput): seq<Activity> {
    [RavennaSynthesize(PlainProgress(world, qa), world.execute(0).finalResponse, qa.report, "", "", "",
                       world.synthesize),
     PostJobLearn(PlainProgress(world, qa) + [SynthesizeLine(world.synthesize.phaseResult)])]
  }

  /** Only the HAS output names the report's address. */
  function ReportUrl(domain: PlainDomain, world: World): Option<string> {
    if domain.Has? then Some(world.synthesize.reportUrl) else None
  }

  function PlainRun(world: World, domain: PlainDomain, config: Config): Run {
    var reviews := PlainReviews(world, config);
    if world.investigation.halted then Run(PlainHead(world), Halted(world.investigation.risk))
    else if reviews.last.None? then Run(PlainHead(world) + PlainExecution(world, config) + reviews.trace, Raised)
    else
      var qa := reviews.last.value;
      Run(PlainHead(world) + PlainExecution(world, config) + reviews.trace + PlainTail(world, qa),
          Finished(StatusOf(qa), world.synthesize.result, ReportUrl(domain, world), qa.report))
  }

  /** `CEEOperativoWorkflow.run` and `IdpOperativoWorkflow.run`. */
  method RunPlain(world: World, domain: PlainDomain, config: Config, history: History) returns (r: RunResult)
    requires history.events == []
    modifies history
    ensures Run(history.events, r) == PlainRun(world, domain, config)
  {
    history.Execute(SantosPlan(world.plan));
    var progress := [PlanLine(world.plan.phaseResult)];
    history.Execute(MedinaInvestigate(world.investigation));
    progress := progress + [InvestigateLine(world.investigation.phaseResult)];
    if world.investigation.halted {
      return Halted(world.investigation.risk);
    }
    var execution := world.execute(0);
    history.Execute(LamponneExecute(FollowPlan(world.plan.planJson), config.maxExecutionTurns, execution));
    progress := progress + [ExecuteLine(execution.toolCalls)];
    assert history.events == PlainHead(world) + PlainExecution(world, config);
    var qa := PlainQaWithRetry(world, config, history, world.investigation.snapshot, execution.finalResponse);
    if qa.None? { return Raised; }
    var review := qa.value;
    progress := progress + [QaLine(review.phaseResult)];
    assert progress == PlainProgress(world, review);
    ghost var before := history.events;
    history.Execute(RavennaSynthesize(progress, execution.finalResponse, review.report, "", "", "", world.synthesize));
    progress := progress + [SynthesizeLine(world.synthesize.phaseResult)];
    history.Execute(PostJobLearn(progress));
    assert history.events == before + PlainTail(world, review);
    r := Finished(StatusOf(review), world.synthesize.result, ReportUrl(domain, world), review.report);
  }
}
