/** What every run of the workflows has in common: its grammar, where its data flows, and how it ends. */
module WorkflowProofs {
  import opened Options
  import opened QaReport
  import opened Workflows

  // ----- The review phase -----

  predicate Passed(a: Activity) {
    a.SantosReview? && a.qa.finalStatus == "COMPLETED"
  }

  /**
   A review phase: reviews, between two of which stands a correction exactly if the rejected report is
   retryable. A correction carries the report before it, and only the last review may pass.
   */
  predicate ReviewPhase(t: seq<Activity>, retryable: ReportJson -> bool) {
    && t != [] && t[0].SantosReview?
    && (|t| == 1
        || (!Passed(t[0])
            && if retryable(t[0].qa.report)
               then |t| >= 3 && t[1].LamponneExecute? && t[1].task == ApplyCorrections(t[0].qa.report)
                 && ReviewPhase(t[2..], retryable)
               else ReviewPhase(t[1..], retryable)))
  }

  function Reviews(t: seq<Activity>): nat {
    if t == [] then 0 else (if t[0].SantosReview? then 1 else 0) + Reviews(t[1..])
  }

  function Executions(t: seq<Activity>): nat {
    if t == [] then 0 else (if t[0].LamponneExecute? then 1 else 0) + Executions(t[1..])
  }

  /** Every review sees the output of the latest execution before it, `raw` if there is none. */
  predicate Fed(t: seq<Activity>, raw: string) {
    t == []
    || ((t[0].SantosReview? ==> t[0].raw == raw)
        && Fed(t[1..], if t[0].LamponneExecute? then t[0].execution.finalResponse else raw))
  }

  /**
   What the review loop promises of its run: a fed review phase that ends with the returned review, and
   stops before the limit only if that review passes.
   */
  predicate Phase(run: LoopRun, retryable: ReportJson -> bool, raw: string, limit: int) {
    && ReviewPhase(run.trace, retryable)
    && Fed(run.trace, raw)
    && 1 <= Reviews(run.trace) <= limit
    && run.trace[|run.trace| - 1].SantosReview?
    && run.last == Some(run.trace[|run.trace| - 1].qa)
    && (Passed(run.trace[|run.trace| - 1]) || Reviews(run.trace) == limit)
  }

  lemma PhaseOfOne(event: Activity, retryable: ReportJson -> bool, raw: string, limit: int)
    requires event.SantosReview? && event.raw == raw && limit >= 1 && (Passed(event) || limit == 1)
    ensures Phase(LoopRun([event], Some(event.qa)), retryable, raw, limit)
  {
    assert [event][1..] == [];
  }

  lemma PhaseUncorrected(event: Activity, rest: LoopRun, retryable: ReportJson -> bool, raw: string, limit: int)
    requires event.SantosReview? && event.raw == raw && !Passed(event) && !retryable(event.qa.report)
    requires Phase(rest, retryable, raw, limit)
    ensures Phase(LoopRun([event] + rest.trace, rest.last), retryable, raw, limit + 1)
  {
    var t := [event] + rest.trace;
    assert t[0] == event && t[1..] == rest.trace && t[|t| - 1] == rest.trace[|rest.trace| - 1];
  }

  lemma PhaseCorrected(event: Activity, correction: Activity, rest: LoopRun, retryable: ReportJson -> bool,
                       raw: string, limit: int)
    requires event.SantosReview? && event.raw == raw && !Passed(event) && retryable(event.qa.report)
    requires correction.LamponneExecute? && correction.task == ApplyCorrections(event.qa.report)
    requires Phase(rest, retryable, correction.execution.finalResponse, limit)
    ensures Phase(LoopRun([event, correction] + rest.trace, rest.last), retryable, raw, limit + 1)
  {
    var t := [event, correction] + rest.trace;
    assert t[0] == event && t[1] == correction && t[2..] == rest.trace && t[|t| - 1] == rest.trace[|rest.trace| - 1];
    assert t[1..][0] == correction && t[1..][1..] == rest.trace;
  }

  lemma {:induction false} LoopIsReviewPhase(world: World, config: Config, retryable: ReportJson -> bool,
                                             snapshot: string, evidence: Evidence, attempt: nat, executed: nat,
                                             raw: string, last: Option<QaOutput>)
    requires attempt < config.maxCorrectionAttempts
    ensures Phase(QaLoop(world, config, retryable, snapshot, evidence, attempt, executed, raw, last), retryable, raw,
                  config.maxCorrectionAttempts - attempt)
    decreases config.maxCorrectionAttempts - attempt
  {
    var limit := config.maxCorrectionAttempts - attempt;
    var qa := world.review(attempt);
    var event := ReviewEvent(world, config, snapshot, evidence, attempt, raw);
    if qa.finalStatus == "COMPLETED" || attempt + 1 == config.maxCorrectionAttempts {
      LoopEnds(world, config, retryable, snapshot, evidence, attempt, executed, raw, last);
      PhaseOfOne(event, retryable, raw, limit);
    } else {
      LoopGoesOn(world, config, retryable, snapshot, evidence, attempt, executed, raw, last);
      if retryable(qa.report) {
        var correction := CorrectionEvent(world, config, executed, qa.report);
        var next := world.execute(executed).finalResponse;
        var rest := QaLoop(world, config, retryable, snapshot, evidence, attempt + 1, executed + 1, next, Some(qa));
        LoopIsReviewPhase(world, config, retryable, snapshot, evidence, attempt + 1, executed + 1, next, Some(qa));
        PhaseCorrected(event, correction, rest, retryable, raw, limit - 1);
      } else {
        var rest := QaLoop(world, config, retryable, snapshot, evidence, attempt + 1, executed, raw, Some(qa));
        LoopIsReviewPhase(world, config, retryable, snapshot, evidence, attempt + 1, executed, raw, Some(qa));
        PhaseUncorrected(event, rest, retryable, raw, limit - 1);
      }
    }
  }

  /** One rejected review before the last attempt: the loop goes on, behind a correction if the report is retryable. */
  lemma LoopGoesOn(world: World, config: Config, retryable: ReportJson -> bool, snapshot: string, evidence: Evidence,
                   attempt: nat, executed: nat, raw: string, last: Option<QaOutput>)
    requires attempt + 1 < config.maxCorrectionAttempts && world.review(attempt).finalStatus != "COMPLETED"
    ensures var qa := world.review(attempt);
            var event := ReviewEvent(world, config, snapshot, evidence, attempt, raw);
            var corrected := retryable(qa.report);
            var rest := QaLoop(world, config, retryable, snapshot, evidence, attempt + 1,
                               if corrected then executed + 1 else executed,
                               if corrected then world.execute(executed).finalResponse else raw, Some(qa));
            QaLoop(world, config, retryable, snapshot, evidence, attempt, executed, raw, last)
            == if corrected
               then LoopRun([event, CorrectionEvent(world, config, executed, qa.report)] + rest.trace, rest.last)
               else LoopRun([event] + rest.trace, rest.last)
  {
  }

  lemma LoopEnds(world: World, config: Config, retryable: ReportJson -> bool, snapshot: string, evidence: Evidence,
                 attempt: nat, executed: nat, raw: string, last: Option<QaOutput>)
    requires attempt < config.maxCorrectionAttempts
    requires world.review(attempt).finalStatus == "COMPLETED" || attempt + 1 == config.maxCorrectionAttempts
    ensures QaLoop(world, config, retryable, snapshot, evidence, attempt, executed, raw, last)
            == LoopRun([ReviewEvent(world, config, snapshot, evidence, attempt, raw)], Some(world.review(attempt)))
  {
    var qa := world.review(attempt);
    if qa.finalStatus != "COMPLETED" {
      assert QaLoop(world, config, retryable, snapshot, evidence, attempt + 1, executed, raw, Some(qa))
             == LoopRun([], Some(qa));
    }
  }

  /** In a review phase only the last review may pass; corrections are fewer than reviews, by one if all are made. */
  lemma {:induction false} ReviewPhaseEnds(t: seq<Activity>, retryable: ReportJson -> bool)
    requires ReviewPhase(t, retryable)
    ensures t[|t| - 1].SantosReview?
    ensures forall i :: 0 <= i < |t| - 1 ==> !Passed(t[i])
    ensures Reviews(t) >= 1 && Executions(t) <= Reviews(t) - 1
    ensures (forall r :: retryable(r)) ==> Executions(t) == Reviews(t) - 1
  {
    if |t| > 1 {
      var k := if retryable(t[0].qa.report) then 2 else 1;
      ReviewPhaseEnds(t[k..], retryable);
      assert t[1..][1..] == t[2..];
      forall i | 0 <= i < |t| - 1 ensures !Passed(t[i]) {
        if i >= k { assert t[i] == t[k..][i - k]; }
      }
    }
  }

  /** The loop returns a passing review exactly if some review of it passed. */
  lemma LoopPassesIffSomeReviewDoes(world: World, config: Config, retryable: ReportJson -> bool, snapshot: string,
                                    evidence: Evidence, raw: string)
    requires config.maxCorrectionAttempts >= 1
    ensures var run := QaLoop(world, config, retryable, snapshot, evidence, 0, 1, raw, None);
            run.last.Some?
            && (run.last.value.finalStatus == "COMPLETED" <==> exists i :: 0 <= i < |run.trace| && Passed(run.trace[i]))
  {
    LoopIsReviewPhase(world, config, retryable, snapshot, evidence, 0, 1, raw, None);
    var run := QaLoop(world, config, retryable, snapshot, evidence, 0, 1, raw, None);
    ReviewPhaseEnds(run.trace, retryable);
    assert Passed(run.trace[|run.trace| - 1]) <==> run.last.value.finalStatus == "COMPLETED";
  }

  /** HAS and IDP correct after every rejection but the last: one execution fewer than reviews. */
  lemma PlainCorrectsEveryRejection(world: World, config: Config, snapshot: string, raw: string)
    requires config.maxCorrectionAttempts >= 1
    ensures var t := QaLoop(world, config, Always, snapshot, NO_EVIDENCE, 0, 1, raw, None).trace;
            Executions(t) == Reviews(t) - 1 && Reviews(t) <= config.maxCorrectionAttempts
  {
    LoopIsReviewPhase(world, config, Always, snapshot, NO_EVIDENCE, 0, 1, raw, None);
    ReviewPhaseEnds(QaLoop(world, config, Always, snapshot, NO_EVIDENCE, 0, 1, raw, None).trace, Always);
  }

  /** When every rejected report is retryable, the DCE loop does what the loop of HAS and IDP does. */
  lemma {:induction false} DceLoopMatchesPlain(world: World, config: Config, snapshot: string, evidence: Evidence,
                                               attempt: nat, executed: nat, raw: string, last: Option<QaOutput>)
    requires forall i ::
               attempt <= i < config.maxCorrectionAttempts - 1 && world.review(i).finalStatus != "COMPLETED" ==>
                 HasRetryableBlocking(world.review(i).report)
    ensures QaLoop(world, config, HasRetryableBlocking, snapshot, evidence, attempt, executed, raw, last)
            == QaLoop(world, config, Always, snapshot, evidence, attempt, executed, raw, last)
    decreases config.maxCorrectionAttempts - attempt
  {
    if attempt < config.maxCorrectionAttempts {
      var qa := world.review(attempt);
      DceLoopMatchesPlain(world, config, snapshot, evidence, attempt + 1, executed + 1,
                          world.execute(executed).finalResponse, Some(qa));
      DceLoopMatchesPlain(world, config, snapshot, evidence, attempt + 1, executed, raw, Some(qa));
    }
  }

  // ----- Whole runs -----

  /** After the reviews: synthesis, the callback if there is an address, learning if wanted; nothing else. */
  predicate Ending(u: seq<Activity>, callbackUrl: string, learns: bool) {
    var n := 1 + (if callbackUrl != "" then 1 else 0) + (if learns then 1 else 0);
    && |u| == n && u[0].RavennaSynthesize?
    && (callbackUrl != "" ==> u[1] == DeliverCallback(callbackUrl, u[0].synthesis.result))
    && (learns ==> u[n - 1].PostJobLearn?)
  }

  /**
   The middle of a run that is not halted: t[start] executes the plan, the reviews go from `first` to
   `end`, and the ending follows. Synthesis gets the last report but the first output.
   */
  ghost predicate Body(t: seq<Activity>, start: nat, first: nat, end: nat, plan: string, retryable: ReportJson -> bool,
                       maxReviews: int, callbackUrl: string, learns: bool, r: RunResult)
  {
    && start < first < end < |t|
    && t[start].LamponneExecute? && t[start].task == FollowPlan(plan)
    && ReviewPhase(t[first..end], retryable) && 1 <= Reviews(t[first..end]) <= maxReviews
    && t[end - 1].SantosReview? && (Passed(t[end - 1]) || Reviews(t[first..end]) == maxReviews)
    && Ending(t[end..], callbackUrl, learns)
    && t[end].RavennaSynthesize?
    && t[end].report == t[end - 1].qa.report && t[end].output == t[start].execution.finalResponse
    && r.Finished? && r.qaSummary == t[end - 1].qa.report && r.response == t[end].synthesis.result
    && (r.status == Completed <==> Passed(t[end - 1]))
  }

  /** The grammar of the DCE workflow. */
  ghost predicate DceGrammar(t: seq<Activity>, input: Input, config: Config, r: RunResult) {
    && |t| >= 3 && t[0].SantosPlan? && t[1].MedinaInvestigate? && t[2].GeminiVision?
    && if t[1].investigation.halted then |t| == 3 && r == Halted(t[1].investigation.risk)
       else if config.maxCorrectionAttempts <= 0 then r == Raised && Reviews(t) == 0
       else
         exists end :: 0 <= end < |t| && DceBody(t, end, input, config, r)
  }

  ghost predicate DceBody(t: seq<Activity>, end: nat, input: Input, config: Config, r: RunResult)
    requires |t| >= 3 && t[0].SantosPlan?
  {
    |t| > 4 && Body(t, 3, if t[4].WebVerify? then 5 else 4, end, t[0].plan.planJson, HasRetryableBlocking,
                    config.maxCorrectionAttempts, input.callbackUrl, !input.e2eFastMode, r)
  }

  /** The grammar of the HAS and IDP workflows. */
  ghost predicate PlainGrammar(t: seq<Activity>, config: Config, r: RunResult) {
    && |t| >= 2 && t[0].SantosPlan? && t[1].MedinaInvestigate?
    && if t[1].investigation.halted then |t| == 2 && r == Halted(t[1].investigation.risk)
       else if config.maxCorrectionAttempts <= 0 then r == Raised && Reviews(t) == 0
       else exists end :: 3 <= end < |t|
              && Body(t, 2, 3, end, t[0].plan.planJson, Always, config.maxCorrectionAttempts, "", true, r)
  }

  lemma {:induction false} ReviewsAppend(a: seq<Activity>, b: seq<Activity>)
    ensures Reviews(a + b) == Reviews(a) + Reviews(b)
    ensures Executions(a + b) == Executions(a) + Executions(b)
  {
    if a == [] {
      assert a + b == b;
    } else {
      assert (a + b)[1..] == a[1..] + b;
      ReviewsAppend(a[1..], b);
    }
  }

  lemma {:induction false} NoReviewsIn(t: seq<Activity>, raw: string)
    requires forall i :: 0 <= i < |t| ==> !t[i].SantosReview?
    ensures Reviews(t) == 0 && Fed(t, raw)
  {
    if t != [] {
      NoReviewsIn(t[1..], if t[0].LamponneExecute? then t[0].execution.finalResponse else raw);
    }
  }

  lemma FourParts(a: seq<Activity>, b: seq<Activity>, c: seq<Activity>, d: seq<Activity>)
    ensures var t := a + b + c + d;
            var first, end := |a| + |b|, |a| + |b| + |c|;
            && |t| == end + |d| && t[first..end] == c && t[end..] == d
            && (forall i :: 0 <= i < |a| ==> t[i] == a[i])
            && (forall i :: 0 <= i < |b| ==> t[|a| + i] == b[i])
  {
  }

  lemma SliceAt(t: seq<Activity>, first: nat, end: nat)
    requires first < end < |t|
    ensures t[end - 1] == t[first..end][end - first - 1] && t[end] == t[end..][0]
  {
  }

  /** Head, execution, reviews and ending make a body. */
  lemma Assembled(a: seq<Activity>, b: seq<Activity>, c: seq<Activity>, d: seq<Activity>, plan: string,
                  retryable: ReportJson -> bool, maxReviews: int, callbackUrl: string, learns: bool,
                  url: Option<string>, r: RunResult)
    requires b != [] && b[0].LamponneExecute? && b[0].task == FollowPlan(plan)
    requires ReviewPhase(c, retryable) && 1 <= Reviews(c) <= maxReviews && c[|c| - 1].SantosReview?
    requires Passed(c[|c| - 1]) || Reviews(c) == maxReviews
    requires Ending(d, callbackUrl, learns)
    requires d[0].report == c[|c| - 1].qa.report && d[0].output == b[0].execution.finalResponse
    requires r == Finished(StatusOf(c[|c| - 1].qa), d[0].synthesis.result, url, c[|c| - 1].qa.report)
    ensures Body(a + b + c + d, |a|, |a| + |b|, |a| + |b| + |c|, plan, retryable, maxReviews, callbackUrl, learns, r)
  {
    FourParts(a, b, c, d);
    SliceAt(a + b + c + d, |a| + |b|, |a| + |b| + |c|);
  }

  lemma DceFinishes(world: World, input: Input, config: Config, head: seq<Activity>, exec: seq<Activity>,
                    reviews: LoopRun, tail: seq<Activity>, r: RunResult)
    requires head == DceHead(world) && exec == DceExecution(world, config)
    requires Phase(reviews, HasRetryableBlocking, world.execute(0).finalResponse, config.maxCorrectionAttempts)
    requires tail == DceTail(world, input, reviews.last.value)
    requires r == Finished(StatusOf(reviews.last.value), world.synthesize.result, Some(world.synthesize.reportUrl),
                           reviews.last.value.report)
    ensures DceBody(head + exec + reviews.trace + tail, |head| + |exec| + |reviews.trace|, input, config, r)
  {
    var t := head + exec + reviews.trace + tail;
    Assembled(head, exec, reviews.trace, tail, world.plan.planJson, HasRetryableBlocking, config.maxCorrectionAttempts,
              input.callbackUrl, !input.e2eFastMode, Some(world.synthesize.reportUrl), r);
    assert t[0] == head[0] && t[4] == if |exec| == 2 then exec[1] else reviews.trace[0];
  }

  lemma DceRaises(world: World, config: Config, reviews: LoopRun)
    requires config.maxCorrectionAttempts <= 0 && reviews == DceReviews(world, config)
    ensures reviews.last == None && Reviews(DceHead(world) + DceExecution(world, config) + reviews.trace) == 0
  {
    assert reviews == LoopRun([], None);
    NoReviewsIn(DceHead(world) + DceExecution(world, config) + reviews.trace, "");
  }

  /** Every DCE run fits the grammar of its workflow. */
  lemma DceRunFits(world: World, input: Input, default: Config)
    ensures var run := DceRun(world, input, default);
            DceGrammar(run.trace, input, ConfigForInput(input, default), run.result)
  {
    var config := ConfigForInput(input, default);
    var run := DceRun(world, input, default);
    var head, exec, reviews := DceHead(world), DceExecution(world, config), DceReviews(world, config);
    if !world.investigation.halted {
      if config.maxCorrectionAttempts <= 0 {
        DceRaises(world, config, reviews);
      } else {
        LoopIsReviewPhase(world, config, HasRetryableBlocking, world.investigation.snapshot, DceEvidence(world), 0, 1,
                          world.execute(0).finalResponse, None);
        DceFinishes(world, input, config, head, exec, reviews, DceTail(world, input, reviews.last.value), run.result);
      }
    }
  }

  lemma PlainFinishes(world: World, domain: PlainDomain, config: Config, head: seq<Activity>, exec: seq<Activity>,
                      reviews: LoopRun, tail: seq<Activity>, r: RunResult)
    requires head == PlainHead(world) && exec == PlainExecution(world, config)
    requires Phase(reviews, Always, world.execute(0).finalResponse, config.maxCorrectionAttempts)
    requires tail == PlainTail(world, reviews.last.value)
    requires r == Finished(StatusOf(reviews.last.value), world.synthesize.result, ReportUrl(domain, world),
                           reviews.last.value.report)
    ensures var t := head + exec + reviews.trace + tail;
            var end := 3 + |reviews.trace|;
            t[0] == head[0] && t[1] == head[1] && end < |t|
            && Body(t, 2, 3, end, world.plan.planJson, Always, config.maxCorrectionAttempts, "", true, r)
  {
    var t := head + exec + reviews.trace + tail;
    Assembled(head, exec, reviews.trace, tail, world.plan.planJson, Always, config.maxCorrectionAttempts, "", true,
              ReportUrl(domain, world), r);
    assert t[0] == head[0] && t[1] == head[1];
  }

  lemma PlainRaises(world: World, config: Config, reviews: LoopRun)
    requires config.maxCorrectionAttempts <= 0 && reviews == PlainReviews(world, config)
    ensures reviews.last == None && Reviews(PlainHead(world) + PlainExecution(world, config) + reviews.trace) == 0
  {
    assert reviews == LoopRun([], None);
    NoReviewsIn(PlainHead(world) + PlainExecution(world, config) + reviews.trace, "");
  }

  /** Every HAS or IDP run fits the grammar of its workflow. */
  lemma PlainRunFits(world: World, domain: PlainDomain, config: Config)
    ensures var run := PlainRun(world, domain, config); PlainGrammar(run.trace, config, run.result)
  {
    var run := PlainRun(world, domain, config);
    var head, exec, reviews := PlainHead(world), PlainExecution(world, config), PlainReviews(world, config);
    if !world.investigation.halted {
      if config.maxCorrectionAttempts <= 0 {
        PlainRaises(world, config, reviews);
      } else {
        LoopIsReviewPhase(world, config, Always, world.investigation.snapshot, NO_EVIDENCE, 0, 1,
                          world.execute(0).finalResponse, None);
        PlainFinishes(world, domain, config, head, exec, reviews, PlainTail(world, reviews.last.value), run.result);
      }
    }
  }

  function LastOutput(t: seq<Activity>, raw: string): string {
    if t == [] then raw
    else LastOutput(t[1..], if t[0].LamponneExecute? then t[0].execution.finalResponse else raw)
  }

  lemma {:induction false} FedAppend(a: seq<Activity>, b: seq<Activity>, raw: string)
    requires Fed(a, raw) && Fed(b, LastOutput(a, raw))
    ensures Fed(a + b, raw)
  {
    if a == [] {
      assert a + b == b;
    } else {
      assert (a + b)[1..] == a[1..] + b;
      FedAppend(a[1..], b, if a[0].LamponneExecute? then a[0].execution.finalResponse else raw);
    }
  }

  /** Each review is given the latest output before it. */
  lemma {:induction false} FedMeans(t: seq<Activity>, raw: string, i: nat)
    requires Fed(t, raw) && i < |t| && t[i].SantosReview?
    ensures t[i].raw == LastOutput(t[..i], raw)
  {
    if i > 0 {
      FedMeans(t[1..], if t[0].LamponneExecute? then t[0].execution.finalResponse else raw, i - 1);
      assert t[..i][1..] == t[1..][..i - 1];
    }
  }

  lemma {:induction false} LoopIsFed(world: World, config: Config, retryable: ReportJson -> bool, snapshot: string,
                                     evidence: Evidence, raw: string, executed: nat)
    ensures Fed(QaLoop(world, config, retryable, snapshot, evidence, 0, executed, raw, None).trace, raw)
  {
    if config.maxCorrectionAttempts > 0 {
      LoopIsReviewPhase(world, config, retryable, snapshot, evidence, 0, executed, raw, None);
    }
  }

  /** In every run of every workflow each review is given the latest output before it. */
  lemma DceRunIsFed(world: World, input: Input, default: Config)
    ensures Fed(DceRun(world, input, default).trace, "")
  {
    var config := ConfigForInput(input, default);
    var reviews := DceReviews(world, config);
    var head, exec := DceHead(world), DceExecution(world, config);
    var tail := if reviews.last.Some? then DceTail(world, input, reviews.last.value) else [];
    NoReviewsIn(head, "");
    LoopIsFed(world, config, HasRetryableBlocking, world.investigation.snapshot, DceEvidence(world),
              world.execute(0).finalResponse, 1);
    PartsAreFed(head, exec, reviews.trace, tail, world.execute(0).finalResponse);
    assert head + exec + reviews.trace + [] == head + exec + reviews.trace;
  }

  lemma PlainRunIsFed(world: World, domain: PlainDomain, config: Config)
    ensures Fed(PlainRun(world, domain, config).trace, "")
  {
    var reviews := PlainReviews(world, config);
    var head, exec := PlainHead(world), PlainExecution(world, config);
    var tail := if reviews.last.Some? then PlainTail(world, reviews.last.value) else [];
    NoReviewsIn(head, "");
    LoopIsFed(world, config, Always, world.investigation.snapshot, NO_EVIDENCE, world.execute(0).finalResponse, 1);
    PartsAreFed(head, exec, reviews.trace, tail, world.execute(0).finalResponse);
    assert head + exec + reviews.trace + [] == head + exec + reviews.trace;
  }

  lemma PartsAreFed(head: seq<Activity>, exec: seq<Activity>, reviews: seq<Activity>, tail: seq<Activity>,
                    first: string)
    requires Opens(head, exec, first)
    requires Fed(reviews, first)
    requires forall i :: 0 <= i < |tail| ==> !tail[i].SantosReview?
    ensures Fed(head + exec + reviews + tail, "")
  {
    OpeningIsFed(head, exec, first);
    FedThen(head + exec, reviews, tail, first);
  }

  /** What precedes the reviews: activities without reviews, the last execution of which answers `first`. */
  ghost predicate Opens(head: seq<Activity>, exec: seq<Activity>, first: string) {
    && (forall i :: 0 <= i < |head| ==> !head[i].SantosReview? && !head[i].LamponneExecute?)
    && exec != [] && exec[0].LamponneExecute? && exec[0].execution.finalResponse == first
    && (forall i :: 1 <= i < |exec| ==> exec[i].WebVerify?)
  }

  lemma OpeningIsFed(head: seq<Activity>, exec: seq<Activity>, first: string)
    requires Opens(head, exec, first)
    ensures Fed(head + exec, "") && LastOutput(head + exec, "") == first
  {
    NoReviewsIn(head + exec, "");
    LastOfExecution(head, exec, first, "");
  }

  lemma FedThen(before: seq<Activity>, reviews: seq<Activity>, tail: seq<Activity>, first: string)
    requires Fed(before, "") && LastOutput(before, "") == first && Fed(reviews, first)
    requires forall i :: 0 <= i < |tail| ==> !tail[i].SantosReview?
    ensures Fed(before + reviews + tail, "")
  {
    FedAppend(before, reviews, "");
    NoReviewsIn(tail, LastOutput(before + reviews, ""));
    FedAppend(before + reviews, tail, "");
  }

  lemma {:induction false} LastOfExecution(head: seq<Activity>, exec: seq<Activity>, first: string, raw: string)
    requires Opens(head, exec, first)
    ensures LastOutput(head + exec, raw) == first
  {
    if head == [] {
      assert head + exec == exec;
      NoExecutionKeeps(exec[1..], first);
    } else {
      assert (head + exec)[1..] == head[1..] + exec;
      LastOfExecution(head[1..], exec, first, raw);
    }
  }

  lemma {:induction false} NoExecutionKeeps(t: seq<Activity>, raw: string)
    requires forall i :: 0 <= i < |t| ==> !t[i].LamponneExecute?
    ensures LastOutput(t, raw) == raw
  {
    if t != [] { NoExecutionKeeps(t[1..], raw); }
  }

  /** A fast DCE run reviews once, corrects nothing and learns nothing. */
  lemma FastRunReviewsOnce(world: World, input: Input, default: Config)
    requires input.e2eFastMode && !world.investigation.halted
    ensures var t := DceRun(world, input, default).trace;
            Reviews(t) == 1 && Executions(t) == 1 && forall i :: 0 <= i < |t| ==> !t[i].PostJobLearn?
  {
    var run := DceRun(world, input, default);
    var head, exec, reviews := DceHead(world), DceExecution(world, E2E_FAST_CONFIG), DceReviews(world, E2E_FAST_CONFIG);
    LoopEnds(world, E2E_FAST_CONFIG, HasRetryableBlocking, world.investigation.snapshot, DceEvidence(world), 0, 1,
             world.execute(0).finalResponse, None);
    var tail := DceTail(world, input, reviews.last.value);
    NoneIn(head);
    CountOne(exec[0]);
    NoneIn(exec[1..]);
    assert exec == [exec[0]] + exec[1..];
    ReviewsAppend([exec[0]], exec[1..]);
    CountOne(reviews.trace[0]);
    NoneIn(tail);
    ReviewsAppend(head, exec);
    ReviewsAppend(head + exec, reviews.trace);
    ReviewsAppend(head + exec + reviews.trace, tail);
  }

  lemma {:induction false} NoneIn(t: seq<Activity>)
    requires forall i :: 0 <= i < |t| ==> !t[i].SantosReview? && !t[i].LamponneExecute?
    ensures Reviews(t) == 0 && Executions(t) == 0
  {
    if t != [] { NoneIn(t[1..]); }
  }

  lemma CountOne(a: Activity)
    ensures Reviews([a]) == (if a.SantosReview? then 1 else 0) && Executions([a]) == if a.LamponneExecute? then 1 else 0
  {
    assert [a][1..] == [];
  }

  // ----- With the reviews that `santos_qa_review` writes -----

  ghost predicate Written(qa: QaOutput) {
    exists report: QAReport :: qa.report == ToJson(report) && qa.finalStatus == FinalStatus(report)
  }

  lemma WrittenStatus(qa: QaOutput)
    requires Written(qa)
    ensures qa.finalStatus == "COMPLETED" <==> CountWhere(IsBlocking, ChecksOf(qa.report)) == 0
    ensures HasRetryableBlocking(qa.report) ==> qa.finalStatus != "COMPLETED"
  {
    var report :| qa.report == ToJson(report) && qa.finalStatus == FinalStatus(report);
    ReadingsAgree(report);
    RetryableMeans(report);
  }

  /** A finished DCE run is COMPLETED exactly if the report that it hands out has no blocking check. */
  lemma CompletedIffNothingBlocks(world: World, input: Input, default: Config)
    requires forall n :: Written(world.review(n))
    ensures var r := DceRun(world, input, default).result;
            r.Finished? ==> (r.status == Completed <==> CountWhere(IsBlocking, ChecksOf(r.qaSummary)) == 0)
  {
    var config := ConfigForInput(input, default);
    LastIsAReview(world, config, HasRetryableBlocking, world.investigation.snapshot, DceEvidence(world), 0, 1,
                  world.execute(0).finalResponse, None);
    var last := DceReviews(world, config).last;
    if last.Some? { WrittenStatus(last.value); }
  }

  lemma {:induction false} LastIsAReview(world: World, config: Config, retryable: ReportJson -> bool, snapshot: string,
                                         evidence: Evidence, attempt: nat, executed: nat, raw: string,
                                         last: Option<QaOutput>)
    requires forall n :: Written(world.review(n))
    requires last.Some? ==> Written(last.value)
    ensures var r := QaLoop(world, config, retryable, snapshot, evidence, attempt, executed, raw, last).last;
            r.Some? ==> Written(r.value)
    decreases config.maxCorrectionAttempts - attempt
  {
    if attempt < config.maxCorrectionAttempts {
      var qa := world.review(attempt);
      LastIsAReview(world, config, retryable, snapshot, evidence, attempt + 1, executed + 1,
                    world.execute(executed).finalResponse, Some(qa));
      LastIsAReview(world, config, retryable, snapshot, evidence, attempt + 1, executed, raw, Some(qa));
    }
  }
}
