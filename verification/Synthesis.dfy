/** Which output a run synthesises: its first, whatever its reviews have had corrected since. */
module Synthesis {
  import opened Options
  import opened QaReport
  import opened Workflows
  import opened WorkflowProofs

  /** The output under the last review of a trace. */
  function LastReviewed(t: seq<Activity>): Option<string> {
    if t == [] then None
    else if t[|t| - 1].SantosReview? then Some(t[|t| - 1].raw)
    else LastReviewed(t[..|t| - 1])
  }

  /** The output that the last synthesis of a trace gets. */
  function Synthesised(t: seq<Activity>): Option<string> {
    if t == [] then None
    else if t[|t| - 1].RavennaSynthesize? then Some(t[|t| - 1].output)
    else Synthesised(t[..|t| - 1])
  }

  /** What is synthesised, if anything is, is what the last review has seen. */
  predicate SynthesisesLastReviewed(t: seq<Activity>) {
    Synthesised(t).Some? ==> Synthesised(t) == LastReviewed(t)
  }

  lemma {:induction false} LastReviewedBefore(t: seq<Activity>, tail: seq<Activity>)
    requires forall i :: 0 <= i < |tail| ==> !tail[i].SantosReview?
    ensures LastReviewed(t + tail) == LastReviewed(t)
  {
    if tail == [] {
      assert t + tail == t;
    } else {
      assert (t + tail)[..|t + tail| - 1] == t + tail[..|tail| - 1];
      LastReviewedBefore(t, tail[..|tail| - 1]);
    }
  }

  lemma {:induction false} SynthesisedBefore(t: seq<Activity>, tail: seq<Activity>)
    requires forall i :: 0 <= i < |tail| ==> !tail[i].RavennaSynthesize?
    ensures Synthesised(t + tail) == Synthesised(t)
  {
    if tail == [] {
      assert t + tail == t;
    } else {
      assert (t + tail)[..|t + tail| - 1] == t + tail[..|tail| - 1];
      SynthesisedBefore(t, tail[..|tail| - 1]);
    }
  }

  // ----- What the last review sees -----

  /** The last activity is a review, and it sees the output of the latest execution, `executed` of which came before. */
  ghost predicate ReviewsLatest(world: World, t: seq<Activity>, executed: nat) {
    && t != [] && t[|t| - 1].SantosReview? && executed >= 1
    && t[|t| - 1].raw == world.execute(executed - 1 + Executions(t)).finalResponse
  }

  lemma OneReview(world: World, event: Activity, executed: nat)
    requires executed >= 1 && event.SantosReview? && event.raw == world.execute(executed - 1).finalResponse
    ensures ReviewsLatest(world, [event], executed)
  {
    CountOne(event);
  }

  lemma OneAhead(world: World, a: Activity, rest: seq<Activity>, executed: nat)
    requires a.SantosReview? && ReviewsLatest(world, rest, executed)
    ensures ReviewsLatest(world, [a] + rest, executed)
  {
    var t := [a] + rest;
    assert t[1..] == rest && t[|t| - 1] == rest[|rest| - 1];
  }

  lemma TwoAhead(world: World, a: Activity, b: Activity, rest: seq<Activity>, executed: nat)
    requires a.SantosReview? && b.LamponneExecute? && executed >= 1 && ReviewsLatest(world, rest, executed + 1)
    ensures ReviewsLatest(world, [a, b] + rest, executed)
  {
    var t := [a, b] + rest;
    assert t[1..][0] == b && t[1..][1..] == rest && t[|t| - 1] == rest[|rest| - 1];
    assert Executions(t) == Executions(t[1..]) == 1 + Executions(rest);
  }

  /** The last review of a loop sees the output of the latest execution: the first, or the last correction. */
  lemma {:induction false} LoopReviewsLatest(world: World, config: Config, retryable: ReportJson -> bool,
                                             snapshot: string, evidence: Evidence, attempt: nat, executed: nat,
                                             raw: string, last: Option<QaOutput>)
    requires attempt < config.maxCorrectionAttempts && executed >= 1 && raw == world.execute(executed - 1).finalResponse
    ensures ReviewsLatest(world, QaLoop(world, config, retryable, snapshot, evidence, attempt, executed, raw,
                                        last).trace, executed)
    decreases config.maxCorrectionAttempts - attempt
  {
    var qa := world.review(attempt);
    var event := ReviewEvent(world, config, snapshot, evidence, attempt, raw);
    if qa.finalStatus == "COMPLETED" || attempt + 1 == config.maxCorrectionAttempts {
      LoopEnds(world, config, retryable, snapshot, evidence, attempt, executed, raw, last);
      OneReview(world, event, executed);
    } else if retryable(qa.report) {
      var correction := CorrectionEvent(world, config, executed, qa.report);
      var next := world.execute(executed).finalResponse;
      LoopReviewsLatest(world, config, retryable, snapshot, evidence, attempt + 1, executed + 1, next, Some(qa));
      TwoAhead(world, event, correction,
               QaLoop(world, config, retryable, snapshot, evidence, attempt + 1, executed + 1, next, Some(qa)).trace,
               executed);
    } else {
      LoopReviewsLatest(world, config, retryable, snapshot, evidence, attempt + 1, executed, raw, Some(qa));
      OneAhead(world, event, QaLoop(world, config, retryable, snapshot, evidence, attempt + 1, executed, raw,
                                    Some(qa)).trace, executed);
    }
  }

  /** Both outputs of a finished run, by the number of its corrections. */
  ghost predicate SynthesisesTheFirst(world: World, run: Run) {
    var n := Executions(run.trace) - 1;
    run.result.Finished? ==>
      && n >= 0
      && Synthesised(run.trace) == Some(world.execute(0).finalResponse)
      && LastReviewed(run.trace) == Some(world.execute(n).finalResponse)
  }

  lemma PartsReviewed(before: seq<Activity>, reviews: seq<Activity>, tail: seq<Activity>)
    requires reviews != [] && reviews[|reviews| - 1].SantosReview?
             && forall i :: 0 <= i < |tail| ==> !tail[i].SantosReview?
    ensures LastReviewed(before + reviews + tail) == Some(reviews[|reviews| - 1].raw)
  {
    var t := before + reviews;
    assert t[|t| - 1] == reviews[|reviews| - 1];
    LastReviewedBefore(t, tail);
  }

  lemma PartsSynthesised(before: seq<Activity>, synthesis: Activity, ending: seq<Activity>)
    requires synthesis.RavennaSynthesize? && forall i :: 0 <= i < |ending| ==> !ending[i].RavennaSynthesize?
    ensures Synthesised(before + ([synthesis] + ending)) == Some(synthesis.output)
  {
    var t := before + [synthesis];
    assert before + ([synthesis] + ending) == t + ending && t[|t| - 1] == synthesis;
    SynthesisedBefore(t, ending);
  }

  lemma PartsExecute(head: seq<Activity>, exec: seq<Activity>, reviews: seq<Activity>, tail: seq<Activity>)
    requires forall i :: 0 <= i < |head| ==> !head[i].SantosReview? && !head[i].LamponneExecute?
    requires exec != [] && exec[0].LamponneExecute? && forall i :: 1 <= i < |exec| ==> exec[i].WebVerify?
    requires forall i :: 0 <= i < |tail| ==> !tail[i].SantosReview? && !tail[i].LamponneExecute?
    ensures Executions(head + exec + reviews + tail) == 1 + Executions(reviews)
  {
    NoneIn(head);
    NoneIn(exec[1..]);
    NoneIn(tail);
    ReviewsAppend(head, exec);
    ReviewsAppend(head + exec, reviews);
    ReviewsAppend(head + exec + reviews, tail);
  }

  /** Head without reviews and with one execution, reviews, synthesis, and an ending without any of these. */
  lemma PartsSynthesise(world: World, head: seq<Activity>, exec: seq<Activity>, reviews: seq<Activity>,
                        tail: seq<Activity>, r: RunResult)
    requires forall i :: 0 <= i < |head| ==> !head[i].SantosReview? && !head[i].LamponneExecute?
    requires exec != [] && exec[0].LamponneExecute? && forall i :: 1 <= i < |exec| ==> exec[i].WebVerify?
    requires ReviewsLatest(world, reviews, 1)
    requires tail != [] && tail[0].RavennaSynthesize? && tail[0].output == world.execute(0).finalResponse
    requires forall i :: 1 <= i < |tail| ==> tail[i].DeliverCallback? || tail[i].PostJobLearn?
    ensures SynthesisesTheFirst(world, Run(head + exec + reviews + tail, r))
  {
    assert tail == [tail[0]] + tail[1..];
    PartsReviewed(head + exec, reviews, tail);
    PartsSynthesised(head + exec + reviews, tail[0], tail[1..]);
    PartsExecute(head, exec, reviews, tail);
  }

  // ----- Every run -----

  /** A finished DCE run synthesises the first output, and its last review has seen the last correction's. */
  lemma DceSynthesises(world: World, input: Input, default: Config)
    ensures SynthesisesTheFirst(world, DceRun(world, input, default))
  {
    var config := ConfigForInput(input, default);
    var reviews := DceReviews(world, config);
    if !world.investigation.halted && config.maxCorrectionAttempts >= 1 {
      LoopReviewsLatest(world, config, HasRetryableBlocking, world.investigation.snapshot, DceEvidence(world), 0, 1,
                        world.execute(0).finalResponse, None);
      if reviews.last.Some? {
        PartsSynthesise(world, DceHead(world), DceExecution(world, config), reviews.trace,
                        DceTail(world, input, reviews.last.value), DceRun(world, input, default).result);
      }
    }
  }

  lemma PlainSynthesises(world: World, domain: PlainDomain, config: Config)
    ensures SynthesisesTheFirst(world, PlainRun(world, domain, config))
  {
    var reviews := PlainReviews(world, config);
    if !world.investigation.halted && config.maxCorrectionAttempts >= 1 {
      LoopReviewsLatest(world, config, Always, world.investigation.snapshot, NO_EVIDENCE, 0, 1,
                        world.execute(0).finalResponse, None);
      if reviews.last.Some? {
        PartsSynthesise(world, PlainHead(world), PlainExecution(world, config), reviews.trace,
                        PlainTail(world, reviews.last.value), PlainRun(world, domain, config).result);
      }
    }
  }

  /** A run that is not finished has no synthesis. */
  lemma DceUnfinished(world: World, input: Input, default: Config)
    requires !DceRun(world, input, default).result.Finished?
    ensures Synthesised(DceRun(world, input, default).trace) == None
  {
    var config := ConfigForInput(input, default);
    var t := DceRun(world, input, default).trace;
    if !world.investigation.halted {
      if config.maxCorrectionAttempts >= 1 {
        LoopIsReviewPhase(world, config, HasRetryableBlocking, world.investigation.snapshot, DceEvidence(world), 0, 1,
                          world.execute(0).finalResponse, None);
      }
      assert DceReviews(world, config).trace == [];
    }
    NoSynthesisIn(t);
  }

  lemma PlainUnfinished(world: World, domain: PlainDomain, config: Config)
    requires !PlainRun(world, domain, config).result.Finished?
    ensures Synthesised(PlainRun(world, domain, config).trace) == None
  {
    var t := PlainRun(world, domain, config).trace;
    if !world.investigation.halted {
      if config.maxCorrectionAttempts >= 1 {
        LoopIsReviewPhase(world, config, Always, world.investigation.snapshot, NO_EVIDENCE, 0, 1,
                          world.execute(0).finalResponse, None);
      }
      assert PlainReviews(world, config).trace == [];
    }
    NoSynthesisIn(t);
  }

  lemma NoSynthesisIn(t: seq<Activity>)
    requires forall i :: 0 <= i < |t| ==> !t[i].RavennaSynthesize?
    ensures Synthesised(t) == None
  {
    SynthesisedBefore([], t);
    assert [] + t == t;
  }

  /** The condition of one run: nothing was corrected, or the last correction gave the first output again. */
  ghost predicate SameOutput(world: World, run: Run) {
    var n := Executions(run.trace) - 1;
    run.result.Finished? ==> n <= 0 || world.execute(n).finalResponse == world.execute(0).finalResponse
  }

  lemma SameOutputDecides(world: World, run: Run)
    requires SynthesisesTheFirst(world, run) && (run.result.Finished? || Synthesised(run.trace) == None)
    ensures SynthesisesLastReviewed(run.trace) <==> SameOutput(world, run)
  {
  }

  /** A DCE run synthesises what its last review has seen exactly if nothing was corrected or nothing came of it. */
  lemma DceSynthesisesLastReviewedIff(world: World, input: Input, default: Config)
    ensures var run := DceRun(world, input, default); SynthesisesLastReviewed(run.trace) <==> SameOutput(world, run)
  {
    var run := DceRun(world, input, default);
    DceSynthesises(world, input, default);
    if !run.result.Finished? { DceUnfinished(world, input, default); }
    SameOutputDecides(world, run);
  }

  lemma PlainSynthesisesLastReviewedIff(world: World, domain: PlainDomain, config: Config)
    ensures var run := PlainRun(world, domain, config); SynthesisesLastReviewed(run.trace) <==> SameOutput(world, run)
  {
    var run := PlainRun(world, domain, config);
    PlainSynthesises(world, domain, config);
    if !run.result.Finished? { PlainUnfinished(world, domain, config); }
    SameOutputDecides(world, run);
  }

  // ----- Every world -----

  /** A world whose first output is rejected and whose corrected one passes. */
  function CorrectedWorld(): World {
    World(PlanOutput("", ""), InvestigateOutput("", "", false, ""), VisionOutput(0, "", ""),
          (n: nat) => ExecuteOutput(if n == 0 then "first" else "corrected", 0),
          (n: nat) => QaOutput(Unparsable, if n == 0 then "NEEDS_REVIEW" else "COMPLETED", "", ""),
          (snapshot: string, vision: string) => CitationReport("", false), (text: string) => "",
          SynthesizeOutput("", "", ""))
  }

  lemma CorrectedLoop(config: Config, retryable: ReportJson -> bool, snapshot: string, evidence: Evidence)
    requires config.maxCorrectionAttempts >= 2 && retryable(Unparsable)
    ensures var world := CorrectedWorld();
            QaLoop(world, config, retryable, snapshot, evidence, 0, 1, "first", None)
            == LoopRun([ReviewEvent(world, config, snapshot, evidence, 0, "first"),
                        CorrectionEvent(world, config, 1, Unparsable),
                        ReviewEvent(world, config, snapshot, evidence, 1, "corrected")], Some(world.review(1)))
  {
    var world := CorrectedWorld();
    assert "NEEDS_REVIEW"[0] != "COMPLETED"[0];
    assert QaLoop(world, config, retryable, snapshot, evidence, 1, 2, "corrected", Some(world.review(0)))
        == LoopRun([ReviewEvent(world, config, snapshot, evidence, 1, "corrected")], Some(world.review(1)));
  }

  /** A run that completes on a corrected output and still synthesises the rejected one. */
  ghost predicate LosesTheCorrection(run: Run) {
    && run.result.Finished? && run.result.status == Completed
    && LastReviewed(run.trace) == Some("corrected") && Synthesised(run.trace) == Some("first")
  }

  lemma CorrectedOnce(run: Run)
    requires SynthesisesTheFirst(CorrectedWorld(), run) && run.result.Finished? && run.result.status == Completed
    requires Executions(run.trace) == 2
    ensures LosesTheCorrection(run) && !SynthesisesLastReviewed(run.trace)
  {
    assert "first" != "corrected" by { assert "first"[0] != "corrected"[0]; }
  }

  /** As soon as a second attempt is allowed, a passing correction can be lost. */
  lemma DceLosesTheCorrection(input: Input, default: Config)
    requires ConfigForInput(input, default).maxCorrectionAttempts >= 2
    ensures var run := DceRun(CorrectedWorld(), input, default);
            LosesTheCorrection(run) && !SynthesisesLastReviewed(run.trace)
  {
    var world, config := CorrectedWorld(), ConfigForInput(input, default);
    var reviews := DceReviews(world, config);
    CorrectedLoop(config, HasRetryableBlocking, world.investigation.snapshot, DceEvidence(world));
    TwoReviewsOneCorrection(reviews.trace);
    PartsExecute(DceHead(world), DceExecution(world, config), reviews.trace, DceTail(world, input, reviews.last.value));
    DceSynthesises(world, input, default);
    CorrectedOnce(DceRun(world, input, default));
  }

  lemma PlainLosesTheCorrection(domain: PlainDomain, config: Config)
    requires config.maxCorrectionAttempts >= 2
    ensures var run := PlainRun(CorrectedWorld(), domain, config);
            LosesTheCorrection(run) && !SynthesisesLastReviewed(run.trace)
  {
    var world := CorrectedWorld();
    var reviews := PlainReviews(world, config);
    CorrectedLoop(config, Always, world.investigation.snapshot, NO_EVIDENCE);
    TwoReviewsOneCorrection(reviews.trace);
    PartsExecute(PlainHead(world), PlainExecution(world, config), reviews.trace, PlainTail(world, reviews.last.value));
    PlainSynthesises(world, domain, config);
    CorrectedOnce(PlainRun(world, domain, config));
  }

  lemma TwoReviewsOneCorrection(t: seq<Activity>)
    requires |t| == 3 && t[0].SantosReview? && t[1].LamponneExecute? && t[2].SantosReview?
    ensures Executions(t) == 1
  {
    var u := t[1..];
    assert u[0] == t[1] && u[1..] == [t[2]];
    CountOne(t[2]);
  }

  /**
   Whatever the activities answer, DCE synthesises what its last review has seen if and only if it allows at
   most one attempt.
   */
  lemma DceSynthesisIsReviewedIff(input: Input, default: Config)
    ensures (forall world :: SynthesisesLastReviewed(DceRun(world, input, default).trace))
            <==> ConfigForInput(input, default).maxCorrectionAttempts <= 1
  {
    var config := ConfigForInput(input, default);
    if config.maxCorrectionAttempts <= 1 {
      forall world ensures SynthesisesLastReviewed(DceRun(world, input, default).trace) {
        DceUncorrected(world, input, default);
      }
    } else {
      DceLosesTheCorrection(input, default);
    }
  }

  lemma DceUncorrected(world: World, input: Input, default: Config)
    requires ConfigForInput(input, default).maxCorrectionAttempts <= 1
    ensures SynthesisesLastReviewed(DceRun(world, input, default).trace)
  {
    var config := ConfigForInput(input, default);
    var reviews := DceReviews(world, config);
    DceSynthesisesLastReviewedIff(world, input, default);
    if DceRun(world, input, default).result.Finished? {
      LoopEnds(world, config, HasRetryableBlocking, world.investigation.snapshot, DceEvidence(world), 0, 1,
               world.execute(0).finalResponse, None);
      NoneCorrected(reviews.trace);
      PartsExecute(DceHead(world), DceExecution(world, config), reviews.trace,
                   DceTail(world, input, reviews.last.value));
    }
  }

  lemma NoneCorrected(t: seq<Activity>)
    requires |t| == 1 && t[0].SantosReview?
    ensures Executions(t) == 0
  {
    assert t[1..] == [];
  }

  /** The same for HAS and IDP. */
  lemma PlainSynthesisIsReviewedIff(domain: PlainDomain, config: Config)
    ensures (forall world :: SynthesisesLastReviewed(PlainRun(world, domain, config).trace))
            <==> config.maxCorrectionAttempts <= 1
  {
    if config.maxCorrectionAttempts <= 1 {
      forall world ensures SynthesisesLastReviewed(PlainRun(world, domain, config).trace) {
        PlainUncorrected(world, domain, config);
      }
    } else {
      PlainLosesTheCorrection(domain, config);
    }
  }

  lemma PlainUncorrected(world: World, domain: PlainDomain, config: Config)
    requires config.maxCorrectionAttempts <= 1
    ensures SynthesisesLastReviewed(PlainRun(world, domain, config).trace)
  {
    var reviews := PlainReviews(world, config);
    PlainSynthesisesLastReviewedIff(world, domain, config);
    if PlainRun(world, domain, config).result.Finished? {
      LoopEnds(world, config, Always, world.investigation.snapshot, NO_EVIDENCE, 0, 1, world.execute(0).finalResponse,
               None);
      NoneCorrected(reviews.trace);
      PartsExecute(PlainHead(world), PlainExecution(world, config), reviews.trace,
                   PlainTail(world, reviews.last.value));
    }
  }
}
