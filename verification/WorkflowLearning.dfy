/** What the learning step makes of the progress lines that a workflow run hands to it. */
module WorkflowLearning {
  import opened Options
  import opened Text
  import opened Workflows
  import P = Progress
  import PostJob
  import T = Teaching
  import QaReport

  /** A progress line as a workflow writes it; only DCE counts a second part of phase 2. */
  function LineText(line: ProgressLine, dce: bool): string {
    match line
    case PlanLine(result) => "Phase 1 (Plan): " + result
    case InvestigateLine(result) => (if dce then "Phase 2a (Investigate): " else "Phase 2 (Investigate): ") + result
    case VisionLine(pages, source) => "Phase 2b (Vision): extracted " + Str(pages) + " pages via " + source
    case ExecuteLine(toolCalls) => "Phase 3 (Execute): completed with " + Str(toolCalls) + " tool calls"
    case QaLine(result) => "Phase 4 (QA): " + result
    case SynthesizeLine(result) => "Phase 5 (Synthesize): " + result
  }

  /** `str(n)`. */
  function Str(n: int): string {
    if n < 0 then "-" + Decimal(-n) else Decimal(n)
  }

  function LineTexts(lines: seq<ProgressLine>, dce: bool): (r: seq<string>)
    ensures |r| == |lines|
  {
    seq(|lines|, i requires 0 <= i < |lines| => LineText(lines[i], dce))
  }

  /** What post-job learning extracts for a session. */
  function Learned(w: char -> bool, session: seq<ProgressLine>, dce: bool): seq<P.Section> {
    P.Extracted(w, Join("\n", LineTexts(session, dce)))
  }

  /** A session teaches something if and only if a lesson stands somewhere in its text. */
  lemma LearnsIffTeaches(w: char -> bool, session: seq<ProgressLine>, dce: bool)
    requires P.WordClass(w)
    ensures Learned(w, session, dce) != [] <==> T.Teaches(w, Join("\n", LineTexts(session, dce)))
  {
    T.ExtractsIffTeaches(w, Join("\n", LineTexts(session, dce)));
  }

  lemma {:induction false} LineInText(lines: seq<string>, i: nat) returns (front: string, tail: string)
    requires i < |lines|
    ensures Join("\n", lines) == front + lines[i] + tail
  {
    if i == 0 {
      front, tail := "", Join("\n", lines)[|lines[0]|..];
    } else {
      front, tail := LineInText(lines[1..], i - 1);
      front := lines[0] + "\n" + front;
    }
  }

  /** The result of a phase holds a line break, the header of a section, a blank line and more text. */
  predicate HoldsSection(w: char -> bool, result: string, before: string, phase: string, agent: string, rest: string) {
    && result == before + "\n" + ("## " + phase + " — " + agent + "\n\n") + rest
    && P.IsWord(w, phase) && P.IsWord(w, agent) && rest != "" && !IsSpace(rest[0])
  }

  lemma LineRegrouped(front: string, title: string, before: string, head: string, rest: string, tail: string)
    ensures front + (title + (before + head + rest)) + tail == front + (title + before) + head + (rest + tail)
  {
  }

  /** A session with such a result teaches something; the name of the investigated file may be part of it. */
  lemma SectionInResultTeaches(w: char -> bool, session: seq<ProgressLine>, dce: bool, i: nat,
                               before: string, phase: string, agent: string, rest: string)
    requires P.WordClass(w) && i < |session| && session[i].InvestigateLine?
    requires HoldsSection(w, session[i].result, before, phase, agent, rest)
    ensures Learned(w, session, dce) != []
  {
    var lines := LineTexts(session, dce);
    var title := if dce then "Phase 2a (Investigate): " else "Phase 2 (Investigate): ";
    var front, tail := LineInText(lines, i);
    var head := "## " + phase + " — " + agent + "\n\n";
    var text := front + (title + (before + "\n"));
    LineRegrouped(front, title, before + "\n", head, rest, tail);
    T.SectionTeaches(w, text, phase, agent, rest + tail);
    LearnsIffTeaches(w, session, dce);
  }

  predicate OneLine(s: string) {
    '\n' !in s
  }

  /** No text of a progress line holds a line break. */
  predicate PlainLine(line: ProgressLine) {
    match line
    case PlanLine(result) => OneLine(result)
    case InvestigateLine(result) => OneLine(result)
    case VisionLine(_, source) => OneLine(source)
    case ExecuteLine(_) => true
    case QaLine(result) => OneLine(result)
    case SynthesizeLine(result) => OneLine(result)
  }

  lemma {:induction false} DecimalIsOneLine(n: nat)
    ensures OneLine(Decimal(n))
  {
    if n >= 10 { DecimalIsOneLine(n / 10); }
  }

  lemma StrIsOneLine(n: int)
    ensures OneLine(Str(n))
  {
    DecimalIsOneLine(if n < 0 then -n else n);
  }

  lemma Prefixed(head: string, rest: string)
    requires PostJob.ProgressLine(head) && OneLine(rest)
    ensures PostJob.ProgressLine(head + rest)
  {
  }

  lemma WithNumber(head: string, n: int, middle: string, rest: string)
    requires PostJob.ProgressLine(head) && OneLine(middle) && OneLine(rest)
    ensures PostJob.ProgressLine(head + Str(n) + middle + rest)
  {
    StrIsOneLine(n);
    Prefixed(head, Str(n));
    Prefixed(head + Str(n), middle);
    Prefixed(head + Str(n) + middle, rest);
  }

  lemma FirstLabels()
    ensures PostJob.ProgressLine("Phase 1 (Plan): ")
    ensures PostJob.ProgressLine("Phase 2a (Investigate): ") && PostJob.ProgressLine("Phase 2 (Investigate): ")
  {
  }

  lemma CountLabels()
    ensures PostJob.ProgressLine("Phase 2b (Vision): extracted ") && OneLine(" pages via ")
    ensures PostJob.ProgressLine("Phase 3 (Execute): completed with ") && OneLine(" tool calls")
  {
  }

  lemma LastLabels()
    ensures PostJob.ProgressLine("Phase 4 (QA): ") && PostJob.ProgressLine("Phase 5 (Synthesize): ")
  {
  }

  lemma LineTextIsProgressLine(line: ProgressLine, dce: bool)
    requires PlainLine(line)
    ensures PostJob.ProgressLine(LineText(line, dce))
  {
    FirstLabels();
    CountLabels();
    LastLabels();
    match line
    case PlanLine(result) => Prefixed("Phase 1 (Plan): ", result);
    case InvestigateLine(result) =>
      Prefixed(if dce then "Phase 2a (Investigate): " else "Phase 2 (Investigate): ", result);
    case VisionLine(pages, source) => WithNumber("Phase 2b (Vision): extracted ", pages, " pages via ", source);
    case ExecuteLine(toolCalls) =>
      WithNumber("Phase 3 (Execute): completed with ", toolCalls, " tool calls", "");
      assert LineText(line, dce) + "" == LineText(line, dce);
    case QaLine(result) => Prefixed("Phase 4 (QA): ", result);
    case SynthesizeLine(result) => Prefixed("Phase 5 (Synthesize): ", result);
  }

  /** Plain progress lines teach nothing. */
  lemma PlainSessionTeachesNothing(w: char -> bool, session: seq<ProgressLine>, dce: bool)
    requires forall i :: 0 <= i < |session| ==> PlainLine(session[i])
    ensures Learned(w, session, dce) == []
  {
    forall i | 0 <= i < |session| ensures PostJob.ProgressLine(LineTexts(session, dce)[i]) {
      LineTextIsProgressLine(session[i], dce);
    }
    PostJob.WorkflowProgressTeachesNothing(w, LineTexts(session, dce));
  }

  /** No result of a phase holds a line break; the texts of the activities do if the names that they quote do. */
  ghost predicate OneLineResults(world: World) {
    && OneLine(world.plan.phaseResult) && OneLine(world.investigation.phaseResult)
    && OneLine(world.vision.source) && OneLine(world.synthesize.phaseResult)
    && forall n :: OneLine(world.review(n).phaseResult)
  }

  lemma {:induction false} ReviewsDoNotLearn(world: World, config: Config, retryable: QaReport.ReportJson -> bool,
                                             snapshot: string, evidence: Evidence, attempt: nat, executed: nat,
                                             raw: string, last: Option<QaOutput>)
    requires last.Some? ==> exists n :: last.value == world.review(n)
    ensures var run := QaLoop(world, config, retryable, snapshot, evidence, attempt, executed, raw, last);
            && (forall i :: 0 <= i < |run.trace| ==> !run.trace[i].PostJobLearn?)
            && (run.last.Some? ==> exists n :: run.last.value == world.review(n))
    decreases config.maxCorrectionAttempts - attempt
  {
    if attempt < config.maxCorrectionAttempts {
      var qa := world.review(attempt);
      ReviewsDoNotLearn(world, config, retryable, snapshot, evidence, attempt + 1, executed + 1,
                        world.execute(executed).finalResponse, Some(qa));
      ReviewsDoNotLearn(world, config, retryable, snapshot, evidence, attempt + 1, executed, raw, Some(qa));
    }
  }

  /** What a DCE run learns from: its progress so far and the line of the synthesis. */
  lemma DceSession(world: World, input: Input, default: Config, i: nat) returns (qa: QaOutput)
    requires i < |DceRun(world, input, default).trace| && DceRun(world, input, default).trace[i].PostJobLearn?
    ensures DceRun(world, input, default).trace[i].session
            == DceProgress(world, qa) + [SynthesizeLine(world.synthesize.phaseResult)]
    ensures exists n :: qa == world.review(n)
  {
    var config := ConfigForInput(input, default);
    ReviewsDoNotLearn(world, config, QaReport.HasRetryableBlocking, world.investigation.snapshot, DceEvidence(world),
                      0, 1, world.execute(0).finalResponse, None);
    var reviews := DceReviews(world, config);
    var head := DceHead(world) + DceExecution(world, config);
    assert reviews.last.Some? by { OnlyTheTailLearns(head, reviews.trace, DceRun(world, input, default).trace, i); }
    qa := reviews.last.value;
    LearnsAtTheEnd(head, reviews.trace, DceTail(world, input, qa), i,
                   DceProgress(world, qa) + [SynthesizeLine(world.synthesize.phaseResult)]);
  }

  /** A DCE run whose phase results are single lines learns nothing from its own progress. */
  lemma DceRunLearnsNothing(w: char -> bool, world: World, input: Input, default: Config, i: nat)
    requires OneLineResults(world)
    requires i < |DceRun(world, input, default).trace| && DceRun(world, input, default).trace[i].PostJobLearn?
    ensures Learned(w, DceRun(world, input, default).trace[i].session, true) == []
  {
    var qa := DceSession(world, input, default, i);
    PlainSessionTeachesNothing(w, DceProgress(world, qa) + [SynthesizeLine(world.synthesize.phaseResult)], true);
  }

  /** One whose investigation result holds a section learns something. */
  lemma DceRunLearns(w: char -> bool, world: World, input: Input, default: Config, i: nat,
                     before: string, phase: string, agent: string, rest: string)
    requires P.WordClass(w) && HoldsSection(w, world.investigation.phaseResult, before, phase, agent, rest)
    requires i < |DceRun(world, input, default).trace| && DceRun(world, input, default).trace[i].PostJobLearn?
    ensures Learned(w, DceRun(world, input, default).trace[i].session, true) != []
  {
    var qa := DceSession(world, input, default, i);
    var session := DceProgress(world, qa) + [SynthesizeLine(world.synthesize.phaseResult)];
    SectionInResultTeaches(w, session, true, 1, before, phase, agent, rest);
  }

  lemma OnlyTheTailLearns(head: seq<Activity>, reviews: seq<Activity>, t: seq<Activity>, i: nat)
    requires forall k :: 0 <= k < |head| ==> !head[k].PostJobLearn?
    requires forall k :: 0 <= k < |reviews| ==> !reviews[k].PostJobLearn?
    requires i < |t| && t[i].PostJobLearn?
    ensures t != head + reviews && !(t <= head)
  {
  }

  lemma LearnsAtTheEnd(head: seq<Activity>, reviews: seq<Activity>, tail: seq<Activity>, i: nat,
                       session: seq<ProgressLine>)
    requires forall k :: 0 <= k < |head| ==> !head[k].PostJobLearn?
    requires forall k :: 0 <= k < |reviews| ==> !reviews[k].PostJobLearn?
    requires forall k :: 0 <= k < |tail| && tail[k].PostJobLearn? ==> tail[k].session == session
    requires i < |head + reviews + tail| && (head + reviews + tail)[i].PostJobLearn?
    ensures (head + reviews + tail)[i].session == session
  {
  }

  lemma PlainSession(world: World, domain: PlainDomain, config: Config, i: nat) returns (qa: QaOutput)
    requires i < |PlainRun(world, domain, config).trace| && PlainRun(world, domain, config).trace[i].PostJobLearn?
    ensures PlainRun(world, domain, config).trace[i].session
            == PlainProgress(world, qa) + [SynthesizeLine(world.synthesize.phaseResult)]
    ensures exists n :: qa == world.review(n)
  {
    ReviewsDoNotLearn(world, config, Always, world.investigation.snapshot, NO_EVIDENCE, 0, 1,
                      world.execute(0).finalResponse, None);
    var reviews := PlainReviews(world, config);
    var head := PlainHead(world) + PlainExecution(world, config);
    assert reviews.last.Some? by { OnlyTheTailLearns(head, reviews.trace, PlainRun(world, domain, config).trace, i); }
    qa := reviews.last.value;
    LearnsAtTheEnd(head, reviews.trace, PlainTail(world, qa), i,
                   PlainProgress(world, qa) + [SynthesizeLine(world.synthesize.phaseResult)]);
  }

  /** A HAS or IDP run whose phase results are single lines learns nothing either. */
  lemma PlainRunLearnsNothing(w: char -> bool, world: World, domain: PlainDomain, config: Config, i: nat)
    requires OneLineResults(world)
    requires i < |PlainRun(world, domain, config).trace| && PlainRun(world, domain, config).trace[i].PostJobLearn?
    ensures Learned(w, PlainRun(world, domain, config).trace[i].session, false) == []
  {
    var qa := PlainSession(world, domain, config, i);
    PlainSessionTeachesNothing(w, PlainProgress(world, qa) + [SynthesizeLine(world.synthesize.phaseResult)], false);
  }

  lemma PlainRunLearns(w: char -> bool, world: World, domain: PlainDomain, config: Config, i: nat,
                       before: string, phase: string, agent: string, rest: string)
    requires P.WordClass(w) && HoldsSection(w, world.investigation.phaseResult, before, phase, agent, rest)
    requires i < |PlainRun(world, domain, config).trace| && PlainRun(world, domain, config).trace[i].PostJobLearn?
    ensures Learned(w, PlainRun(world, domain, config).trace[i].session, false) != []
  {
    var qa := PlainSession(world, domain, config, i);
    var session := PlainProgress(world, qa) + [SynthesizeLine(world.synthesize.phaseResult)];
    SectionInResultTeaches(w, session, false, 1, before, phase, agent, rest);
  }
}
