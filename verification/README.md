# Verification of the agent harness

A Dafny model of the stateful parts of the harness, with proofs of what they keep over every run. Each
module follows one component. Objects whose methods update their fields are classes, loops are loops,
and each such method is proved against a function of its inputs or of its old state; what the harness
relies on is then proved about those functions, for all inputs and all runs. `dafny verify dfyconfig.toml`
checks the whole project.

- **Tool loop** (`ToolLoop`, `Transcript`, `LoopDetection`, `LoopGuidance`, `Sanitised`, `Usage`): the send,
  execute, answer cycle against an arbitrary model, arbitrary handlers and an arbitrary summariser. Whatever
  they answer and whichever turns compact, every transcript that leaves pairs each tool-use message with the
  message that answers it. Keeping ten messages is safe because ten is even, and no odd number is safe.
  Counters have closed forms. The caller's list of messages never changes. Whatever property the sanitiser
  gives its results, every tool output in every transcript has it.
- **Progress log** (`Progress`, `RoundTrip`, `ProgressLog`, `ReadBack`, `PostJob`, `Lessons`, `Regex`, `Text`):
  `PROGRESS.md` as it is printed and as it is parsed, and the memories that are made of it. The pattern runs on a backtracking matcher with Python's order
  of choice for greedy and lazy repetitions, which is proved to find a match exactly where the pattern
  denotes one (`Regex.RunIsSoundAndComplete`). A log read once, at the end, gives back what was written
  exactly if every result in it is good (`ReadBack.RoundTripIffAllGood`): the agent is a word, the report
  is not blank, and no line of it but the first starts a section; the first line may start one only if the
  white space before it does not end in a line break with something other than a line break before it. A
  blank report is not merely dropped: it swallows the section behind it.
- **Rate limiter** (`RateLimiter`) and **audit log** (`AuditLog`): pruned lists and a per-caller index
  that agree with the full history.
- **Workflows** (`Workflows`, `WorkflowProofs`, `Inputs`, `Synthesis`, `QaReport`, `WorkflowLearning`, `Teaching`):
  runs of the DCE, HAS and IDP workflows as traces of activities. Every run fits the grammar of its
  workflow, every activity is given what the activities before it brought back, every review the latest
  output, and a finished DCE run is completed exactly if the report that it hands out has no blocking check.
- **Citations** (`CitationRegistry`, `IgnoreCase`, `CitationForms`, `CanonicalIds`, `NormalForms`, `Requirements`,
  `Citations`, `CitationCompleteness`, `Mentions`, `InvalidReasons`, `Whitespace`, `Values`): normalisation with
  its patterns, which id a citation normalises to, classification into three lists, completeness as a set
  function, and the collection of citations out of extracted data.
- **Memory** (`GraphStore`, `Ranking`, `Cosine`): ranked search with tombstones, stable sorting, cosine
  similarity over the reals.
- **Prompt builder, cache monitor, page merge, tool schemas** (`PromptBuilder`, `PromptGrowth`,
  `CacheMonitor`, `VisionMerge`, `ToolSchemas`). Every accepted call only extends the prompt at its end.

What the proofs found about the code:

- Synthesis is given the output of the first execution together with the report of the last review, so
  a corrected output that passes review is not the one that is synthesised
  (agent_harness/workflows/operativo_workflow.py:345, and the same in the other two workflows). A run
  synthesises what its last review has seen exactly if nothing was corrected or the last correction gave
  the first output again; whatever the activities answer, it does so if and only if at most one attempt
  is allowed (`Synthesis.DceSynthesisIsReviewedIff`, with a run that loses its correction in
  `Synthesis.DceLosesTheCorrection`).
- The learning step is written for the content of `PROGRESS.md`, but the workflows hand it their own
  progress lines, in which its pattern finds no section: a run whose phase results are single lines
  learns nothing (`WorkflowLearning.DceRunLearnsNothing`, `WorkflowLearning.PlainRunLearnsNothing`). A text
  teaches something exactly if a line of it has the names of a section, white space with a blank line in
  it follows them, and more text follows that is not a section behind a single line break
  (`Teaching.ExtractsIffTeaches`). The investigation's result quotes the name of the file, so a file name
  with line breaks can make a run learn something (`WorkflowLearning.DceRunLearns`).
- With `max_turns` or `max_correction_attempts` of zero or less the result variable is never bound and
  the call raises; the models give `None` and `Raised` there.
- The branches "Unknown citation" and "Not applicable to DCE" of the classifier are never taken
  (`Citations.VerdictMeans`).
- The reason given for an invalid citation is looked up in the citation as it came, not in its normal
  form. It is the reason of the pattern that rejects the citation exactly if that pattern occurs in the
  citation itself (`InvalidReasons.GivenReasonIff`). White space in front can hide it, and so can a section
  sign, which survives the collection of citations (`InvalidReasons.SectionSignExample`).
- If a server lists a tool name twice, the events of a schema check need not lead from the snapshot to the
  current hashes: they do exactly if, wherever the last tool of a name is as it was, all tools of that name
  are (`ToolSchemas.ToolSchemaRegistry.Verify`, with two tools that fail it in
  `ToolSchemas.LastNeedNotDecide`).
- The profile's comment gives 36 months as the example for a product for children under three
  (agent_harness/domains/dce/citation_registry.py:240), but 16 CFR Part 1501 is asked for below 36 only
  (`Requirements.AgeDecidesSmallParts`).
- Guidance is described as given once the threshold is exceeded (agent_harness/llm/loop_detection.py:12), but it
  is given from the use on that reaches it (`LoopGuidance.GuidanceMeans`).
- The number of loop warnings for a resource used n times is n - threshold + 1 from the threshold on, and
  n if the threshold is 1 or less.

## Model

| member | source | states |
|---|---|---|
| ToolLoop.RunLoop | agent_harness/llm/tool_handler.py:57-208 | a run gives a result exactly if a turn is allowed; the result accounts for all turns in closed form, the transcripts sent are those of the turns taken, and the caller's prompt and list are unchanged |
| ToolLoop.RunTurns | agent_harness/llm/tool_handler.py:94-208 | the loop stops at the first reply that asks for no tool or at the turn limit, with calls, usage, errors and warnings summed over exactly the executed turns |
| ToolLoop.OneTurn | agent_harness/llm/tool_handler.py:115-197 | one turn extends sent transcripts, current transcript, tracker and totals by what the turn adds, and stops without adding calls if the reply asks for no tool |
| ToolLoop.TakeTurn | agent_harness/llm/tool_handler.py:133-197 | a turn with tools appends its assistant message and the message with all results, and reports the errors and warnings of its calls |
| ToolLoop.ExecuteCalls | agent_harness/llm/tool_handler.py:149-197 | one result per call in order; the tracker has then seen exactly the calls whose handler returned |
| ToolLoop.ExecuteCall | agent_harness/llm/tool_handler.py:151-195 | unknown tools and raising handlers give error results and leave the tracker alone; a sanitised output counts as an error; guidance carries the count including this call |
| ToolLoop.SendCompacted | agent_harness/llm/tool_handler.py:97-118 | the transcript sent is the current one, compacted in a new list exactly if the token count calls for it |
| ToolLoop.Compact | agent_harness/prompt/compaction_client.py:134-144 | a new list with the summary of all text blocks and the last ten messages, or all if there are no more |
| ToolLoop.EveryTranscriptIsWellFormed | agent_harness/llm/tool_handler.py:94-197 | on every turn of every run each tool-use message is directly followed by the user message whose result ids equal its ids in order, and there are no orphan results, before and after compaction |
| ToolLoop.TurnIsPair | agent_harness/llm/tool_handler.py:136-197 | what a turn appends is a pair: tool uses with the ids of the calls, and results with the same ids in the same order |
| ToolLoop.ErrorsAreSentBack | agent_harness/llm/tool_handler.py:152-197 | the error count of a turn is its error results plus its sanitised outputs |
| Sanitised.ResultOfCall | agent_harness/llm/tool_handler.py:151-195 | the j-th result of a turn answers the j-th call, and if its handler is there and returned, its text is what the sanitiser makes of what that handler returned, and nothing else |
| Sanitised.AssistantSays | agent_harness/llm/tool_handler.py:135-147 | the assistant message of a turn holds the reply's text, if there is one, and exactly its calls in order |
| Sanitised.TranscriptsAreSanitised | agent_harness/llm/tool_handler.py:94-197 | for every property that the sanitiser gives its results and the outputs of the first transcript have, every tool output in the transcript of every turn has it, before and after compaction |
| Sanitised.EverySentIsSanitised | agent_harness/llm/tool_handler.py:115-118 | the same for every transcript that a run sends |
| Sanitised.SentIsBounded | agent_harness/llm/tool_handler.py:97-113 | with compaction on, what is sent has fewer tokens than the threshold or is a summary and at most ten messages |
| Sanitised.LatestAreSent | agent_harness/prompt/compaction_client.py:141-144 | what is sent is all there is, or one summary followed by the last ten messages, or by all if there are fewer |
| Sanitised.LatestTurnIsSent | agent_harness/llm/tool_handler.py:97-197 | whatever was compacted, the last turn's two messages are sent at the end of the next transcript |
| Sanitised.NothingIsDropped | agent_harness/llm/tool_handler.py:94-197 | without compaction every turn sends what the last one sent and exactly the two messages of that turn |
| LoopGuidance.LogCountsUses | agent_harness/llm/tool_handler.py:151-190 | the tracker counts, over the whole run, the calls of a resource whose handler was there and returned, and no others |
| LoopGuidance.GuidanceMeans | agent_harness/llm/loop_detection.py:18-30 | an output carries guidance exactly if detection is on and the resource of its call has been used as often as the threshold says, and the guidance names tool, resource and that number |
| LoopGuidance.RepeatedUseIsTold | agent_harness/llm/loop_detection.py:24-30 | a call that comes back and brings its resource to the threshold or beyond is always answered with guidance |
| LoopGuidance.ResourcesTellApart | agent_harness/llm/loop_detection.py:32-38 | API calls share a resource exactly if they call the same operation, other calls exactly if they call the same tool |
| Usage.AddingUp | agent_harness/llm/client.py:32-39 | adding usage is commutative and associative, and no usage is neutral |
| Transcript.AlignedIsWellFormed | agent_harness/llm/tool_handler.py:136-197 | a tool-free start followed by pairs is a well-formed transcript |
| Transcript.CompactionKeepsAligned | agent_harness/prompt/compaction_client.py:142-144 | keeping the last messages keeps a transcript aligned for every even number of them |
| Transcript.OnlyEvenKeepIsSafe | agent_harness/prompt/compaction_client.py:142-144 | compaction makes well-formed transcripts of all aligned ones if and only if the number kept is even |
| LoopDetection.ResourceEditTracker.Record | agent_harness/llm/loop_detection.py:18-38 | the counts are those of the log of resources, guidance is given from the threshold on, and an empty resource changes nothing |
| LoopDetection.ResourceEditTracker.Reset | agent_harness/llm/loop_detection.py:45-47 | all counts are gone |
| LoopDetection.WarningsClosedForm | agent_harness/llm/loop_detection.py:18-30 | the warnings of a log are, summed over resources, the calls from the threshold-th on |
| PostJob.SessionStore.AppendProgress | agent_harness/memory/session_store.py:33-45 | the file holds the printed entries of everything appended, in order, and no other file changes |
| PostJob.SessionStore.ReadProgress | agent_harness/memory/session_store.py:47-53 | reading gives the printed log, empty without a file |
| PostJob.ExtractPatterns | agent_harness/activities/post_job.py:30-73 | one new memory per readable section, in order, with the section's type, importance and names; the count is theirs, and nothing else in the store changes |
| PostJob.StoreSections | agent_harness/activities/post_job.py:44-73 | the loop stores the sections whose report is not blank and counts them |
| PostJob.StoreSection | agent_harness/activities/post_job.py:47-71 | a section becomes one memory unless its report is blank |
| Lessons.LogIsLearnt | agent_harness/activities/post_job.py:44-71 | a log of good results becomes one memory for each, in order and with consecutive ids, with the domain, source, stripped report, phase and agent that were appended, and with type and importance by the words of the written report |
| Lessons.ReportIsLearnt | agent_harness/activities/post_job.py:52-61 | a memory is an error exactly if its written report names NEEDS_REVIEW, and a pattern exactly if it does not and names status=COMPLETED; an error weighs 0.7, a pattern 0.5, a fact 0.4 |
| Lessons.ReviewIsLearnt | agent_harness/activities/implementations.py:419-427 | the result line of a review is learnt as an error exactly if its report has a blocking check, and as a pattern otherwise |
| Lessons.LogIsFaithful | agent_harness/memory/session_store.py:33-45 | two sequences of good results with the same log have the same phases, agents and stripped reports |
| ProgressLog.GoodLogIsReadBack | agent_harness/activities/post_job.py:27-73 | the log of any sequence of good results parses to exactly their phases, agents and stripped reports in order |
| ProgressLog.AppendedIsReadBackIffGood | agent_harness/activities/post_job.py:27-73 | behind good results one more is read back if and only if it is good |
| ReadBack.RoundTripIffAllGood | agent_harness/memory/session_store.py:33-53 | for any sequence of results, one reading of the whole log gives exactly their phases, agents and stripped reports in order if and only if every result is good |
| ReadBack.ReadingLags | agent_harness/activities/post_job.py:27-49 | reading that goes on behind the start of an entry never gives that entry and those behind it, so one cut entry spoils the reading of the whole log |
| ReadBack.BadLogIsNotReadBack | agent_harness/activities/post_job.py:27-73 | a log with a result that is not good, wherever it stands, is not read back as it was written |
| ReadBack.ReadBackAfterEachAppend | agent_harness/memory/session_store.py:33-53 | a log is read back exactly if it has been after every append |
| ReadBack.NewResultIsGoodIff | agent_harness/core/plan.py:37-39 | what is made of a report by cutting it is good exactly if a character that is no white space survives and no section starts in what survives |
| ReadBack.CuttingKeepsGood | agent_harness/core/plan.py:37-39 | cutting a good report leaves a good one exactly if it leaves more than white space |
| ProgressLog.BadIsLost | agent_harness/activities/post_job.py:27-49 | where an entry that is not good ends a text, no section with its names and report is read from its start on |
| ProgressLog.MergedPrintsTheSame | agent_harness/memory/session_store.py:35-36 | two results print what one result with both reports prints, so no parser could tell them apart |
| ProgressLog.BlankReportSwallowsNext | agent_harness/activities/post_job.py:27 | behind good results, what one with a blank report and the next one give is a single section: the first one's names with the whole printed section of the next as its report, if and only if no further section starts within that one |
| PostJob.WorkflowProgressTeachesNothing | agent_harness/activities/post_job.py:41-44 | joined lines without line breaks that start with a P hold no section |
| Teaching.ExtractsIffTeaches | agent_harness/activities/post_job.py:41-71 | something is extracted from a text if and only if some line of it has the names of a section, followed by white space with a blank line in it and by text that is no section behind a single line break |
| WorkflowLearning.LearnsIffTeaches | agent_harness/workflows/operativo_workflow.py:378-388 | a session teaches something if and only if its text has such a line |
| WorkflowLearning.SectionInResultTeaches | agent_harness/activities/implementations.py:326 | a session whose investigation result holds a line break, the header of a section, a blank line and more text teaches something |
| WorkflowLearning.DceRunLearns | agent_harness/workflows/operativo_workflow.py:241-388 | every DCE run with such an investigation result that learns at all learns something |
| WorkflowLearning.PlainRunLearns | agent_harness/workflows/has_workflow.py:161-229 | the same for the runs of the other two workflows |
| WorkflowLearning.DceRunLearnsNothing | agent_harness/workflows/operativo_workflow.py:241-388 | the session text of every DCE run whose phase results are single lines gives no section |
| WorkflowLearning.PlainRunLearnsNothing | agent_harness/workflows/has_workflow.py:161-229 | the same for the runs of the other two workflows |
| RateLimiter.InMemoryRateLimiter.Check | agent_harness/gateway/rate_limiter.py:44-73 | a check is decided as counting the full history of admissions in the window would, names the remaining number or the exact wait, and the kept lists still agree with that history |
| RateLimiter.InMemoryRateLimiter.CheckWindow | agent_harness/gateway/rate_limiter.py:54-73 | pruning, refusing and admitting on the caller's list do what the full history demands |
| RateLimiter.NoWindowOverflows | agent_harness/gateway/rate_limiter.py:57-73 | no window of the given length ever holds more than the allowed number of admissions of a caller |
| RateLimiter.CallersAreIndependent | agent_harness/gateway/rate_limiter.py:58-73 | a caller's admissions are what they would be if no one else had called |
| RateLimiter.RetryAfterIsExact | agent_harness/gateway/rate_limiter.py:62-69 | every earlier check is refused and a check at the named moment is admitted |
| RateLimiter.RemainingIsExact | agent_harness/gateway/rate_limiter.py:71-73 | the number named in an admission is exactly how many more checks of the caller at that moment are admitted, unless the window is empty |
| AuditLog.AuditLogger.Log | agent_harness/observability/audit.py:75-105 | the entry, stamped if it has no time, is the last one logged; the retained log and all caller lists follow |
| AuditLog.AuditLogger.Evict | agent_harness/observability/audit.py:100-105 | popping heads for the removed entries leaves every caller's list equal to the subsequence of what is retained |
| AuditLog.AuditLogger.Entries | agent_harness/observability/audit.py:107-110 | the last entries ever logged, up to the maximum |
| AuditLog.AuditLogger.EntriesByCaller | agent_harness/observability/audit.py:112-114 | the subsequence of the retained log with that caller |
| AuditLog.LastNStep | agent_harness/observability/audit.py:95-99 | trimming after each entry leaves what trimming once at the end would |
| AuditLog.IndexesTail | agent_harness/observability/audit.py:101-105 | the oldest entry is the head of its caller's list, so the guard of the pop holds whenever there is a caller |
| QaReport.Summarize | agent_harness/activities/implementations.py:116-143 | blocking, warning and other counts are those of the check list; with the items that are no objects they add up to the total |
| QaReport.ReadingsAgree | agent_harness/activities/implementations.py:403-419 | for every report that is written, status, blocking test, retry permission and summary agree |
| QaReport.RetryableMeans | agent_harness/workflows/operativo_workflow.py:92-109 | on a written report the retry test holds exactly if some check is blocking and correctable, which implies a blocking check |
| QaReport.RetryableReadings | agent_harness/workflows/operativo_workflow.py:92-109 | on any report: unreadable ones and those without a list of checks are retryable, those that are no object are not, all others only with a blocking check; the case of severities does not matter |
| Workflows.RunDce | agent_harness/workflows/operativo_workflow.py:225-396 | activities in order, their inputs and the result are those of the run's specification |
| Workflows.FinishDce | agent_harness/workflows/operativo_workflow.py:341-388 | synthesis of the first output with the last report, callback if there is an address, learning unless the run is fast |
| Workflows.RunPlain | agent_harness/workflows/has_workflow.py:149-237 | the same for HAS, and for IDP with its own output |
| Workflows.DceQaWithRetry | agent_harness/workflows/operativo_workflow.py:398-458 | the loop executes the reviews and corrections of its specification and returns its last review |
| Workflows.PlainQaWithRetry | agent_harness/workflows/idp_workflow.py:269-315 | the loop without the retry test, likewise |
| WorkflowProofs.LoopIsReviewPhase | agent_harness/workflows/operativo_workflow.py:417-458 | from any attempt on the loop makes between one review and the attempts left, stops before the last only on a pass, corrects between reviews exactly the rejected reports that are retryable, feeds each review the latest output and returns the last review |
| WorkflowProofs.ReviewPhaseEnds | agent_harness/workflows/operativo_workflow.py:435-458 | only the last review may pass, corrections are fewer than reviews, and by exactly one if every report is retryable |
| WorkflowProofs.LoopPassesIffSomeReviewDoes | agent_harness/workflows/operativo_workflow.py:417-458 | the returned review is COMPLETED if and only if some review was |
| WorkflowProofs.PlainCorrectsEveryRejection | agent_harness/workflows/has_workflow.py:248-276 | corrections are exactly reviews minus one, and reviews are within the limit |
| WorkflowProofs.DceLoopMatchesPlain | agent_harness/workflows/idp_workflow.py:283-315 | the DCE loop makes the same reviews, corrections and result whenever every rejected report before the last attempt is retryable |
| WorkflowProofs.DceRunFits | agent_harness/workflows/operativo_workflow.py:225-396 | every run is plan, investigation, vision, then a halt with nothing more, or execution of the plan, optional web check, a review phase, synthesis, optional callback and learning unless fast; the status is that of the last review |
| WorkflowProofs.PlainRunFits | agent_harness/workflows/idp_workflow.py:161-267 | the grammar of HAS and IDP runs |
| WorkflowProofs.DceRunIsFed | agent_harness/workflows/operativo_workflow.py:414-456 | in every DCE run each review is given the latest output before it |
| WorkflowProofs.PlainRunIsFed | agent_harness/workflows/has_workflow.py:246-274 | in every HAS or IDP run each review is given the latest output before it |
| WorkflowProofs.FedMeans | agent_harness/workflows/operativo_workflow.py:418-421 | being fed means that the input of a review at any place is the last output before that place |
| WorkflowProofs.FastRunReviewsOnce | agent_harness/workflows/operativo_workflow.py:56-66 | a fast run that is not halted has one review, one execution and no learning |
| Inputs.DceRunIsGiven | agent_harness/workflows/operativo_workflow.py:241-388 | in every DCE run that is not halted the web check stands behind the execution exactly if the citation report on snapshot and vision fields recommends it, and every review, correction, web check, synthesis, callback and learning step is given the snapshot, fields, report text, web evidence, review and progress of the activities before it |
| Inputs.DceRunAnswers | agent_harness/workflows/operativo_workflow.py:241-456 | executions and reviews of a DCE run bring back the answers of the world in order, each once |
| Inputs.DceHandsOut | agent_harness/workflows/operativo_workflow.py:390-396 | a finished DCE run hands out response and address of its synthesis and the report that the synthesis was given |
| Inputs.PlainRunIsGiven | agent_harness/workflows/has_workflow.py:161-229 | the same for the inputs of HAS and IDP runs |
| Inputs.PlainRunAnswers | agent_harness/workflows/has_workflow.py:161-276 | the same for the answers in HAS and IDP runs |
| Inputs.PlainHandsOut | agent_harness/workflows/has_workflow.py:231-237 | the same for what HAS and IDP runs hand out; only HAS hands out an address |
| Inputs.AnswersMean | agent_harness/workflows/operativo_workflow.py:417-456 | answering in order means that the execution or review at any place brings back the answer numbered by those before it |
| Synthesis.LoopReviewsLatest | agent_harness/workflows/operativo_workflow.py:414-456 | the last review of a loop sees the output of the latest execution, counted by the corrections made |
| Synthesis.DceSynthesises | agent_harness/workflows/operativo_workflow.py:341-351 | a finished DCE run synthesises the first output, while its last review has seen the last correction's |
| Synthesis.PlainSynthesises | agent_harness/workflows/has_workflow.py:205-212 | the same for HAS and IDP |
| Synthesis.DceSynthesisesLastReviewedIff | agent_harness/workflows/operativo_workflow.py:341-351 | a DCE run synthesises what its last review has seen exactly if it is not finished, nothing was corrected, or the last correction gave the first output again |
| Synthesis.PlainSynthesisesLastReviewedIff | agent_harness/workflows/idp_workflow.py:227-234 | the same for HAS and IDP |
| Synthesis.DceLosesTheCorrection | agent_harness/workflows/operativo_workflow.py:341-351 | with two attempts or more there is a run that completes on a corrected output and synthesises the rejected one |
| Synthesis.PlainLosesTheCorrection | agent_harness/workflows/has_workflow.py:205-212 | the same for HAS and IDP |
| Synthesis.DceSynthesisIsReviewedIff | agent_harness/workflows/operativo_workflow.py:225-396 | whatever the activities answer, DCE synthesises what its last review has seen if and only if at most one attempt is allowed |
| Synthesis.PlainSynthesisIsReviewedIff | agent_harness/workflows/has_workflow.py:149-237 | the same for HAS and IDP |
| WorkflowProofs.WrittenStatus | agent_harness/activities/implementations.py:419 | a written review is COMPLETED exactly if its report has no blocking check, and a retryable one never is |
| WorkflowProofs.CompletedIffNothingBlocks | agent_harness/workflows/operativo_workflow.py:335-339 | a finished DCE run is completed if and only if the report that it hands out has no blocking check |
| GraphStore.InMemoryGraphStore.Store | agent_harness/memory/graph_store.py:33-68 | one node more at the end, with a new id and its embedding |
| GraphStore.InMemoryGraphStore.Get | agent_harness/memory/graph_store.py:70-74 | the node with that id, none if it is missing or forgotten |
| GraphStore.InMemoryGraphStore.Forget | agent_harness/memory/graph_store.py:76-81 | true exactly for a stored node not forgotten yet, which then is |
| GraphStore.InMemoryGraphStore.ListByDomain | agent_harness/memory/graph_store.py:83-88 | the live nodes of the domain in insertion order |
| GraphStore.InMemoryGraphStore.Search | agent_harness/memory/graph_store.py:113-144 | the first matches of the full stable ranking of the candidates |
| GraphStore.ForgetCommutesWithSearch | agent_harness/memory/graph_store.py:76-144 | after forgetting a node a search gives the old full ranking without it, cut afterwards |
| GraphStore.RankedIffCandidate | agent_harness/memory/graph_store.py:125-130 | ranked are exactly the stored live nodes of the domain and the types |
| GraphStore.SearchReturnsTheBest | agent_harness/memory/graph_store.py:142-144 | no candidate left out outscores one returned, whatever the count, negative ones included |
| GraphStore.TiesKeepInsertionOrder | agent_harness/memory/graph_store.py:143 | nodes of equal score come in the order in which they were stored |
| GraphStore.QueryLengthIrrelevant | agent_harness/memory/graph_store.py:132-144 | scaling the query vector changes no ranking |
| GraphStore.MultipleIsOutscoredByNone | agent_harness/memory/graph_store.py:132-144 | a candidate whose embedding is a positive multiple of the query vector is outscored by no candidate |
| GraphStore.FirstHitPointsThere | agent_harness/memory/graph_store.py:132-144 | if there is such a candidate, the first node that a search returns has similarity 1 |
| GraphStore.SemanticStore.Store | agent_harness/memory/semantic_store.py:45-47 | one pattern more at the end |
| GraphStore.SemanticStore.Retrieve | agent_harness/memory/semantic_store.py:49-59 | the first patterns of the stable ranking of the domain's patterns |
| GraphStore.FirstPatternPointsThere | agent_harness/memory/semantic_store.py:49-59 | the same for the first pattern that is retrieved |
| Ranking.SortIsStable | agent_harness/memory/graph_store.py:143 | the sort is descending and keeps the order of every class of equal scores |
| Ranking.StableSortIsSortDesc | agent_harness/memory/graph_store.py:143 | a list is a stable descending arrangement of the scored candidates if and only if it is what the sort gives |
| Ranking.RankFilter | agent_harness/memory/graph_store.py:125-143 | ranking commutes with filtering |
| Ranking.TakePrefix | agent_harness/memory/graph_store.py:144 | one slice starts with another exactly if it takes no fewer elements, which a larger count does for counts of the same sign |
| Ranking.FirstIsBest | agent_harness/memory/graph_store.py:143 | no element outscores the first one of a ranking |
| Cosine.CauchySchwarz | agent_harness/memory/semantic_store.py:19-28 | the square of the dot product is at most the product of the squared lengths |
| Cosine.SimilarityBounded | agent_harness/memory/semantic_store.py:19-28 | the similarity of any two vectors lies between -1 and 1 |
| Cosine.SimilaritySymmetric | agent_harness/memory/semantic_store.py:19-28 | similarity is symmetric |
| Cosine.SimilarityScale | agent_harness/memory/semantic_store.py:19-28 | scaling a vector by a positive factor changes no similarity |
| Cosine.SimilarityTimesLengths | agent_harness/memory/semantic_store.py:19-28 | similarity times both lengths is the dot product, for vectors of any equal length |
| Cosine.SimilarToItself | agent_harness/memory/semantic_store.py:19-28 | a vector that is not zero has similarity 1 to itself |
| Cosine.SimilarToMultiple | agent_harness/memory/semantic_store.py:19-28 | and similarity 1 to its positive multiples |
| Cosine.SimilarToNothing | agent_harness/memory/semantic_store.py:21-27 | vectors of different lengths, empty ones and zero vectors have similarity 0 to all |
| CitationRegistry.RegistryHasRules | agent_harness/domains/dce/citation_registry.py:39-92 | the registry's ids are exactly those with a rule |
| CitationRegistry.NormalizedIsRegistered | agent_harness/domains/dce/citation_registry.py:155-186 | normalising gives nothing or an id of the registry whose rule is not of the type INVALID |
| CitationRegistry.NormalizeIgnoresSpacing | agent_harness/domains/dce/citation_registry.py:117-186 | collapsing white space changes neither the normal spelling nor the normal form |
| CitationRegistry.RequiredCitations | agent_harness/domains/dce/citation_registry.py:246-267 | the required set is the set of registry ids that the profile needs |
| CitationRegistry.NeededIsCitable | agent_harness/domains/dce/citation_registry.py:254-267 | every id that a profile can need is in the registry and may be cited |
| Requirements.StricterNeedsMore | agent_harness/domains/dce/citation_registry.py:246-267 | a lower age, or one property more, never removes a requirement |
| Requirements.AgeDecidesSmallParts | agent_harness/domains/dce/citation_registry.py:260-262 | the age decides about 16 CFR Part 1501 alone, which is required up to 35 months |
| Requirements.PlayDecidesPhthalates | agent_harness/domains/dce/citation_registry.py:264-265 | being a toy or a child care article decides about 16 CFR Part 1307 alone |
| Requirements.CategoryDecidesStability | agent_harness/domains/dce/citation_registry.py:256-258 | the category decides about 16 CFR Part 1261 alone |
| CanonicalIds.IdIsFixed | agent_harness/domains/dce/citation_registry.py:128-186 | every id of the registry is its own normal form, through patterns, aliases and matching |
| CanonicalIds.NormalizeIsIdempotent | agent_harness/domains/dce/citation_registry.py:155-186 | normalising twice is normalising once |
| CanonicalIds.CitingTheRequiredIsComplete | agent_harness/domains/dce/citation_registry.py:282-308 | a certificate that cites every required id misses nothing |
| CanonicalIds.HasAliasIs | agent_harness/domains/dce/citation_registry.py:172-173 | an alias counts exactly if it stands anywhere in the text, ignoring case |
| CanonicalIds.PartWordIs | agent_harness/domains/dce/citation_registry.py:124 | the word for a part is respelled exactly where it stands alone, in any case |
| CitationForms.CitationIsRead | agent_harness/domains/dce/citation_registry.py:132-135 | the part pattern reads part and section of every citation of a four-digit part, in any case, with or without blanks and the word for a part, whatever stands behind its number |
| CitationForms.StatuteIsRead | agent_harness/domains/dce/citation_registry.py:148-151 | the statute is read in every spelling with or without blanks and full stops, in any case, whatever follows |
| NormalForms.NormalFormIs | agent_harness/domains/dce/citation_registry.py:132-186 | a citation whose normal spelling names a part and possibly a section normalises to the section's own entry, or else to the part's, or else to nothing |
| NormalForms.CitationNormalizes | agent_harness/domains/dce/citation_registry.py:117-186 | the same from the citation as it came: collapsed, without section signs, in any case and with or without the word for a part |
| NormalForms.NumberDecides | agent_harness/domains/dce/citation_registry.py:132-146 | so does one with something behind its number that is no alias and no formaldehyde rule, if section or part has an entry |
| NormalForms.SectionCoversPart | agent_harness/domains/dce/citation_registry.py:136-143 | citing a section without an entry of its own covers its part: the part is not missing, the citation is not invalid, and it counts as covering the part if that may be cited |
| NormalForms.SignIsDropped | agent_harness/domains/dce/citation_registry.py:123 | a section sign and a blank behind it are dropped from a citation and nothing else is |
| NormalForms.StatuteNormalizes | agent_harness/domains/dce/citation_registry.py:148-186 | every spelling of the statute normalises to its id |
| NormalForms.AliasDecides | agent_harness/domains/dce/citation_registry.py:171-174 | a citation that is not invalid normalises to what the first alias in it stands for, wherever that stands |
| NormalForms.AliasNormalizes | agent_harness/domains/dce/citation_registry.py:96-107 | every alias, in any case and with any amount of white space, normalises to the rule that it stands for, or to nothing if it stands for none |
| Citations.DceRegistryIsSound | agent_harness/domains/dce/citation_registry.py:117-186 | the registry and its normaliser have what classification relies on |
| Citations.ClassifyCitations | agent_harness/domains/dce/citation_registry.py:189-236 | the three lists collect the verdicts in input order |
| Citations.VerdictMeans | agent_harness/domains/dce/citation_registry.py:204-236 | every citation has the verdict that its normal form determines, and two of the reasons are never given |
| Citations.ClassificationIsPartition | agent_harness/domains/dce/citation_registry.py:189-236 | every non-empty citation is in exactly one list, once, and every list keeps the input order |
| Citations.CoveredSetIs | agent_harness/domains/dce/citation_registry.py:225-226 | an id is covered exactly if some citation normalises to it and it may be cited |
| Citations.BuildCompletenessReport | agent_harness/domains/dce/citation_registry.py:282-308 | missing is required without covered, and the report is complete exactly if all that is required is covered |
| Citations.MissingMeans | agent_harness/domains/dce/citation_registry.py:295-299 | missing are exactly the needed ids to which no citation normalises |
| Citations.MissingIsAntitone | agent_harness/domains/dce/citation_registry.py:295-299 | more citations never make more go missing; order and repetition do not matter |
| Citations.RequiredSplits | agent_harness/domains/dce/citation_registry.py:295-306 | required is the disjoint union of missing and required-and-covered |
| CitationCompleteness.NormalizeForDedupCollapses | agent_harness/domains/dce/citation_completeness.py:56-63 | the normalisation for deduplication is collapsing white space |
| CitationCompleteness.Collector.Add | agent_harness/domains/dce/citation_completeness.py:20-24 | the collected list stays the list of first occurrences of all that was added |
| CitationCompleteness.Collector.AddList | agent_harness/domains/dce/citation_completeness.py:43-48 | the citations of a list are added in order until an item raises |
| CitationCompleteness.Collector.AddText | agent_harness/domains/dce/citation_completeness.py:49-51 | the parts of a text between semicolons are added in order |
| CitationCompleteness.DeriveProvidedCitations | agent_harness/domains/dce/citation_completeness.py:11-53 | the first occurrences among everything that the data mentions, or an error if some item is no text |
| CitationCompleteness.DerivedAre | agent_harness/domains/dce/citation_completeness.py:17-24 | the derived citations are distinct and exactly the collapsed mentions that are not blank |
| CitationCompleteness.DerivedInOrder | agent_harness/domains/dce/citation_completeness.py:22-24 | more mentions only add citations at the end |
| CitationCompleteness.DedupKeepsCoverage | agent_harness/domains/dce/citation_completeness.py:56-63 | deduplication changes neither what is covered nor what is missing |
| Mentions.SplitIsJoined | agent_harness/domains/dce/citation_completeness.py:36-38 | splitting at semicolons is undone by joining, and no part has one |
| Mentions.DerivedIff | agent_harness/domains/dce/citation_completeness.py:11-53 | derived are exactly the collapsed texts, blank ones left out, that the searched values hold as items, under the items' key, or between semicolons |
| Mentions.KeyIsDerived | agent_harness/domains/dce/citation_completeness.py:41-51 | every text under one of the three keys of the data is derived |
| Mentions.StructuredIsDerived | agent_harness/domains/dce/citation_completeness.py:27-38 | of the structured fields the first key with a value that is not empty is searched |
| Mentions.NothingElseIsDerived | agent_harness/domains/dce/citation_completeness.py:26-51 | whatever is derived stands under one of the three keys of the data or of its structured fields |
| Mentions.ReportIsAbout | agent_harness/domains/dce/citation_completeness.py:146-161 | the report is about the structured fields alone if there are any, else about the data, and about nothing if the text is no object |
| InvalidReasons.CollapsingChangesTheReason | agent_harness/domains/dce/citation_registry.py:210-217 | an example: a citation with a blank in front is invalid for another reason than without it |
| InvalidReasons.CollapsingKeepsTheReasonIff | agent_harness/domains/dce/citation_registry.py:210-217 | for every citation, collapsing its white space keeps the reason exactly if no white space in front hides a pattern at the start, and the formaldehyde rule, where no such pattern decides, is found in both or in neither |
| InvalidReasons.NormalKeepsPatterns | agent_harness/domains/dce/citation_registry.py:117-125 | every invalid pattern that occurs in a citation occurs in its normal spelling |
| InvalidReasons.ReasonIsOfNormalFormIff | agent_harness/domains/dce/citation_registry.py:164-169 | a citation and its normal spelling have the same reason exactly if the pattern that rejects the normal spelling, if any, occurs in the citation |
| InvalidReasons.GivenReasonIff | agent_harness/domains/dce/citation_registry.py:208-218 | the classifier gives the reason of the pattern that rejects a citation exactly if the pattern occurs in the citation as it came |
| InvalidReasons.SectionSignHides | agent_harness/domains/dce/citation_registry.py:122-123 | a section sign in front of any EPA citation hides the pattern that rejects it |
| InvalidReasons.SectionSignExample | agent_harness/domains/dce/citation_registry.py:208-218 | a collapsed citation that is rejected as an EPA rule and is given another reason |
| CitationCompleteness.ComputeCompletenessReport | agent_harness/domains/dce/citation_completeness.py:125-200 | the report is about all mentions of the data; web verification is recommended exactly if some citation is not covered, there is no description, or there is neither citation nor extraction |
| Whitespace.CollapseIsSqueeze | agent_harness/domains/dce/citation_completeness.py:58-62 | joining the words of a string is replacing every run of white space in the stripped string by a blank |
| Whitespace.SubSqueezes | agent_harness/domains/dce/citation_registry.py:121 | substituting a blank for runs of white space by pattern does the same |
| PromptBuilder.PromptBuilder.CheckOrder | agent_harness/prompt/builder.py:59-79 | no violation exactly for the next layer of the order, and otherwise the violation that names what is wrong |
| PromptBuilder.PromptBuilder.SetSystemIdentity | agent_harness/prompt/builder.py:90-94 | accepted exactly if the calls stay a prefix of the layer order; a rejected call changes nothing |
| PromptBuilder.PromptBuilder.SetDomainMemory | agent_harness/prompt/builder.py:96-100 | likewise |
| PromptBuilder.PromptBuilder.SetSemanticPatterns | agent_harness/prompt/builder.py:102-106 | likewise |
| PromptBuilder.PromptBuilder.SetSessionState | agent_harness/prompt/builder.py:108-112 | likewise |
| PromptBuilder.PromptBuilder.AddWorkingMessage | agent_harness/prompt/builder.py:114-119 | likewise, any number of times once the four layers are set |
| PromptBuilder.PromptBuilder.Build | agent_harness/prompt/builder.py:121-175 | the prompt is a function of the accepted calls; an error without system identity |
| PromptBuilder.LayersNeverChange | agent_harness/prompt/builder.py:59-119 | no later call changes a layer that is set, and working messages are only added |
| PromptBuilder.SystemIsStable | agent_harness/prompt/builder.py:129-133 | builders that agree on the first two layers build the same system text |
| PromptBuilder.HeadIsStable | agent_harness/prompt/builder.py:135-163 | builders that agree on all four layers build messages with the same head |
| PromptBuilder.WorkingExtends | agent_harness/prompt/builder.py:114-163 | a working message more extends the built messages at the end and changes nothing else |
| PromptBuilder.PromptAlternates | agent_harness/prompt/builder.py:135-163 | the whole conversation alternates from the user on if and only if the working messages do |
| PromptGrowth.PromptOnlyGrows | agent_harness/prompt/builder.py:121-175 | every accepted call leaves what was built as a prefix, of the system text and of the messages |
| PromptGrowth.LaterPromptsExtend | agent_harness/prompt/builder.py:121-175 | so does any number of accepted calls |
| PromptGrowth.PatternsStayInFront | agent_harness/prompt/builder.py:135-163 | builders that agree on identity, domain memory and patterns build the same system text and messages that start with the same pattern messages, whatever their session state |
| PromptGrowth.SystemHolds | agent_harness/prompt/builder.py:128-173 | the system text is the identity, followed by the domain memory if that is not empty; it is cached and estimated at 1.3 tokens a word |
| PromptGrowth.MessagesHold | agent_harness/prompt/builder.py:135-163 | the messages are one exchange that holds every pattern, if there are any, one that holds the session state, if it is not empty, and then the working messages, in this order and no others |
| CacheMonitor.CacheMonitor.RecordUsage | agent_harness/observability/cache_monitor.py:46-61 | each bucket stays the sum of its own records |
| CacheMonitor.CacheMonitor.GetStats | agent_harness/observability/cache_monitor.py:63-80 | the sum of the pair's records, zero without any |
| CacheMonitor.CacheMonitor.Summarize | agent_harness/observability/cache_monitor.py:82-117 | one entry per pair with its own sums and rate, and the overall rate of all records |
| CacheMonitor.NothingIsLost | agent_harness/observability/cache_monitor.py:96-109 | the buckets together hold the calls and the tokens of all records |
| CacheMonitor.StatsAre | agent_harness/observability/cache_monitor.py:46-61 | calls, input, creation and reads of a bucket are the sums over the records of its pair |
| CacheMonitor.CallsAreCounted | agent_harness/observability/cache_monitor.py:55-61 | every record counts as one call |
| CacheMonitor.RatesAreShares | agent_harness/observability/cache_monitor.py:26-32 | a rate times all cacheable tokens is the tokens read, and 0 without any |
| CacheMonitor.OverallIsMediant | agent_harness/observability/cache_monitor.py:108-112 | the overall rate lies between any bounds of the rates of the pairs with cacheable tokens |
| CacheMonitor.RatesAreFractions | agent_harness/observability/cache_monitor.py:26-32 | without negative tokens every rate lies between 0 and 1 |
| VisionMerge.ExtractPages | agent_harness/activities/vision_extract.py:96-163 | text and fields are those of merging page after page, for any size of batches |
| VisionMerge.MergePage | agent_harness/activities/vision_extract.py:153-156 | merging the fields of a page in place is merging its items one by one |
| VisionMerge.PartOfEveryPage | agent_harness/activities/vision_extract.py:138-152 | one text part per page, in page order, failed pages included |
| VisionMerge.PageShows | agent_harness/activities/vision_extract.py:138-152 | every page shows in the full text under its number counted from one, with its text or the error that stopped it |
| VisionMerge.MergedItems | agent_harness/activities/vision_extract.py:131-156 | merging page by page is merging all items in order |
| VisionMerge.MergedFieldIs | agent_harness/activities/vision_extract.py:153-156 | a merged field is its first value that is not empty, or else its last empty one |
| ToolSchemas.ToolSchemaRegistry.Snapshot | agent_harness/core/tool_schema_registry.py:43-54 | the snapshot maps each name to the hash of its last tool |
| ToolSchemas.ToolSchemaRegistry.CompareCurrent | agent_harness/core/tool_schema_registry.py:62-83 | every event gives the hash of the snapshot, none for a new tool, and the current hash; no event exactly if every tool matches; the events bring the snapshot up to the current tools exactly if the last tool of each name decides |
| ToolSchemas.ToolSchemaRegistry.Verify | agent_harness/core/tool_schema_registry.py:56-94 | every event names a tool that has changed, come or gone, with its hash before and its hash now; no event exactly if every tool matches and none is gone; the events turn the snapshot into the current hashes exactly if, wherever the last tool of a name matches, all tools of that name match |
| ToolSchemas.UniqueDecides | agent_harness/core/tool_schema_registry.py:66-83 | that condition holds if no name occurs twice |
| ToolSchemas.LastNeedNotDecide | agent_harness/core/tool_schema_registry.py:66-83 | it fails for a new tool followed by one of the same name that is as it was |
| ToolSchemas.MatchMeansEqual | agent_harness/core/tool_schema_registry.py:66-92 | with unique names, matching and none gone means that snapshot and current hashes are equal |

## Left out

- OverallIsMediant: floating-point rounding of the rates is not modelled; rates are reals.
- SimilarityBounded: vectors are over the reals and the square root is an exact non-negative root, so rounding errors of floats are not covered.
- Verify: the order of the events for tools that are gone is left open, and hashes are an arbitrary function that never gives the empty text.
- Search: embeddings are given functions of the text; ids are numbers not handed out before, where the source draws random ones.
- Check: the clock is a parameter that does not go backwards, as a monotonic clock.
- BuildCompletenessReport: sets stand where the source sorts their elements into lists.
- ExtractPages: rendering, recognition and JSON of a page are an arbitrary function of the page number; the order of keys in the merged fields is not kept.
- ComputeCompletenessReport: the product profile is an arbitrary function of the data, and the list of citation classes that restates the three lists is omitted.
- RunLoop: the one loop of the source is split into methods for a turn, its calls and a call; logging, the arguments of the model client and the metadata of a compaction are omitted, and texts of results and guidance are values that determine them.
- AppendProgress: characters stand for UTF-8 bytes, and the storage back end is a map.
- RunDce: activities are arbitrary functions of how often they have been called; timeouts, retry policies, identifiers and constant input fields are omitted, and the two parallel activities of phase 2 appear in one order.
- RunPlain: HAS and IDP share one model, as they differ only in the fields of their output.
- NormalizedIsRegistered: upper and lower case are those of ASCII letters; what `\w` and `\d` accept beyond ASCII is a parameter.
- The parsing of plans, of QA reports and of model answers: reports are values of what parsing makes of them.
- The edges of the graph store and the neighbours of a node.
- Heuristics over product descriptions, injection patterns and tool-result patterns: an arbitrary function stands for the sanitiser.
- Configuration, permissions, manifests, export to spreadsheets, metrics, heartbeats, storage back ends, the gateway and all network clients.
- Threads and locks of the cache monitor: its sequential behaviour is modelled.
