/** `ToolHandler.run_loop`: the send, execute, answer cycle, against arbitrary models and tool handlers. */
module ToolLoop {
  import opened Options
  import Text
  import opened Transcript
  import opened LoopDetection
  import opened Usage

  datatype Reply = Reply(content: string, stopReason: string, calls: seq<ToolCall>, usage: TokenUsage)

  datatype Handled = Raised(error: string) | Returned(output: string)

  datatype Sanitized = Sanitized(content: string, wasSanitized: bool)

  datatype CompactionConfig = CompactionConfig(maxTokens: int, threshold: real)

  /** What is fixed when the loop starts. */
  datatype Setup = Setup(
    handlers: set<string>,
    sanitize: (string, string) -> Sanitized,
    compaction: Option<CompactionConfig>,
    detect: bool,
    threshold: int)

  /** What the outside answers: the model by turn, a handler by turn and call, the summariser by turn. */
  datatype World = World(
    replies: nat -> Reply,
    handled: (nat, nat) -> Handled,
    summaries: nat -> seq<Option<string>>)

  datatype ToolLoopResult = ToolLoopResult(
    finalContent: string,
    turns: nat,
    toolCalls: seq<ToolCall>,
    toolErrors: nat,
    loopWarnings: nat,
    maxTurnsReached: bool,
    totalUsage: TokenUsage)

  // ----- One call -----

  datatype Event = Unknown | Failed(error: string) | Done(text: string, flagged: bool)

  function Calls(world: World, k: nat): seq<ToolCall> {
    world.replies(k).calls
  }

  /** What happens to call j of turn k. */
  function EventOf(setup: Setup, world: World, k: nat, j: nat): Event
    requires j < |Calls(world, k)|
  {
    var call := Calls(world, k)[j];
    if call.name !in setup.handlers then Unknown
    else
      match world.handled(k, j)
      case Raised(error) => Failed(error)
      case Returned(output) =>
        var s := setup.sanitize(output, call.name);
        Done(s.content, s.wasSanitized)
  }

  function ErrorOf(e: Event): nat {
    match e
    case Unknown => 1
    case Failed(_) => 1
    case Done(_, flagged) => if flagged then 1 else 0
  }

  /** The errors of the first j calls of turn k. */
  function ErrorsIn(setup: Setup, world: World, k: nat, j: nat): nat
    requires j <= |Calls(world, k)|
  {
    if j == 0 then 0 else ErrorsIn(setup, world, k, j - 1) + ErrorOf(EventOf(setup, world, k, j - 1))
  }

  /** The resource that call j of turn k uses up: only handlers that return count. */
  function Recorded(setup: Setup, world: World, k: nat, j: nat): seq<string>
    requires j < |Calls(world, k)|
  {
    var call := Calls(world, k)[j];
    if EventOf(setup, world, k, j).Done? && Resource(call.name, call.input) != ""
      then [Resource(call.name, call.input)] else []
  }

  /** The resources used in the turns before k and in the first j calls of turn k. */
  function Log(setup: Setup, world: World, k: nat, j: nat): seq<string>
    requires j <= |Calls(world, k)|
    decreases k, j
  {
    if j > 0 then Log(setup, world, k, j - 1) + Recorded(setup, world, k, j - 1)
    else if k > 0 then Log(setup, world, k - 1, |Calls(world, k - 1)|)
    else []
  }

  /** The guidance for call j of turn k: the number it names counts this call. */
  function GuidanceOf(setup: Setup, world: World, k: nat, j: nat): Guidance
    requires j < |Calls(world, k)|
  {
    var call := Calls(world, k)[j];
    var resource := Resource(call.name, call.input);
    if !setup.detect || resource == "" then NoGuidance
    else GuidanceFor(setup.threshold, call.name, resource, Count(Log(setup, world, k, j + 1), resource))
  }

  function ResultBlock(setup: Setup, world: World, k: nat, j: nat): Block
    requires j < |Calls(world, k)|
  {
    var call := Calls(world, k)[j];
    match EventOf(setup, world, k, j)
    case Unknown => ToolResult(call.id, UnknownTool(call.name), true)
    case Failed(error) => ToolResult(call.id, Outcome.ToolError(error), true)
    case Done(text, _) => ToolResult(call.id, Output(text, GuidanceOf(setup, world, k, j)), false)
  }

  function ResultBlocks(setup: Setup, world: World, k: nat, j: nat): (r: seq<Block>)
    requires j <= |Calls(world, k)|
    ensures |r| == j
  {
    if j == 0 then [] else ResultBlocks(setup, world, k, j - 1) + [ResultBlock(setup, world, k, j - 1)]
  }

  // ----- One turn -----

  function UseBlocks(calls: seq<ToolCall>): seq<Block> {
    if calls == [] then [] else UseBlocks(calls[..|calls| - 1]) + [ToolUse(calls[|calls| - 1])]
  }

  /** The assistant message of a reply: its text, if there is any, and its tool uses. */
  function AssistantMessage(reply: Reply): Message {
    Message(Assistant, Blocks((if reply.content != "" then [Block.Text(reply.content)] else [])
                              + UseBlocks(reply.calls)))
  }

  function ResultMessage(setup: Setup, world: World, k: nat): Message {
    Message(User, Blocks(ResultBlocks(setup, world, k, |Calls(world, k)|)))
  }

  /** The words of the messages that are plain text. */
  function Tokens(ms: seq<Message>): nat {
    if ms == [] then 0
    else
      var last := ms[|ms| - 1];
      Tokens(ms[..|ms| - 1]) + if last.content.Plain? then |Text.Split(last.content.text)| else 0
  }

  predicate NeedsCompaction(setup: Setup, ms: seq<Message>) {
    setup.compaction.Some?
    && Tokens(ms) as real >= setup.compaction.value.maxTokens as real * setup.compaction.value.threshold
  }

  /** The texts of the blocks that have one. */
  function SummaryText(blocks: seq<Option<string>>): string {
    if blocks == [] then ""
    else
      var last := blocks[|blocks| - 1];
      SummaryText(blocks[..|blocks| - 1]) + if last.Some? then last.value else ""
  }

  /** The transcript before turn k is sent or compacted. */
  function Before(setup: Setup, world: World, init: seq<Message>, k: nat): seq<Message>
    decreases k, 0
  {
    if k == 0 then init
    else Sent(setup, world, init, k - 1) + [AssistantMessage(world.replies(k - 1)), ResultMessage(setup, world, k - 1)]
  }

  /** The transcript that turn k sends. */
  function Sent(setup: Setup, world: World, init: seq<Message>, k: nat): seq<Message>
    decreases k, 1
  {
    var ms := Before(setup, world, init, k);
    if NeedsCompaction(setup, ms) then Compacted(RECENT_MESSAGES_KEEP, SummaryText(world.summaries(k)), ms) else ms
  }

  // ----- The whole run -----

  function AllCalls(world: World, k: nat): seq<ToolCall> {
    if k == 0 then [] else AllCalls(world, k - 1) + Calls(world, k - 1)
  }

  function AllErrors(setup: Setup, world: World, k: nat): nat {
    if k == 0 then 0 else AllErrors(setup, world, k - 1) + ErrorsIn(setup, world, k - 1, |Calls(world, k - 1)|)
  }

  function AllUsage(world: World, k: nat): TokenUsage {
    if k == 0 then NO_USAGE else Add(AllUsage(world, k - 1), world.replies(k - 1).usage)
  }

  /** The calls that draw a warning: per resource, all from the threshold-th on. */
  ghost function AllWarnings(setup: Setup, world: World, k: nat): nat {
    var log := Log(setup, world, k, 0);
    if setup.detect then SumOver(Resources(log), ExcessIn(log, setup.threshold)) else 0
  }

  predicate AsksForTools(world: World, k: nat) {
    world.replies(k).stopReason == "tool_use"
  }

  /** The result of a run with at least one turn, in closed form. */
  ghost predicate Accounts(setup: Setup, world: World, maxTurns: int, r: ToolLoopResult) {
    && 1 <= r.turns <= maxTurns
    && (forall i :: 0 <= i < r.turns - 1 ==> AsksForTools(world, i))
    && (if r.maxTurnsReached then r.turns == maxTurns && AsksForTools(world, r.turns - 1)
        else !AsksForTools(world, r.turns - 1))
    && r.finalContent == world.replies(r.turns - 1).content
    && r.totalUsage == AllUsage(world, r.turns)
    && var executed := if r.maxTurnsReached then r.turns else r.turns - 1;
    && r.toolCalls == AllCalls(world, executed)
    && r.toolErrors == AllErrors(setup, world, executed)
    && r.loopWarnings == AllWarnings(setup, world, executed)
  }

  /** A Python list of messages. */
  class MessageList {
    var items: seq<Message>

    constructor (items: seq<Message>)
      ensures this.items == items
    {
      this.items := items;
    }

    method Append(m: Message)
      modifies this
      ensures items == old(items) + [m]
    {
      items := items + [m];
    }
  }

  /** The prompt dictionary: its messages are a list that others may hold too. */
  class Prompt {
    var messages: MessageList

    constructor (messages: MessageList)
      ensures this.messages == messages
    {
      this.messages := messages;
    }
  }

  /** The model client, with every transcript that it was sent. */
  class Client {
    var sent: seq<seq<Message>>

    method SendMessage(prompt: Prompt, reply: Reply) returns (r: Reply)
      modifies this
      ensures r == reply && sent == old(sent) + [prompt.messages.items]
    {
      sent := sent + [prompt.messages.items];
      r := reply;
    }
  }

  /** `CompactionClient.compact`: a new list with the summary and the recent messages. */
  method Compact(messages: MessageList, answer: seq<Option<string>>) returns (r: MessageList)
    ensures fresh(r) && r.items == Compacted(RECENT_MESSAGES_KEEP, SummaryText(answer), messages.items)
  {
    var summary := "";
    for i := 0 to |answer|
      invariant summary == SummaryText(answer[..i])
    {
      assert answer[..i + 1][..i] == answer[..i];
      if answer[i].Some? { summary := summary + answer[i].value; }
    }
    assert answer[..|answer|] == answer;
    var n := |messages.items|;
    var recent := if n > RECENT_MESSAGES_KEEP then messages.items[n - RECENT_MESSAGES_KEEP..] else messages.items;
    r := new MessageList([Message(Assistant, Plain(summary))] + recent);
  }

  /** The tool calls of turn k, one after the other. */
  method ExecuteCalls(setup: Setup, world: World, k: nat, tracker: ResourceEditTracker?)
    returns (results: seq<Block>, errors: nat, warnings: nat)
    requires tracker != null <==> setup.detect
    requires tracker != null ==>
               tracker.Valid() && tracker.threshold == setup.threshold && tracker.log == Log(setup, world, k, 0)
    modifies tracker
    ensures tracker != null ==> tracker.Valid() && tracker.log == Log(setup, world, k, |Calls(world, k)|)
    ensures results == ResultBlocks(setup, world, k, |Calls(world, k)|)
    ensures errors == ErrorsIn(setup, world, k, |Calls(world, k)|)
    ensures setup.detect ==> Warnings(Log(setup, world, k, |Calls(world, k)|), setup.threshold)
                             == Warnings(Log(setup, world, k, 0), setup.threshold) + warnings
    ensures !setup.detect ==> warnings == 0
  {
    results, errors, warnings := [], 0, 0;
    var calls := Calls(world, k);
    for j := 0 to |calls|
      invariant tracker != null ==> tracker.Valid() && tracker.log == Log(setup, world, k, j)
      invariant results == ResultBlocks(setup, world, k, j)
      invariant errors == ErrorsIn(setup, world, k, j)
      invariant setup.detect ==> Warnings(Log(setup, world, k, j), setup.threshold)
                                 == Warnings(Log(setup, world, k, 0), setup.threshold) + warnings
      invariant !setup.detect ==> warnings == 0
    {
      var block, errs, warns := ExecuteCall(setup, world, k, j, tracker);
      results, errors, warnings := results + [block], errors + errs, warnings + warns;
    }
  }

  /** One tool call; a handler that is missing or raises leaves the tracker alone. */
  method ExecuteCall(setup: Setup, world: World, k: nat, j: nat, tracker: ResourceEditTracker?)
    returns (block: Block, errors: nat, warnings: nat)
    requires j < |Calls(world, k)|
    requires tracker != null <==> setup.detect
    requires tracker != null ==>
               tracker.Valid() && tracker.threshold == setup.threshold && tracker.log == Log(setup, world, k, j)
    modifies tracker
    ensures tracker != null ==> tracker.Valid() && tracker.log == Log(setup, world, k, j + 1)
    ensures block == ResultBlock(setup, world, k, j) && errors == ErrorOf(EventOf(setup, world, k, j))
    ensures setup.detect ==> Warnings(Log(setup, world, k, j + 1), setup.threshold)
                             == Warnings(Log(setup, world, k, j), setup.threshold) + warnings
    ensures !setup.detect ==> warnings == 0
  {
    errors, warnings := 0, 0;
    var call := Calls(world, k)[j];
    assert Log(setup, world, k, j + 1) == Log(setup, world, k, j) + Recorded(setup, world, k, j);
    if call.name !in setup.handlers {
      return ToolResult(call.id, UnknownTool(call.name), true), 1, 0;
    }
    var handled := world.handled(k, j);
    if handled.Raised? {
      return ToolResult(call.id, Outcome.ToolError(handled.error), true), 1, 0;
    }
    var sanitized := setup.sanitize(handled.output, call.name);
    if sanitized.wasSanitized { errors := errors + 1; }
    var guidance := NoGuidance;
    if tracker != null {
      WarningsStep(Log(setup, world, k, j), Resource(call.name, call.input), setup.threshold);
      guidance := tracker.Record(call.name, call.input);
      if guidance != NoGuidance { warnings := warnings + 1; }
    }
    block := ToolResult(call.id, Output(sanitized.content, guidance), false);
  }

  /** The part of a turn after a reply that asks for tools. */
  method TakeTurn(setup: Setup, world: World, k: nat, tracker: ResourceEditTracker?, current: MessageList)
    returns (errors: nat, warnings: nat)
    requires tracker != null <==> setup.detect
    requires tracker != null ==> Tracks(setup, world, k, tracker)
    modifies tracker, current
    ensures tracker != null ==> Tracks(setup, world, k + 1, tracker)
    ensures current.items == old(current.items) + [AssistantMessage(world.replies(k)), ResultMessage(setup, world, k)]
    ensures errors == ErrorsIn(setup, world, k, |Calls(world, k)|)
    ensures WarningsBefore(setup, world, k + 1) == WarningsBefore(setup, world, k) + warnings
  {
    current.Append(AssistantMessage(world.replies(k)));
    var results;
    results, errors, warnings := ExecuteCalls(setup, world, k, tracker);
    current.Append(Message(User, Blocks(results)));
  }

  lemma WarningsStep(log: seq<string>, x: string, threshold: int)
    ensures Warnings(log + [x], threshold)
            == Warnings(log, threshold) + if Count(log + [x], x) >= threshold then 1 else 0
  {
    assert (log + [x])[..|log|] == log;
  }

  /** The transcripts of the first n turns. */
  function SentUpTo(setup: Setup, world: World, init: seq<Message>, n: nat): (r: seq<seq<Message>>)
    ensures |r| == n
  {
    if n == 0 then [] else SentUpTo(setup, world, init, n - 1) + [Sent(setup, world, init, n - 1)]
  }

  /** The first part of a turn: the transcript is compacted if need be and sent. */
  method SendCompacted(setup: Setup, world: World, ghost init: seq<Message>, k: nat, client: Client, prompt: Prompt)
    requires prompt.messages.items == Before(setup, world, init, k)
    modifies client, prompt
    ensures prompt.messages.items == Sent(setup, world, init, k)
    ensures prompt.messages == old(prompt.messages) || fresh(prompt.messages)
    ensures client.sent == old(client.sent) + [Sent(setup, world, init, k)]
  {
    if NeedsCompaction(setup, prompt.messages.items) {
      prompt.messages := Compact(prompt.messages, world.summaries(k));
    }
    var reply := client.SendMessage(prompt, world.replies(k));
  }

  /** The tracker has seen the turns before k. */
  ghost predicate Tracks(setup: Setup, world: World, k: nat, tracker: ResourceEditTracker)
    reads tracker
  {
    tracker.Valid() && tracker.threshold == setup.threshold && tracker.log == Log(setup, world, k, 0)
  }

  function WarningsBefore(setup: Setup, world: World, k: nat): nat {
    if setup.detect then Warnings(Log(setup, world, k, 0), setup.threshold) else 0
  }

  lemma WarningsInTotal(setup: Setup, world: World, k: nat)
    ensures WarningsBefore(setup, world, k) == AllWarnings(setup, world, k)
  {
    WarningsClosedForm(Log(setup, world, k, 0), setup.threshold);
  }

  /** A loop without a turn has no reply to return, so it gives None where the source raises. */
  method RunLoop(setup: Setup, world: World, client: Client, prompt: Prompt, maxTurns: int)
    returns (r: Option<ToolLoopResult>)
    modifies client
    ensures r.None? <==> maxTurns <= 0
    ensures r.None? ==> client.sent == old(client.sent)
    ensures r.Some? ==> Accounts(setup, world, maxTurns, r.value)
    ensures r.Some? ==>
              client.sent == old(client.sent) + SentUpTo(setup, world, old(prompt.messages.items), r.value.turns)
    ensures prompt.messages == old(prompt.messages) && prompt.messages.items == old(prompt.messages.items)
  {
    ghost var init := prompt.messages.items;
    if maxTurns <= 0 { return None; }
    var messages := new MessageList(prompt.messages.items);
    var currentPrompt := new Prompt(messages);
    var result := RunTurns(setup, world, client, currentPrompt, init, maxTurns);
    r := Some(result);
  }

  /** What the loop has added up. */
  datatype Totals = Totals(calls: seq<ToolCall>, usage: TokenUsage, errors: nat, warnings: nat)

  function TotalsAt(setup: Setup, world: World, k: nat): Totals {
    Totals(AllCalls(world, k), AllUsage(world, k), AllErrors(setup, world, k), WarningsBefore(setup, world, k))
  }

  /** One turn: stop with a reply that asks for no tool, or go on with one that does. */
  method OneTurn(setup: Setup, world: World, ghost init: seq<Message>, ghost base: seq<seq<Message>>, k: nat,
                 tracker: ResourceEditTracker?, client: Client, prompt: Prompt, totals: Totals)
    returns (stop: bool, after: Totals)
    requires tracker != null <==> setup.detect
    requires tracker != null ==> Tracks(setup, world, k, tracker)
    requires prompt.messages.items == Before(setup, world, init, k)
    requires client.sent == base + SentUpTo(setup, world, init, k)
    requires totals == TotalsAt(setup, world, k)
    modifies tracker, client, prompt, prompt.messages
    ensures prompt.messages == old(prompt.messages) || fresh(prompt.messages)
    ensures client.sent == base + SentUpTo(setup, world, init, k + 1)
    ensures stop == !AsksForTools(world, k)
    ensures stop ==> after == totals.(usage := AllUsage(world, k + 1))
    ensures !stop ==> (tracker != null ==> Tracks(setup, world, k + 1, tracker))
    ensures !stop ==> prompt.messages.items == Before(setup, world, init, k + 1)
    ensures !stop ==> after == TotalsAt(setup, world, k + 1)
  {
    SendCompacted(setup, world, init, k, client, prompt);
    var reply := world.replies(k);
    after := totals.(usage := Add(totals.usage, reply.usage));
    stop := reply.stopReason != "tool_use";
    if !stop {
      var errors, warnings := TakeTurn(setup, world, k, tracker, prompt.messages);
      after := Totals(totals.calls + reply.calls, after.usage, totals.errors + errors, totals.warnings + warnings);
    }
  }

  /** The turns of `run_loop`, over its own copy of the prompt. */
  method RunTurns(setup: Setup, world: World, client: Client, prompt: Prompt, ghost init: seq<Message>, maxTurns: nat)
    returns (r: ToolLoopResult)
    requires maxTurns >= 1 && prompt.messages.items == init
    modifies client, prompt, prompt.messages
    ensures Accounts(setup, world, maxTurns, r)
    ensures client.sent == old(client.sent) + SentUpTo(setup, world, init, r.turns)
  {
    var totals := Totals([], NO_USAGE, 0, 0);
    var tracker: ResourceEditTracker? := null;
    if setup.detect { tracker := new ResourceEditTracker(setup.threshold); }
    var turn := 0;
    var stop := false;
    while turn < maxTurns && !stop
      invariant 0 <= turn <= maxTurns && (stop ==> turn >= 1)
      invariant prompt.messages == old(prompt.messages) || fresh(prompt.messages)
      invariant tracker != null <==> setup.detect
      invariant tracker != null ==> fresh(tracker)
      invariant tracker != null && !stop ==> Tracks(setup, world, turn, tracker)
      invariant !stop ==> prompt.messages.items == Before(setup, world, init, turn)
      invariant client.sent == old(client.sent) + SentUpTo(setup, world, init, turn)
      invariant forall i :: 0 <= i < turn ==> (AsksForTools(world, i) <==> !stop || i < turn - 1)
      invariant totals == if stop then TotalsAt(setup, world, turn - 1).(usage := AllUsage(world, turn))
                          else TotalsAt(setup, world, turn)
      decreases maxTurns - turn, !stop
    {
      stop, totals := OneTurn(setup, world, init, old(client.sent), turn, tracker, client, prompt, totals);
      turn := turn + 1;
    }
    r := ToolLoopResult(world.replies(turn - 1).content, turn, totals.calls, totals.errors, totals.warnings, !stop,
                        totals.usage);
    TurnsAccount(setup, world, maxTurns, turn, stop, totals, r);
  }

  lemma TurnsAccount(setup: Setup, world: World, maxTurns: nat, turn: nat, stop: bool, totals: Totals,
                     r: ToolLoopResult)
    requires 1 <= turn <= maxTurns && (stop || turn == maxTurns)
    requires forall i :: 0 <= i < turn ==> (AsksForTools(world, i) <==> !stop || i < turn - 1)
    requires totals == if stop then TotalsAt(setup, world, turn - 1).(usage := AllUsage(world, turn))
                       else TotalsAt(setup, world, turn)
    requires r == ToolLoopResult(world.replies(turn - 1).content, turn, totals.calls, totals.errors, totals.warnings,
                                 !stop, totals.usage)
    ensures Accounts(setup, world, maxTurns, r)
  {
    WarningsInTotal(setup, world, if stop then turn - 1 else turn);
  }

  // ----- The transcripts are well formed -----

  lemma {:induction false} UsesOfAppend(a: seq<Block>, b: seq<Block>)
    ensures UsesOf(a + b) == UsesOf(a) + UsesOf(b)
  {
    if a == [] {
      assert a + b == b;
    } else {
      assert (a + b)[1..] == a[1..] + b;
      UsesOfAppend(a[1..], b);
    }
  }

  lemma {:induction false} ResultsOfAppend(a: seq<Block>, b: seq<Block>)
    ensures ResultsOf(a + b) == ResultsOf(a) + ResultsOf(b)
  {
    if a == [] {
      assert a + b == b;
    } else {
      assert (a + b)[1..] == a[1..] + b;
      ResultsOfAppend(a[1..], b);
    }
  }

  lemma OneBlock(b: Block)
    ensures UsesOf([b]) == (if b.ToolUse? then [b.call.id] else [])
    ensures ResultsOf([b]) == (if b.ToolResult? then [b.toolUseId] else [])
  {
    assert [b][1..] == [];
  }

  function Ids(calls: seq<ToolCall>): seq<string> {
    if calls == [] then [] else Ids(calls[..|calls| - 1]) + [calls[|calls| - 1].id]
  }

  lemma {:induction false} UseBlocksIds(calls: seq<ToolCall>)
    ensures UsesOf(UseBlocks(calls)) == Ids(calls) && ResultsOf(UseBlocks(calls)) == []
  {
    if calls != [] {
      var init, last := calls[..|calls| - 1], calls[|calls| - 1];
      UseBlocksIds(init);
      UsesOfAppend(UseBlocks(init), [ToolUse(last)]);
      ResultsOfAppend(UseBlocks(init), [ToolUse(last)]);
      OneBlock(ToolUse(last));
    }
  }

  lemma IdsTake(calls: seq<ToolCall>, j: nat)
    requires 0 < j <= |calls|
    ensures Ids(calls[..j]) == Ids(calls[..j - 1]) + [calls[j - 1].id]
  {
    assert calls[..j][..j - 1] == calls[..j - 1];
  }

  lemma ResultAppends(blocks: seq<Block>, block: Block)
    requires block.ToolResult?
    ensures ResultsOf(blocks + [block]) == ResultsOf(blocks) + [block.toolUseId]
            && UsesOf(blocks + [block]) == UsesOf(blocks)
  {
    UsesOfAppend(blocks, [block]);
    ResultsOfAppend(blocks, [block]);
    OneBlock(block);
  }

  lemma {:induction false} ResultBlocksIds(setup: Setup, world: World, k: nat, j: nat)
    requires j <= |Calls(world, k)|
    ensures ResultsOf(ResultBlocks(setup, world, k, j)) == Ids(Calls(world, k)[..j])
    ensures UsesOf(ResultBlocks(setup, world, k, j)) == []
  {
    if j > 0 {
      ResultBlocksIds(setup, world, k, j - 1);
      IdsTake(Calls(world, k), j);
      ResultAppends(ResultBlocks(setup, world, k, j - 1), ResultBlock(setup, world, k, j - 1));
    }
  }

  /** A turn appends a tool-use message and the message that answers each of its calls, in order. */
  lemma TurnIsPair(setup: Setup, world: World, k: nat)
    ensures Pair(AssistantMessage(world.replies(k)), ResultMessage(setup, world, k))
    ensures UseIds(AssistantMessage(world.replies(k))) == Ids(Calls(world, k))
  {
    var reply := world.replies(k);
    var text := if reply.content != "" then [Block.Text(reply.content)] else [];
    UseBlocksIds(reply.calls);
    UsesOfAppend(text, UseBlocks(reply.calls));
    ResultsOfAppend(text, UseBlocks(reply.calls));
    if reply.content != "" { OneBlock(Block.Text(reply.content)); }
    ResultBlocksIds(setup, world, k, |Calls(world, k)|);
    assert Calls(world, k)[..|Calls(world, k)|] == Calls(world, k);
  }

  lemma {:induction false} TranscriptsAligned(setup: Setup, world: World, init: seq<Message>, k: nat)
    requires Aligned(init)
    ensures Aligned(Before(setup, world, init, k)) && Aligned(Sent(setup, world, init, k))
  {
    if k > 0 {
      TranscriptsAligned(setup, world, init, k - 1);
      TurnIsPair(setup, world, k - 1);
      AppendPairAligned(Sent(setup, world, init, k - 1), AssistantMessage(world.replies(k - 1)),
                        ResultMessage(setup, world, k - 1));
    }
    CompactionKeepsAligned(RECENT_MESSAGES_KEEP, SummaryText(world.summaries(k)), Before(setup, world, init, k));
  }

  /**
   Whatever the model, the handlers and the summariser answer and whichever turns compact: every
   transcript that goes out, to the model or to the summariser, is well formed.
   */
  lemma {:induction false} EveryTranscriptIsWellFormed(setup: Setup, world: World, init: seq<Message>, n: nat, k: nat)
    requires Aligned(init) && k < n
    ensures WellFormed(SentUpTo(setup, world, init, n)[k]) && WellFormed(Before(setup, world, init, k))
    ensures SentUpTo(setup, world, init, n)[k] == Sent(setup, world, init, k)
  {
    SentUpToAt(setup, world, init, n, k);
    TranscriptsAligned(setup, world, init, k);
    AlignedIsWellFormed(Sent(setup, world, init, k));
    AlignedIsWellFormed(Before(setup, world, init, k));
  }

  lemma {:induction false} SentUpToAt(setup: Setup, world: World, init: seq<Message>, n: nat, k: nat)
    requires k < n
    ensures SentUpTo(setup, world, init, n)[k] == Sent(setup, world, init, k)
  {
    if n > 1 { SentUpToAt(setup, world, init, n - 1, if k < n - 1 then k else 0); }
  }

  // ----- What a run counts -----

  function FlaggedIn(setup: Setup, world: World, k: nat, j: nat): nat
    requires j <= |Calls(world, k)|
  {
    if j == 0 then 0
    else
      var e := EventOf(setup, world, k, j - 1);
      FlaggedIn(setup, world, k, j - 1) + if e.Done? && e.flagged then 1 else 0
  }

  function ErrorBlocks(bs: seq<Block>): nat {
    if bs == [] then 0
    else
      var last := bs[|bs| - 1];
      ErrorBlocks(bs[..|bs| - 1]) + if last.ToolResult? && last.isError then 1 else 0
  }

  /** The errors of a turn are the error results that it sends back and the outputs that were sanitised. */
  lemma {:induction false} ErrorsAreSentBack(setup: Setup, world: World, k: nat, j: nat)
    requires j <= |Calls(world, k)|
    ensures ErrorsIn(setup, world, k, j) == ErrorBlocks(ResultBlocks(setup, world, k, j))
            + FlaggedIn(setup, world, k, j)
  {
    if j > 0 {
      ErrorsAreSentBack(setup, world, k, j - 1);
      var bs := ResultBlocks(setup, world, k, j);
      assert bs[..|bs| - 1] == ResultBlocks(setup, world, k, j - 1);
    }
  }
}
