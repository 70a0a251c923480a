/** What goes back to the model: the texts of a turn, and that every output in a transcript has been sanitised. */
module Sanitised {
  import opened Options
  import opened Transcript
  import opened LoopDetection
  import opened ToolLoop
  import Text

  // ----- One turn -----

  lemma {:induction false} ResultBlockAt(setup: Setup, world: World, k: nat, j: nat, n: nat)
    requires j < n <= |Calls(world, k)|
    ensures ResultBlocks(setup, world, k, n)[j] == ResultBlock(setup, world, k, j)
  {
    if j < n - 1 { ResultBlockAt(setup, world, k, j, n - 1); }
  }

  /**
   The j-th result of a turn answers the j-th call. A tool without a handler and a handler that raises give
   an error; what a handler returns is sent as the sanitiser leaves it, with guidance exactly if the loop
   detector is on and the resource of the call has been used as often as the threshold says.
   */
  lemma ResultOfCall(setup: Setup, world: World, k: nat, j: nat)
    requires j < |Calls(world, k)|
    ensures |ResultMessage(setup, world, k).content.blocks| == |Calls(world, k)|
    ensures var call, handled := Calls(world, k)[j], world.handled(k, j);
            var block := ResultMessage(setup, world, k).content.blocks[j];
            var resource := Resource(call.name, call.input);
            var times := Count(Log(setup, world, k, j + 1), resource);
            && block.ToolResult? && block.toolUseId == call.id
            && (call.name !in setup.handlers ==> block.content == UnknownTool(call.name) && block.isError)
            && (call.name in setup.handlers && handled.Raised? ==>
                  block.content == Outcome.ToolError(handled.error) && block.isError)
            && (call.name in setup.handlers && handled.Returned? ==>
                  && block.content.Output? && !block.isError
                  && block.content.text == setup.sanitize(handled.output, call.name).content
                  && (block.content.guidance != NoGuidance
                      <==> setup.detect && resource != "" && times >= setup.threshold)
                  && (block.content.guidance != NoGuidance ==>
                        block.content.guidance == Reconsider(call.name, resource, times)))
  {
    ResultBlockAt(setup, world, k, j, |Calls(world, k)|);
  }

  /** The assistant's message of a turn: its text, if there is any, and then its calls as the model made them. */
  lemma AssistantSays(reply: Reply)
    ensures var blocks := AssistantMessage(reply).content.blocks;
            var text := if reply.content != "" then 1 else 0;
            && |blocks| == text + |reply.calls|
            && (reply.content != "" ==> blocks[0] == Block.Text(reply.content))
            && forall j :: 0 <= j < |reply.calls| ==> blocks[text + j] == ToolUse(reply.calls[j])
  {
    UsesAre(reply.calls);
  }

  lemma {:induction false} UsesAre(calls: seq<ToolCall>)
    ensures |UseBlocks(calls)| == |calls|
    ensures forall j :: 0 <= j < |calls| ==> UseBlocks(calls)[j] == ToolUse(calls[j])
  {
    if calls != [] { UsesAre(calls[..|calls| - 1]); }
  }

  // ----- Every transcript -----

  /** Every output among the blocks has a text with p. */
  predicate OutputsHave(p: string -> bool, blocks: seq<Block>) {
    forall i :: 0 <= i < |blocks| && blocks[i].ToolResult? && blocks[i].content.Output? ==> p(blocks[i].content.text)
  }

  predicate MessageHas(p: string -> bool, m: Message) {
    m.content.Blocks? ==> OutputsHave(p, m.content.blocks)
  }

  predicate TranscriptHas(p: string -> bool, ms: seq<Message>) {
    forall i :: 0 <= i < |ms| ==> MessageHas(p, ms[i])
  }

  /** Whatever a tool gives, what the sanitiser leaves of it has p. */
  ghost predicate Ensures(sanitize: (string, string) -> Sanitized, p: string -> bool) {
    forall output, name :: p(sanitize(output, name).content)
  }

  lemma TurnHas(setup: Setup, world: World, k: nat, p: string -> bool)
    requires Ensures(setup.sanitize, p)
    ensures MessageHas(p, AssistantMessage(world.replies(k))) && MessageHas(p, ResultMessage(setup, world, k))
  {
    UsesAre(world.replies(k).calls);
    var blocks := ResultMessage(setup, world, k).content.blocks;
    forall j | 0 <= j < |blocks| && blocks[j].ToolResult?
      && blocks[j].content.Output? ensures p(blocks[j].content.text) {
      ResultOfCall(setup, world, k, j);
    }
  }

  lemma CompactedHas(keep: nat, summary: string, ms: seq<Message>, p: string -> bool)
    requires TranscriptHas(p, ms)
    ensures TranscriptHas(p, Compacted(keep, summary, ms))
  {
    var r := Compacted(keep, summary, ms);
    forall i | 0 <= i < |r| ensures MessageHas(p, r[i]) {
      if i > 0 {
        var k := if |ms| > keep then |ms| - keep + i - 1 else i - 1;
        assert r[i] == ms[k];
      }
    }
  }

  /**
   Whatever property the sanitiser ensures, every output in every transcript of a run has it, before and
   after compaction, if those in the transcript that it starts with do.
   */
  lemma {:induction false} TranscriptsAreSanitised(setup: Setup, world: World, init: seq<Message>, k: nat,
                                                   p: string -> bool)
    requires Ensures(setup.sanitize, p) && TranscriptHas(p, init)
    ensures TranscriptHas(p, Before(setup, world, init, k)) && TranscriptHas(p, Sent(setup, world, init, k))
  {
    if k > 0 {
      TranscriptsAreSanitised(setup, world, init, k - 1, p);
      TurnHas(setup, world, k - 1, p);
    }
    CompactedHas(RECENT_MESSAGES_KEEP, SummaryText(world.summaries(k)), Before(setup, world, init, k), p);
  }

  /** What the model is sent in the first n turns has nothing in it that the sanitiser does not let through. */
  lemma EverySentIsSanitised(setup: Setup, world: World, init: seq<Message>, n: nat, i: nat, p: string -> bool)
    requires Ensures(setup.sanitize, p) && TranscriptHas(p, init) && i < n
    ensures TranscriptHas(p, SentUpTo(setup, world, init, n)[i])
  {
    SentUpToAt(setup, world, init, n, i);
    TranscriptsAreSanitised(setup, world, init, i, p);
  }

  // ----- What compaction does to a transcript -----

  /** What is sent is below the threshold, or it is a summary and at most ten messages. */
  lemma SentIsBounded(setup: Setup, world: World, init: seq<Message>, k: nat)
    requires setup.compaction.Some?
    ensures var ms := Sent(setup, world, init, k);
            || Tokens(ms) as real < setup.compaction.value.maxTokens as real * setup.compaction.value.threshold
            || (1 <= |ms| <= 11 && ms[0] == Message(Assistant, Plain(SummaryText(world.summaries(k)))))
  {
  }

  lemma CompactedIs(keep: nat, summary: string, ms: seq<Message>)
    ensures var r, n := Compacted(keep, summary, ms), if |ms| < keep then |ms| else keep;
            |r| == n + 1 && r[1..] == ms[|ms| - n..]
  {
  }

  /** Compaction keeps the latest messages: what is sent is all there is, or a summary and the last ten. */
  lemma LatestAreSent(setup: Setup, world: World, init: seq<Message>, k: nat)
    ensures var ms, before := Sent(setup, world, init, k), Before(setup, world, init, k);
            var n := if |before| < 10 then |before| else 10;
            ms == before || (|ms| == n + 1 && ms[1..] == before[|before| - n..])
  {
    CompactedIs(RECENT_MESSAGES_KEEP, SummaryText(world.summaries(k)), Before(setup, world, init, k));
  }

  /** So the last turn is always sent whole. */
  lemma LatestTurnIsSent(setup: Setup, world: World, init: seq<Message>, k: nat)
    ensures var ms := Sent(setup, world, init, k + 1);
            |ms| >= 2 && ms[|ms| - 2..] == [AssistantMessage(world.replies(k)), ResultMessage(setup, world, k)]
  {
    LatestAreSent(setup, world, init, k + 1);
    EndsAlike(Sent(setup, world, init, k + 1), Sent(setup, world, init, k),
              [AssistantMessage(world.replies(k)), ResultMessage(setup, world, k)]);
  }

  lemma EndsAlike(ms: seq<Message>, earlier: seq<Message>, turn: seq<Message>)
    requires |turn| == 2
    requires var before := earlier + turn;
             var n := if |before| < 10 then |before| else 10;
             ms == before || (|ms| == n + 1 && ms[1..] == before[|before| - n..])
    ensures |ms| >= 2 && ms[|ms| - 2..] == turn
  {
    var before := earlier + turn;
    assert before[|before| - 2..] == turn;
    if ms != before {
      var n := |ms| - 1;
      assert ms[|ms| - 2..] == ms[1..][n - 2..] == before[|before| - 2..];
    }
  }

  /** Without compaction nothing is ever dropped: each turn sends what the last one did and two more messages. */
  lemma NothingIsDropped(setup: Setup, world: World, init: seq<Message>, k: nat)
    requires setup.compaction.None?
    ensures Sent(setup, world, init, 0) == init
    ensures Sent(setup, world, init, k + 1)
            == Sent(setup, world, init, k) + [AssistantMessage(world.replies(k)), ResultMessage(setup, world, k)]
  {
  }

  /** Tokens are the words of the messages that are plain text. */
  lemma {:induction false} TokensAppend(a: seq<Message>, b: seq<Message>)
    ensures Tokens(a + b) == Tokens(a) + Tokens(b)
  {
    if b == [] {
      assert a + b == a;
    } else {
      assert (a + b)[..|a + b| - 1] == a + b[..|b| - 1];
      TokensAppend(a, b[..|b| - 1]);
    }
  }

  lemma TokensOfOne(m: Message)
    ensures Tokens([m]) == if m.content.Plain? then |Text.Split(m.content.text)| else 0
  {
    assert [m][..0] == [];
  }

  lemma {:induction false} SummaryAppend(a: seq<Option<string>>, b: seq<Option<string>>)
    ensures SummaryText(a + b) == SummaryText(a) + SummaryText(b)
  {
    if b == [] {
      assert a + b == a;
    } else {
      assert (a + b)[..|a + b| - 1] == a + b[..|b| - 1];
      SummaryAppend(a, b[..|b| - 1]);
    }
  }
}
