/** Messages of a tool-use conversation, when a list of them is well formed, and what compaction does to it. */
module Transcript {

  datatype Role = User | Assistant

  /** What the loop detector adds to an output. */
  datatype Guidance = NoGuidance | Reconsider(tool: string, resource: string, times: nat)

  /** The text of a tool result, by the way it came about. */
  datatype Outcome =
    | UnknownTool(name: string)
    | ToolError(error: string)
    | Output(text: string, guidance: Guidance)

  datatype ToolCall = ToolCall(id: string, name: string, input: map<string, string>)

  datatype Block =
    | Text(text: string)
    | ToolUse(call: ToolCall)
    | ToolResult(toolUseId: string, content: Outcome, isError: bool)

  datatype Content = Plain(text: string) | Blocks(blocks: seq<Block>)

  datatype Message = Message(role: Role, content: Content)

  /** The ids of the tool_use blocks of a message, in order. */
  function UseIds(m: Message): seq<string> {
    if m.content.Plain? then [] else UsesOf(m.content.blocks)
  }

  function UsesOf(bs: seq<Block>): seq<string> {
    if bs == [] then [] else (if bs[0].ToolUse? then [bs[0].call.id] else []) + UsesOf(bs[1..])
  }

  /** The ids that the tool_result blocks of a message answer, in order. */
  function ResultIds(m: Message): seq<string> {
    if m.content.Plain? then [] else ResultsOf(m.content.blocks)
  }

  function ResultsOf(bs: seq<Block>): seq<string> {
    if bs == [] then [] else (if bs[0].ToolResult? then [bs[0].toolUseId] else []) + ResultsOf(bs[1..])
  }

  predicate ToolFree(m: Message) {
    UseIds(m) == [] && ResultIds(m) == []
  }

  /**
   What the API asks of a transcript: every message with tool uses comes from the assistant and is
   followed at once by a user message that answers them in order, and no result stands anywhere else.
   */
  predicate WellFormed(ms: seq<Message>) {
    forall i :: 0 <= i < |ms| ==> InPlace(ms, i)
  }

  predicate InPlace(ms: seq<Message>, i: nat)
    requires i < |ms|
  {
    && (UseIds(ms[i]) != [] ==>
          ms[i].role == Assistant && i + 1 < |ms| && ms[i + 1].role == User && ResultIds(ms[i + 1]) == UseIds(ms[i]))
    && (ResultIds(ms[i]) != [] ==>
          ms[i].role == User && i > 0 && ms[i - 1].role == Assistant && UseIds(ms[i - 1]) == ResultIds(ms[i]))
  }

  /** An assistant message with tool uses only and the user message that answers it. */
  predicate Pair(a: Message, u: Message) {
    a.role == Assistant && u.role == User && ResultIds(a) == [] && UseIds(u) == [] && ResultIds(u) == UseIds(a)
  }

  ghost predicate AllToolFree(ms: seq<Message>) {
    forall i :: 0 <= i < |ms| ==> ToolFree(ms[i])
  }

  /** A tool-free start, then pairs. */
  ghost predicate Aligned(ms: seq<Message>) {
    || AllToolFree(ms)
    || (|ms| >= 2 && Pair(ms[|ms| - 2], ms[|ms| - 1]) && Aligned(ms[..|ms| - 2]))
  }

  lemma {:induction false} AlignedIsWellFormed(ms: seq<Message>)
    requires Aligned(ms)
    ensures WellFormed(ms)
  {
    if !AllToolFree(ms) {
      var n := |ms| - 2;
      var init := ms[..n];
      AlignedIsWellFormed(init);
      forall i | 0 <= i < |ms| ensures InPlace(ms, i) {
        if i < n {
          assert InPlace(init, i) && init[i] == ms[i];
          assert i + 1 < n ==> init[i + 1] == ms[i + 1];
        }
      }
    } else {
      forall i | 0 <= i < |ms| ensures InPlace(ms, i) {
        assert ToolFree(ms[i]);
      }
    }
  }

  lemma AppendPairAligned(ms: seq<Message>, a: Message, u: Message)
    requires Aligned(ms) && Pair(a, u)
    ensures Aligned(ms + [a, u])
  {
    assert (ms + [a, u])[..|ms|] == ms;
  }

  // ----- Compaction -----

  /** A summary and the last `keep` messages. */
  function Compacted(keep: nat, summary: string, ms: seq<Message>): seq<Message> {
    [Message(Assistant, Plain(summary))] + if |ms| > keep then ms[|ms| - keep..] else ms
  }

  const RECENT_MESSAGES_KEEP := 10

  lemma CompactedToolFree(keep: nat, summary: string, ms: seq<Message>)
    requires AllToolFree(ms) || keep == 0
    ensures AllToolFree(Compacted(keep, summary, ms))
  {
  }

  lemma CompactedSplit(keep: nat, summary: string, ms: seq<Message>)
    requires |ms| >= 2 && keep >= 2
    ensures Compacted(keep, summary, ms) == Compacted(keep - 2, summary, ms[..|ms| - 2]) + [ms[|ms| - 2], ms[|ms| - 1]]
  {
  }

  /** Keeping an even number of messages never cuts a pair in two. */
  lemma {:induction false} CompactionKeepsAligned(keep: nat, summary: string, ms: seq<Message>)
    requires Aligned(ms) && keep % 2 == 0
    ensures Aligned(Compacted(keep, summary, ms))
    decreases |ms|
  {
    if AllToolFree(ms) || keep == 0 {
      CompactedToolFree(keep, summary, ms);
    } else {
      var init := ms[..|ms| - 2];
      CompactionKeepsAligned(keep - 2, summary, init);
      CompactedSplit(keep, summary, ms);
      AppendPairAligned(Compacted(keep - 2, summary, init), ms[|ms| - 2], ms[|ms| - 1]);
    }
  }

  function Question(id: string): Message {
    Message(Assistant, Blocks([ToolUse(ToolCall(id, "tool", map[]))]))
  }

  function Answer(id: string): Message {
    Message(User, Blocks([ToolResult(id, Output("", NoGuidance), false)]))
  }

  function Pairs(n: nat): seq<Message> {
    if n == 0 then [] else Pairs(n - 1) + [Question("t"), Answer("t")]
  }

  lemma QuestionAndAnswer(id: string)
    ensures UseIds(Question(id)) == [id] && ResultIds(Question(id)) == []
    ensures ResultIds(Answer(id)) == [id] && UseIds(Answer(id)) == []
  {
    var q, a := Question(id).content.blocks, Answer(id).content.blocks;
    assert q[1..] == [] && a[1..] == [];
    assert UsesOf(q) == [id] + UsesOf(q[1..]) && ResultsOf(q) == [] + ResultsOf(q[1..]);
    assert ResultsOf(a) == [id] + ResultsOf(a[1..]) && UsesOf(a) == [] + UsesOf(a[1..]);
  }

  lemma {:induction false} PairsAligned(n: nat)
    ensures Aligned(Pairs(n))
  {
    if n > 0 {
      PairsAligned(n - 1);
      assert Pair(Question("t"), Answer("t")) by { QuestionAndAnswer("t"); }
      AppendPairAligned(Pairs(n - 1), Question("t"), Answer("t"));
    }
  }

  lemma {:induction false} PairsAlternate(n: nat)
    ensures |Pairs(n)| == 2 * n
    ensures forall i :: 0 <= i < 2 * n ==> Pairs(n)[i] == if i % 2 == 0 then Question("t") else Answer("t")
  {
    if n > 0 { PairsAlternate(n - 1); }
  }

  /** That the number is even is what makes compaction safe: with any odd number it breaks some aligned transcript. */
  lemma OnlyEvenKeepIsSafe(keep: nat, summary: string)
    ensures (forall ms :: Aligned(ms) ==> WellFormed(Compacted(keep, summary, ms))) <==> keep % 2 == 0
  {
    if keep % 2 == 0 {
      forall ms | Aligned(ms) ensures WellFormed(Compacted(keep, summary, ms)) {
        CompactionKeepsAligned(keep, summary, ms);
        AlignedIsWellFormed(Compacted(keep, summary, ms));
      }
    } else {
      var ms := Pairs(keep);
      PairsAligned(keep);
      PairsAlternate(keep);
      QuestionAndAnswer("t");
      var r := Compacted(keep, summary, ms);
      assert r[1] == ms[keep] == Answer("t");
      assert UseIds(r[0]) == [];
      assert ResultIds(r[1]) == ["t"];
      assert !InPlace(r, 1);
    }
  }
}
