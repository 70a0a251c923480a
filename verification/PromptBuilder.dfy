/** The prompt builder: which calls it accepts, and what the prompts that it builds have in common. */
module PromptBuilder {
  import opened Options
  import opened Text

  datatype Role = User | Assistant

  datatype Message = Message(role: Role, content: string)

  /** A call on the builder, by the layer that it fills. */
  datatype Call =
    | SystemIdentity(text: string)
    | DomainMemory(text: string)
    | SessionState(text: string)
    | SemanticPatterns(patterns: seq<string>)
    | Working(message: Message)

  function LayerOf(c: Call): nat {
    match c
    case SystemIdentity(_) => 0
    case DomainMemory(_) => 1
    case SessionState(_) => 2
    case SemanticPatterns(_) => 3
    case Working(_) => 4
  }

  /** The place of a layer in the order 0, 1, 3, 2, 4. */
  function Position(layer: nat): nat {
    match layer case 0 => 0 case 1 => 1 case 3 => 2 case 2 => 3 case _ => 4
  }

  /** The layer at a place of that order, which the i-th accepted call fills. */
  function LayerAt(i: nat): nat {
    match i case 0 => 0 case 1 => 1 case 2 => 3 case 3 => 2 case _ => 4
  }

  /** A prefix of L0 L1 L3 L2 L4*. */
  predicate InOrder(calls: seq<Call>) {
    forall i :: 0 <= i < |calls| ==> LayerOf(calls[i]) == LayerAt(i)
  }

  datatype Violation = AlreadySet(layer: nat) | SetBefore(layer: nat, other: nat)

  /** What is wrong with filling a layer after these calls: it is the last one, an earlier one, or skips the next. */
  function ViolationOf(calls: seq<Call>, layer: nat): Option<Violation> {
    var n := |calls|;
    if layer == LayerAt(n) && (n == 0 || layer != LayerAt(n - 1)) then None
    else if n > 0 && layer == LayerAt(n - 1) then Some(AlreadySet(layer))
    else if Position(layer) < n then Some(SetBefore(layer, LayerAt(n - 1)))
    else Some(SetBefore(layer, LayerAt(n)))
  }

  // ----- What a prompt is made of -----

  datatype Prompt = Prompt(system: string, messages: seq<Message>, systemCache: bool, systemTokenEstimate: real)

  function SystemText(identity: string, domain: Option<string>): string {
    Join("\n\n", if domain.Some? && domain.value != "" then [identity, domain.value] else [identity])
  }

  function Bulleted(patterns: seq<string>): (r: seq<string>)
    ensures |r| == |patterns|
  {
    seq(|patterns|, i requires 0 <= i < |patterns| => "- " + patterns[i])
  }

  function PatternMessages(patterns: Option<seq<string>>): seq<Message> {
    if patterns.Some? && patterns.value != [] then
      [Message(User, "<semantic_patterns>\n" + Join("\n", Bulleted(patterns.value)) + "\n</semantic_patterns>"),
       Message(Assistant, "Understood. I'll apply these learned patterns.")]
    else []
  }

  function SessionMessages(session: Option<string>): seq<Message> {
    if session.Some? && session.value != "" then
      [Message(User, "<session_state>\n" + session.value + "\n</session_state>"),
       Message(Assistant, "Session state received. Continuing from last checkpoint.")]
    else []
  }

  /** The messages of the working calls. */
  function WorkingOf(calls: seq<Call>): seq<Message> {
    if calls == [] then []
    else
      var rest := WorkingOf(calls[..|calls| - 1]);
      if calls[|calls| - 1].Working? then rest + [calls[|calls| - 1].message] else rest
  }

  function IdentityOf(calls: seq<Call>): Option<string> {
    if calls != [] && calls[0].SystemIdentity? then Some(calls[0].text) else None
  }

  function DomainOf(calls: seq<Call>): Option<string> {
    if |calls| > 1 && calls[1].DomainMemory? then Some(calls[1].text) else None
  }

  function PatternsOf(calls: seq<Call>): Option<seq<string>> {
    if |calls| > 2 && calls[2].SemanticPatterns? then Some(calls[2].patterns) else None
  }

  function SessionOf(calls: seq<Call>): Option<string> {
    if |calls| > 3 && calls[3].SessionState? then Some(calls[3].text) else None
  }

  /** The part of the messages before the working ones. */
  function HeadOf(calls: seq<Call>): seq<Message> {
    PatternMessages(PatternsOf(calls)) + SessionMessages(SessionOf(calls))
  }

  /** The prompt of a builder that accepted these calls; None if the system identity is not set. */
  function PromptOf(calls: seq<Call>): Option<Prompt> {
    if IdentityOf(calls).None? then None
    else
      var system := SystemText(IdentityOf(calls).value, DomainOf(calls));
      Some(Prompt(system, HeadOf(calls) + WorkingOf(calls), true, |Split(system)| as real * 1.3))
  }

  class PromptBuilder {
    var systemIdentity: Option<string>
    var domainMemory: Option<string>
    var semanticPatterns: Option<seq<string>>
    var sessionState: Option<string>
    var workingMessages: seq<Message>
    var lastLayer: int
    ghost var accepted: seq<Call>

    /** The fields hold what the accepted calls brought, and those came in order. */
    ghost predicate Valid()
      reads this
    {
      && InOrder(accepted)
      && systemIdentity == IdentityOf(accepted)
      && domainMemory == DomainOf(accepted)
      && semanticPatterns == PatternsOf(accepted)
      && sessionState == SessionOf(accepted)
      && workingMessages == WorkingOf(accepted)
      && lastLayer == if accepted == [] then -1 else LayerAt(|accepted| - 1)
    }

    constructor ()
      ensures Valid() && accepted == []
    {
      systemIdentity, domainMemory, semanticPatterns, sessionState := None, None, None, None;
      workingMessages, lastLayer, accepted := [], -1, [];
    }

    predicate IsLayerSet(layer: nat)
      reads this
    {
      match layer
      case 0 => systemIdentity.Some?
      case 1 => domainMemory.Some?
      case 2 => sessionState.Some?
      case 3 => semanticPatterns.Some?
      case _ => |workingMessages| > 0
    }

    /** `_check_order`: no violation exactly if the layer is the next one. */
    method CheckOrder(layer: nat) returns (r: Option<Violation>)
      requires Valid() && layer <= 4 && (layer == 4 ==> sessionState.None?)
      ensures r.None? <==> layer == LayerAt(|accepted|)
      ensures r == ViolationOf(accepted, layer)
    {
      WorkingComesLast(accepted);
      if layer == lastLayer {
        return Some(AlreadySet(layer));
      }
      var expected := Position(layer);
      var current: int := if lastLayer >= 0 then Position(lastLayer) else -1;
      if expected <= current {
        return Some(SetBefore(layer, lastLayer));
      }
      for i := 0 to expected
        invariant i <= |accepted|
      {
        if !IsLayerSet(LayerAt(i)) {
          return Some(SetBefore(layer, LayerAt(i)));
        }
      }
      r := None;
    }

    /** `set_system_identity`. */
    method SetSystemIdentity(content: string) returns (r: Option<Violation>)
      requires Valid()
      modifies this
      ensures Valid() && r == ViolationOf(old(accepted), 0)
      ensures r.None? <==> InOrder(old(accepted) + [SystemIdentity(content)])
      ensures if r.None? then accepted == old(accepted) + [SystemIdentity(content)] else unchanged(this)
    {
      r := CheckOrder(0);
      OneMore(accepted, SystemIdentity(content));
      if r.Some? { return; }
      WorkingSnoc(accepted, SystemIdentity(content));
      systemIdentity, lastLayer := Some(content), 0;
      accepted := accepted + [SystemIdentity(content)];
    }

    /** `set_domain_memory`. */
    method SetDomainMemory(content: string) returns (r: Option<Violation>)
      requires Valid()
      modifies this
      ensures Valid() && r == ViolationOf(old(accepted), 1)
      ensures r.None? <==> InOrder(old(accepted) + [DomainMemory(content)])
      ensures if r.None? then accepted == old(accepted) + [DomainMemory(content)] else unchanged(this)
    {
      r := CheckOrder(1);
      OneMore(accepted, DomainMemory(content));
      if r.Some? { return; }
      WorkingSnoc(accepted, DomainMemory(content));
      domainMemory, lastLayer := Some(content), 1;
      accepted := accepted + [DomainMemory(content)];
    }

    /** `set_semantic_patterns`. */
    method SetSemanticPatterns(patterns: seq<string>) returns (r: Option<Violation>)
      requires Valid()
      modifies this
      ensures Valid() && r == ViolationOf(old(accepted), 3)
      ensures r.None? <==> InOrder(old(accepted) + [SemanticPatterns(patterns)])
      ensures if r.None? then accepted == old(accepted) + [SemanticPatterns(patterns)] else unchanged(this)
    {
      r := CheckOrder(3);
      OneMore(accepted, SemanticPatterns(patterns));
      if r.Some? { return; }
      WorkingSnoc(accepted, SemanticPatterns(patterns));
      semanticPatterns, lastLayer := Some(patterns), 3;
      accepted := accepted + [SemanticPatterns(patterns)];
    }

    /** `set_session_state`. */
    method SetSessionState(content: string) returns (r: Option<Violation>)
      requires Valid()
      modifies this
      ensures Valid() && r == ViolationOf(old(accepted), 2)
      ensures r.None? <==> InOrder(old(accepted) + [SessionState(content)])
      ensures if r.None? then accepted == old(accepted) + [SessionState(content)] else unchanged(this)
    {
      r := CheckOrder(2);
      OneMore(accepted, SessionState(content));
      if r.Some? { return; }
      WorkingSnoc(accepted, SessionState(content));
      sessionState, lastLayer := Some(content), 2;
      accepted := accepted + [SessionState(content)];
    }

    /** `add_working_message`: the order is only checked as long as there is no session state. */
    method AddWorkingMessage(message: Message) returns (r: Option<Violation>)
      requires Valid()
      modifies this
      ensures Valid()
      ensures r.None? <==> InOrder(old(accepted) + [Working(message)])
      ensures if r.None? then accepted == old(accepted) + [Working(message)] else unchanged(this)
    {
      r := None;
      OneMore(accepted, Working(message));
      WorkingSnoc(accepted, Working(message));
      if !IsLayerSet(2) {
        r := CheckOrder(4);
        if r.Some? { return; }
      }
      workingMessages, lastLayer := workingMessages + [message], 4;
      accepted := accepted + [Working(message)];
    }

    /** `build`: the prompt that the accepted calls determine; None where it raises. */
    method Build() returns (r: Option<Prompt>)
      requires Valid()
      ensures r == PromptOf(accepted)
    {
      if systemIdentity.None? { return None; }
      var systemParts := [systemIdentity.value];
      if domainMemory.Some? && domainMemory.value != "" {
        systemParts := systemParts + [domainMemory.value];
      }
      var system := Join("\n\n", systemParts);
      var messages: seq<Message> := [];
      if semanticPatterns.Some? && semanticPatterns.value != [] {
        var text := "<semantic_patterns>\n" + Join("\n", Bulleted(semanticPatterns.value)) + "\n</semantic_patterns>";
        messages := messages + [Message(User, text)];
        messages := messages + [Message(Assistant, "Understood. I'll apply these learned patterns.")];
      }
      if sessionState.Some? && sessionState.value != "" {
        messages := messages + [Message(User, "<session_state>\n" + sessionState.value + "\n</session_state>")];
        messages := messages + [Message(Assistant, "Session state received. Continuing from last checkpoint.")];
      }
      assert messages == HeadOf(accepted);
      messages := messages + workingMessages;
      r := Some(Prompt(system, messages, true, |Split(system)| as real * 1.3));
    }
  }

  lemma OneMore(calls: seq<Call>, c: Call)
    requires InOrder(calls)
    ensures InOrder(calls + [c]) <==> LayerOf(c) == LayerAt(|calls|)
  {
    assert (calls + [c])[|calls|] == c;
    forall i | 0 <= i < |calls| ensures (calls + [c])[i] == calls[i] { }
  }

  lemma WorkingSnoc(calls: seq<Call>, c: Call)
    ensures WorkingOf(calls + [c]) == if c.Working? then WorkingOf(calls) + [c.message] else WorkingOf(calls)
  {
    assert (calls + [c])[..|calls|] == calls;
  }

  /** Working messages exist only behind the four layers. */
  lemma {:induction false} WorkingComesLast(calls: seq<Call>)
    requires InOrder(calls)
    ensures |WorkingOf(calls)| == if |calls| > 4 then |calls| - 4 else 0
  {
    if calls != [] {
      assert LayerOf(calls[|calls| - 1]) == LayerAt(|calls| - 1);
      WorkingComesLast(calls[..|calls| - 1]);
    }
  }

  // ----- Stability of the cached prefix -----

  /** Later accepted calls never change a layer that is set; only working messages are added. */
  lemma {:induction false} LayersNeverChange(calls: seq<Call>, more: seq<Call>)
    requires InOrder(calls + more)
    ensures IdentityOf(calls).Some? ==> IdentityOf(calls + more) == IdentityOf(calls)
    ensures DomainOf(calls).Some? ==> DomainOf(calls + more) == DomainOf(calls)
    ensures PatternsOf(calls).Some? ==> PatternsOf(calls + more) == PatternsOf(calls)
    ensures SessionOf(calls).Some? ==> SessionOf(calls + more) == SessionOf(calls)
    ensures WorkingOf(calls) <= WorkingOf(calls + more)
    decreases |more|
  {
    assert forall i :: 0 <= i < |calls| ==> (calls + more)[i] == calls[i];
    if more == [] {
      assert calls + more == calls;
    } else {
      var init := more[..|more| - 1];
      assert (calls + more)[..|calls + more| - 1] == calls + init;
      assert InOrder(calls + init) by {
        assert forall i :: 0 <= i < |calls + init| ==> (calls + init)[i] == (calls + more)[i];
      }
      LayersNeverChange(calls, init);
    }
  }

  /** Builders that agree on system identity and domain memory build the same system text. */
  lemma SystemIsStable(a: seq<Call>, b: seq<Call>)
    requires |a| >= 2 && |b| >= 2 && a[..2] == b[..2]
    ensures PromptOf(a).Some? <==> PromptOf(b).Some?
    ensures PromptOf(a).Some? ==> PromptOf(a).value.system == PromptOf(b).value.system
  {
    assert a[0] == a[..2][0] && a[1] == a[..2][1] && b[0] == b[..2][0] && b[1] == b[..2][1];
  }

  /** Builders that agree on all four layers build messages with the same head, which grows by working messages only. */
  lemma HeadIsStable(a: seq<Call>, b: seq<Call>)
    requires InOrder(a) && InOrder(b) && |a| >= 4 && |b| >= 4 && a[..4] == b[..4]
    ensures PromptOf(a).Some? && PromptOf(b).Some? && HeadOf(a) == HeadOf(b)
    ensures PromptOf(a).value.messages == HeadOf(a) + WorkingOf(a)
            && PromptOf(b).value.messages == HeadOf(a) + WorkingOf(b)
  {
    assert forall i :: 0 <= i < 4 ==> a[i] == a[..4][i] && b[i] == b[..4][i];
    assert LayerOf(a[0]) == 0;
  }

  lemma FourBefore(calls: seq<Call>, c: Call)
    requires InOrder(calls + [c]) && c.Working?
    ensures InOrder(calls) && |calls| >= 4 && (calls + [c])[..4] == calls[..4] && (calls + [c])[..2] == calls[..2]
  {
    assert LayerOf((calls + [c])[|calls|]) == LayerAt(|calls|);
    forall i | 0 <= i < |calls| ensures LayerOf(calls[i]) == LayerAt(i) { assert (calls + [c])[i] == calls[i]; }
  }

  /** A working message more extends the messages at the end and leaves the system text. */
  lemma WorkingExtends(calls: seq<Call>, message: Message)
    requires InOrder(calls + [Working(message)])
    ensures |calls| >= 4 && PromptOf(calls).Some? && PromptOf(calls + [Working(message)]).Some?
    ensures PromptOf(calls + [Working(message)]).value
            == PromptOf(calls).value.(messages := PromptOf(calls).value.messages + [message])
  {
    var more := calls + [Working(message)];
    FourBefore(calls, Working(message));
    SystemIsStable(more, calls);
    HeadIsStable(more, calls);
    WorkingSnoc(calls, Working(message));
    assert HeadOf(calls) + (WorkingOf(calls) + [message]) == (HeadOf(calls) + WorkingOf(calls)) + [message];
  }

  /** The roles alternate, from the user's on. */
  predicate Alternates(messages: seq<Message>) {
    forall i :: 0 <= i < |messages| ==> messages[i].role == if i % 2 == 0 then User else Assistant
  }

  lemma AlternatesAfter(head: seq<Message>, tail: seq<Message>)
    requires Alternates(head) && |head| % 2 == 0
    ensures Alternates(head + tail) <==> Alternates(tail)
  {
    if Alternates(head + tail) {
      forall i | 0 <= i < |tail| ensures tail[i].role == if i % 2 == 0 then User else Assistant {
        assert (head + tail)[|head| + i] == tail[i];
      }
    }
  }

  /** The whole conversation alternates exactly if the working messages do. */
  lemma PromptAlternates(calls: seq<Call>)
    requires PromptOf(calls).Some?
    ensures Alternates(PromptOf(calls).value.messages) <==> Alternates(WorkingOf(calls))
  {
    AlternatesAfter(PatternMessages(PatternsOf(calls)), SessionMessages(SessionOf(calls)));
    AlternatesAfter(HeadOf(calls), WorkingOf(calls));
  }
}
