/** What is in a built prompt, and that every accepted call only adds to its end, so that its cached front stays. */
module PromptGrowth {
  import opened Options
  import opened Text
  import opened PromptBuilder

  // ----- Growth -----

  /** One more accepted call extends the system text and the messages, both at the end. */
  lemma PromptOnlyGrows(calls: seq<Call>, c: Call)
    requires InOrder(calls + [c]) && calls != []
    ensures PromptOf(calls).Some? && PromptOf(calls + [c]).Some?
    ensures PromptOf(calls).value.system <= PromptOf(calls + [c]).value.system
    ensures PromptOf(calls).value.messages <= PromptOf(calls + [c]).value.messages
  {
    LayersStand(calls, c);
    WorkingSnoc(calls, c);
    HeadGrows(calls, c);
  }

  lemma LayersStand(calls: seq<Call>, c: Call)
    requires InOrder(calls + [c]) && calls != []
    ensures InOrder(calls) && LayerOf(c) == LayerAt(|calls|) && calls[0].SystemIdentity?
    ensures IdentityOf(calls + [c]) == IdentityOf(calls) && IdentityOf(calls).Some?
  {
    var more := calls + [c];
    assert LayerOf(more[|calls|]) == LayerAt(|calls|) && LayerOf(more[0]) == LayerAt(0);
    forall i | 0 <= i < |calls| ensures LayerOf(calls[i]) == LayerAt(i) { assert more[i] == calls[i]; }
  }

  lemma HeadGrows(calls: seq<Call>, c: Call)
    requires InOrder(calls + [c]) && calls != []
    ensures HeadOf(calls) <= HeadOf(calls + [c])
    ensures HeadOf(calls + [c]) != HeadOf(calls) ==> WorkingOf(calls) == [] && !c.Working?
  {
    var more := calls + [c];
    LayersStand(calls, c);
    WorkingComesLast(calls);
    assert forall i :: 0 <= i < |calls| ==> more[i] == calls[i];
    assert more[|calls|] == c;
  }

  /** However many calls follow: what was built is a front of what is built. */
  lemma {:induction false} LaterPromptsExtend(calls: seq<Call>, later: seq<Call>)
    requires InOrder(calls + later) && calls != []
    ensures PromptOf(calls).Some? && PromptOf(calls + later).Some?
    ensures PromptOf(calls).value.system <= PromptOf(calls + later).value.system
    ensures PromptOf(calls).value.messages <= PromptOf(calls + later).value.messages
    decreases |later|
  {
    if later == [] {
      assert calls + later == calls;
      assert LayerOf(calls[0]) == LayerAt(0);
    } else {
      var init, c := later[..|later| - 1], later[|later| - 1];
      assert calls + later == calls + init + [c];
      LayersStand(calls + init, c);
      LaterPromptsExtend(calls, init);
      PromptOnlyGrows(calls + init, c);
    }
  }

  /** Builders that agree on the first three layers share what those give, whatever the session state is. */
  lemma PatternsStayInFront(a: seq<Call>, b: seq<Call>)
    requires InOrder(a) && InOrder(b) && |a| >= 3 && |b| >= 3 && a[..3] == b[..3]
    ensures PromptOf(a).Some? && PromptOf(b).Some? && PromptOf(a[..3]).Some?
    ensures PromptOf(a).value.system == PromptOf(b).value.system
    ensures PromptOf(a[..3]).value.messages <= PromptOf(a).value.messages
    ensures PromptOf(a[..3]).value.messages <= PromptOf(b).value.messages
  {
    assert a == a[..3] + a[3..] && b == b[..3] + b[3..];
    LaterPromptsExtend(a[..3], a[3..]);
    LaterPromptsExtend(b[..3], b[3..]);
    assert a[..2] == a[..3][..2] == b[..2];
    SystemIsStable(a, b);
  }

  // ----- What is in a prompt -----

  /** The system text is the identity, and the domain memory behind a blank line if there is any. */
  lemma SystemHolds(calls: seq<Call>)
    requires PromptOf(calls).Some?
    ensures var system, domain := PromptOf(calls).value.system, DomainOf(calls);
            system == if domain.Some? && domain.value != "" then IdentityOf(calls).value + "\n\n" + domain.value
                      else IdentityOf(calls).value
    ensures var prompt := PromptOf(calls).value;
            prompt.systemCache && prompt.systemTokenEstimate == 1.3 * |Split(prompt.system)| as real
  {
    var domain := DomainOf(calls);
    if domain.Some? && domain.value != "" { JoinTwo("\n\n", IdentityOf(calls).value, domain.value); }
  }

  lemma JoinTwo(separator: string, a: string, b: string)
    ensures Join(separator, [a, b]) == a + separator + b
  {
    assert [a, b][1..] == [b];
    assert Join(separator, [b]) == b;
  }

  /** A message of the user that holds the text, and the assistant's answer to it. */
  ghost predicate Exchange(messages: seq<Message>, at: nat, text: string) {
    && at + 2 <= |messages|
    && messages[at].role == User && Contains(messages[at].content, text) && messages[at + 1].role == Assistant
  }

  /**
   The messages are the patterns, if there are any, in one exchange, then the session state, if there is any, in
   another, and then the working messages as they came.
   */
  lemma MessagesHold(calls: seq<Call>)
    requires PromptOf(calls).Some?
    ensures var messages, patterns, session := PromptOf(calls).value.messages, PatternsOf(calls), SessionOf(calls);
            var p := if patterns.Some? && patterns.value != [] then 2 else 0;
            var s := if session.Some? && session.value != "" then 2 else 0;
            && |messages| == p + s + |WorkingOf(calls)|
            && messages[p + s..] == WorkingOf(calls)
            && (p == 2 ==> forall i :: 0 <= i < |patterns.value| ==> Exchange(messages, 0, patterns.value[i]))
            && (s == 2 ==> Exchange(messages, p, session.value))
  {
    var patterns, session := PatternsOf(calls), SessionOf(calls);
    if patterns.Some? && patterns.value != [] {
      forall i | 0 <= i < |patterns.value|
        ensures Contains(PatternMessages(patterns)[0].content, patterns.value[i])
      {
        PatternIsInText(patterns.value, i);
      }
    }
    if session.Some? && session.value != "" {
      Inside("<session_state>\n", session.value, "\n</session_state>");
    }
  }

  lemma Inside(front: string, text: string, back: string)
    ensures Contains(front + text + back, text)
  {
    var s := front + text + back;
    AtSlice(s, |front|, text);
    assert s[|front|..|front| + |text|] == text;
  }

  lemma PatternIsInText(patterns: seq<string>, i: nat)
    requires i < |patterns|
    ensures Contains("<semantic_patterns>\n" + Join("\n", Bulleted(patterns)) + "\n</semantic_patterns>", patterns[i])
  {
    var open, close := "<semantic_patterns>\n", "\n</semantic_patterns>";
    var front, back := PartOfJoin("\n", Bulleted(patterns), i);
    Inside(open + front + "- ", patterns[i], back + close);
    Reassociated(open, front, "- ", patterns[i], back, close);
  }

  lemma Reassociated(open: string, front: string, bullet: string, text: string, back: string, close: string)
    ensures open + (front + (bullet + text) + back) + close == open + front + bullet + text + (back + close)
  {
  }

  lemma {:induction false} PartOfJoin(separator: string, parts: seq<string>, i: nat)
    returns (front: string, back: string)
    requires i < |parts|
    ensures Join(separator, parts) == front + parts[i] + back
  {
    if i == 0 {
      front, back := "", Join(separator, parts)[|parts[0]|..];
    } else {
      front, back := PartOfJoin(separator, parts[1..], i - 1);
      front := parts[0] + separator + front;
    }
  }
}
