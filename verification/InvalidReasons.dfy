/**
 When the reason that is given for an invalid citation is that of the pattern which rejects it.

 The patterns are first restated without the matcher: two of them look at the start of a citation, the
 third is found anywhere. Collapsing white space then acts on a citation in two ways. It drops white space
 in front, which is what hides the first two patterns, and it squeezes the rest, which neither hides nor
 makes them, because what they match is solid text or blanks that the pattern allows in any number.

 Normalising goes on from the collapsed citation: it takes out section signs with the white space behind
 them, and it respells the word "part", which changes the case of letters only. Text that starts with no
 white space, has single blanks inside and holds no section sign is found again after every one of these
 steps. So whatever matches a citation matches its normal form, and only the converse can fail: when white
 space or a section sign stood in front.
 */
module InvalidReasons {
  import opened Options
  import opened Text
  import opened Regex
  import opened IgnoreCase
  import opened Whitespace
  import opened CitationRegistry
  import opened CanonicalIds
  import opened Citations
  import opened Sequences

  /** No digit is white space, a letter of the ASCII alphabet or a section sign. */
  ghost predicate DigitClass(ch: Chars) {
    forall c :: ch.digit(c) ==> !IsSpace(c) && c != '\U{A7}' && !('a' <= LowerChar(c) <= 'z')
  }

  // ----- The patterns without the matcher -----

  /** `^SOR-\d`, ignoring case. */
  predicate Sor(ch: Chars, s: string) {
    SameAt(s, 0, "SOR-") && |s| > 4 && ch.digit(s[4])
  }

  lemma SorIs(ch: Chars, s: string)
    ensures MatchesSor(ch, s) <==> Sor(ch, s)
  {
    NoCaseIs("SOR-", One(ch.digit, Accept), s, 0);
    assert |s| > 4 ==> Run(Accept, s, 5).Some?;
  }

  /** `^40\s*CFR`, ignoring case: no letter is white space, so the greedy blanks never give one back. */
  predicate Epa(s: string) {
    |s| >= 2 && s[0] == '4' && s[1] == '0' && SameAt(LStrip(s[2..]), 0, "CFR")
  }

  lemma EpaIs(s: string)
    ensures MatchesEpa(s) <==> Epa(s)
  {
    AtSlice(s, 0, "40");
    if |s| >= 2 {
      assert s[0..2] == [s[0], s[1]];
      BlanksThenCfr(s);
    }
  }

  lemma BlanksThenCfr(s: string)
    requires |s| >= 2
    ensures Run(Spaces(NoCase("CFR", Accept)), s, 2).Some? <==> SameAt(LStrip(s[2..]), 0, "CFR")
  {
    var re, n := Spaces(NoCase("CFR", Accept)), RunLength(IsSpace, s, 2);
    var q := RunGreedyTries(re, s, 2, n);
    RunLengthAccepts(IsSpace, s, 2);
    RunIsLead(s, 2);
    forall i | 2 <= i <= 2 + n
      ensures Run(re.next, s, i).Some? <==> i == 2 + n && SameAt(LStrip(s[2..]), 0, "CFR")
    {
      CfrAt(s, i);
      if i < 2 + n { assert IsSpace(s[i]); }
    }
  }

  lemma CfrAt(s: string, p: nat)
    requires p <= |s|
    ensures Run(NoCase("CFR", Accept), s, p).Some? <==> SameAt(s[p..], 0, "CFR")
    ensures p < |s| && IsSpace(s[p]) ==> Run(NoCase("CFR", Accept), s, p).None?
  {
    NoCaseIs("CFR", Accept, s, p);
    assert SameAt(s, p, "CFR") <==> SameAt(s[p..], 0, "CFR");
  }

  const FORMALDEHYDE := "40 CFR Part 770"

  // ----- The reason and the collapsed citation -----

  /** The first k characters, none of which is white space. */
  predicate Solid(s: string, k: nat) {
    k <= |s| && forall i :: 0 <= i < k ==> !IsSpace(s[i])
  }

  /** What collapsing leaves of a string behind its first characters. */
  function Tail(s: string): string {
    Squeezed(RStrip(s))
  }

  lemma TailHead(s: string)
    requires s != ""
    ensures if IsSpace(s[0]) then Tail(s) == "" || IsSpace(Tail(s)[0]) else Tail(s) == [s[0]] + Tail(s[1..])
  {
    var r := RStrip(s);
    RStripParts(s);
    if !IsSpace(s[0]) {
      assert r != "" && r[0] == s[0] by { RStripAppend("", s); }
      var rest := r[1..];
      assert s[1..] == rest + s[|r|..];
      RStripTrail(rest, s[|r|..]);
    } else if r != "" {
      assert r[0] == s[0];
    }
  }

  /** Collapsing keeps solid text at the front, and makes none. */
  lemma {:induction false} SolidTail(s: string, k: nat)
    requires Solid(s, k) || Solid(Tail(s), k)
    ensures k <= |s| && k <= |Tail(s)| && Tail(s)[k..] == Tail(s[k..])
    ensures forall i :: 0 <= i < k ==> Tail(s)[i] == s[i]
  {
    if k > 0 {
      assert s != "" && !IsSpace(s[0]) by { if s != "" { TailHead(s); } }
      TailHead(s);
      var u, v := s[1..], Tail(s[1..]);
      assert forall i :: 0 <= i < |u| ==> u[i] == s[i + 1];
      assert forall i :: 0 <= i < |v| ==> v[i] == Tail(s)[i + 1];
      SolidTail(u, k - 1);
      assert u[k - 1..] == s[k..] && v[k - 1..] == Tail(s)[k..];
    }
  }

  lemma LStripTail(s: string)
    ensures LStrip(Tail(s)) == Tail(LStrip(s))
  {
    var v := LStrip(s);
    var lead := s[..|s| - |v|];
    LStripParts(s);
    if v == "" {
      RStripTrail("", s);
      assert "" + s == s;
    } else {
      RStripAppend(lead, v);
      var r := RStrip(v);
      SqueezedEnds(r);
      if lead == "" {
        assert lead + r == r;
      } else {
        SqueezedGap(lead, r);
        LStripLead(" ", Squeezed(r));
      }
    }
  }

  lemma SolidText(s: string, text: string)
    requires SameAt(s, 0, text) && forall i :: 0 <= i < |text| ==> !IsSpace(LowerChar(text[i]))
    ensures Solid(s, |text|)
  {
    forall i | 0 <= i < |text| ensures !IsSpace(s[i]) { assert LowerChar(s[0 + i]) == LowerChar(text[i]); }
  }

  lemma TextTail(s: string, text: string)
    requires forall i :: 0 <= i < |text| ==> !IsSpace(LowerChar(text[i]))
    ensures SameAt(Tail(s), 0, text) <==> SameAt(s, 0, text)
  {
    if SameAt(s, 0, text) { SolidText(s, text); }
    if SameAt(Tail(s), 0, text) { SolidText(Tail(s), text); }
    if Solid(s, |text|) || Solid(Tail(s), |text|) {
      SolidTail(s, |text|);
      forall i | 0 <= i < |text|
        ensures LowerChar(Tail(s)[0 + i]) == LowerChar(text[i]) <==> LowerChar(s[0 + i]) == LowerChar(text[i])
      {
        assert Tail(s)[i] == s[i];
      }
    }
  }

  lemma SorTail(ch: Chars, s: string)
    requires DigitClass(ch)
    ensures Sor(ch, Tail(s)) <==> Sor(ch, s)
  {
    TextTail(s, "SOR-");
    if Sor(ch, s) { SolidText(s, "SOR-"); }
    if Sor(ch, Tail(s)) { SolidText(Tail(s), "SOR-"); }
    if Solid(s, 5) || Solid(Tail(s), 5) { SolidTail(s, 5); }
  }

  lemma EpaTail(s: string)
    ensures Epa(Tail(s)) <==> Epa(s)
  {
    if Solid(s, 2) || Solid(Tail(s), 2) {
      SolidTail(s, 2);
      LStripTail(s[2..]);
      TextTail(LStrip(s[2..]), "CFR");
    }
  }

  lemma CollapseIsTail(raw: string)
    ensures Collapse(raw) == Tail(LStrip(raw)) && (Lead(raw) == "" <==> raw == "" || !IsSpace(raw[0]))
    ensures Lead(raw) == "" ==> Collapse(raw) == Tail(raw)
  {
    CollapseIsSqueeze(raw);
    LStripParts(raw);
    if Lead(raw) != "" { assert raw[0] == Lead(raw)[0]; }
  }

  /** White space in front hides a pattern that looks at the start; the rest of stripping and collapsing does not. */
  lemma StartCollapsed(ch: Chars, raw: string)
    requires DigitClass(ch)
    ensures MatchesSor(ch, raw) <==> Lead(raw) == "" && MatchesSor(ch, Collapse(raw))
    ensures MatchesEpa(raw) <==> Lead(raw) == "" && MatchesEpa(Collapse(raw))
  {
    CollapseIsTail(raw);
    SorIs(ch, raw);
    EpaIs(raw);
    if Lead(raw) == "" {
      SorIs(ch, Tail(raw));
      EpaIs(Tail(raw));
      SorTail(ch, raw);
      EpaTail(raw);
    } else {
      assert LowerChar(raw[0]) != 's';
    }
  }

  predicate MatchesAtStart(ch: Chars, s: string) {
    MatchesSor(ch, s) || MatchesEpa(s)
  }

  /**
   Collapsing the white space of a citation keeps the reason exactly if no white space hides a pattern
   at the start, and no pattern at the start then decides or the formaldehyde rule is named as it is.
   */
  lemma CollapsingKeepsTheReasonIff(ch: Chars, raw: string)
    requires DigitClass(ch)
    ensures var c := Collapse(raw);
            InvalidReason(ch, raw) == InvalidReason(ch, c)
            <==> (Lead(raw) == "" || !MatchesAtStart(ch, c))
                 && (MatchesAtStart(ch, c) || (FindsFormaldehyde(raw) <==> FindsFormaldehyde(c)))
  {
    StartCollapsed(ch, raw);
  }

  lemma SpacedIsCollapsed(s: string)
    requires Spaced(s) && s != "" && !IsSpace(s[0])
    ensures Collapse(s) == s
  {
    CollapseIsSqueeze(s);
    StripUnique("", s, "");
    assert "" + s + "" == s;
    SqueezedSpaced(s, "");
    assert s + "" == s;
  }

  lemma BlankIsDropped(s: string)
    requires Spaced(s) && s != "" && !IsSpace(s[0])
    ensures Collapse(" " + s) == s
  {
    LStripLead(" ", s);
    CollapseIsTail(" " + s);
    CollapseIsTail(s);
    SpacedIsCollapsed(s);
  }

  lemma BlankHides(ch: Chars, raw: string)
    requires 0 < |raw| < 15 && raw[0] == ' '
    ensures InvalidReason(ch, raw) == None
  {
    assert !MatchesSor(ch, raw) by { StartsDifferently("SOR-", One(ch.digit, Accept), raw, 0); }
    assert !MatchesEpa(raw) by { EpaIs(raw); }
    NotInShort(FORMALDEHYDE, raw);
  }

  /** An example: a blank in front is enough for another reason. */
  lemma CollapsingChangesTheReason(ch: Chars)
    requires ch.digit('1')
    ensures Collapse(" SOR-1") == "SOR-1"
    ensures InvalidReason(ch, "SOR-1") == Some(CanadianRegulation) && InvalidReason(ch, " SOR-1") == None
  {
    var s := "SOR-1";
    assert " " + s == " SOR-1";
    BlankIsDropped(s);
    SorIsFirst(ch, s);
    BlankHides(ch, " " + s);
  }

  lemma SorIsFirst(ch: Chars, s: string)
    requires Sor(ch, s)
    ensures InvalidReason(ch, s) == Some(CanadianRegulation)
  {
    SorIs(ch, s);
  }

  // ----- What normalising keeps -----

  /** Single blanks inside, and no white space at the end. */
  predicate Spaced(w: string) {
    forall i :: 0 <= i < |w| && IsSpace(w[i]) ==> w[i] == ' ' && i + 1 < |w| && !IsSpace(w[i + 1])
  }

  /** Text that normalising finds again: it starts with no white space and has no section sign. */
  predicate Signless(w: string) {
    w != "" && !IsSpace(w[0]) && '\U{A7}' !in w
  }

  /** A character is kept, a blank too if no white space follows it. */
  lemma SqueezedFirst(s: string, tail: string)
    requires s != "" && s[1..] == tail
    requires IsSpace(s[0]) ==> s[0] == ' ' && tail != "" && !IsSpace(tail[0])
    ensures Squeezed(s) == [s[0]] + Squeezed(tail)
  {
    if IsSpace(s[0]) { assert LStrip(tail) == tail && [s[0]] == " "; }
  }

  lemma {:induction false} SqueezedSpaced(w: string, rest: string)
    requires Spaced(w)
    ensures Squeezed(w + rest) == w + Squeezed(rest)
  {
    if w == "" {
      assert w + rest == rest;
    } else {
      var u := w[1..];
      assert forall i :: 0 <= i < |u| ==> u[i] == w[i + 1];
      assert (w + rest)[1..] == u + rest && [w[0]] + u == w;
      SqueezedSpaced(u, rest);
      SqueezedFirst(w + rest, u + rest);
      Regrouped([w[0]], u, Squeezed(rest));
    }
  }

  lemma {:induction false} SqueezeKeeps(t: string, p: nat, w: string)
    requires At(t, p, w) && Signless(w) && Spaced(w)
    ensures Contains(Squeezed(t), w)
    decreases |t|
  {
    if p == 0 {
      AtSlice(t, 0, w);
      assert t == w + t[|w|..];
      SqueezedSpaced(w, t[|w|..]);
      ContainsFront(w, Squeezed(t[|w|..]));
    } else {
      AtChar(t, p, w, 0);
      var u := if IsSpace(t[0]) then LStrip(t[1..]) else t[1..];
      var k := BehindLead(t, p, u);
      AtShifted(t[..k], u, p - k, w);
      SqueezeKeeps(u, p - k, w);
      ContainsBehind(if IsSpace(t[0]) then " " else [t[0]], Squeezed(u), w);
    }
  }

  lemma BehindLead(t: string, p: nat, u: string) returns (k: nat)
    requires 0 < p < |t| && !IsSpace(t[p]) && (u == t[1..] || u == LStrip(t[1..]))
    ensures 0 < k <= p && t == t[..k] + u
  {
    var v := t[1..];
    k := |t| - |u|;
    LStripParts(v);
    assert t[p] == v[p - 1];
    assert v[|v| - |u|..] == t[k..];
  }

  lemma {:induction false} UnsignedCopies(s: string, p: nat, w: string)
    requires At(s, p, w) && '\U{A7}' !in w
    ensures Sub(SECTION_SIGN, s, p, "") == w + Sub(SECTION_SIGN, s, p + |w|, "")
    decreases |w|
  {
    var rest := Sub(SECTION_SIGN, s, p + |w|, "");
    if w == "" {
      assert w + rest == rest;
    } else {
      assert s[p] == w[0] != '\U{A7}';
      UnsignedCopies(s, p + 1, w[1..]);
      assert Run(SECTION_SIGN, s, p) == None;
      assert w + rest == [w[0]] + (w[1..] + rest);
    }
  }

  /** A match of the section sign ends before text that is no white space. */
  lemma SignEnds(s: string, x: nat, p: nat)
    requires x < p < |s| && !IsSpace(s[p]) && Run(SECTION_SIGN, s, x).Some?
    ensures 0 in Run(SECTION_SIGN, s, x).value && x < Run(SECTION_SIGN, s, x).value[0] <= p
  {
    var re := Greedy(IsSpace, 0, Accept);
    var n := RunLength(IsSpace, s, x + 1);
    RunLengthAccepts(IsSpace, s, x + 1);
    var e := RunGreedyTries(re, s, x + 1, n);
    assert Run(SECTION_SIGN, s, x) == Run(re, s, x + 1);
    assert Run(Accept, s, e) == Some(map[0 := e]);
  }

  /** Taking out section signs from x on leaves text that has none. */
  lemma {:induction false} UnsignedKeeps(s: string, x: nat, p: nat, w: string)
    requires x <= p && At(s, p, w) && Signless(w)
    ensures Contains(Sub(SECTION_SIGN, s, x, ""), w)
    decreases p - x
  {
    AtChar(s, p, w, 0);
    if x == p {
      UnsignedCopies(s, p, w);
      ContainsFront(w, Sub(SECTION_SIGN, s, p + |w|, ""));
    } else if Run(SECTION_SIGN, s, x).Some? {
      SignEnds(s, x, p);
      var e := Run(SECTION_SIGN, s, x).value[0];
      UnsignedKeeps(s, e, p, w);
      assert "" + Sub(SECTION_SIGN, s, e, "") == Sub(SECTION_SIGN, s, e, "");
    } else {
      UnsignedKeeps(s, x + 1, p, w);
      ContainsBehind([s[x]], Sub(SECTION_SIGN, s, x + 1, ""), w);
    }
  }

  /** The same character, or the same letter in another case. */
  predicate SameLetter(a: char, b: char) {
    a == b || (LowerChar(a) == LowerChar(b) && 'a' <= LowerChar(a) <= 'z')
  }

  /** The same text, up to the case of its letters. */
  predicate Recased(s: string, t: string) {
    |s| == |t| && forall i :: 0 <= i < |s| ==> SameLetter(s[i], t[i])
  }

  lemma RecasedParts(a: string, b: string, s: string, t: string)
    requires Recased(a, b) && Recased(s, t)
    ensures Recased(a + s, b + t)
  {
  }

  lemma WordRecased(s: string, p: nat)
    requires SameAt(s, p, "part")
    ensures Recased(s[p..p + 4], "Part")
  {
    forall i | 0 <= i < 4 ensures SameLetter(s[p..p + 4][i], "Part"[i]) {
      assert LowerChar(s[p + i]) == LowerChar("part"[i]) == LowerChar("Part"[i]);
    }
  }

  /** Respelling the word "part" changes the case of letters only. */
  lemma {:induction false} PartRecased(ch: Chars, s: string, p: nat)
    requires p <= |s|
    ensures Recased(s[p..], Sub(PartWord(ch), s, p, "Part"))
    decreases |s| - p
  {
    if p < |s| {
      if Run(PartWord(ch), s, p).Some? {
        PartMatch(ch, s, p);
        NoCaseIs("part", Boundary(ch.word, Accept), s, p);
        PartRecased(ch, s, p + 4);
        WordRecased(s, p);
        RecasedParts(s[p..p + 4], "Part", s[p + 4..], Sub(PartWord(ch), s, p + 4, "Part"));
        assert s[p..] == s[p..p + 4] + s[p + 4..];
      } else {
        PartRecased(ch, s, p + 1);
        RecasedParts([s[p]], [s[p]], s[p + 1..], Sub(PartWord(ch), s, p + 1, "Part"));
        assert s[p..] == [s[p]] + s[p + 1..];
      }
    }
  }

  lemma RespelledIsRecased(ch: Chars, s: string)
    ensures Recased(s, Sub(PartWord(ch), s, 0, "Part"))
  {
    PartRecased(ch, s, 0);
    assert s[0..] == s;
  }

  lemma FoundRecased(s: string, t: string, text: string)
    requires Recased(s, t) && Found(text, s)
    ensures Found(text, t)
  {
    var p: nat :| SameAt(s, p, text);
    forall i | 0 <= i < |text| ensures LowerChar(t[p + i]) == LowerChar(text[i]) {
      assert LowerChar(s[p + i]) == LowerChar(text[i]) && SameLetter(s[p + i], t[p + i]);
    }
    assert SameAt(t, p, text);
  }

  /** The normal spelling of s, if taking out its section signs leaves w in front, starts with w up to case. */
  lemma FrontRecased(ch: Chars, s: string, w: string)
    requires w <= Sub(SECTION_SIGN, s, 0, "")
    ensures |w| <= |Spelled(ch, s)| && Recased(w, Spelled(ch, s)[..|w|])
  {
    RespelledIsRecased(ch, Sub(SECTION_SIGN, s, 0, ""));
  }

  lemma UnsignedFront(s: string, w: string)
    requires w <= s && '\U{A7}' !in w
    ensures w <= Sub(SECTION_SIGN, s, 0, "")
  {
    assert s[0..|w|] == w;
    AtSlice(s, 0, w);
    UnsignedCopies(s, 0, w);
  }

  lemma SorSpelled(ch: Chars, s: string)
    requires DigitClass(ch) && MatchesSor(ch, s)
    ensures MatchesSor(ch, Spelled(ch, s))
  {
    SorIs(ch, s);
    var t, w := Spelled(ch, s), s[..5];
    forall i | 0 <= i < 5 ensures s[i] != '\U{A7}' {
      if i < 4 { assert LowerChar(s[0 + i]) == LowerChar("SOR-"[i]); }
    }
    UnsignedFront(s, w);
    FrontRecased(ch, s, w);
    forall i | 0 <= i < 5 ensures SameLetter(s[i], t[i]) { assert w[i] == s[i] && t[..5][i] == t[i]; }
    forall i | 0 <= i < 4 ensures LowerChar(t[0 + i]) == LowerChar("SOR-"[i]) {
      assert LowerChar(s[0 + i]) == LowerChar("SOR-"[i]) && SameLetter(s[i], t[i]);
    }
    SorIs(ch, t);
  }

  /** What the EPA pattern matches at the start of s. */
  function EpaText(s: string): (w: string)
    requires Epa(s)
    ensures w <= s
  {
    s[..|s| - |LStrip(s[2..])| + 3]
  }

  /** The EPA pattern matches n characters and then the three letters. */
  predicate EpaAt(s: string, n: nat) {
    && 2 <= n && s != "" && s[0] == '4' && SameAt(s, n, "CFR") && s[1] == '0'
    && forall i :: 2 <= i < n ==> IsSpace(s[i])
  }

  lemma EpaParts(s: string)
    requires Epa(s)
    ensures EpaAt(s, |EpaText(s)| - 3)
  {
    var v, n := LStrip(s[2..]), |EpaText(s)| - 3;
    LStripParts(s[2..]);
    forall i | 2 <= i < n ensures IsSpace(s[i]) { assert s[i] == s[2..][..n - 2][i - 2]; }
    forall i | 0 <= i < 3 ensures LowerChar(s[n + i]) == LowerChar("CFR"[i]) {
      assert s[n + i] == v[0 + i] && LowerChar(v[0 + i]) == LowerChar("CFR"[i]);
    }
  }

  lemma EpaOf(s: string, n: nat)
    requires EpaAt(s, n)
    ensures MatchesEpa(s)
  {
    var lead, v := s[2..n], s[n..];
    forall i | 0 <= i < 3 ensures LowerChar(v[0 + i]) == LowerChar("CFR"[i]) { assert v[i] == s[n + i]; }
    assert LowerChar(v[0 + 0]) == LowerChar("CFR"[0]);
    LStripLead(lead, v);
    assert s[2..] == lead + v;
    EpaIs(s);
  }

  lemma EpaSignless(s: string)
    requires Epa(s)
    ensures '\U{A7}' !in EpaText(s)
  {
    var n := |EpaText(s)| - 3;
    EpaParts(s);
    forall i | 0 <= i < n + 3 ensures s[i] != '\U{A7}' {
      if i >= n { assert LowerChar(s[n + (i - n)]) == LowerChar("CFR"[i - n]); }
    }
  }

  /** A string that starts with the same text up to case matches as well. */
  lemma EpaRecased(s: string, t: string)
    requires Epa(s) && |EpaText(s)| <= |t| && Recased(EpaText(s), t[..|EpaText(s)|])
    ensures MatchesEpa(t)
  {
    var w := EpaText(s);
    var n := |w| - 3;
    EpaParts(s);
    forall i | 0 <= i < n + 3 ensures SameLetter(s[i], t[i]) { assert w[i] == s[i] && t[..n + 3][i] == t[i]; }
    forall i | 0 <= i < 3 ensures LowerChar(t[n + i]) == LowerChar("CFR"[i]) {
      assert LowerChar(s[n + i]) == LowerChar("CFR"[i]) && SameLetter(s[n + i], t[n + i]);
    }
    EpaOf(t, n);
  }

  lemma EpaSpelled(ch: Chars, s: string)
    requires MatchesEpa(s)
    ensures MatchesEpa(Spelled(ch, s))
  {
    EpaIs(s);
    EpaSignless(s);
    UnsignedFront(s, EpaText(s));
    FrontRecased(ch, s, EpaText(s));
    EpaRecased(s, Spelled(ch, s));
  }

  lemma NormalIsSpelled(ch: Chars, raw: string)
    ensures NormalizeRaw(ch, raw) == Spelled(ch, Collapse(raw)) && Collapse(raw) == Squeezed(Strip(raw))
  {
    SubSqueezes(Strip(raw), 0);
    assert Strip(raw)[0..] == Strip(raw);
    CollapseIsSqueeze(raw);
  }

  /** Text in a citation stands in it still when its white space is collapsed and its section signs are gone. */
  lemma UnsignedContains(raw: string, w: string)
    requires Contains(raw, w) && Signless(w) && Spaced(w)
    ensures Contains(Sub(SECTION_SIGN, Squeezed(Strip(raw)), 0, ""), w)
  {
    StripKeeps(raw, w);
    var p: nat :| p <= |Strip(raw)| && At(Strip(raw), p, w);
    SqueezeKeeps(Strip(raw), p, w);
    var q: nat :| q <= |Squeezed(Strip(raw))| && At(Squeezed(Strip(raw)), q, w);
    UnsignedKeeps(Squeezed(Strip(raw)), 0, q, w);
  }

  lemma FormaldehydeIsSpaced(w: string)
    requires |w| == 15 && SameAt(w, 0, FORMALDEHYDE)
    ensures Signless(w) && Spaced(w)
  {
    forall i | 0 <= i < 15 ensures LowerChar(w[i]) == LowerChar(FORMALDEHYDE[i]) { assert w[0 + i] == w[i]; }
    FormaldehydeText(FORMALDEHYDE);
    SpacedInAnyCase(w, FORMALDEHYDE);
  }

  lemma FormaldehydeText(text: string)
    requires text == FORMALDEHYDE
    ensures Signless(text) && Spaced(text)
  {
  }

  lemma SpacedInAnyCase(w: string, text: string)
    requires Signless(text) && Spaced(text) && |w| == |text|
    requires forall i :: 0 <= i < |w| ==> LowerChar(w[i]) == LowerChar(text[i])
    ensures Signless(w) && Spaced(w)
  {
    forall i | 0 <= i < |w|
      ensures (IsSpace(w[i]) <==> IsSpace(text[i])) && (text[i] == ' ' ==> w[i] == ' ') && w[i] != '\U{A7}'
    {
      assert LowerChar(w[i]) == LowerChar(text[i]) && text[i] != '\U{A7}';
    }
  }

  lemma FoundIsContained(text: string, s: string)
    ensures Found(text, s) <==> exists w :: |w| == |text| && Contains(s, w) && SameAt(w, 0, text)
  {
    if p: nat :| SameAt(s, p, text) {
      var w := s[p..p + |text|];
      AtSlice(s, p, w);
      forall i | 0 <= i < |text| ensures LowerChar(w[0 + i]) == LowerChar(text[i]) { assert w[i] == s[p + i]; }
      assert Contains(s, w);
    }
    forall w, p: nat | |w| == |text| && SameAt(w, 0, text) && p <= |s| && At(s, p, w) ensures SameAt(s, p, text) {
      AtSlice(s, p, w);
      forall i | 0 <= i < |text| ensures LowerChar(s[p + i]) == LowerChar(text[i]) { assert w[0 + i] == s[p + i]; }
    }
  }

  lemma FormaldehydeNormalized(ch: Chars, raw: string)
    ensures FindsFormaldehyde(raw) ==> FindsFormaldehyde(NormalizeRaw(ch, raw))
  {
    var u := Sub(SECTION_SIGN, Squeezed(Strip(raw)), 0, "");
    FoundIs(FORMALDEHYDE, raw);
    FoundIsContained(FORMALDEHYDE, raw);
    if FindsFormaldehyde(raw) {
      var w :| |w| == |FORMALDEHYDE| && Contains(raw, w) && SameAt(w, 0, FORMALDEHYDE);
      FormaldehydeIsSpaced(w);
      UnsignedContains(raw, w);
      FoundIsContained(FORMALDEHYDE, u);
      RespelledIsRecased(ch, u);
      NormalIsSpelled(ch, raw);
      FoundRecased(u, NormalizeRaw(ch, raw), FORMALDEHYDE);
      FoundIs(FORMALDEHYDE, NormalizeRaw(ch, raw));
    }
  }

  // ----- The reason and the normal form -----

  /** The pattern behind a reason occurs in s. */
  predicate Rejects(ch: Chars, reason: Reason, s: string) {
    match reason
    case CanadianRegulation => MatchesSor(ch, s)
    case EpaRegulation => MatchesEpa(s)
    case FormaldehydeRule => FindsFormaldehyde(s)
    case _ => false
  }

  /** Every pattern that occurs in a citation occurs in its normal spelling. */
  lemma NormalKeepsPatterns(ch: Chars, raw: string, reason: Reason)
    requires DigitClass(ch) && Rejects(ch, reason, raw)
    ensures Rejects(ch, reason, NormalizeRaw(ch, raw))
  {
    NormalIsSpelled(ch, raw);
    match reason
    case CanadianRegulation =>
      StartCollapsed(ch, raw);
      SorSpelled(ch, Collapse(raw));
    case EpaRegulation =>
      StartCollapsed(ch, raw);
      EpaSpelled(ch, Collapse(raw));
    case _ => FormaldehydeNormalized(ch, raw);
  }

  /**
   A citation and its normal spelling have the same reason exactly if the pattern that rejects the normal
   spelling, if there is one, occurs in the citation itself.
   */
  lemma ReasonIsOfNormalFormIff(ch: Chars, raw: string)
    requires DigitClass(ch)
    ensures var rejected := InvalidReason(ch, NormalizeRaw(ch, raw));
            InvalidReason(ch, raw) == rejected <==> (rejected.Some? ==> Rejects(ch, rejected.value, raw))
  {
    if MatchesSor(ch, raw) { NormalKeepsPatterns(ch, raw, CanadianRegulation); }
    if MatchesEpa(raw) { NormalKeepsPatterns(ch, raw, EpaRegulation); }
    if FindsFormaldehyde(raw) { NormalKeepsPatterns(ch, raw, FormaldehydeRule); }
  }

  lemma VerdictOnRejected(ch: Chars, raw: string)
    ensures var reason := InvalidReason(ch, raw);
            raw != "" && NormalizeCitation(ch, raw) == None ==>
              VerdictOf(DceRegistry(ch), raw) == InvalidReference(if reason.Some? then reason.value else NotValid)
  {
  }

  lemma NothingRejectsEmpty(ch: Chars, reason: Reason)
    ensures !Rejects(ch, reason, "")
  {
    SorIs(ch, "");
    EpaIs("");
    NotInShort(FORMALDEHYDE, "");
  }

  /**
   The classifier gives the reason of the pattern that rejects a citation exactly if the pattern occurs in the
   citation as it came.
   */
  lemma GivenReasonIff(ch: Chars, raw: string, reason: Reason)
    requires DigitClass(ch)
    ensures InvalidReason(ch, NormalizeRaw(ch, raw)) == Some(reason) ==>
              (VerdictOf(DceRegistry(ch), raw) == InvalidReference(reason) <==> Rejects(ch, reason, raw))
  {
    if raw == "" {
      NothingRejectsEmpty(ch, reason);
    } else if InvalidReason(ch, NormalizeRaw(ch, raw)) == Some(reason) {
      RejectedIsNothing(ch, raw);
      VerdictIffReason(ch, raw, reason);
      ReasonIsOfNormalFormIff(ch, raw);
    }
  }

  lemma RejectedIsNothing(ch: Chars, raw: string)
    ensures InvalidReason(ch, NormalizeRaw(ch, raw)).Some? ==>
              NormalizeCitation(ch, raw) == None && InvalidReason(ch, NormalizeRaw(ch, raw)) != Some(NotValid)
  {
  }

  lemma VerdictIffReason(ch: Chars, raw: string, reason: Reason)
    requires raw != "" && reason != NotValid
    ensures NormalizeCitation(ch, raw) == None ==>
              (VerdictOf(DceRegistry(ch), raw) == InvalidReference(reason) <==> InvalidReason(ch, raw) == Some(reason))
  {
    VerdictOnRejected(ch, raw);
  }

  // ----- A section sign in front -----

  lemma SignRuns(c: string)
    requires |c| >= 2 && c[0] == '\U{A7}' && !IsSpace(c[1])
    ensures Sub(SECTION_SIGN, c, 0, "") == Sub(SECTION_SIGN, c, 1, "")
  {
    var re := Greedy(IsSpace, 0, Accept);
    assert At(c, 0, "\U{A7}");
    assert Run(Accept, c, 1) == Some(map[0 := 1]);
    assert Run(re, c, 1) == RunGreedy(re, c, 1, 0) == Some(map[0 := 1]);
    assert Run(SECTION_SIGN, c, 0) == Some(map[0 := 1]);
    assert "" + Sub(SECTION_SIGN, c, 1, "") == Sub(SECTION_SIGN, c, 1, "");
  }

  lemma SignedEpaSpelled(ch: Chars, x: string)
    requires Epa(x)
    ensures MatchesEpa(Spelled(ch, "\U{A7}" + x))
  {
    var c, w := "\U{A7}" + x, EpaText(x);
    EpaSignless(x);
    AtSlice(c, 1, w);
    assert c[1..1 + |w|] == w;
    UnsignedCopies(c, 1, w);
    SignRuns(c);
    FrontRecased(ch, c, w);
    EpaRecased(x, Spelled(ch, c));
  }

  /** A section sign in front of an EPA citation, which its normal spelling drops, hides the pattern that rejects it. */
  lemma SectionSignHides(ch: Chars, rest: string)
    requires MatchesEpa(rest)
    ensures var raw := "\U{A7}" + rest; !MatchesAtStart(ch, raw) && MatchesEpa(NormalizeRaw(ch, raw))
  {
    var raw := "\U{A7}" + rest;
    EpaIs(rest);
    SorIs(ch, raw);
    EpaIs(raw);
    assert LowerChar(raw[0]) == '\U{A7}';
    CollapseIsTail(raw);
    TailHead(raw);
    assert raw[1..] == rest;
    EpaTail(rest);
    NormalIsSpelled(ch, raw);
    SignedEpaSpelled(ch, Tail(rest));
  }

  lemma ShortEpa(ch: Chars, s: string)
    requires MatchesEpa(s)
    ensures InvalidReason(ch, s) == Some(EpaRegulation)
  {
    SorIs(ch, s);
    EpaIs(s);
    assert LowerChar(s[0]) == '4';
  }

  /** A short EPA citation behind a section sign is rejected as one, and gets no such reason. */
  lemma SignedIsUnexplained(ch: Chars, raw: string, rest: string)
    requires MatchesEpa(rest) && raw == "\U{A7}" + rest && |raw| < 15
    ensures InvalidReason(ch, NormalizeRaw(ch, raw)) == Some(EpaRegulation) && InvalidReason(ch, raw) == None
    ensures VerdictOf(DceRegistry(ch), raw) == InvalidReference(NotValid)
  {
    SectionSignHides(ch, rest);
    ShortEpa(ch, NormalizeRaw(ch, raw));
    NotInShort(FORMALDEHYDE, raw);
    RejectedIsNothing(ch, raw);
    VerdictOnRejected(ch, raw);
  }

  lemma ExampleIsEpa(s: string)
    requires s == "40 CFR Part 1"
    ensures MatchesEpa(s)
  {
    EpaOf(s, 3);
  }

  lemma ExampleIsCollapsed(s: string)
    requires s == "\U{A7}40 CFR Part 1"
    ensures Collapse(s) == s
  {
    SpacedIsCollapsed(s);
  }

  /**
   White space is not the only cause: this citation is collapsed, is rejected as an EPA rule, and gets no such
   reason.
   */
  lemma SectionSignExample(ch: Chars, raw: string)
    requires raw == "\U{A7}40 CFR Part 1"
    ensures Collapse(raw) == raw
    ensures InvalidReason(ch, NormalizeRaw(ch, raw)) == Some(EpaRegulation) && InvalidReason(ch, raw) == None
    ensures VerdictOf(DceRegistry(ch), raw) == InvalidReference(NotValid)
  {
    var rest := raw[1..];
    ExampleIsCollapsed(raw);
    assert raw == "\U{A7}" + rest && MatchesEpa(rest) by { ExampleIsEpa(rest); }
    SignedIsUnexplained(ch, raw, rest);
  }
}
