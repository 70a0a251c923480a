/**
 Collapsing white space, once by substituting a blank for every run of it in the stripped string, and once by
 splitting into words and joining them with blanks. Both are the same squeezing, which done twice is done once.
 */
module Whitespace {
  import opened Options
  import opened Text
  import opened Regex
  import opened Sequences

  /** The pattern `\s+`. */
  const SPACES := Greedy(IsSpace, 1, Accept)

  /** `" ".join(s.split())`. */
  function Collapse(s: string): string {
    Join(" ", Split(s))
  }

  /** Every run of white space as one blank. */
  function Squeezed(s: string): string
    decreases |s|
  {
    if s == "" then ""
    else if IsSpace(s[0]) then " " + Squeezed(LStrip(s[1..]))
    else [s[0]] + Squeezed(s[1..])
  }

  lemma {:induction false} RunIsLead(s: string, p: nat)
    requires p <= |s|
    ensures s[p + RunLength(IsSpace, s, p)..] == LStrip(s[p..])
    decreases |s| - p
  {
    if p < |s| && IsSpace(s[p]) {
      assert s[p..][1..] == s[p + 1..];
      RunIsLead(s, p + 1);
    }
  }

  lemma RunSpaces(s: string, p: nat, n: nat)
    requires p <= |s| && n == RunLength(IsSpace, s, p)
    ensures Run(SPACES, s, p) == if n > 0 then Some(map[0 := p + n]) else None
  {
    assert Run(Accept, s, p + n) == Some(map[0 := p + n]);
    assert Run(SPACES, s, p) == RunGreedy(SPACES, s, p, n);
  }

  lemma SubSpacesStep(s: string, p: nat, n: nat)
    requires p < |s| && n == RunLength(IsSpace, s, p)
    ensures Sub(SPACES, s, p, " ") == if n > 0 then " " + Sub(SPACES, s, p + n, " ")
            else [s[p]] + Sub(SPACES, s, p + 1, " ")
  {
    RunSpaces(s, p, n);
  }

  /** Substituting a blank for `\s+` squeezes the white space. */
  lemma {:induction false} SubSqueezes(s: string, p: nat)
    requires p <= |s|
    ensures Sub(SPACES, s, p, " ") == Squeezed(s[p..])
    decreases |s| - p
  {
    if p < |s| {
      var n := RunLength(IsSpace, s, p);
      SubSpacesStep(s, p, n);
      SubSqueezes(s, if n > 0 then p + n else p + 1);
      RunIsLead(s, p);
      assert s[p..][1..] == s[p + 1..];
    }
  }

  lemma {:induction false} SqueezedWord(w: string, rest: string)
    requires forall i :: 0 <= i < |w| ==> !IsSpace(w[i])
    ensures Squeezed(w + rest) == w + Squeezed(rest)
  {
    if w == "" {
      assert w + rest == rest;
    } else {
      assert (w + rest)[1..] == w[1..] + rest;
      SqueezedWord(w[1..], rest);
    }
  }

  lemma SqueezedGap(lead: string, rest: string)
    requires lead != "" && AllSpace(lead) && rest != "" && !IsSpace(rest[0])
    ensures Squeezed(lead + rest) == " " + Squeezed(rest)
  {
    assert (lead + rest)[1..] == lead[1..] + rest;
    LStripLead(lead[1..], rest);
  }

  lemma {:induction false} WordEnds(s: string)
    ensures forall i :: 0 <= i < WordLength(s) ==> !IsSpace(s[i])
    ensures WordLength(s) < |s| ==> IsSpace(s[WordLength(s)])
  {
    if s != "" && !IsSpace(s[0]) { WordEnds(s[1..]); }
  }

  lemma RStripAppend(a: string, u: string)
    requires u != "" && !IsSpace(u[0])
    ensures RStrip(u) != "" && RStrip(u)[0] == u[0] && RStrip(a + u) == a + RStrip(u)
  {
    RStripParts(u);
    var r := RStrip(u);
    Regrouped(a, r, u[|r|..]);
    RStripTrail(a + r, u[|r|..]);
  }

  lemma LastWord(w: string, rest: string)
    requires w != "" && AllSpace(rest) && forall i :: 0 <= i < |w| ==> !IsSpace(w[i])
    ensures Squeezed(RStrip(w + rest)) == w
  {
    RStripTrail(w, rest);
    SqueezedWord(w, "");
    assert w + "" == w;
  }

  lemma WordAndGap(w: string, lead: string, v: string)
    requires lead != "" && AllSpace(lead) && forall i :: 0 <= i < |w| ==> !IsSpace(w[i])
    requires v != "" && !IsSpace(v[0])
    ensures Squeezed(w + (lead + v)) == w + " " + Squeezed(v)
  {
    SqueezedWord(w, lead + v);
    SqueezedGap(lead, v);
    Regrouped(w, " ", Squeezed(v));
  }

  lemma NextWord(w: string, lead: string, u: string)
    requires lead != "" && AllSpace(lead) && forall i :: 0 <= i < |w| ==> !IsSpace(w[i])
    requires u != "" && !IsSpace(u[0])
    ensures Squeezed(RStrip(w + (lead + u))) == w + " " + Squeezed(RStrip(u))
  {
    var v := RStrip(u);
    assert v != "" && !IsSpace(v[0]) && RStrip(w + (lead + u)) == w + (lead + v) by {
      Regrouped(w, lead, u);
      RStripAppend(w + lead, u);
      Regrouped(w, lead, v);
    }
    WordAndGap(w, lead, v);
  }

  /** Splitting takes the first word, and goes on behind the white space after it. */
  lemma SplitStep(t: string, w: string, lead: string, u: string)
    requires t != "" && !IsSpace(t[0]) && w == t[..WordLength(t)] && u == LStrip(t[|w|..])
    requires lead == t[|w|..][..|t| - |w| - |u|]
    ensures w != "" && |u| < |t| && Split(t) == [w] + Split(u) && t == w + (lead + u) && AllSpace(lead)
    ensures u != "" ==> !IsSpace(u[0]) && lead != ""
  {
    var rest := t[|w|..];
    assert t == w + rest;
    assert rest == lead + u && AllSpace(lead) && (u != "" ==> !IsSpace(u[0])) by { LStripParts(rest); }
    assert rest != "" ==> IsSpace(rest[0]) by { WordEnds(t); }
  }

  lemma JoinStep(w: string, words: seq<string>)
    requires words != []
    ensures Join(" ", [w] + words) == w + " " + Join(" ", words)
  {
    assert ([w] + words)[1..] == words;
  }

  /** Joining the words of a string that starts with one is squeezing it without the white space at its end. */
  lemma {:induction false} WordsAreSqueezed(t: string)
    requires t != "" && !IsSpace(t[0])
    ensures Split(t) != [] && Join(" ", Split(t)) == Squeezed(RStrip(t))
    decreases |t|
  {
    WordEnds(t);
    var w := t[..WordLength(t)];
    var u := LStrip(t[|w|..]);
    var lead := t[|w|..][..|t| - |w| - |u|];
    SplitStep(t, w, lead, u);
    if u == "" {
      assert Split(u) == [] && [w] + [] == [w] && lead + u == lead;
      LastWord(w, lead);
    } else {
      WordsAreSqueezed(u);
      JoinStep(w, Split(u));
      NextWord(w, lead, u);
    }
  }

  lemma CollapseIsSqueeze(s: string)
    ensures Collapse(s) == Squeezed(Strip(s))
  {
    var t := LStrip(s);
    LStripParts(s);
    if t != "" {
      assert Split(s) == Split(t);
      WordsAreSqueezed(t);
    }
  }

  lemma {:induction false} SqueezedEnds(s: string)
    ensures s != "" ==> Squeezed(s) != ""
    ensures s != "" && !IsSpace(s[0]) ==> Squeezed(s)[0] == s[0]
    ensures s != "" && !IsSpace(s[|s| - 1]) ==> Squeezed(s)[|Squeezed(s)| - 1] == s[|s| - 1]
    decreases |s|
  {
    if s != "" {
      LStripParts(s[1..]);
      SqueezedEnds(if IsSpace(s[0]) then LStrip(s[1..]) else s[1..]);
    }
  }

  lemma {:induction false} SqueezedTwice(s: string)
    ensures Squeezed(Squeezed(s)) == Squeezed(s)
    decreases |s|
  {
    if s != "" {
      if IsSpace(s[0]) {
        var t := LStrip(s[1..]);
        LStripParts(s[1..]);
        SqueezedTwice(t);
        SqueezedEnds(t);
        if t != "" { SqueezedGap(" ", Squeezed(t)); }
      } else {
        SqueezedTwice(s[1..]);
      }
    }
  }

  /** Collapsing twice is collapsing once, and nothing of a collapsed string is stripped or squeezed. */
  lemma CollapseIsStable(s: string)
    ensures Strip(Collapse(s)) == Collapse(s) && Squeezed(Collapse(s)) == Collapse(s)
            && Collapse(Collapse(s)) == Collapse(s)
  {
    var t := Strip(s);
    StripParts(s);
    CollapseIsSqueeze(s);
    SqueezedEnds(t);
    SqueezedTwice(t);
    var c := Collapse(s);
    StripUnique("", c, "");
    assert "" + c + "" == c;
    CollapseIsSqueeze(c);
  }
}
