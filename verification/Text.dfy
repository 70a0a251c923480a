/**
 The string operations of Python that the modelled code uses: stripping, finding, splitting, joining, numbers in
 decimal and the case of letters. Each comes with the laws that the other modules need of it, among them that a
 stripped string is the only trimmed core between white space.
 */
module Text {

  /** `str.isspace` on one character, which is also what `\s` matches in a pattern over `str`. */
  predicate IsSpace(c: char) {
    var n := c as int;
    || 0x09 <= n <= 0x0d || 0x1c <= n <= 0x20 || n == 0x85 || n == 0xa0 || n == 0x1680
    || 0x2000 <= n <= 0x200a || n == 0x2028 || n == 0x2029 || n == 0x202f || n == 0x205f || n == 0x3000
  }

  predicate AllSpace(s: string) {
    forall i :: 0 <= i < |s| ==> IsSpace(s[i])
  }

  /** `str.lstrip()`. */
  function LStrip(s: string): (r: string)
    ensures |r| <= |s|
  {
    if s != "" && IsSpace(s[0]) then LStrip(s[1..]) else s
  }

  /** `str.rstrip()`. */
  function RStrip(s: string): (r: string)
    ensures |r| <= |s|
  {
    if s != "" && IsSpace(s[|s| - 1]) then RStrip(s[..|s| - 1]) else s
  }

  lemma {:induction false} LStripParts(s: string)
    ensures var r := LStrip(s);
            s == s[..|s| - |r|] + r && AllSpace(s[..|s| - |r|]) && (r != "" ==> !IsSpace(r[0]))
  {
    if s != "" && IsSpace(s[0]) {
      var t := s[1..];
      LStripParts(t);
      var r := LStrip(t);
      var k := |s| - |r|;
      assert s[k..] == t[k - 1..] == r;
      assert s[..k] == [s[0]] + t[..k - 1];
    }
  }

  lemma {:induction false} RStripParts(s: string)
    ensures var r := RStrip(s);
            s == r + s[|r|..] && AllSpace(s[|r|..]) && (r != "" ==> !IsSpace(r[|r| - 1]))
  {
    if s != "" && IsSpace(s[|s| - 1]) {
      var t := s[..|s| - 1];
      RStripParts(t);
      OneMoreSpace(t, s[|s| - 1], RStrip(t));
      assert s == t + [s[|s| - 1]];
    }
  }

  lemma OneMoreSpace(t: string, c: char, r: string)
    requires |r| <= |t| && t == r + t[|r|..] && AllSpace(t[|r|..]) && IsSpace(c)
    ensures var s := t + [c]; s == r + s[|r|..] && AllSpace(s[|r|..])
  {
    assert (t + [c])[|r|..] == t[|r|..] + [c];
  }

  /** `str.strip()`. */
  function Strip(s: string): string {
    RStrip(LStrip(s))
  }

  /** A string that neither starts nor ends with white space. */
  predicate Trimmed(s: string) {
    s == "" || (!IsSpace(s[0]) && !IsSpace(s[|s| - 1]))
  }

  /** The white space that `Strip` removes in front. */
  function Lead(s: string): string {
    s[..|s| - |LStrip(s)|]
  }

  /** The white space that `Strip` removes at the end. */
  function Trail(s: string): string {
    LStrip(s)[|Strip(s)|..]
  }

  /** `Strip` splits its argument into white space, a trimmed core and white space. */
  lemma StripParts(s: string)
    ensures s == Lead(s) + LStrip(s) && LStrip(s) == Strip(s) + Trail(s)
    ensures AllSpace(Lead(s)) && AllSpace(Trail(s)) && Trimmed(Strip(s))
  {
    LeadParts(s);
    TrailParts(s);
  }

  lemma LeadParts(s: string)
    ensures s == Lead(s) + LStrip(s) && AllSpace(Lead(s))
  {
    LStripParts(s);
  }

  lemma TrailParts(s: string)
    ensures LStrip(s) == Strip(s) + Trail(s) && AllSpace(Trail(s)) && Trimmed(Strip(s))
  {
    LStripParts(s);
    TrimmedFront(LStrip(s));
  }

  lemma TrimmedFront(t: string)
    requires t != "" ==> !IsSpace(t[0])
    ensures var r := RStrip(t); t == r + t[|r|..] && AllSpace(t[|r|..]) && Trimmed(r)
  {
    var r := RStrip(t);
    RStripParts(t);
    if r != "" { assert r[0] == t[0]; }
  }

  lemma {:induction false} LStripLead(lead: string, t: string)
    requires AllSpace(lead) && (t != "" ==> !IsSpace(t[0]))
    ensures LStrip(lead + t) == t
  {
    if lead == "" {
      assert lead + t == t;
    } else {
      assert (lead + t)[1..] == lead[1..] + t;
      LStripLead(lead[1..], t);
    }
  }

  lemma {:induction false} RStripTrail(t: string, trail: string)
    requires AllSpace(trail) && (t != "" ==> !IsSpace(t[|t| - 1]))
    ensures RStrip(t + trail) == t
  {
    var s := t + trail;
    if trail == "" {
      assert s == t;
    } else {
      assert s[..|s| - 1] == t + trail[..|trail| - 1];
      RStripTrail(t, trail[..|trail| - 1]);
    }
  }

  /** The decomposition of `StripParts` is the only one: a trimmed core between white space is what is left. */
  lemma StripUnique(lead: string, core: string, trail: string)
    requires AllSpace(lead) && AllSpace(trail) && Trimmed(core)
    ensures Strip(lead + core + trail) == core
  {
    if core == "" {
      assert lead + core + trail == (lead + trail) + "";
      LStripLead(lead + trail, "");
    } else {
      assert lead + core + trail == lead + (core + trail);
      LStripLead(lead, core + trail);
      RStripTrail(core, trail);
    }
  }

  lemma Regroup(a: string, l: string, c: string, t: string, z: string)
    ensures a + (l + c + t) + z == (a + l) + c + (t + z)
  {
  }

  /** White space around a string does not change what stripping leaves of it. */
  lemma StripPadded(a: string, mid: string, z: string)
    requires AllSpace(a) && AllSpace(z)
    ensures Strip(a + mid + z) == Strip(mid)
  {
    var l, c, t := Lead(mid), Strip(mid), Trail(mid);
    assert mid == l + c + t && AllSpace(l) && AllSpace(t) && Trimmed(c) by { StripParts(mid); }
    Regroup(a, l, c, t, z);
    StripUnique(a + l, c, t + z);
  }

  /** `s.startswith(t, p)` for a position p in s. */
  predicate At(s: string, p: int, t: string)
    ensures At(s, p, t) ==> 0 <= p && p + |t| <= |s|
    decreases |t|
  {
    if t == "" then 0 <= p <= |s| else 0 <= p < |s| && s[p] == t[0] && At(s, p + 1, t[1..])
  }

  lemma {:induction false} AtSlice(s: string, p: int, t: string)
    ensures At(s, p, t) <==> 0 <= p && p + |t| <= |s| && s[p..p + |t|] == t
    decreases |t|
  {
    if t != "" && 0 <= p && p + |t| <= |s| {
      AtSlice(s, p + 1, t[1..]);
      assert s[p..p + |t|] == [s[p]] + s[p + 1..p + |t|];
      assert t == [t[0]] + t[1..];
    }
  }

  /** `t in s`. */
  predicate Contains(s: string, t: string) {
    exists p :: 0 <= p <= |s| && At(s, p, t)
  }

  lemma AtSplit(s: string, p: int, a: string, b: string)
    requires 0 <= p
    ensures At(s, p, a + b) <==> At(s, p, a) && At(s, p + |a|, b)
  {
    AtSlice(s, p, a + b);
    AtSlice(s, p, a);
    AtSlice(s, p + |a|, b);
    if p + |a| + |b| <= |s| { SliceSplit(s, p, a, b); }
  }

  lemma SliceSplit(s: string, p: nat, a: string, b: string)
    requires p + |a| + |b| <= |s|
    ensures s[p..p + |a + b|] == a + b <==> s[p..p + |a|] == a && s[p + |a|..p + |a| + |b|] == b
  {
    var u, v := s[p..p + |a|], s[p + |a|..p + |a| + |b|];
    assert s[p..p + |a + b|] == u + v;
    assert (u + v)[..|a|] == u && (u + v)[|a|..] == v;
    assert (a + b)[..|a|] == a && (a + b)[|a|..] == b;
  }

  lemma AtChar(s: string, p: int, t: string, i: nat)
    requires At(s, p, t) && i < |t|
    ensures s[p + i] == t[i]
  {
    AtSlice(s, p, t);
    assert s[p..p + |t|][i] == t[i];
  }

  lemma AtShifted(a: string, s: string, p: nat, w: string)
    ensures At(a + s, |a| + p, w) <==> At(s, p, w)
  {
    AtSlice(a + s, |a| + p, w);
    AtSlice(s, p, w);
    if p + |w| <= |s| { assert (a + s)[|a| + p..|a| + p + |w|] == s[p..p + |w|]; }
  }

  lemma AtInFront(s: string, rest: string, p: nat, w: string)
    requires p + |w| <= |s|
    ensures At(s + rest, p, w) <==> At(s, p, w)
  {
    AtSlice(s + rest, p, w);
    AtSlice(s, p, w);
    assert (s + rest)[p..p + |w|] == s[p..p + |w|];
  }

  lemma ContainsBehind(a: string, s: string, w: string)
    requires Contains(s, w)
    ensures Contains(a + s, w)
  {
    var p :| 0 <= p <= |s| && At(s, p, w);
    AtShifted(a, s, p, w);
  }

  lemma ContainsFront(w: string, rest: string)
    ensures Contains(w + rest, w)
  {
    AtSlice(w + rest, 0, w);
    assert (w + rest)[0..|w|] == w;
  }

  lemma SolidInside(lead: string, t: string, trail: string, p: nat)
    requires AllSpace(lead) && AllSpace(trail) && p < |lead + (t + trail)| && !IsSpace((lead + (t + trail))[p])
    ensures |lead| <= p < |lead| + |t|
  {
    var raw := lead + (t + trail);
    assert forall i :: 0 <= i < |lead| ==> IsSpace(raw[i]);
    assert forall i :: |lead| + |t| <= i < |raw| ==> IsSpace(raw[i]);
  }

  /** Text with no white space at its ends is not stripped. */
  lemma StripKeeps(raw: string, w: string)
    requires Contains(raw, w) && w != "" && Trimmed(w)
    ensures Contains(Strip(raw), w)
  {
    var p: nat :| p <= |raw| && At(raw, p, w);
    var lead, t, trail := Lead(raw), Strip(raw), Trail(raw);
    assert raw == lead + (t + trail) && AllSpace(lead) && AllSpace(trail) by { StripParts(raw); }
    BetweenSpace(lead, t, trail, p, w);
  }

  lemma BetweenSpace(lead: string, t: string, trail: string, p: nat, w: string)
    requires AllSpace(lead) && AllSpace(trail) && At(lead + (t + trail), p, w) && w != "" && Trimmed(w)
    ensures Contains(t, w)
  {
    AtChar(lead + (t + trail), p, w, 0);
    AtChar(lead + (t + trail), p, w, |w| - 1);
    SolidInside(lead, t, trail, p);
    SolidInside(lead, t, trail, p + |w| - 1);
    AtShifted(lead, t + trail, p - |lead|, w);
    AtInFront(t, trail, p - |lead|, w);
  }

  /** Nor does stripping make any. */
  lemma StripContains(s: string, w: string)
    requires w != "" && Trimmed(w)
    ensures Contains(Strip(s), w) <==> Contains(s, w)
  {
    if Contains(s, w) { StripKeeps(s, w); }
    if Contains(Strip(s), w) {
      var p: nat :| p <= |Strip(s)| && At(Strip(s), p, w);
      StripParts(s);
      AtInFront(Strip(s), Trail(s), p, w);
      ContainsBehind(Lead(s), LStrip(s), w);
    }
  }

  lemma AtBreaks(s: string, p: nat)
    ensures At(s, p, "\n\n") <==> p + 2 <= |s| && s[p] == '\n' && s[p + 1] == '\n'
  {
    AtSlice(s, p, "\n\n");
    if p + 2 <= |s| { assert s[p..p + 2] == [s[p], s[p + 1]]; }
  }

  /** The length of the word at the front of s. */
  function WordLength(s: string): (n: nat)
    ensures n <= |s|
  {
    if s == "" || IsSpace(s[0]) then 0 else 1 + WordLength(s[1..])
  }

  /** `str.split()`: the words between white space. */
  function Split(s: string): seq<string>
    decreases |s|
  {
    var t := LStrip(s);
    if t == "" || WordLength(t) == 0 then [] else [t[..WordLength(t)]] + Split(t[WordLength(t)..])
  }

  /** `separator.join(parts)`. */
  function Join(separator: string, parts: seq<string>): string {
    if parts == [] then "" else if |parts| == 1 then parts[0] else parts[0] + separator + Join(separator, parts[1..])
  }

  /** `str(n)`. */
  function Decimal(n: nat): string {
    var digit := "0123456789"[n % 10];
    if n < 10 then [digit] else Decimal(n / 10) + [digit]
  }

  /** `str.upper()` and `str.lower()` on ASCII letters. */
  function UpperChar(c: char): char {
    if 'a' <= c <= 'z' then c - 'a' + 'A' else c
  }

  function LowerChar(c: char): char {
    if 'A' <= c <= 'Z' then c - 'A' + 'a' else c
  }

  function Upper(s: string): string {
    if s == "" then "" else [UpperChar(s[0])] + Upper(s[1..])
  }

  function Lower(s: string): string {
    if s == "" then "" else [LowerChar(s[0])] + Lower(s[1..])
  }
}
