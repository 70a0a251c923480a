/**
 Reading back what was printed: which phase results survive PROGRESS.md, and that exactly those do.

 An entry is a header, a blank line, the report and a blank line. The report is white space, a trimmed
 core and white space, so everything up to the core is one run of white space for the matcher. The body
 group starts behind the last blank line of that run and stops at the nearest line break before hashes.
 It is the whole report, once trimmed, unless such a line break stands in the core or right before it.
 */
module RoundTrip {
  import opened Options
  import opened Text
  import opened Regex
  import opened Progress

  /** White space that ends in a line break with something other than a line break before it. */
  predicate Dangling(lead: string) {
    |lead| >= 2 && lead[|lead| - 1] == '\n' && lead[|lead| - 2] != '\n'
  }

  /**
   A report that the parser reads back: it is not blank, no line of it but the first starts a new
   section, and its first line does so only if the blank lines before it end in an empty one.
   */
  ghost predicate Readable(report: string) {
    Strip(report) != "" && Intact(Lead(report), LStrip(report))
  }

  /** No new section starts in rest when lead stands before it. */
  ghost predicate Intact(lead: string, rest: string) {
    !Contains(rest, NEXT_SECTION) && !(Dangling(lead) && At(rest, 0, "## "))
  }

  /** A phase result that the parser reads back. Phase names always are words. */
  ghost predicate Good(w: char -> bool, r: PhaseResult) {
    IsWord(w, r.agent) && Readable(r.report)
  }

  lemma PhaseNamesAreWords(w: char -> bool, p: Phase)
    requires WordClass(w)
    ensures IsWord(w, PhaseName(p))
  {
  }

  // ----- Where the parts of an entry are -----

  /** From j on: the blank line behind the header, white space, the core, white space, the final blank line. */
  predicate Laid(s: string, j: nat, lead: string, core: string, trail: string) {
    && At(s, j, "\n\n") && At(s, j + 2, lead) && At(s, j + 2 + |lead|, core)
    && At(s, j + 2 + |lead| + |core|, trail) && At(s, j + 2 + |lead| + |core| + |trail|, "\n\n")
    && AllSpace(lead) && AllSpace(trail) && Trimmed(core)
  }

  function GapPos(h: nat, r: PhaseResult): nat {
    h + 6 + |PhaseName(r.phase)| + |r.agent|
  }

  lemma EntryParts(s: string, h: nat, r: PhaseResult)
    requires At(s, h, Entry(r))
    ensures HeaderAt(s, h, PhaseName(r.phase), r.agent)
    ensures At(s, GapPos(h, r) + 2, r.report) && At(s, GapPos(h, r) + 2 + |r.report|, "\n\n")
    ensures h + |Entry(r)| == GapPos(h, r) + 4 + |r.report|
  {
    var head := Header(r) + "\n\n";
    assert Entry(r) == head + r.report + "\n\n";
    AtSplit(s, h, head + r.report, "\n\n");
    AtSplit(s, h, head, r.report);
    HeaderParts(s, h, PhaseName(r.phase), r.agent);
  }

  lemma EntryLaid(s: string, h: nat, r: PhaseResult)
    requires At(s, h, Entry(r))
    ensures HeaderAt(s, h, PhaseName(r.phase), r.agent)
    ensures Laid(s, GapPos(h, r), Lead(r.report), Strip(r.report), Trail(r.report))
    ensures h + |Entry(r)| == GapPos(h, r) + 4 + |Lead(r.report)| + |Strip(r.report)| + |Trail(r.report)|
  {
    EntryParts(s, h, r);
    ReportLaid(s, GapPos(h, r), r.report);
  }

  lemma ReportLaid(s: string, j: nat, report: string)
    requires At(s, j, "\n\n") && At(s, j + 2, report) && At(s, j + 2 + |report|, "\n\n")
    ensures Laid(s, j, Lead(report), Strip(report), Trail(report))
    ensures |report| == |Lead(report)| + |Strip(report)| + |Trail(report)|
  {
    var lead, core, trail := Lead(report), Strip(report), Trail(report);
    assert AllSpace(lead) && AllSpace(trail) && Trimmed(core) by { StripParts(report); }
    ReportParts(s, j + 2, report);
    assert At(s, j + 2 + |report|, "\n\n");
  }

  lemma ReportParts(s: string, p: nat, report: string)
    requires At(s, p, report)
    ensures At(s, p, Lead(report)) && At(s, p + |Lead(report)|, LStrip(report))
    ensures At(s, p + |Lead(report)|, Strip(report)) && At(s, p + |Lead(report)| + |Strip(report)|, Trail(report))
    ensures |report| == |Lead(report)| + |Strip(report)| + |Trail(report)|
  {
    StripParts(report);
    AtSplit(s, p, Lead(report), LStrip(report));
    AtSplit(s, p + |Lead(report)|, Strip(report), Trail(report));
  }

  /** White space from p up to e. */
  predicate Blank(s: string, p: int, e: int) {
    0 <= p && e <= |s| && forall i :: p <= i < e ==> IsSpace(s[i])
  }

  lemma AtBlank(s: string, p: int, t: string)
    requires At(s, p, t) && AllSpace(t)
    ensures Blank(s, p, p + |t|)
  {
    forall i | p <= i < p + |t| ensures IsSpace(s[i]) { AtChar(s, p, t, i - p); }
  }

  lemma LaidBlank(s: string, j: nat, lead: string, core: string, trail: string)
    requires Laid(s, j, lead, core, trail)
    ensures Blank(s, j, j + 2 + |lead|)
    ensures Blank(s, j + 2 + |lead| + |core|, j + 4 + |lead| + |core| + |trail|)
    ensures core != "" ==> !IsSpace(s[j + 2 + |lead|]) && RunLength(IsSpace, s, j) == 2 + |lead|
  {
    AtBlank(s, j, "\n\n");
    AtBlank(s, j + 2, lead);
    AtBlank(s, j + 2 + |lead| + |core|, trail);
    AtBlank(s, j + 2 + |lead| + |core| + |trail|, "\n\n");
    if core != "" {
      AtChar(s, j + 2 + |lead|, core, 0);
      RunLengthIs(IsSpace, s, j, 2 + |lead|);
    }
  }

  // ----- Trimming a slice -----

  lemma BlankSlice(s: string, p: nat, e: nat)
    requires p <= e && Blank(s, p, e)
    ensures AllSpace(s[p..e])
  {
  }

  /** A slice that holds the whole trimmed core and white space besides is trimmed to the core. */
  lemma TrimSlice(s: string, b: nat, cs: nat, ce: nat, e: nat)
    requires b <= cs <= ce <= e <= |s| && Blank(s, b, cs) && Blank(s, ce, e) && Trimmed(s[cs..ce])
    ensures Strip(s[b..e]) == s[cs..ce]
  {
    BlankSlice(s, b, cs);
    BlankSlice(s, ce, e);
    assert s[b..e] == s[b..cs] + s[cs..ce] + s[ce..e];
    StripUnique(s[b..cs], s[cs..ce], s[ce..e]);
  }

  /** White space at either end of a slice does not count towards its trimmed length. */
  lemma TrimBound(s: string, b: nat, cs: nat, ce: nat, e: nat)
    requires b <= cs <= ce <= e <= |s| && Blank(s, b, cs) && Blank(s, ce, e)
    ensures |Strip(s[b..e])| <= ce - cs
  {
    BlankSlice(s, b, cs);
    BlankSlice(s, ce, e);
    assert s[b..e] == s[b..cs] + s[cs..ce] + s[ce..e];
    StripPadded(s[b..cs], s[cs..ce], s[ce..e]);
  }

  // ----- Where the body of an entry starts and stops -----

  /** The blank line that ends the white space before the core, if there is one there. */
  lemma BreaksBeforeCore(s: string, j: nat, lead: string)
    requires At(s, j, "\n\n") && At(s, j + 2, lead)
    ensures var cs := j + 2 + |lead|;
            && (Dangling(lead) ==> s[cs - 1] == '\n' && s[cs - 2] != '\n')
            && (!Dangling(lead) && s[cs - 1] == '\n' ==> At(s, cs - 2, "\n\n"))
  {
    AtBreaks(s, j);
    AtBreaks(s, j + |lead|);
    if |lead| >= 1 { AtChar(s, j + 2, lead, |lead| - 1); }
    if |lead| >= 2 { AtChar(s, j + 2, lead, |lead| - 2); }
  }

  lemma BodyStartOf(s: string, j: nat, lead: string, core: string, trail: string) returns (b: nat)
    requires Laid(s, j, lead, core, trail) && core != ""
    ensures j + 2 <= b <= j + 2 + |lead| && BodyStart(s, j, 2 + |lead|) == Some(b)
    ensures Dangling(lead) ==> b <= j + |lead|
    ensures !Dangling(lead) && s[j + 1 + |lead|] == '\n' ==> b == j + 2 + |lead|
  {
    LaidBlank(s, j, lead, core, trail);
    BreaksBeforeCore(s, j, lead);
    BodyStartIsLast(s, j, 2 + |lead|);
    b := BodyStart(s, j, 2 + |lead|).value;
    AtBreaks(s, b - 2);
  }

  lemma AtSection(s: string, x: nat)
    ensures At(s, x, "## ") <==> x + 3 <= |s| && s[x] == '#' && s[x + 1] == '#' && s[x + 2] == ' '
    ensures At(s, x, NEXT_SECTION) <==> x < |s| && s[x] == '\n' && At(s, x + 1, "## ")
  {
    AtSlice(s, x, "## ");
    AtSlice(s, x, "\n");
    if x + 3 <= |s| { assert s[x..x + 3] == [s[x], s[x + 1], s[x + 2]]; }
    AtSplit(s, x, "\n", "## ");
    assert NEXT_SECTION == "\n" + "## ";
    if x < |s| { assert s[x..x + 1] == [s[x]]; }
  }

  /** A section border inside an entry lies in its core, or right before it. */
  lemma BorderInEntry(s: string, j: nat, lead: string, core: string, trail: string, x: nat)
    requires Laid(s, j, lead, core, trail) && core != ""
    requires j <= x && x + 1 < j + 4 + |lead| + |core| + |trail| && At(s, x, NEXT_SECTION)
    ensures var cs := j + 2 + |lead|;
            && cs - 1 <= x && x + 1 < cs + |core|
            && (if x == cs - 1 then At(core + trail, 0, "## ") else At(core + trail, x - cs, NEXT_SECTION))
  {
    var cs := j + 2 + |lead|;
    var rest := core + trail;
    HashesInCore(s, j, lead, core, trail, x);
    assert At(s, cs, rest) by { AtSplit(s, cs, core, trail); }
    assert At(s, x + 1, "## ") by { AtSection(s, x); }
    SameAt(s, cs, rest, x + 1, "## ");
    if x >= cs { SameAt(s, cs, rest, x, NEXT_SECTION); }
  }

  /** The two hashes of a border are in the core, and the space behind them is still in the report. */
  lemma HashesInCore(s: string, j: nat, lead: string, core: string, trail: string, x: nat)
    requires Laid(s, j, lead, core, trail) && core != ""
    requires j <= x && x + 1 < j + 4 + |lead| + |core| + |trail| && At(s, x, NEXT_SECTION)
    ensures var cs := j + 2 + |lead|;
            cs - 1 <= x && x + 2 < cs + |core| && x + 3 < cs + |core| + |trail|
  {
    var cs := j + 2 + |lead|;
    var end := cs + |core| + |trail| + 2;
    LaidBlank(s, j, lead, core, trail);
    AtBreaks(s, end - 2);
    AtSection(s, x);
    AtSection(s, x + 1);
    assert !IsSpace(s[x + 1]) && !IsSpace(s[x + 2]);
  }

  /** What occurs in s inside an occurrence of t occurs in t. */
  lemma SameAt(s: string, p: nat, t: string, x: nat, u: string)
    requires At(s, p, t) && p <= x && x + |u| <= p + |t|
    ensures At(s, x, u) <==> At(t, x - p, u)
  {
    var k := x - p;
    assert t == t[..k] + t[k..];
    assert t[k..] == t[k..k + |u|] + t[k + |u|..];
    AtSplit(s, p, t[..k], t[k..]);
    AtSplit(s, x, t[k..k + |u|], t[k + |u|..]);
    AtSlice(s, x, u);
    AtSlice(s, x, t[k..k + |u|]);
    AtSlice(t, k, u);
  }

  /** The body of a readable report stops at the line break before the next section, or at the end. */
  lemma ReadableEnd(s: string, j: nat, lead: string, core: string, trail: string, b: nat, end: nat)
    requires Laid(s, j, lead, core, trail) && core != "" && Intact(lead, core + trail)
    requires BodyStart(s, j, 2 + |lead|) == Some(b) && b < |s|
    requires end == j + 4 + |lead| + |core| + |trail| && (end == |s| || At(s, end, "## "))
    ensures BodyEnd(s, b + 1) == if end == |s| then end else end - 1
  {
    forall x | b + 1 <= x < end - 1 ensures !At(s, x, NEXT_SECTION) {
      NoBorderInside(s, j, lead, core, trail, b, x);
    }
    assert end < |s| ==> At(s, end - 1, NEXT_SECTION) by {
      AtSection(s, end - 1);
      AtBreaks(s, end - 2);
    }
    assert b + 1 <= end - 1 by { var b' := BodyStartOf(s, j, lead, core, trail); }
    BodyEndIsNearest(s, b + 1);
  }

  lemma NoBorderInside(s: string, j: nat, lead: string, core: string, trail: string, b: nat, x: nat)
    requires Laid(s, j, lead, core, trail) && core != "" && Intact(lead, core + trail)
    requires BodyStart(s, j, 2 + |lead|) == Some(b)
    requires b < x && x + 1 < j + 4 + |lead| + |core| + |trail|
    ensures !At(s, x, NEXT_SECTION)
  {
    var b' := BodyStartOf(s, j, lead, core, trail);
    if At(s, x, NEXT_SECTION) {
      AtSection(s, x);
      BorderInEntry(s, j, lead, core, trail, x);
    }
  }

  /** A readable report is what trimming its body gives. */
  lemma ReadableBody(s: string, j: nat, lead: string, core: string, trail: string, b: nat, end: nat)
    requires Laid(s, j, lead, core, trail) && core != "" && Intact(lead, core + trail)
    requires BodyStart(s, j, 2 + |lead|) == Some(b) && b < |s|
    requires end == j + 4 + |lead| + |core| + |trail| && (end == |s| || At(s, end, "## "))
    ensures var e := BodyEnd(s, b + 1); e == (if end == |s| then end else end - 1) && Strip(s[b..e]) == core
  {
    var cs := j + 2 + |lead|;
    var e := BodyEnd(s, b + 1);
    assert e == if end == |s| then end else end - 1 by { ReadableEnd(s, j, lead, core, trail, b, end); }
    assert b <= cs by { var b' := BodyStartOf(s, j, lead, core, trail); }
    assert Blank(s, b, cs) && Blank(s, cs + |core|, e) by { LaidBlank(s, j, lead, core, trail); }
    AtSlice(s, cs, core);
    TrimSlice(s, b, cs, cs + |core|, e);
  }

  /** Where a report that is not intact breaks its entry. */
  lemma BrokenAt(s: string, j: nat, lead: string, core: string, trail: string, b: nat) returns (x: nat)
    requires Laid(s, j, lead, core, trail) && core != "" && !Intact(lead, core + trail)
    requires BodyStart(s, j, 2 + |lead|) == Some(b)
    ensures b < x && x + 2 < j + 2 + |lead| + |core| && At(s, x, NEXT_SECTION)
  {
    var cs, rest := j + 2 + |lead|, core + trail;
    var b' := BodyStartOf(s, j, lead, core, trail);
    assert At(s, cs, rest) by { AtSplit(s, cs, core, trail); }
    if Contains(rest, NEXT_SECTION) {
      var k :| 0 <= k <= |rest| && At(rest, k, NEXT_SECTION);
      x := cs + k;
      SameAt(s, cs, rest, x, NEXT_SECTION);
      AtSection(rest, k);
      assert k > 0;
    } else {
      x := cs - 1;
      SameAt(s, cs, rest, cs, "## ");
      BreaksBeforeCore(s, j, lead);
      AtSection(s, x);
    }
    HashesInCore(s, j, lead, core, trail, x);
  }

  /** The body of a report that is not intact is cut short. */
  lemma BrokenBody(s: string, j: nat, lead: string, core: string, trail: string, b: nat, e: nat)
    requires Laid(s, j, lead, core, trail) && core != "" && !Intact(lead, core + trail)
    requires BodyStart(s, j, 2 + |lead|) == Some(b) && b < |s| && BodyEnd(s, b + 1) == e
    ensures j + 1 + |lead| <= e < j + 2 + |lead| + |core| && At(s, e, NEXT_SECTION)
    ensures |Strip(s[b..e])| < |core|
  {
    var cs := j + 2 + |lead|;
    var x := BrokenAt(s, j, lead, core, trail, b);
    assert b < e <= x && At(s, e, NEXT_SECTION) by { BodyEndIsNearest(s, b + 1); }
    assert b <= cs && j <= e by { var b' := BodyStartOf(s, j, lead, core, trail); }
    assert cs - 1 <= e by { HashesInCore(s, j, lead, core, trail, e); }
    assert Blank(s, b, cs) by { LaidBlank(s, j, lead, core, trail); }
    if e >= cs {
      TrimBound(s, b, cs, e, e);
    } else {
      TrimBound(s, b, e, e, e);
    }
  }

  // ----- One entry -----

  /** An entry for r at h, seen through its parts. */
  predicate EntryAt(s: string, h: nat, r: PhaseResult) {
    && HeaderAt(s, h, PhaseName(r.phase), r.agent)
    && Laid(s, GapPos(h, r), Lead(r.report), Strip(r.report), Trail(r.report))
    && (h == 0 || s[h - 1] == '\n')
  }

  function EntryEnd(h: nat, r: PhaseResult): nat {
    GapPos(h, r) + 4 + |Lead(r.report)| + |Strip(r.report)| + |Trail(r.report)|
  }

  /** What the marks set behind a header pick out. */
  lemma MarksMeaning(s: string, h: nat, phase: string, agent: string, b: nat, e: nat, m: Marks)
    requires NamesAt(s, h, phase, agent) && b <= e <= |s|
    requires var i := h + 3 + |phase|;
             m == map[0 := e][6 := e][5 := b][4 := i + 3 + |agent|][3 := i + 3][2 := i][1 := h + 3]
    ensures 0 in m && m[0] == e
    ensures Group(s, m, 1, 2) == phase && Group(s, m, 3, 4) == agent && Group(s, m, 5, 6) == s[b..e]
  {
    var i := h + 3 + |phase|;
    AtSlice(s, h + 3, phase);
    AtSlice(s, i + 3, agent);
  }

  /** The match at the header of an entry: its body goes from b to e. */
  lemma LaidMatch(w: char -> bool, s: string, h: nat, phase: string, agent: string,
                  j: nat, lead: string, core: string, trail: string)
    returns (m: Marks, b: nat, e: nat)
    requires WordClass(w) && IsWord(w, phase) && IsWord(w, agent)
    requires HeaderAt(s, h, phase, agent) && (h == 0 || s[h - 1] == '\n')
    requires j == h + 6 + |phase| + |agent| && Laid(s, j, lead, core, trail) && core != ""
    ensures BodyStart(s, j, 2 + |lead|) == Some(b) && b < |s| && BodyEnd(s, b + 1) == e
    ensures Run(PhaseRe(w), s, h) == Some(m) && 0 in m && m[0] == e
    ensures SectionOf(s, m) == Section(phase, agent, Strip(s[b..e]))
  {
    b := EntryBody(s, j, lead, core, trail);
    e := BodyEnd(s, b + 1);
    m := HeaderMatch(w, s, h, phase, agent, j, 2 + |lead|, b, e);
  }

  lemma EntryBody(s: string, j: nat, lead: string, core: string, trail: string) returns (b: nat)
    requires Laid(s, j, lead, core, trail) && core != ""
    ensures RunLength(IsSpace, s, j) == 2 + |lead|
    ensures BodyStart(s, j, 2 + |lead|) == Some(b) && b < |s|
  {
    LaidBlank(s, j, lead, core, trail);
    b := BodyStartOf(s, j, lead, core, trail);
  }

  lemma HeaderMatch(w: char -> bool, s: string, h: nat, phase: string, agent: string, j: nat, n: nat, b: nat, e: nat)
    returns (m: Marks)
    requires WordClass(w) && IsWord(w, phase) && IsWord(w, agent)
    requires HeaderAt(s, h, phase, agent) && (h == 0 || s[h - 1] == '\n')
    requires j == h + 6 + |phase| + |agent| && RunLength(IsSpace, s, j) == n
    requires BodyStart(s, j, n) == Some(b) && b < |s| && BodyEnd(s, b + 1) == e
    ensures Run(PhaseRe(w), s, h) == Some(m) && 0 in m && m[0] == e
    ensures SectionOf(s, m) == Section(phase, agent, Strip(s[b..e]))
  {
    var i := h + 3 + |phase|;
    m := map[0 := e][6 := e][5 := b][4 := i + 3 + |agent|][3 := i + 3][2 := i][1 := h + 3];
    AtChar(s, j, "\n\n", 0);
    RunNames(w, s, h, phase, agent);
    MarksMeaning(s, h, phase, agent, b, e, m);
  }

  /** A good entry in front of another section or of the end is read back. */
  lemma GoodEntry(w: char -> bool, s: string, h: nat, r: PhaseResult, end: nat) returns (m: Marks)
    requires WordClass(w) && Good(w, r) && EntryAt(s, h, r)
    requires end == EntryEnd(h, r) && (end == |s| || At(s, end, "## "))
    ensures Run(PhaseRe(w), s, h) == Some(m) && 0 in m
    ensures m[0] == if end == |s| then end else end - 1
    ensures SectionOf(s, m) == Triple(r)
  {
    assert IsWord(w, PhaseName(r.phase)) by { PhaseNamesAreWords(w, r.phase); }
    m := GoodSection(w, s, h, PhaseName(r.phase), r.agent, GapPos(h, r), r.report, end);
  }

  lemma GoodSection(w: char -> bool, s: string, h: nat, phase: string, agent: string, j: nat, report: string, end: nat)
    returns (m: Marks)
    requires WordClass(w) && IsWord(w, phase) && IsWord(w, agent) && Readable(report)
    requires HeaderAt(s, h, phase, agent) && (h == 0 || s[h - 1] == '\n')
    requires j == h + 6 + |phase| + |agent| && Laid(s, j, Lead(report), Strip(report), Trail(report))
    requires end == j + 4 + |Lead(report)| + |Strip(report)| + |Trail(report)|
    requires end == |s| || At(s, end, "## ")
    ensures Run(PhaseRe(w), s, h) == Some(m) && 0 in m
    ensures m[0] == if end == |s| then end else end - 1
    ensures SectionOf(s, m) == Section(phase, agent, Strip(report))
  {
    var b, e;
    m, b, e := LaidMatch(w, s, h, phase, agent, j, Lead(report), Strip(report), Trail(report));
    assert e == (if end == |s| then end else end - 1) && Strip(s[b..e]) == Strip(report) by {
      GoodBody(s, j, report, b, end);
    }
  }

  lemma GoodBody(s: string, j: nat, report: string, b: nat, end: nat)
    requires Readable(report) && Laid(s, j, Lead(report), Strip(report), Trail(report))
    requires BodyStart(s, j, 2 + |Lead(report)|) == Some(b) && b < |s|
    requires end == j + 4 + |Lead(report)| + |Strip(report)| + |Trail(report)| && (end == |s| || At(s, end, "## "))
    ensures var e := BodyEnd(s, b + 1); e == (if end == |s| then end else end - 1) && Strip(s[b..e]) == Strip(report)
  {
    assert LStrip(report) == Strip(report) + Trail(report) by { StripParts(report); }
    ReadableBody(s, j, Lead(report), Strip(report), Trail(report), b, end);
  }

  /** An entry whose report is not blank and not readable is not read back. */
  lemma BadEntry(w: char -> bool, s: string, h: nat, r: PhaseResult) returns (m: Marks)
    requires WordClass(w) && IsWord(w, r.agent) && Strip(r.report) != "" && !Readable(r.report) && EntryAt(s, h, r)
    ensures Run(PhaseRe(w), s, h) == Some(m) && 0 in m
    ensures var cs := GapPos(h, r) + 2 + |Lead(r.report)|;
            cs - 1 <= m[0] < cs + |Strip(r.report)| && At(s, m[0], NEXT_SECTION)
    ensures |SectionOf(s, m).report| < |Strip(r.report)|
  {
    var lead, core, trail := Lead(r.report), Strip(r.report), Trail(r.report);
    assert IsWord(w, PhaseName(r.phase)) by { PhaseNamesAreWords(w, r.phase); }
    assert !Intact(lead, core + trail) by { StripParts(r.report); }
    m := BadSection(w, s, h, PhaseName(r.phase), r.agent, GapPos(h, r), lead, core, trail);
  }

  lemma BadSection(w: char -> bool, s: string, h: nat, phase: string, agent: string,
                   j: nat, lead: string, core: string, trail: string)
    returns (m: Marks)
    requires WordClass(w) && IsWord(w, phase) && IsWord(w, agent)
    requires HeaderAt(s, h, phase, agent) && (h == 0 || s[h - 1] == '\n')
    requires j == h + 6 + |phase| + |agent| && Laid(s, j, lead, core, trail)
    requires core != "" && !Intact(lead, core + trail)
    ensures Run(PhaseRe(w), s, h) == Some(m) && 0 in m
    ensures j + 1 + |lead| <= m[0] < j + 2 + |lead| + |core| && At(s, m[0], NEXT_SECTION)
    ensures |SectionOf(s, m).report| < |core|
  {
    var b, e;
    m, b, e := LaidMatch(w, s, h, phase, agent, j, lead, core, trail);
    BrokenBody(s, j, lead, core, trail, b, e);
  }
}
