/**
 Which texts the learning step learns something from: a condition on the text alone, without the matcher, that is
 exact.
 */
module Teaching {
  import opened Options
  import opened Text
  import opened Regex
  import opened Progress
  import opened RoundTrip
  import opened ProgressLog

  // ----- Where a match has its names and its white space -----

  lemma AgentOf(w: char -> bool, s: string, p: nat) returns (agent: string)
    requires p <= |s| && Run(AgentRe(w), s, p).Some?
    ensures IsWord(w, agent) && At(s, p, agent) && p + |agent| < |s| && IsSpace(s[p + |agent|])
  {
    var q := RunGreedyTries(AgentRe(w), s, p, RunLength(w, s, p));
    RunLengthAccepts(w, s, p);
    agent := s[p..q];
    AtSlice(s, p, agent);
    GapIsSpace(s, q);
  }

  lemma GapIsSpace(s: string, j: nat)
    requires j <= |s| && Run(GapRe(), s, j).Some?
    ensures j < |s| && IsSpace(s[j])
  {
    var n := RunLength(IsSpace, s, j);
    RunGap(s, j, n);
    BodyStartIsLast(s, j, n);
    AtBreaks(s, BodyStart(s, j, n).value - 2);
  }

  lemma DashOf(w: char -> bool, s: string, q: nat) returns (agent: string)
    requires q <= |s| && Run(DashRe(w), s, q).Some?
    ensures At(s, q, " — ") && IsWord(w, agent) && At(s, q + 3, agent)
    ensures q + 3 + |agent| < |s| && IsSpace(s[q + 3 + |agent|])
  {
    assert At(s, q, " — ");
    RunDashLit(w, s, q);
    agent := AgentOf(w, s, q + 3);
  }

  /** What matches starts with the names of a section, and white space follows them. */
  predicate Headed(w: char -> bool, s: string, h: nat, phase: string, agent: string) {
    && AtLineStart(s, h) && IsWord(w, phase) && IsWord(w, agent) && NamesAt(s, h, phase, agent)
    && GapOf(h, phase, agent) < |s| && IsSpace(s[GapOf(h, phase, agent)])
  }

  /** The place behind the names of a section. */
  function GapOf(h: nat, phase: string, agent: string): nat {
    h + 6 + |phase| + |agent|
  }

  lemma FrontOf(w: char -> bool, s: string, h: nat)
    requires h <= |s| && Run(PhaseRe(w), s, h).Some?
    ensures AtLineStart(s, h) && At(s, h, "## ") && Run(Greedy(w, 1, DashRe(w)), s, h + 3).Some?
  {
    MatchSound(w, s, h, Run(PhaseRe(w), s, h).value);
    RunFront(w, s, h);
  }

  lemma NamesOfMatch(w: char -> bool, s: string, h: nat) returns (phase: string, agent: string)
    requires WordClass(w) && h <= |s| && Run(PhaseRe(w), s, h).Some?
    ensures Headed(w, s, h, phase, agent)
  {
    var name := Greedy(w, 1, DashRe(w));
    FrontOf(w, s, h);
    var q := RunGreedyTries(name, s, h + 3, RunLength(w, s, h + 3));
    RunLengthAccepts(w, s, h + 3);
    phase := s[h + 3..q];
    AtSlice(s, h + 3, phase);
    agent := DashOf(w, s, q);
  }

  /** Where the body of a headed section starts, if it does. */
  function StartOf(s: string, j: nat): (r: Option<nat>)
    requires j <= |s|
    ensures r.Some? ==> j + 2 <= r.value < |s|
  {
    BodyStart(s, j, RunLength(IsSpace, s, j))
  }

  function MarksOf(h: nat, phase: string, agent: string, b: nat, e: nat): Marks {
    var i := h + 3 + |phase|;
    map[0 := e][6 := e][5 := b][4 := i + 3 + |agent|][3 := i + 3][2 := i][1 := h + 3]
  }

  /** What the matcher makes of a headed section. */
  lemma MatchOf(w: char -> bool, s: string, h: nat, phase: string, agent: string)
    requires WordClass(w) && Headed(w, s, h, phase, agent)
    ensures var start := StartOf(s, GapOf(h, phase, agent));
            Run(PhaseRe(w), s, h)
            == if start.None? then None
               else Some(MarksOf(h, phase, agent, start.value, BodyEnd(s, start.value + 1)))
  {
    RunNames(w, s, h, phase, agent);
  }

  lemma MarkedBody(s: string, h: nat, phase: string, agent: string, b: nat, e: nat)
    requires b <= e <= |s|
    ensures var m := MarksOf(h, phase, agent, b, e); 5 in m && m[5] == b && Group(s, m, 5, 6) == s[b..e]
  {
  }

  /** No line ends from p up to e. */
  predicate OneLine(s: string, p: nat, e: nat) {
    e <= |s| && forall k :: p <= k < e ==> s[k] != '\n'
  }

  lemma NamesAreOneLine(w: char -> bool, s: string, h: nat, phase: string, agent: string)
    requires WordClass(w) && IsWord(w, phase) && IsWord(w, agent) && NamesAt(s, h, phase, agent)
    ensures OneLine(s, h, GapOf(h, phase, agent))
  {
    var i := h + 3 + |phase|;
    forall k | h <= k < i + 3 + |agent| ensures s[k] != '\n' {
      if k < h + 3 { AtChar(s, h, "## ", k - h); }
      else if k < i { AtChar(s, h + 3, phase, k - h - 3); }
      else if k < i + 3 { AtChar(s, i, " — ", k - i); }
      else { AtChar(s, i + 3, agent, k - i - 3); }
    }
  }

  lemma StartBlank(s: string, j: nat)
    requires j <= |s| && StartOf(s, j).Some?
    ensures Blank(s, j, StartOf(s, j).value)
  {
    RunLengthAccepts(IsSpace, s, j);
    BodyStartIsLast(s, j, RunLength(IsSpace, s, j));
    AtBreaks(s, StartOf(s, j).value - 2);
  }

  // ----- What is kept of a text -----

  /** A section that is kept starts at p. */
  predicate KeptAt(w: char -> bool, s: string, p: nat)
    requires p <= |s|
  {
    var r := Run(PhaseRe(w), s, p);
    r.Some? && SectionOf(s, r.value).report != ""
  }

  /** A section that starts within a match makes the report of that match not blank. */
  lemma CoveredIsKept(w: char -> bool, s: string, h: nat, m: Marks, p: nat)
    requires WordClass(w) && h <= |s| && Run(PhaseRe(w), s, h) == Some(m) && 0 in m && h < p < m[0] <= |s|
    requires Run(PhaseRe(w), s, p).Some?
    ensures SectionOf(s, m).report != ""
  {
    MatchSound(w, s, h, m);
    MatchSound(w, s, p, Run(PhaseRe(w), s, p).value);
    MatchAtLineStart(w, s, p);
    AtSection(s, p);
    BodyStartsBefore(w, s, h, m, p);
    assert s[m[5]..m[6]][p - m[5]] == s[p];
    StripNonBlank(s[m[5]..m[6]], p - m[5]);
  }

  /** No line of text starts within a match before its body does. */
  lemma BodyStartsBefore(w: char -> bool, s: string, h: nat, m: Marks, p: nat)
    requires WordClass(w) && h < p < |s| && Run(PhaseRe(w), s, h) == Some(m)
    requires AtLineStart(s, p) && !IsSpace(s[p])
    ensures 5 in m && m[5] <= p
  {
    var phase, agent := NamesOfMatch(w, s, h);
    NamesAreOneLine(w, s, h, phase, agent);
    MatchOf(w, s, h, phase, agent);
    var b := StartOf(s, GapOf(h, phase, agent)).value;
    MarkedBody(s, h, phase, agent, b, BodyEnd(s, b + 1));
    StartBlank(s, GapOf(h, phase, agent));
  }

  lemma {:induction false} KeptFromTeaching(w: char -> bool, s: string, h: nat, p: nat)
    requires WordClass(w) && h <= p <= |s| && KeptAt(w, s, p)
    ensures KeptFrom(w, s, h) != []
    decreases |s| - h
  {
    if KeptFrom(w, s, h) == [] {
      var next := StepTowards(w, s, h, p);
      KeptFromTeaching(w, s, next, p);
    }
  }

  /** If nothing is kept from h on, reading goes on without coming past p. */
  lemma StepTowards(w: char -> bool, s: string, h: nat, p: nat) returns (next: nat)
    requires WordClass(w) && h <= p <= |s| && KeptAt(w, s, p) && KeptFrom(w, s, h) == []
    ensures h < next <= p && KeptFrom(w, s, next) == []
  {
    var r := Run(PhaseRe(w), s, h);
    if r.None? {
      StepOverChar(w, s, h, p);
      next := h + 1;
    } else {
      StepOverMatch(w, s, h, p, r.value);
      next := r.value[0];
    }
  }

  lemma StepOverChar(w: char -> bool, s: string, h: nat, p: nat)
    requires h <= p <= |s| && KeptAt(w, s, p) && KeptFrom(w, s, h) == [] && Run(PhaseRe(w), s, h).None?
    ensures h < p && KeptFrom(w, s, h + 1) == []
  {
    assert h != p;
    KeptSkip(w, s, h);
  }

  lemma StepOverMatch(w: char -> bool, s: string, h: nat, p: nat, m: Marks)
    requires WordClass(w) && h <= p <= |s| && KeptAt(w, s, p) && KeptFrom(w, s, h) == []
    requires Run(PhaseRe(w), s, h) == Some(m)
    ensures 0 in m && h < m[0] <= p && KeptFrom(w, s, m[0]) == []
  {
    NothingOfMatch(w, s, h, m);
    if h < p < m[0] { CoveredIsKept(w, s, h, m, p); }
  }

  lemma NothingOfMatch(w: char -> bool, s: string, h: nat, m: Marks)
    requires h <= |s| && Run(PhaseRe(w), s, h) == Some(m) && KeptFrom(w, s, h) == []
    ensures 0 in m && h < m[0] <= |s| && KeptFrom(w, s, m[0]) == [] && SectionOf(s, m).report == ""
  {
    KeptMatch(w, s, h, m);
  }

  lemma {:induction false} KeptTeaches(w: char -> bool, s: string, h: nat)
    requires h <= |s| && forall p :: h <= p <= |s| ==> !KeptAt(w, s, p)
    ensures KeptFrom(w, s, h) == []
    decreases |s| - h
  {
    var r := Run(PhaseRe(w), s, h);
    assert !KeptAt(w, s, h);
    if r.None? {
      KeptSkip(w, s, h);
      if h < |s| { KeptTeaches(w, s, h + 1); }
    } else {
      KeptMatch(w, s, h, r.value);
      KeptTeaches(w, s, r.value[0]);
    }
  }

  // ----- The same on the text -----

  /** The end of the white space at j. */
  function GapEnd(s: string, j: nat): (f: nat)
    requires j <= |s|
    ensures j <= f <= |s|
  {
    j + RunLength(IsSpace, s, j)
  }

  /**
   The white space at j holds a blank line, and text follows it which is no section behind a single line
   break.
   */
  predicate Opens(s: string, j: nat)
    requires j <= |s|
  {
    var f := GapEnd(s, j);
    f < |s| && Contains(s[j..f], "\n\n") && !(Dangling(s[j..f]) && At(s, f, "## "))
  }

  /** A line at p starts a section that teaches something: names, and such white space behind them. */
  predicate LessonAt(w: char -> bool, s: string, p: nat, phase: string, agent: string) {
    Headed(w, s, p, phase, agent) && Opens(s, GapOf(p, phase, agent))
  }

  ghost predicate Teaches(w: char -> bool, s: string) {
    exists p: nat, phase, agent :: LessonAt(w, s, p, phase, agent)
  }

  lemma BreaksInGap(s: string, j: nat, f: nat, x: nat)
    requires j <= x <= f <= |s|
    ensures At(s[j..f], x - j, "\n\n") <==> x + 2 <= f && At(s, x, "\n\n")
  {
    AtBreaks(s[j..f], x - j);
    AtBreaks(s, x);
  }

  /** A body starts behind a blank line of the white space. */
  lemma StartsInGap(s: string, j: nat, f: nat)
    requires j <= f < |s| && f == GapEnd(s, j) && !IsSpace(s[f]) && StartOf(s, j).Some?
    ensures var b := StartOf(s, j).value; b <= f && At(s, b - 2, "\n\n") && Contains(s[j..f], "\n\n")
  {
    var x := StartOf(s, j).value - 2;
    assert At(s, x, "\n\n") by { BodyStartIsLast(s, j, f - j); }
    BreakIsInGap(s, j, f, x);
  }

  lemma BreakIsInGap(s: string, j: nat, f: nat, x: nat)
    requires j <= x <= f < |s| && !IsSpace(s[f]) && At(s, x, "\n\n")
    ensures x + 2 <= f && Contains(s[j..f], "\n\n")
  {
    AtBreaks(s, x);
    BreaksInGap(s, j, f, x);
  }

  /** It starts if there is one, and behind the last. */
  lemma StartIsLast(s: string, j: nat, f: nat, x: nat)
    requires j <= x && x + 2 <= f < |s| && f == GapEnd(s, j) && At(s, x, "\n\n")
    ensures StartOf(s, j).Some? && x + 2 <= StartOf(s, j).value
  {
    BodyStartIsLast(s, j, f - j);
  }

  lemma GapStarts(s: string, j: nat, f: nat)
    requires j <= f < |s| && f == GapEnd(s, j) && Contains(s[j..f], "\n\n")
    ensures StartOf(s, j).Some?
  {
    var k: nat :| k <= f - j && At(s[j..f], k, "\n\n");
    BreaksInGap(s, j, f, j + k);
    StartIsLast(s, j, f, j + k);
  }

  /**
   A body that comes past its white space has text, and it does unless a section stands behind a single line
   break.
   */
  lemma LongBody(s: string, j: nat, f: nat, b: nat, e: nat)
    requires j + 2 <= b <= f < e <= |s| && !IsSpace(s[f]) && At(s, b - 2, "\n\n")
    requires forall x :: b + 1 <= x < e ==> !At(s, x, NEXT_SECTION)
    ensures Strip(s[b..e]) != "" && !(Dangling(s[j..f]) && At(s, f, "## "))
  {
    assert s[b..e][f - b] == s[f];
    StripNonBlank(s[b..e], f - b);
    AtBreaks(s, b - 2);
    AtSection(s, f - 1);
    assert s[j..f][f - j - 1] == s[f - 1] && s[j..f][f - j - 2] == s[f - 2];
  }

  lemma ShortBody(s: string, j: nat, f: nat, b: nat, e: nat)
    requires j + 2 <= b < e <= f < |s| && Blank(s, j, f) && !IsSpace(s[f]) && At(s, e, NEXT_SECTION)
    requires forall x :: j <= x && x + 2 <= f && At(s, x, "\n\n") ==> x + 2 <= b
    ensures Strip(s[b..e]) == "" && Dangling(s[j..f]) && At(s, f, "## ")
  {
    TrimBound(s, b, b, b, e);
    AtSection(s, e);
    AtSection(s, e + 1);
    assert !IsSpace(s[e + 1]) && e + 1 == f;
    AtBreaks(s, f - 2);
    assert s[j..f][f - j - 1] == s[f - 1] && s[j..f][f - j - 2] == s[f - 2];
  }

  lemma BodyHasText(s: string, j: nat, f: nat, b: nat, e: nat)
    requires j <= f < |s| && f == GapEnd(s, j) && !IsSpace(s[f]) && StartOf(s, j) == Some(b) && BodyEnd(s, b + 1) == e
    ensures b < e <= |s| && (Strip(s[b..e]) != "" <==> !(Dangling(s[j..f]) && At(s, f, "## ")))
  {
    assert b <= f && At(s, b - 2, "\n\n") by { StartsInGap(s, j, f); }
    BodyEndIsNearest(s, b + 1);
    LastBreak(s, j, f, b);
    BodyIsLongIff(s, j, f, b, e);
  }

  lemma BodyIsLongIff(s: string, j: nat, f: nat, b: nat, e: nat)
    requires j + 2 <= b <= f < |s| && b < e <= |s| && Blank(s, j, f) && !IsSpace(s[f]) && At(s, b - 2, "\n\n")
    requires forall x :: j <= x && x + 2 <= f && At(s, x, "\n\n") ==> x + 2 <= b
    requires (e == |s| || At(s, e, NEXT_SECTION)) && forall x :: b + 1 <= x < e ==> !At(s, x, NEXT_SECTION)
    ensures Strip(s[b..e]) != "" <==> !(Dangling(s[j..f]) && At(s, f, "## "))
  {
    if e > f { LongBody(s, j, f, b, e); } else { ShortBody(s, j, f, b, e); }
  }

  lemma LastBreak(s: string, j: nat, f: nat, b: nat)
    requires j <= f < |s| && f == GapEnd(s, j) && StartOf(s, j) == Some(b)
    ensures Blank(s, j, f) && forall x :: j <= x && x + 2 <= f && At(s, x, "\n\n") ==> x + 2 <= b
  {
    RunLengthAccepts(IsSpace, s, j);
    forall x | j <= x && x + 2 <= f && At(s, x, "\n\n") ensures x + 2 <= b { StartIsLast(s, j, f, x); }
  }

  lemma NoTextBehind(s: string, j: nat)
    requires j <= |s| && GapEnd(s, j) == |s| && StartOf(s, j).Some?
    ensures var b := StartOf(s, j).value; Strip(s[b..BodyEnd(s, b + 1)]) == ""
  {
    var b := StartOf(s, j).value;
    RunLengthAccepts(IsSpace, s, j);
    BlankBody(s, j, b, BodyEnd(s, b + 1));
  }

  lemma BlankBody(s: string, j: nat, b: nat, e: nat)
    requires j <= b <= e <= |s| && Blank(s, j, |s|)
    ensures Strip(s[b..e]) == ""
  {
    TrimBound(s, b, b, b, e);
  }

  lemma {:induction false} RunStops(s: string, p: nat)
    requires p <= |s|
    ensures GapEnd(s, p) < |s| ==> !IsSpace(s[GapEnd(s, p)])
    decreases |s| - p
  {
    if p < |s| && IsSpace(s[p]) { RunStops(s, p + 1); }
  }

  predicate HasReport(s: string, j: nat)
    requires j <= |s|
  {
    var start := StartOf(s, j);
    start.Some? && Strip(s[start.value..BodyEnd(s, start.value + 1)]) != ""
  }

  lemma HasReportIff(s: string, j: nat)
    requires j <= |s|
    ensures HasReport(s, j) <==> Opens(s, j)
  {
    var f := GapEnd(s, j);
    if f == |s| {
      if StartOf(s, j).Some? { NoTextBehind(s, j); }
    } else {
      RunStops(s, j);
      if StartOf(s, j).Some? {
        StartsInGap(s, j, f);
        BodyHasText(s, j, f, StartOf(s, j).value, BodyEnd(s, StartOf(s, j).value + 1));
      } else if Contains(s[j..f], "\n\n") {
        GapStarts(s, j, f);
      }
    }
  }

  /** A section with these names is kept exactly if its white space opens it. */
  lemma KeptIff(w: char -> bool, s: string, p: nat, phase: string, agent: string)
    requires WordClass(w) && Headed(w, s, p, phase, agent)
    ensures KeptAt(w, s, p) <==> LessonAt(w, s, p, phase, agent)
  {
    var j := GapOf(p, phase, agent);
    MatchOf(w, s, p, phase, agent);
    if StartOf(s, j).Some? {
      var b := StartOf(s, j).value;
      MarkedBody(s, p, phase, agent, b, BodyEnd(s, b + 1));
    }
    HasReportIff(s, j);
  }

  lemma KeptIffLesson(w: char -> bool, s: string, p: nat)
    requires WordClass(w) && p <= |s|
    ensures KeptAt(w, s, p) <==> exists phase, agent :: LessonAt(w, s, p, phase, agent)
  {
    if KeptAt(w, s, p) {
      var phase, agent := NamesOfMatch(w, s, p);
      KeptIff(w, s, p, phase, agent);
    }
    if phase, agent :| LessonAt(w, s, p, phase, agent) { KeptIff(w, s, p, phase, agent); }
  }

  /** Something is extracted from a text if and only if a lesson stands somewhere in it. */
  lemma ExtractsIffTeaches(w: char -> bool, s: string)
    requires WordClass(w)
    ensures Extracted(w, s) != [] <==> Teaches(w, s)
  {
    ExtractsIffKept(w, s);
    if p: nat :| p <= |s| && KeptAt(w, s, p) { KeptIffLesson(w, s, p); }
    if p: nat, phase, agent :| LessonAt(w, s, p, phase, agent) {
      KeptIffLesson(w, s, p);
      assert KeptAt(w, s, p);
    }
  }

  lemma ExtractsIffKept(w: char -> bool, s: string)
    requires WordClass(w)
    ensures Extracted(w, s) != [] <==> exists p: nat :: p <= |s| && KeptAt(w, s, p)
  {
    if p: nat :| p <= |s| && KeptAt(w, s, p) {
      KeptFromTeaching(w, s, 0, p);
      MatchSound(w, s, p, Run(PhaseRe(w), s, p).value);
      AtSection(s, p);
      StripNonBlank(s, p);
    } else {
      KeptTeaches(w, s, 0);
    }
  }

  /** Text with the names of a section at a line start, a blank line and more text teaches something. */
  lemma SectionTeaches(w: char -> bool, front: string, phase: string, agent: string, rest: string)
    requires IsWord(w, phase) && IsWord(w, agent) && (front == "" || front[|front| - 1] == '\n')
    requires rest != "" && !IsSpace(rest[0])
    ensures Teaches(w, front + ("## " + phase + " — " + agent + "\n\n") + rest)
  {
    var head := "## " + phase + " — " + agent + "\n\n";
    InTheMiddle(front, head, rest);
    HeaderParts(front + head + rest, |front|, phase, agent);
    LessonOf(w, front + head + rest, |front|, phase, agent);
  }

  lemma InTheMiddle(front: string, head: string, rest: string)
    ensures var s := front + head + rest;
            && At(s, |front|, head)
            && (front != "" ==> s[|front| - 1] == front[|front| - 1])
            && (rest != "" ==> |s| > |front| + |head| && s[|front| + |head|] == rest[0])
  {
    var s := front + head + rest;
    AtSlice(s, |front|, head);
    assert s[|front|..|front| + |head|] == head;
  }

  lemma LessonOf(w: char -> bool, s: string, p: nat, phase: string, agent: string)
    requires AtLineStart(s, p) && IsWord(w, phase) && IsWord(w, agent) && HeaderAt(s, p, phase, agent)
    requires GapOf(p, phase, agent) + 2 < |s| && !IsSpace(s[GapOf(p, phase, agent) + 2])
    ensures LessonAt(w, s, p, phase, agent)
  {
    BreaksOpen(s, GapOf(p, phase, agent));
  }

  lemma BreaksOpen(s: string, j: nat)
    requires At(s, j, "\n\n") && j + 2 < |s| && !IsSpace(s[j + 2])
    ensures IsSpace(s[j]) && Opens(s, j)
  {
    AtBreaks(s, j);
    RunLengthIs(IsSpace, s, j, 2);
    assert s[j..j + 2] == "\n\n";
    AtStart("\n\n");
  }
}
