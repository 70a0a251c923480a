/** Whole logs: what `extract_patterns` reads back from any sequence of appended phase results. */
module ProgressLog {
  import opened Options
  import opened Text
  import opened Regex
  import opened Progress
  import opened RoundTrip
  import opened Sequences

  // ----- What every match of the pattern has -----

  /** The borders of a section, in order, with words for names. */
  predicate SoundMarks(w: char -> bool, s: string, h: nat, m: Marks) {
    && 0 in m && 3 in m && 4 in m && 5 in m && 6 in m
    && h + 6 < m[3] < m[4] && m[4] + 2 <= m[5] < m[6] == m[0] <= |s|
    && IsWord(w, s[m[3]..m[4]])
  }

  lemma GapSound(s: string, j: nat, m: Marks)
    requires j <= |s| && Run(GapRe(), s, j) == Some(m)
    ensures 0 in m && 5 in m && 6 in m && j + 2 <= m[5] < m[6] == m[0] <= |s|
  {
    RunGap(s, j, RunLength(IsSpace, s, j));
  }

  lemma AgentSound(w: char -> bool, s: string, p: nat, m: Marks)
    requires p <= |s| && Run(AgentRe(w), s, p) == Some(m)
    ensures 0 in m && 4 in m && 5 in m && 6 in m && p < m[4] && m[4] + 2 <= m[5] < m[6] == m[0] <= |s|
    ensures IsWord(w, s[p..m[4]])
  {
    var q := RunGreedyTries(AgentRe(w), s, p, RunLength(w, s, p));
    RunLengthAccepts(w, s, p);
    var gap := Run(GapRe(), s, q);
    GapSound(s, q, gap.value);
  }

  lemma DashSound(w: char -> bool, s: string, q: nat, m: Marks)
    requires q <= |s| && Run(DashRe(w), s, q) == Some(m)
    ensures 0 in m && 3 in m && 4 in m && 5 in m && 6 in m
    ensures m[3] == q + 3 && m[3] < m[4] && m[4] + 2 <= m[5] < m[6] == m[0] <= |s|
    ensures IsWord(w, s[m[3]..m[4]])
  {
    var after := DashRe(w).next.next;
    assert after == Mark(3, AgentRe(w));
    assert At(s, q, " — ");
    assert Run(DashRe(w).next, s, q) == Run(after, s, q + 3);
    var agent := Run(AgentRe(w), s, q + 3);
    AgentSound(w, s, q + 3, agent.value);
  }

  lemma MatchSound(w: char -> bool, s: string, h: nat, m: Marks)
    requires h <= |s| && Run(PhaseRe(w), s, h) == Some(m)
    ensures At(s, h, "## ") && SoundMarks(w, s, h, m)
  {
    var name := Greedy(w, 1, DashRe(w));
    assert Run(PhaseRe(w), s, h) == Run(PhaseRe(w).next, s, h);
    assert Run(PhaseRe(w).next, s, h) == Run(Mark(1, name), s, h + 3);
    assert Run(name, s, h + 3) == RunGreedy(name, s, h + 3, RunLength(w, s, h + 3));
    assert Run(name, s, h + 3).Some?;
    var q := RunGreedyTries(name, s, h + 3, RunLength(w, s, h + 3));
    var dash := Run(DashRe(w), s, q);
    DashSound(w, s, q, dash.value);
  }

  /** A position where `^` matches. */
  predicate AtLineStart(s: string, p: nat) {
    p <= |s| && (p == 0 || s[p - 1] == '\n')
  }

  lemma MatchAtLineStart(w: char -> bool, s: string, p: nat)
    requires p <= |s| && Run(PhaseRe(w), s, p).Some?
    ensures AtLineStart(s, p)
  {
  }

  // ----- One step of reading -----

  lemma KeptMatch(w: char -> bool, s: string, p: nat, m: Marks)
    requires p <= |s| && Run(PhaseRe(w), s, p) == Some(m)
    ensures 0 in m && p < m[0] <= |s|
    ensures KeptFrom(w, s, p) == KeptOne(SectionOf(s, m)) + KeptFrom(w, s, m[0])
  {
    MatchSound(w, s, p, m);
    var rest := FindAll(PhaseRe(w), s, m[0]);
    assert FindAll(PhaseRe(w), s, p) == [m] + rest by { FindAllStep(PhaseRe(w), s, p); }
    assert ([m] + rest)[1..] == rest;
  }

  lemma KeptSkip(w: char -> bool, s: string, p: nat)
    requires p <= |s| && Run(PhaseRe(w), s, p).None?
    ensures KeptFrom(w, s, p) == if p == |s| then [] else KeptFrom(w, s, p + 1)
  {
    FindAllStep(PhaseRe(w), s, p);
  }

  /** A line break is no section start. */
  lemma KeptAtBreak(w: char -> bool, s: string, p: nat)
    requires p < |s| && s[p] == '\n'
    ensures KeptFrom(w, s, p) == KeptFrom(w, s, p + 1)
  {
    var r := Run(PhaseRe(w), s, p);
    if r.Some? {
      MatchSound(w, s, p, r.value);
      AtSection(s, p);
    }
    KeptSkip(w, s, p);
  }

  lemma KeptAtEnd(w: char -> bool, s: string)
    ensures KeptFrom(w, s, |s|) == []
  {
    var r := Run(PhaseRe(w), s, |s|);
    if r.Some? { MatchSound(w, s, |s|, r.value); }
    KeptSkip(w, s, |s|);
  }

  /** What is kept never is blank and always has a word for its agent. */
  lemma {:induction false} KeptIsSane(w: char -> bool, s: string, p: nat)
    requires p <= |s|
    ensures forall i :: 0 <= i < |KeptFrom(w, s, p)| ==>
              KeptFrom(w, s, p)[i].report != "" && IsWord(w, KeptFrom(w, s, p)[i].agent)
    decreases |s| - p
  {
    var r := Run(PhaseRe(w), s, p);
    if r.Some? {
      MatchSound(w, s, p, r.value);
      KeptMatch(w, s, p, r.value);
      KeptIsSane(w, s, r.value[0]);
    } else {
      KeptSkip(w, s, p);
      if p < |s| { KeptIsSane(w, s, p + 1); }
    }
  }

  predicate AllShorter(ks: seq<Section>, n: nat) {
    forall i :: 0 <= i < |ks| ==> |ks[i].report| < n
  }

  /** What is kept from p on, when only white space follows ce, fits between p and ce. */
  lemma {:induction false} KeptIsShort(w: char -> bool, s: string, p: nat, ce: nat, n: nat)
    requires p <= |s| && ce <= |s| && Blank(s, ce, |s|) && ce <= p + n
    ensures AllShorter(KeptFrom(w, s, p), n)
    decreases |s| - p
  {
    var r := Run(PhaseRe(w), s, p);
    if r.Some? {
      KeptMatch(w, s, p, r.value);
      KeptIsShort(w, s, r.value[0], ce, n);
      MatchIsShort(w, s, p, r.value, ce, n);
    } else {
      KeptSkip(w, s, p);
      if p < |s| { KeptIsShort(w, s, p + 1, ce, n); }
    }
  }

  lemma MatchIsShort(w: char -> bool, s: string, p: nat, m: Marks, ce: nat, n: nat)
    requires p <= |s| && ce <= |s| && Blank(s, ce, |s|) && ce <= p + n
    requires Run(PhaseRe(w), s, p) == Some(m) && 0 in m && m[0] <= |s| && AllShorter(KeptFrom(w, s, m[0]), n)
    ensures AllShorter(KeptFrom(w, s, p), n)
  {
    MatchSound(w, s, p, m);
    KeptMatch(w, s, p, m);
    ReportIsShort(s, m[5], m[6], ce);
    ShortOnes(KeptFrom(w, s, p), SectionOf(s, m), KeptFrom(w, s, m[0]), n);
  }

  lemma ReportIsShort(s: string, b: nat, e: nat, ce: nat)
    requires b <= e <= |s| && ce <= |s| && Blank(s, ce, |s|)
    ensures Strip(s[b..e]) == "" || |Strip(s[b..e])| + b <= ce
  {
    if b >= ce { TrimBound(s, b, e, e, e); }
    else if e <= ce { TrimBound(s, b, b, e, e); }
    else { TrimBound(s, b, b, ce, e); }
  }

  // ----- Logs of good results are read back -----

  /** A kept match whose end is a border, or the line break before one. */
  lemma KeptSection(w: char -> bool, s: string, h: nat, m: Marks, first: Section, end: nat)
    requires h <= |s| && Run(PhaseRe(w), s, h) == Some(m) && SectionOf(s, m) == first && first.report != ""
    requires 1 <= end <= |s| && 0 in m && m[0] == if end == |s| then end else end - 1
    requires s[end - 1] == '\n'
    ensures KeptFrom(w, s, h) == [first] + KeptFrom(w, s, end)
  {
    KeptPastBreak(w, s, m[0], end);
    KeptMatch(w, s, h, m);
  }

  lemma KeptPastBreak(w: char -> bool, s: string, e: nat, end: nat)
    requires 1 <= end <= |s| && s[end - 1] == '\n' && e == if end == |s| then end else end - 1
    ensures KeptFrom(w, s, e) == KeptFrom(w, s, end)
  {
    if end < |s| { KeptAtBreak(w, s, end - 1); }
  }

  lemma KeptGood(w: char -> bool, s: string, h: nat, r: PhaseResult, end: nat)
    requires WordClass(w) && Good(w, r)
    requires At(s, h, Entry(r)) && (h == 0 || s[h - 1] == '\n')
    requires end == h + |Entry(r)| && (end == |s| || At(s, end, "## "))
    ensures KeptFrom(w, s, h) == [Triple(r)] + KeptFrom(w, s, end)
  {
    assert 1 <= end && s[end - 1] == '\n' by { EntryBorders(s, h, r); }
    var m := EntryRead(w, s, h, r, end);
    KeptSection(w, s, h, m, Triple(r), end);
  }

  lemma EntryRead(w: char -> bool, s: string, h: nat, r: PhaseResult, end: nat) returns (m: Marks)
    requires WordClass(w) && Good(w, r)
    requires At(s, h, Entry(r)) && (h == 0 || s[h - 1] == '\n')
    requires end == h + |Entry(r)| && (end == |s| || At(s, end, "## "))
    ensures Run(PhaseRe(w), s, h) == Some(m) && 0 in m && m[0] == if end == |s| then end else end - 1
    ensures SectionOf(s, m) == Triple(r)
  {
    EntryLaid(s, h, r);
    m := GoodEntry(w, s, h, r, end);
  }

  lemma EntryBorders(s: string, h: nat, r: PhaseResult)
    requires At(s, h, Entry(r))
    ensures |Entry(r)| > 0 && At(s, h, "## ") && s[h + |Entry(r)| - 1] == '\n'
  {
    EntryParts(s, h, r);
    AtBreaks(s, h + |Entry(r)| - 2);
  }

  /** Every result is one that the parser reads back. */
  ghost predicate AllGood(w: char -> bool, rs: seq<PhaseResult>) {
    rs == [] || (AllGood(w, rs[..|rs| - 1]) && Good(w, rs[|rs| - 1]))
  }

  lemma {:induction false} AllGoodIsEach(w: char -> bool, rs: seq<PhaseResult>)
    ensures AllGood(w, rs) <==> forall i :: 0 <= i < |rs| ==> Good(w, rs[i])
  {
    if rs == [] {
    } else {
      var init := rs[..|rs| - 1];
      AllGoodIsEach(w, init);
      assert forall i :: 0 <= i < |init| ==> init[i] == rs[i];
    }
  }

  lemma TriplesSnoc(rs: seq<PhaseResult>)
    requires rs != []
    ensures Triples(rs) == Triples(rs[..|rs| - 1]) + [Triple(rs[|rs| - 1])]
  {
  }

  /** A place where a section may end: the next one starts, or the text ends. */
  predicate AtBorder(s: string, p: nat) {
    p == |s| || At(s, p, "## ")
  }

  /** Good results at the front of a text are read back, and reading goes on behind them. */
  lemma {:induction false} KeptLog(w: char -> bool, s: string, rs: seq<PhaseResult>)
    requires WordClass(w) && AllGood(w, rs)
    requires At(s, 0, Log(rs)) && AtBorder(s, |Log(rs)|)
    ensures AtLineStart(s, |Log(rs)|)
    ensures KeptFrom(w, s, 0) == Triples(rs) + KeptFrom(w, s, |Log(rs)|)
  {
    if rs == [] {
    } else {
      var init, last := rs[..|rs| - 1], rs[|rs| - 1];
      KeptLogSplit(s, init, last, Log(rs));
      KeptLog(w, s, init);
      KeptStep(w, s, |Log(init)|, last, Triples(init), |Log(rs)|);
      TriplesSnoc(rs);
    }
  }

  lemma KeptLogSplit(s: string, init: seq<PhaseResult>, last: PhaseResult, log: string)
    requires log == Log(init) + Entry(last) && At(s, 0, log)
    ensures |log| == |Log(init)| + |Entry(last)| && At(s, 0, Log(init)) && At(s, |Log(init)|, Entry(last))
    ensures AtBorder(s, |Log(init)|) && AtLineStart(s, |log|)
  {
    assert At(s, 0, Log(init)) && At(s, |Log(init)|, Entry(last)) by { AtSplit(s, 0, Log(init), Entry(last)); }
    EntryBorders(s, |Log(init)|, last);
  }

  lemma KeptStep(w: char -> bool, s: string, h: nat, last: PhaseResult, before: seq<Section>, end: nat)
    requires WordClass(w) && Good(w, last) && end == h + |Entry(last)|
    requires At(s, h, Entry(last)) && AtLineStart(s, h) && AtBorder(s, end)
    requires KeptFrom(w, s, 0) == before + KeptFrom(w, s, h)
    ensures KeptFrom(w, s, 0) == before + [Triple(last)] + KeptFrom(w, s, end)
  {
    KeptGood(w, s, h, last, end);
    Regrouped(before, [Triple(last)], KeptFrom(w, s, end));
  }

  lemma LogSnoc(rs: seq<PhaseResult>, r: PhaseResult)
    ensures Log(rs + [r]) == Log(rs) + Entry(r)
  {
    assert (rs + [r])[..|rs|] == rs;
  }

  lemma AtStart(s: string)
    ensures At(s, 0, s)
  {
    AtSlice(s, 0, s);
  }

  lemma StripNonBlank(s: string, i: nat)
    requires i < |s| && !IsSpace(s[i])
    ensures Strip(s) != ""
  {
    StripParts(s);
  }

  /** A log with an entry in it is read with the pattern. */
  lemma ExtractedIsKept(w: char -> bool, rs: seq<PhaseResult>, r: PhaseResult)
    ensures Extracted(w, Log(rs + [r])) == KeptFrom(w, Log(rs + [r]), 0)
    ensures At(Log(rs + [r]), |Log(rs)|, Entry(r)) && At(Log(rs + [r]), 0, Log(rs))
    ensures AtBorder(Log(rs + [r]), |Log(rs)|) && |Log(rs + [r])| == |Log(rs)| + |Entry(r)|
  {
    var s, h := Log(rs + [r]), |Log(rs)|;
    LogSnoc(rs, r);
    AtStart(s);
    KeptLogSplit(s, rs, r, s);
    assert Strip(s) != "" by {
      AtSplit(s, 0, Log(rs), Entry(r));
      EntryBorders(s, h, r);
      AtSection(s, h);
      StripNonBlank(s, h);
    }
  }

  /** Good results are read back, in order and whole. */
  lemma GoodLogIsReadBack(w: char -> bool, rs: seq<PhaseResult>)
    requires WordClass(w) && AllGood(w, rs)
    ensures Extracted(w, Log(rs)) == Triples(rs)
  {
    if rs != [] {
      KeptWhole(w, Log(rs), rs);
      ExtractedIsWhole(w, rs);
    }
  }

  lemma ExtractedIsWhole(w: char -> bool, rs: seq<PhaseResult>)
    requires rs != []
    ensures Extracted(w, Log(rs)) == KeptFrom(w, Log(rs), 0)
  {
    var init, last := rs[..|rs| - 1], rs[|rs| - 1];
    assert rs == init + [last];
    ExtractedIsKept(w, init, last);
  }

  lemma KeptWhole(w: char -> bool, s: string, rs: seq<PhaseResult>)
    requires WordClass(w) && AllGood(w, rs) && s == Log(rs)
    ensures KeptFrom(w, s, 0) == Triples(rs)
  {
    AtStart(s);
    KeptLog(w, s, rs);
    KeptAtEnd(w, s);
  }

  // ----- Anything else is not -----

  /** A result that is not good leaves no trace of itself at the end of a text. */
  lemma BadIsLost(w: char -> bool, s: string, h: nat, r: PhaseResult)
    requires WordClass(w) && !Good(w, r)
    requires At(s, h, Entry(r)) && AtLineStart(s, h) && h + |Entry(r)| == |s|
    ensures forall i :: 0 <= i < |KeptFrom(w, s, h)| ==> KeptFrom(w, s, h)[i] != Triple(r)
  {
    if IsWord(w, r.agent) && Strip(r.report) != "" {
      EntryLaid(s, h, r);
      BadReportIsLost(w, s, h, r);
    } else {
      KeptIsSane(w, s, h);
    }
  }

  lemma BadReportIsLost(w: char -> bool, s: string, h: nat, r: PhaseResult)
    requires WordClass(w) && IsWord(w, r.agent) && Strip(r.report) != "" && !Readable(r.report)
    requires EntryAt(s, h, r) && EntryEnd(h, r) == |s|
    ensures AllShorter(KeptFrom(w, s, h), |Strip(r.report)|)
  {
    var cs := GapPos(h, r) + 2 + |Lead(r.report)|;
    var ce := cs + |Strip(r.report)|;
    var m := BadEntry(w, s, h, r);
    assert s[m[0]] == '\n' by { AtSection(s, m[0]); }
    assert Blank(s, ce, |s|) by {
      LaidBlank(s, GapPos(h, r), Lead(r.report), Strip(r.report), Trail(r.report));
    }
    CutIsShort(w, s, h, m, ce, |Strip(r.report)|);
  }

  /** A cut match, and the matches behind it, all have shorter reports than n. */
  lemma CutIsShort(w: char -> bool, s: string, h: nat, m: Marks, ce: nat, n: nat)
    requires h <= |s| && Run(PhaseRe(w), s, h) == Some(m) && |SectionOf(s, m).report| < n
    requires 0 in m && m[0] < ce <= |s| && s[m[0]] == '\n' && ce <= m[0] + 1 + n && Blank(s, ce, |s|)
    ensures AllShorter(KeptFrom(w, s, h), n)
  {
    ShortFromBreak(w, s, m[0], ce, n);
    KeptMatch(w, s, h, m);
    ShortOnes(KeptFrom(w, s, h), SectionOf(s, m), KeptFrom(w, s, m[0]), n);
  }

  lemma ShortFromBreak(w: char -> bool, s: string, p: nat, ce: nat, n: nat)
    requires p < |s| && s[p] == '\n' && ce <= |s| && Blank(s, ce, |s|) && ce <= p + 1 + n
    ensures AllShorter(KeptFrom(w, s, p), n)
  {
    KeptAtBreak(w, s, p);
    KeptIsShort(w, s, p + 1, ce, n);
  }

  lemma ShortOnes(ks: seq<Section>, first: Section, rest: seq<Section>, n: nat)
    requires ks == KeptOne(first) + rest && (first.report == "" || |first.report| < n)
    requires AllShorter(rest, n)
    ensures AllShorter(ks, n)
  {
  }

  /** Behind good results the next one is read back exactly if it is good. */
  lemma AppendedIsReadBackIffGood(w: char -> bool, rs: seq<PhaseResult>, r: PhaseResult)
    requires WordClass(w) && AllGood(w, rs)
    ensures Extracted(w, Log(rs + [r])) == Triples(rs + [r]) <==> Good(w, r)
  {
    if Good(w, r) {
      assert (rs + [r])[..|rs|] == rs;
      GoodLogIsReadBack(w, rs + [r]);
    } else {
      AppendedBadIsNotReadBack(w, rs, r, Log(rs + [r]), |Log(rs)|);
    }
  }

  lemma AppendedBadIsNotReadBack(w: char -> bool, rs: seq<PhaseResult>, r: PhaseResult, s: string, h: nat)
    requires WordClass(w) && AllGood(w, rs) && !Good(w, r) && s == Log(rs + [r]) && h == |Log(rs)|
    ensures Extracted(w, s) != Triples(rs + [r])
  {
    ExtractedIsKept(w, rs, r);
    KeptLog(w, s, rs);
    BadIsLost(w, s, h, r);
    LastDiffers(Triples(rs), KeptFrom(w, s, h), Triples(rs + [r]), Triple(r));
  }

  lemma LastDiffers(a: seq<Section>, b: seq<Section>, c: seq<Section>, last: Section)
    requires forall i :: 0 <= i < |b| ==> b[i] != last
    requires |c| == |a| + 1 && c[|a|] == last
    ensures a + b != c
  {
    if |b| == 1 { assert (a + b)[|a|] == b[0]; }
  }

  // ----- Two results can print what one prints -----

  /** The section that a result prints. */
  function Printed(r: PhaseResult): string {
    Header(r) + "\n\n" + r.report
  }

  /** One result whose report holds the section of the next. */
  function Merged(r: PhaseResult, next: PhaseResult): PhaseResult {
    r.(report := r.report + "\n\n" + Printed(next))
  }

  lemma MergedPrintsTheSame(r: PhaseResult, next: PhaseResult)
    ensures Log([r, next]) == Log([Merged(r, next)])
  {
    LogOfOne(Merged(r, next));
    LogOfOne(r);
    LogSnoc([r], next);
    assert [r] + [next] == [r, next];
    MergedEntry(r, next);
  }

  lemma LogOfOne(r: PhaseResult)
    ensures Log([r]) == Entry(r)
  {
    LogSnoc([], r);
    assert [] + [r] == [r];
    assert "" + Entry(r) == Entry(r);
  }

  lemma MergedEntry(r: PhaseResult, next: PhaseResult)
    ensures Entry(r) + Entry(next) == Entry(Merged(r, next))
  {
    EntriesMerge(Header(r) + "\n\n", r.report, "\n\n", Header(next) + "\n\n" + next.report);
  }

  lemma EntriesMerge(head: string, report: string, gap: string, next: string)
    ensures (head + report + gap) + (next + gap) == head + (report + gap + next) + gap
  {
  }

  lemma MergedLog(rs: seq<PhaseResult>, r: PhaseResult, next: PhaseResult)
    ensures Log(rs + [r] + [next]) == Log(rs + [Merged(r, next)])
  {
    LogSnoc(rs + [r], next);
    LogSnoc(rs, r);
    LogSnoc(rs, Merged(r, next));
    MergedEntry(r, next);
    Regrouped(Log(rs), Entry(r), Entry(next));
  }

  /**
   After a blank report behind good ones the next section is not read: it becomes, whole, the report of
   the blank one, unless a further section starts within it.
   */
  lemma BlankReportSwallowsNext(w: char -> bool, rs: seq<PhaseResult>, r: PhaseResult, next: PhaseResult)
    requires WordClass(w) && AllGood(w, rs) && IsWord(w, r.agent) && Strip(r.report) == ""
    ensures Extracted(w, Log(rs + [r] + [next]))
            == Triples(rs) + [Section(PhaseName(r.phase), r.agent, Strip(Printed(next)))]
            <==> !Contains(Printed(next), NEXT_SECTION)
  {
    var merged := Merged(r, next);
    MergedLog(rs, r, next);
    MergedIsGoodIff(w, r, next);
    AppendedTriple(w, rs, merged);
  }

  lemma AppendedTriple(w: char -> bool, rs: seq<PhaseResult>, r: PhaseResult)
    requires WordClass(w) && AllGood(w, rs)
    ensures Extracted(w, Log(rs + [r])) == Triples(rs) + [Triple(r)] <==> Good(w, r)
  {
    AppendedIsReadBackIffGood(w, rs, r);
    assert Triples(rs + [r]) == Triples(rs) + [Triple(r)];
  }

  lemma MergedIsGoodIff(w: char -> bool, r: PhaseResult, next: PhaseResult)
    requires IsWord(w, r.agent) && Strip(r.report) == ""
    ensures Good(w, Merged(r, next)) <==> !Contains(Printed(next), NEXT_SECTION)
    ensures Triple(Merged(r, next)) == Section(PhaseName(r.phase), r.agent, Strip(Printed(next)))
  {
    BlankThenReadable(r.report, Printed(next));
  }

  lemma BlankThenReadable(blank: string, rest: string)
    requires Strip(blank) == "" && rest != "" && rest[0] == '#'
    ensures Readable(blank + "\n\n" + rest) <==> !Contains(rest, NEXT_SECTION)
    ensures Strip(blank + "\n\n" + rest) == Strip(rest)
  {
    var lead := blank + "\n\n";
    assert AllSpace(lead) by { StripParts(blank); }
    StripBehind(lead, rest);
    StripBehind("", rest);
    assert "" + rest == rest;
    ReadableBehind(lead, rest);
    assert !Dangling(lead);
  }

  lemma StripBehind(lead: string, rest: string)
    requires AllSpace(lead) && rest != "" && !IsSpace(rest[0])
    ensures Strip(lead + rest) == RStrip(rest)
  {
    LStripLead(lead, rest);
  }

  /** Text that does not start with white space keeps what stands before it apart. */
  lemma ReadableBehind(lead: string, rest: string)
    requires AllSpace(lead) && rest != "" && !IsSpace(rest[0])
    ensures Readable(lead + rest) <==> Intact(lead, rest)
  {
    LStripLead(lead, rest);
    assert (lead + rest)[..|lead|] == lead;
    StripNonBlank(lead + rest, |lead|);
  }
}
