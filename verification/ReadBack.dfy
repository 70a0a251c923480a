/** The logs that one reading at the end gives back: exactly those whose results all are good. */
module ReadBack {
  import opened Options
  import opened Text
  import opened Regex
  import opened Progress
  import opened RoundTrip
  import opened ProgressLog

  // ----- Where the entries of a log are -----

  function StartOf(rs: seq<PhaseResult>, i: nat): nat
    requires i <= |rs|
  {
    |Log(rs[..i])|
  }

  lemma LogTake(rs: seq<PhaseResult>, i: nat)
    requires i < |rs|
    ensures Log(rs[..i + 1]) == Log(rs[..i]) + Entry(rs[i])
  {
    assert rs[..i + 1] == rs[..i] + [rs[i]];
    LogSnoc(rs[..i], rs[i]);
  }

  /** What is appended later stands behind. */
  lemma {:induction false} LogGrows(rs: seq<PhaseResult>, i: nat)
    requires i <= |rs|
    ensures |Log(rs[..i])| <= |Log(rs)| && Log(rs)[..|Log(rs[..i])|] == Log(rs[..i])
  {
    if i == |rs| {
      assert rs[..i] == rs;
    } else {
      var init := rs[..|rs| - 1];
      LogGrows(init, i);
      assert init[..i] == rs[..i];
      assert Log(rs)[..|Log(init)|] == Log(init);
    }
  }

  lemma EntryEndsLine(a: string, r: PhaseResult)
    ensures var s := a + Entry(r); s != "" && s[|s| - 1] == '\n'
  {
  }

  lemma LogEndsLine(rs: seq<PhaseResult>)
    ensures Log(rs) == "" || Log(rs)[|Log(rs)| - 1] == '\n'
  {
    if rs != [] { EntryEndsLine(Log(rs[..|rs| - 1]), rs[|rs| - 1]); }
  }

  /** The i-th entry stands between two starts, at the start of a line. */
  lemma EntryInLog(rs: seq<PhaseResult>, i: nat)
    requires i < |rs|
    ensures var s, h := Log(rs), StartOf(rs, i);
            && At(s, h, Entry(rs[i])) && At(s, 0, Log(rs[..i])) && AtLineStart(s, h)
            && StartOf(rs, i + 1) == h + |Entry(rs[i])| <= |s|
  {
    LogTake(rs, i);
    LogGrows(rs, i);
    LogGrows(rs, i + 1);
    LogEndsLine(rs[..i]);
    FrontAt(Log(rs), Log(rs[..i]), Entry(rs[i]));
  }

  lemma FrontAt(s: string, a: string, b: string)
    requires |a| + |b| <= |s| && s[..|a|] == a && s[..|a| + |b|] == a + b
    ensures At(s, 0, a) && At(s, |a|, b) && (a != "" ==> s[|a| - 1] == a[|a| - 1])
  {
    assert s[0..|a|] == a && s[|a|..|a| + |b|] == (a + b)[|a|..] == b;
    AtSlice(s, 0, a);
    AtSlice(s, |a|, b);
    assert a != "" ==> s[..|a|][|a| - 1] == s[|a| - 1];
  }

  // ----- A section read inside an entry -----

  /** No line ends inside a header. */
  lemma HeaderIsOneLine(w: char -> bool, s: string, h: nat, phase: string, agent: string, k: nat)
    requires WordClass(w) && IsWord(w, phase) && IsWord(w, agent) && HeaderAt(s, h, phase, agent)
    requires h <= k < h + 6 + |phase| + |agent|
    ensures s[k] != '\n'
  {
    if k < h + 3 { AtChar(s, h, "## ", k - h); }
    else if k < h + 3 + |phase| { AtChar(s, h + 3, phase, k - h - 3); }
    else if k < h + 6 + |phase| { AtChar(s, h + 3 + |phase|, " — ", k - h - 3 - |phase|); }
    else { AtChar(s, h + 6 + |phase|, agent, k - h - 6 - |phase|); }
  }

  /** A section that starts inside an entry, behind its start, starts in the core of its report. */
  lemma StartsInCore(w: char -> bool, s: string, h: nat, r: PhaseResult, p: nat)
    requires WordClass(w) && IsWord(w, r.agent) && At(s, h, Entry(r))
    requires h < p < h + |Entry(r)| && AtLineStart(s, p) && At(s, p, "## ")
    ensures var cs := GapPos(h, r) + 2 + |Lead(r.report)|; cs <= p < cs + |Strip(r.report)|
  {
    EntryLaid(s, h, r);
    PhaseNamesAreWords(w, r.phase);
    AtSection(s, p);
    LaidBlank(s, GapPos(h, r), Lead(r.report), Strip(r.report), Trail(r.report));
    if p <= GapPos(h, r) { HeaderIsOneLine(w, s, h, PhaseName(r.phase), r.agent, p - 1); }
  }

  /** A section that lies wholly in the core and the white space behind it is shorter than the core. */
  lemma InsideIsShorter(s: string, cs: nat, ce: nat, end: nat, b: nat, e: nat)
    requires cs < b < e <= end <= |s| && cs <= ce <= end && Blank(s, ce, end)
    ensures Strip(s[b..e]) == "" || |Strip(s[b..e])| < ce - cs
  {
    if b >= ce { TrimBound(s, b, e, e, e); }
    else if e <= ce { TrimBound(s, b, b, e, e); }
    else { TrimBound(s, b, b, ce, e); }
  }

  /** A match that starts behind the start of an entry and ends with it does not read that entry's result. */
  lemma InsideIsAnother(w: char -> bool, s: string, h: nat, r: PhaseResult, p: nat, m: Marks)
    requires WordClass(w) && IsWord(w, r.agent) && At(s, h, Entry(r))
    requires p <= |s| && Run(PhaseRe(w), s, p) == Some(m) && 0 in m && h < p && m[0] <= h + |Entry(r)|
    ensures SectionOf(s, m).report == "" || SectionOf(s, m) != Triple(r)
  {
    MatchSound(w, s, p, m);
    MatchAtLineStart(w, s, p);
    StartsInCore(w, s, h, r, p);
    EntryLaid(s, h, r);
    var cs := GapPos(h, r) + 2 + |Lead(r.report)|;
    LaidBlank(s, GapPos(h, r), Lead(r.report), Strip(r.report), Trail(r.report));
    InsideIsShorter(s, cs, cs + |Strip(r.report)|, h + |Entry(r)|, m[5], m[6]);
  }

  // ----- Reading never catches up -----

  ghost predicate AgentsAreWords(w: char -> bool, rs: seq<PhaseResult>) {
    forall i :: 0 <= i < |rs| ==> IsWord(w, rs[i].agent)
  }

  lemma TriplesFrom(rs: seq<PhaseResult>, i: nat)
    requires i < |rs|
    ensures Triples(rs[i..]) == [Triple(rs[i])] + Triples(rs[i + 1..])
  {
  }

  lemma FirstOrRest<T>(x: T, xs: seq<T>, y: T, ys: seq<T>)
    ensures [x] + xs == [y] + ys ==> x == y && xs == ys
  {
    assert ([x] + xs)[0] == x && ([y] + ys)[0] == y && ([x] + xs)[1..] == xs && ([y] + ys)[1..] == ys;
  }

  /**
   Once reading goes on behind the start of an entry, what is read from there is not that entry and those behind
   it.
   */
  lemma {:induction false} ReadingLags(w: char -> bool, rs: seq<PhaseResult>, s: string, i: nat, p: nat)
    requires WordClass(w) && AgentsAreWords(w, rs) && s == Log(rs)
    requires i < |rs| && StartOf(rs, i) < p <= |s|
    ensures KeptFrom(w, s, p) != Triples(rs[i..])
    decreases |rs| - i, |s| - p
  {
    var j, q := LagStep(w, rs, s, i, p);
    if KeptFrom(w, s, p) == Triples(rs[i..]) { ReadingLags(w, rs, s, j, q); }
  }

  /**
   One step of reading: if it has caught up now, it has from q on, behind the start of the same entry or of the
   next.
   */
  lemma LagStep(w: char -> bool, rs: seq<PhaseResult>, s: string, i: nat, p: nat) returns (j: nat, q: nat)
    requires WordClass(w) && AgentsAreWords(w, rs) && s == Log(rs)
    requires i < |rs| && StartOf(rs, i) < p <= |s|
    ensures KeptFrom(w, s, p) == Triples(rs[i..]) ==>
              i <= j <= i + 1 && j < |rs| && StartOf(rs, j) < q <= |s| && p < q && KeptFrom(w, s, q) == Triples(rs[j..])
  {
    if Run(PhaseRe(w), s, p).None? {
      j, q := i, p + 1;
      LagSkip(w, s, p, Triples(rs[i..]));
    } else {
      j, q := LagMatch(w, rs, s, i, p, Run(PhaseRe(w), s, p).value);
    }
  }

  lemma LagSkip(w: char -> bool, s: string, p: nat, ts: seq<Section>)
    requires p <= |s| && Run(PhaseRe(w), s, p).None? && ts != []
    ensures KeptFrom(w, s, p) == ts ==> p < |s| && KeptFrom(w, s, p + 1) == ts
  {
    KeptSkip(w, s, p);
  }

  lemma LagMatch(w: char -> bool, rs: seq<PhaseResult>, s: string, i: nat, p: nat, m: Marks) returns (j: nat, q: nat)
    requires WordClass(w) && AgentsAreWords(w, rs) && s == Log(rs)
    requires i < |rs| && StartOf(rs, i) < p <= |s| && Run(PhaseRe(w), s, p) == Some(m)
    ensures KeptFrom(w, s, p) == Triples(rs[i..]) ==>
              i <= j <= i + 1 && j < |rs| && StartOf(rs, j) < q <= |s| && p < q && KeptFrom(w, s, q) == Triples(rs[j..])
  {
    MatchSound(w, s, p, m);
    q := m[0];
    if SectionOf(s, m).report == "" {
      j := i;
      BlankMatch(w, s, p, m);
    } else {
      j := i + 1;
      LaggingStep(w, rs, s, i, p, m);
      if SectionOf(s, m) != Triple(rs[i]) || KeptFrom(w, s, q) != Triples(rs[j..]) { OtherMatch(w, rs, s, i, p, m); }
    }
  }

  lemma BlankMatch(w: char -> bool, s: string, p: nat, m: Marks)
    requires p <= |s| && Run(PhaseRe(w), s, p) == Some(m) && SectionOf(s, m).report == ""
    ensures 0 in m && p < m[0] <= |s| && KeptFrom(w, s, p) == KeptFrom(w, s, m[0])
  {
    KeptMatch(w, s, p, m);
  }

  lemma OtherMatch(w: char -> bool, rs: seq<PhaseResult>, s: string, i: nat, p: nat, m: Marks)
    requires p <= |s| && Run(PhaseRe(w), s, p) == Some(m) && SectionOf(s, m).report != "" && i < |rs|
    requires SectionOf(s, m) == Triple(rs[i]) ==> 0 in m && m[0] <= |s| && KeptFrom(w, s, m[0]) != Triples(rs[i + 1..])
    ensures KeptFrom(w, s, p) != Triples(rs[i..])
  {
    KeptMatch(w, s, p, m);
    TriplesFrom(rs, i);
    FirstOrRest(SectionOf(s, m), KeptFrom(w, s, m[0]), Triple(rs[i]), Triples(rs[i + 1..]));
  }

  /** A match that reads an entry from behind its start ends behind the start of the next. */
  lemma LaggingStep(w: char -> bool, rs: seq<PhaseResult>, s: string, i: nat, p: nat, m: Marks)
    requires WordClass(w) && AgentsAreWords(w, rs) && s == Log(rs)
    requires i < |rs| && StartOf(rs, i) < p <= |s|
    ensures Run(PhaseRe(w), s, p) == Some(m) && SectionOf(s, m).report != "" && SectionOf(s, m) == Triple(rs[i]) ==>
              i + 1 < |rs| && 0 in m && StartOf(rs, i + 1) < m[0] <= |s|
  {
    EntryInLog(rs, i);
    assert i + 1 == |rs| ==> rs[..i + 1] == rs;
    if Run(PhaseRe(w), s, p) == Some(m) {
      MatchSound(w, s, p, m);
      if m[0] <= StartOf(rs, i + 1) { InsideIsAnother(w, s, StartOf(rs, i), rs[i], p, m); }
    }
  }

  // ----- A log with a bad result is not read back -----

  /** An entry cut short in its core is not read, nor is what stands behind it. */
  lemma CutEntry(w: char -> bool, rs: seq<PhaseResult>, s: string, i: nat)
    requires WordClass(w) && AgentsAreWords(w, rs) && s == Log(rs) && i < |rs|
    requires Strip(rs[i].report) != "" && !Readable(rs[i].report)
    ensures StartOf(rs, i) <= |s| && KeptFrom(w, s, StartOf(rs, i)) != Triples(rs[i..])
  {
    var h := StartOf(rs, i);
    EntryInLog(rs, i);
    EntryLaid(s, h, rs[i]);
    var m := BadEntry(w, s, h, rs[i]);
    if SectionOf(s, m).report == "" {
      BlankMatch(w, s, h, m);
      ReadingLags(w, rs, s, i, m[0]);
    } else {
      OtherMatch(w, rs, s, i, h, m);
    }
  }

  lemma {:induction false} FirstBad(w: char -> bool, rs: seq<PhaseResult>) returns (i: nat)
    requires !AllGood(w, rs)
    ensures i < |rs| && AllGood(w, rs[..i]) && !Good(w, rs[i])
  {
    var init := rs[..|rs| - 1];
    if AllGood(w, init) {
      i := |rs| - 1;
    } else {
      i := FirstBad(w, init);
      assert init[..i] == rs[..i];
    }
  }

  lemma SameFront<T>(a: seq<T>, b: seq<T>, c: seq<T>)
    ensures a + b == a + c ==> b == c
  {
    assert (a + b)[|a|..] == b && (a + c)[|a|..] == c;
  }

  lemma CutLog(w: char -> bool, rs: seq<PhaseResult>)
    requires WordClass(w) && AgentsAreWords(w, rs) && !AllGood(w, rs)
    requires forall i :: 0 <= i < |rs| ==> Strip(rs[i].report) != ""
    ensures KeptFrom(w, Log(rs), 0) != Triples(rs)
  {
    var i := FirstBad(w, rs);
    CutEntry(w, rs, Log(rs), i);
    ReadUpTo(w, rs, Log(rs), i);
    SplitTriples(rs, i);
    SameFront(Triples(rs[..i]), KeptFrom(w, Log(rs), StartOf(rs, i)), Triples(rs[i..]));
  }

  /** Good results at the front are read back, whatever follows. */
  lemma ReadUpTo(w: char -> bool, rs: seq<PhaseResult>, s: string, i: nat)
    requires WordClass(w) && i < |rs| && AllGood(w, rs[..i]) && s == Log(rs)
    ensures StartOf(rs, i) <= |s| && KeptFrom(w, s, 0) == Triples(rs[..i]) + KeptFrom(w, s, StartOf(rs, i))
  {
    EntryInLog(rs, i);
    EntryBorders(s, StartOf(rs, i), rs[i]);
    KeptLog(w, s, rs[..i]);
  }

  lemma SplitTriples(rs: seq<PhaseResult>, i: nat)
    requires i <= |rs|
    ensures Triples(rs) == Triples(rs[..i]) + Triples(rs[i..])
  {
  }

  /** A log with a result that is not good is not read back as it was written. */
  lemma BadLogIsNotReadBack(w: char -> bool, rs: seq<PhaseResult>)
    requires WordClass(w) && !AllGood(w, rs)
    ensures Extracted(w, Log(rs)) != Triples(rs)
  {
    ExtractedIsWhole(w, rs);
    KeptIsSane(w, Log(rs), 0);
    if i :| 0 <= i < |rs| && (!IsWord(w, rs[i].agent) || Strip(rs[i].report) == "") {
      assert Triples(rs)[i] == Triple(rs[i]);
    } else {
      CutLog(w, rs);
    }
  }

  /** A log is read back as it was written if and only if every result in it is good. */
  lemma RoundTripIffAllGood(w: char -> bool, rs: seq<PhaseResult>)
    requires WordClass(w)
    ensures Extracted(w, Log(rs)) == Triples(rs) <==> forall i :: 0 <= i < |rs| ==> Good(w, rs[i])
  {
    AllGoodIsEach(w, rs);
    if AllGood(w, rs) { GoodLogIsReadBack(w, rs); } else { BadLogIsNotReadBack(w, rs); }
  }

  /** So a log that is read back has been so after every append. */
  lemma ReadBackAfterEachAppend(w: char -> bool, rs: seq<PhaseResult>)
    requires WordClass(w)
    ensures Extracted(w, Log(rs)) == Triples(rs)
            <==> forall k :: 0 <= k <= |rs| ==> Extracted(w, Log(rs[..k])) == Triples(rs[..k])
  {
    assert rs[..|rs|] == rs;
    if Extracted(w, Log(rs)) == Triples(rs) {
      if !AllGood(w, rs) { BadLogIsNotReadBack(w, rs); }
      forall k | 0 <= k <= |rs| ensures Extracted(w, Log(rs[..k])) == Triples(rs[..k]) {
        GoodFront(w, rs, k);
        GoodLogIsReadBack(w, rs[..k]);
      }
    }
  }

  lemma {:induction false} GoodFront(w: char -> bool, rs: seq<PhaseResult>, k: nat)
    requires AllGood(w, rs) && k <= |rs|
    ensures AllGood(w, rs[..k])
  {
    if k == |rs| {
      assert rs[..k] == rs;
    } else {
      GoodFront(w, rs[..|rs| - 1], k);
      assert rs[..|rs| - 1][..k] == rs[..k];
    }
  }

  // ----- Reports that are cut -----

  lemma CutBehind(a: string, b: string, n: nat)
    ensures Cut(a + b, n) == if n <= |a| then a[..n] else a + Cut(b, n - |a|)
  {
  }

  lemma BlankIsStripped(s: string)
    requires AllSpace(s)
    ensures Strip(s) == ""
  {
    StripUnique(s, "", "");
    assert s + "" + "" == s;
  }

  /**
   When the result of a phase is made, its report is cut. It is good exactly if some character of the
   report that is no white space survives the cut, and no new section starts in what survives.
   */
  lemma NewResultIsGoodIff(w: char -> bool, phase: Phase, agent: string, report: string)
    ensures var n := |Lead(report)|;
            Good(w, NewResult(phase, agent, report))
            <==> IsWord(w, agent) && LStrip(report) != "" && n < FIELD_REPORT_MAX_LEN
                 && Intact(Lead(report), Cut(LStrip(report), FIELD_REPORT_MAX_LEN - n))
  {
    CutReadableIff(report, FIELD_REPORT_MAX_LEN);
  }

  lemma CutReadableIff(report: string, max: nat)
    ensures var lead, rest := Lead(report), LStrip(report);
            Readable(Cut(report, max)) <==> rest != "" && |lead| < max && Intact(lead, Cut(rest, max - |lead|))
  {
    StripParts(report);
    LStripParts(report);
    CutPartsIff(Lead(report), LStrip(report), max);
  }

  lemma CutPartsIff(lead: string, rest: string, max: nat)
    requires AllSpace(lead) && (rest != "" ==> !IsSpace(rest[0]))
    ensures Readable(Cut(lead + rest, max)) <==> rest != "" && |lead| < max && Intact(lead, Cut(rest, max - |lead|))
  {
    if |lead| < max && rest != "" { CutInRest(lead, rest, max); } else { CutInLead(lead, rest, max); }
  }

  lemma CutInRest(lead: string, rest: string, max: nat)
    requires AllSpace(lead) && rest != "" && !IsSpace(rest[0]) && |lead| < max
    ensures Readable(Cut(lead + rest, max)) <==> Intact(lead, Cut(rest, max - |lead|))
  {
    CutBehind(lead, rest, max);
    ReadableBehind(lead, Cut(rest, max - |lead|));
  }

  lemma CutInLead(lead: string, rest: string, max: nat)
    requires AllSpace(lead) && (rest == "" || max <= |lead|)
    ensures !Readable(Cut(lead + rest, max))
  {
    CutBehind(lead, rest, max);
    assert lead + "" == lead;
    BlankIsStripped(Cut(lead + rest, max));
  }

  lemma AtInFront(a: string, b: string, p: int, t: string)
    requires At(a, p, t)
    ensures At(a + b, p, t)
  {
    AtSlice(a, p, t);
    AtSlice(a + b, p, t);
    assert (a + b)[p..p + |t|] == a[p..p + |t|];
  }

  lemma CutIsIntact(lead: string, rest: string, n: nat)
    requires Intact(lead, rest)
    ensures Intact(lead, Cut(rest, n))
  {
    if |rest| > n {
      var front := rest[..n];
      assert front + rest[n..] == rest;
      if p :| 0 <= p <= |front| && At(front, p, NEXT_SECTION) { AtInFront(front, rest[n..], p, NEXT_SECTION); }
      if At(front, 0, "## ") { AtInFront(front, rest[n..], 0, "## "); }
    }
  }

  /** Cutting a good report leaves a good one unless it leaves only white space. */
  lemma CuttingKeepsGood(w: char -> bool, phase: Phase, agent: string, report: string)
    requires IsWord(w, agent) && Readable(report)
    ensures Good(w, NewResult(phase, agent, report)) <==> |Lead(report)| < FIELD_REPORT_MAX_LEN
  {
    NewResultIsGoodIff(w, phase, agent, report);
    if |Lead(report)| < FIELD_REPORT_MAX_LEN {
      CutIsIntact(Lead(report), LStrip(report), FIELD_REPORT_MAX_LEN - |Lead(report)|);
    }
  }
}
