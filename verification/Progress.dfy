/**
 PROGRESS.md: what `SessionStore.append_progress` prints and what `extract_patterns` reads back through
 `_PHASE_RE`. Beside the matcher stands the pattern by hand: where a body may start, where it ends, and what a
 header is.
 */
module Progress {
  import opened Options
  import opened Text
  import opened Regex

  datatype Phase = Intake | Plan | Investigate | Execute | Qa | Synthesize | PostJob

  /** `phase.name`. */
  function PhaseName(p: Phase): string {
    match p
    case Intake => "INTAKE"
    case Plan => "PLAN"
    case Investigate => "INVESTIGATE"
    case Execute => "EXECUTE"
    case Qa => "QA"
    case Synthesize => "SYNTHESIZE"
    case PostJob => "POST_JOB"
  }

  datatype PhaseResult = PhaseResult(phase: Phase, agent: string, report: string)

  const FIELD_REPORT_MAX_LEN := 500

  /** `PhaseResult.__post_init__`: a longer report is cut. */
  function NewResult(phase: Phase, agent: string, report: string): PhaseResult {
    PhaseResult(phase, agent, Cut(report, FIELD_REPORT_MAX_LEN))
  }

  function Cut(s: string, n: nat): string {
    if |s| > n then s[..n] else s
  }

  // ----- The printer -----

  function Header(r: PhaseResult): string {
    "## " + PhaseName(r.phase) + " — " + r.agent
  }

  function Entry(r: PhaseResult): string {
    Header(r) + "\n\n" + r.report + "\n\n"
  }

  /** The file after appending rs one by one. */
  function Log(rs: seq<PhaseResult>): string {
    if rs == [] then "" else Log(rs[..|rs| - 1]) + Entry(rs[|rs| - 1])
  }

  // ----- The pattern -----

  /** What `\w` may be: it has the ASCII word characters and no white space. */
  ghost predicate WordClass(w: char -> bool) {
    forall c ::
      && (('A' <= c <= 'Z' || 'a' <= c <= 'z' || '0' <= c <= '9' || c == '_') ==> w(c))
      && (IsSpace(c) ==> !w(c))
  }

  predicate IsWord(w: char -> bool, t: string) {
    t != "" && forall i :: 0 <= i < |t| ==> w(t[i])
  }

  predicate AnyChar(c: char) { true }

  const NEXT_SECTION := "\n## "

  /** `(.+?)(?=\n## |\Z)` with DOTALL. */
  function BodyRe(): Re { Mark(5, Lazy(AnyChar, 1, Mark(6, BeforeOrEnd(NEXT_SECTION, Accept)))) }

  /** `\s*\n\n` and the body. */
  function GapRe(): Re { Greedy(IsSpace, 0, Lit("\n\n", BodyRe())) }

  function AgentRe(w: char -> bool): Re { Greedy(w, 1, Mark(4, GapRe())) }

  function DashRe(w: char -> bool): Re { Mark(2, Lit(" — ", Mark(3, AgentRe(w)))) }

  /** `^## (\w+) — (\w+)\s*\n\n(.+?)(?=\n## |\Z)` with MULTILINE and DOTALL. */
  function PhaseRe(w: char -> bool): Re {
    LineStart(Lit("## ", Mark(1, Greedy(w, 1, DashRe(w)))))
  }

  datatype Section = Section(phase: string, agent: string, report: string)

  /** One tuple of `findall`, its report stripped. */
  function SectionOf(s: string, m: Marks): Section {
    Section(Group(s, m, 1, 2), Group(s, m, 3, 4), Strip(Group(s, m, 5, 6)))
  }

  /** The sections that survive the blank-report test, in order. */
  function Kept(s: string, ms: seq<Marks>): seq<Section> {
    if ms == [] then [] else KeptOne(SectionOf(s, ms[0])) + Kept(s, ms[1..])
  }

  /** A section with a blank report is dropped. */
  function KeptOne(sec: Section): seq<Section> {
    if sec.report == "" then [] else [sec]
  }

  function KeptFrom(w: char -> bool, s: string, p: nat): seq<Section>
    requires p <= |s|
  {
    Kept(s, FindAll(PhaseRe(w), s, p))
  }

  /** What `extract_patterns` stores for a progress text. */
  function Extracted(w: char -> bool, s: string): seq<Section> {
    if Strip(s) == "" then [] else KeptFrom(w, s, 0)
  }

  function Triple(r: PhaseResult): Section {
    Section(PhaseName(r.phase), r.agent, Strip(r.report))
  }

  function Triples(rs: seq<PhaseResult>): seq<Section> {
    seq(|rs|, i requires 0 <= i < |rs| => Triple(rs[i]))
  }

  // ----- The pattern by hand -----

  /** The nearest place at or after e where the body may stop. */
  function BodyEnd(s: string, e: nat): (r: nat)
    requires e <= |s|
    ensures e <= r <= |s|
    decreases |s| - e
  {
    if e == |s| || At(s, e, NEXT_SECTION) then e else BodyEnd(s, e + 1)
  }

  lemma {:induction false} BodyEndIsNearest(s: string, e: nat)
    requires e <= |s|
    ensures BodyEnd(s, e) == |s| || At(s, BodyEnd(s, e), NEXT_SECTION)
    ensures forall x :: e <= x < BodyEnd(s, e) ==> !At(s, x, NEXT_SECTION)
    decreases |s| - e
  {
    if e < |s| && !At(s, e, NEXT_SECTION) { BodyEndIsNearest(s, e + 1); }
  }

  /**
   Where the body starts when up to n characters of white space are skipped from j: after the last usable blank
   line.
   */
  function BodyStart(s: string, j: nat, n: nat): (r: Option<nat>)
    requires j + n <= |s|
    ensures r.Some? ==> j + 2 <= r.value <= j + n + 2 && r.value < |s|
  {
    if At(s, j + n, "\n\n") && j + n + 2 < |s| then Some(j + n + 2)
    else if n == 0 then None
    else BodyStart(s, j, n - 1)
  }

  lemma {:induction false} BodyStartIsLast(s: string, j: nat, n: nat)
    requires j + n <= |s|
    ensures BodyStart(s, j, n).Some? ==> At(s, BodyStart(s, j, n).value - 2, "\n\n")
    ensures forall x :: j <= x <= j + n && x + 2 < |s| && At(s, x, "\n\n")
                        ==> BodyStart(s, j, n).Some? && x + 2 <= BodyStart(s, j, n).value
  {
    if n > 0 { BodyStartIsLast(s, j, n - 1); }
  }

  lemma {:induction false} AnyRun(s: string, p: nat)
    requires p <= |s|
    ensures RunLength(AnyChar, s, p) == |s| - p
    decreases |s| - p
  {
    if p < |s| { AnyRun(s, p + 1); }
  }

  lemma {:induction false} RunLazyBody(s: string, b: nat, n: nat)
    requires 1 <= n && b + n <= |s|
    ensures RunLazy(BodyRe().next, s, b, n) == var e := BodyEnd(s, b + n); Some(map[0 := e][6 := e])
    decreases |s| - n
  {
    AnyRun(s, b);
    if b + n < |s| && !At(s, b + n, NEXT_SECTION) {
      RunLazyBody(s, b, n + 1);
    }
  }

  lemma RunBody(s: string, b: nat)
    requires b <= |s|
    ensures Run(BodyRe(), s, b) == if b < |s| then var e := BodyEnd(s, b + 1); Some(map[0 := e][6 := e][5 := b])
            else None
  {
    AnyRun(s, b);
    if b < |s| { RunLazyBody(s, b, 1); }
  }

  function GapMarks(s: string, start: Option<nat>): Option<Marks>
    requires start.Some? ==> start.value < |s|
  {
    if start.None? then None
    else var e := BodyEnd(s, start.value + 1); Some(map[0 := e][6 := e][5 := start.value])
  }

  lemma RunBlankLine(s: string, q: nat)
    requires q <= |s|
    ensures Run(Lit("\n\n", BodyRe()), s, q)
            == GapMarks(s, if At(s, q, "\n\n") && q + 2 < |s| then Some(q + 2) else None)
  {
    if At(s, q, "\n\n") { RunBody(s, q + 2); }
  }

  lemma {:induction false} RunGap(s: string, j: nat, n: nat)
    requires j + n <= |s|
    ensures RunGreedy(GapRe(), s, j, n) == GapMarks(s, BodyStart(s, j, n))
  {
    RunBlankLine(s, j + n);
    if n > 0 { RunGap(s, j, n - 1); }
  }

  /** A greedy word cannot give characters back when what follows cannot start inside it. */
  lemma {:induction false} RunGreedyWord(w: char -> bool, next: Re, s: string, p: nat, n: nat)
    requires p + n <= |s|
    requires forall q :: p + 1 <= q < p + n ==> Run(next, s, q).None?
    ensures RunGreedy(Greedy(w, 1, next), s, p, n) == if n >= 1 then Run(next, s, p + n) else None
  {
    if n > 1 { RunGreedyWord(w, next, s, p, n - 1); }
  }

  lemma RunWord(w: char -> bool, next: Re, s: string, p: nat, t: string)
    requires WordClass(w) && IsWord(w, t) && At(s, p, t)
    requires p + |t| < |s| && IsSpace(s[p + |t|])
    requires forall q :: p + 1 <= q < p + |t| && w(s[q]) ==> Run(next, s, q).None?
    ensures Run(Greedy(w, 1, next), s, p) == Run(next, s, p + |t|)
  {
    assert RunLength(w, s, p) == |t| by { WordRunLength(w, s, p, t); }
    assert forall q :: p + 1 <= q < p + |t| ==> w(s[q]) by {
      forall q | p + 1 <= q < p + |t| ensures w(s[q]) { AtChar(s, p, t, q - p); }
    }
    RunWholeRun(w, next, s, p, |t|);
  }

  lemma RunWholeRun(w: char -> bool, next: Re, s: string, p: nat, n: nat)
    requires p <= |s| && RunLength(w, s, p) == n && n >= 1
    requires forall q :: p + 1 <= q < p + n ==> Run(next, s, q).None?
    ensures Run(Greedy(w, 1, next), s, p) == Run(next, s, p + n)
  {
    RunGreedyWord(w, next, s, p, n);
  }

  function WithMark(m: Option<Marks>, tag: nat, p: nat): Option<Marks> {
    if m.None? then None else Some(m.value[tag := p])
  }

  lemma GapNotInWord(w: char -> bool, s: string, q: nat)
    requires WordClass(w) && q < |s| && w(s[q])
    ensures Run(Mark(4, GapRe()), s, q).None?
  {
    assert RunLength(IsSpace, s, q) == 0;
    AtBreaks(s, q);
    RunGap(s, q, 0);
  }

  lemma DashNotInWord(w: char -> bool, s: string, q: nat)
    requires WordClass(w) && q < |s| && w(s[q])
    ensures Run(DashRe(w), s, q).None?
  {
    assert At(s, q, " — ") ==> s[q] == ' ';
  }

  lemma NoGapInAgent(w: char -> bool, s: string, p: nat, j: nat)
    requires WordClass(w) && j <= |s|
    ensures forall q :: p + 1 <= q < j && w(s[q]) ==> Run(Mark(4, GapRe()), s, q).None?
  {
    forall q | p + 1 <= q < j && w(s[q]) ensures Run(Mark(4, GapRe()), s, q).None? {
      GapNotInWord(w, s, q);
    }
  }

  /** Behind an agent name the pattern matches exactly when the gap after it does. */
  lemma RunAgent(w: char -> bool, s: string, p: nat, agent: string)
    requires WordClass(w) && IsWord(w, agent) && At(s, p, agent)
    requires p + |agent| < |s| && IsSpace(s[p + |agent|])
    ensures var j := p + |agent|;
            var gap := GapMarks(s, BodyStart(s, j, RunLength(IsSpace, s, j)));
            Run(AgentRe(w), s, p) == WithMark(gap, 4, j)
  {
    var j := p + |agent|;
    assert Run(AgentRe(w), s, p) == Run(Mark(4, GapRe()), s, j) by {
      NoGapInAgent(w, s, p, j);
      RunWord(w, Mark(4, GapRe()), s, p, agent);
    }
    RunMarkedGap(s, j);
  }

  lemma RunMarkedGap(s: string, j: nat)
    requires j <= |s|
    ensures Run(Mark(4, GapRe()), s, j) == WithMark(GapMarks(s, BodyStart(s, j, RunLength(IsSpace, s, j))), 4, j)
  {
    RunGap(s, j, RunLength(IsSpace, s, j));
  }

  lemma RunDashLit(w: char -> bool, s: string, i: nat)
    requires At(s, i, " — ")
    ensures Run(DashRe(w), s, i) == WithMark(WithMark(Run(AgentRe(w), s, i + 3), 3, i + 3), 2, i)
  {
    assert Run(DashRe(w).next, s, i) == Run(DashRe(w).next.next, s, i + 3);
  }

  /** The names of a section at h. */
  predicate NamesAt(s: string, h: nat, phase: string, agent: string) {
    && At(s, h, "## ") && At(s, h + 3, phase) && At(s, h + 3 + |phase|, " — ")
    && At(s, h + 6 + |phase|, agent)
  }

  /** A section header at h, up to the blank line behind it. */
  predicate HeaderAt(s: string, h: nat, phase: string, agent: string) {
    NamesAt(s, h, phase, agent) && At(s, h + 6 + |phase| + |agent|, "\n\n")
  }

  lemma HeaderParts(s: string, h: nat, phase: string, agent: string)
    requires At(s, h, "## " + phase + " — " + agent + "\n\n")
    ensures HeaderAt(s, h, phase, agent)
  {
    AtSplit(s, h, "## " + phase + " — " + agent, "\n\n");
    AtSplit(s, h, "## " + phase + " — ", agent);
    AtSplit(s, h, "## " + phase, " — ");
    AtSplit(s, h, "## ", phase);
  }

  lemma RunName(w: char -> bool, s: string, p: nat, phase: string)
    requires WordClass(w) && IsWord(w, phase) && At(s, p, phase) && At(s, p + |phase|, " — ")
    ensures Run(Greedy(w, 1, DashRe(w)), s, p) == Run(DashRe(w), s, p + |phase|)
  {
    AtChar(s, p + |phase|, " — ", 0);
    forall q | p + 1 <= q < p + |phase| && w(s[q]) ensures Run(DashRe(w), s, q).None? {
      DashNotInWord(w, s, q);
    }
    RunWord(w, DashRe(w), s, p, phase);
  }

  /** Behind names that white space follows the pattern matches exactly when the gap after them does. */
  lemma RunNames(w: char -> bool, s: string, h: nat, phase: string, agent: string)
    requires WordClass(w) && IsWord(w, phase) && IsWord(w, agent)
    requires NamesAt(s, h, phase, agent) && (h == 0 || s[h - 1] == '\n')
    requires h + 6 + |phase| + |agent| < |s| && IsSpace(s[h + 6 + |phase| + |agent|])
    ensures var i := h + 3 + |phase|;
            var j := i + 3 + |agent|;
            var gap := GapMarks(s, BodyStart(s, j, RunLength(IsSpace, s, j)));
            Run(PhaseRe(w), s, h) == WithMark(WithMark(WithMark(WithMark(gap, 4, j), 3, i + 3), 2, i), 1, h + 3)
  {
    var i := h + 3 + |phase|;
    RunFront(w, s, h);
    RunName(w, s, h + 3, phase);
    RunDashLit(w, s, i);
    RunAgent(w, s, i + 3, agent);
  }

  lemma RunFront(w: char -> bool, s: string, h: nat)
    requires At(s, h, "## ") && (h == 0 || s[h - 1] == '\n')
    ensures Run(PhaseRe(w), s, h) == WithMark(Run(Greedy(w, 1, DashRe(w)), s, h + 3), 1, h + 3)
  {
    assert Run(PhaseRe(w), s, h) == Run(PhaseRe(w).next, s, h);
    assert Run(PhaseRe(w).next, s, h) == Run(PhaseRe(w).next.next, s, h + 3);
  }

  /** A word that is followed by white space ends there. */
  lemma WordRunLength(w: char -> bool, s: string, p: nat, t: string)
    requires WordClass(w) && IsWord(w, t) && At(s, p, t)
    requires p + |t| < |s| && IsSpace(s[p + |t|])
    ensures RunLength(w, s, p) == |t|
  {
    forall i | p <= i < p + |t| ensures w(s[i]) { AtChar(s, p, t, i - p); }
    RunLengthIs(w, s, p, |t|);
  }
}
