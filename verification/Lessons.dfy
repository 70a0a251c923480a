/** What the learning step makes of a progress log: from the results that were appended to the memories. */
module Lessons {
  import opened Options
  import opened Text
  import opened Progress
  import opened ProgressLog
  import opened GraphStore
  import opened PostJob
  import QaReport

  /** A memory of this text, by the words in it; what went wrong weighs more than what went well, and that more than
      the rest. */
  predicate LearntAs(report: string, kind: MemoryType, importance: real) {
    && (kind == MemoryType.Error <==> Contains(report, "NEEDS_REVIEW"))
    && (kind == MemoryType.Pattern <==> !Contains(report, "NEEDS_REVIEW") && Contains(report, "status=COMPLETED"))
    && (kind.Error? || kind.Pattern? || kind.Fact?)
    && importance == match kind case Error => 0.7 case Pattern => 0.5 case _ => 0.4
  }

  lemma WordsAreTrimmed(a: string, b: string)
    requires a == "NEEDS_REVIEW" && b == "status=COMPLETED"
    ensures a != "" && b != "" && Trimmed(a) && Trimmed(b)
  {
  }

  /** The words count as they stand in the report that was written, stripped or not. */
  lemma ReportIsLearnt(report: string)
    ensures LearntAs(report, Classify(Strip(report)).0, Classify(Strip(report)).1)
  {
    WordsAreTrimmed("NEEDS_REVIEW", "status=COMPLETED");
    StripContains(report, "NEEDS_REVIEW");
    StripContains(report, "status=COMPLETED");
  }

  /**
   The memories of a log of good results: one for each, in order and with consecutive ids, each holding the report,
   the phase and the agent that were appended, and classified by the words of the report.
   */
  lemma LogIsLearnt(w: char -> bool, store: string -> seq<real>, domain: string, operativoId: string,
                    rs: seq<PhaseResult>, id: nat, i: nat)
    requires WordClass(w) && AllGood(w, rs) && i < |rs|
    ensures var nodes := Memories(MemoryOf(domain, operativoId, store), Extracted(w, Log(rs)), id);
            && |nodes| == |rs|
            && nodes[i].id == id + i && nodes[i].domain == domain && nodes[i].source == Some(operativoId)
            && nodes[i].content == Strip(rs[i].report) && nodes[i].embedding == store(Strip(rs[i].report))
            && nodes[i].metadata == map["phase" := PhaseName(rs[i].phase), "agent" := rs[i].agent]
            && LearntAs(rs[i].report, nodes[i].memoryType, nodes[i].importance)
  {
    GoodLogIsReadBack(w, rs);
    assert Triples(rs)[i] == Triple(rs[i]);
    ReportIsLearnt(rs[i].report);
  }

  /** Two logs of good results with the same text report the same phases, agents and reports up to white space. */
  lemma LogIsFaithful(w: char -> bool, rs: seq<PhaseResult>, other: seq<PhaseResult>, i: nat)
    requires WordClass(w) && AllGood(w, rs) && AllGood(w, other) && Log(rs) == Log(other)
    ensures |rs| == |other|
    ensures i < |rs| ==> rs[i].phase == other[i].phase && rs[i].agent == other[i].agent
                         && Strip(rs[i].report) == Strip(other[i].report)
  {
    GoodLogIsReadBack(w, rs);
    GoodLogIsReadBack(w, other);
    assert |Triples(rs)| == |Triples(other)|;
    if i < |rs| {
      assert Triple(rs[i]) == Triples(rs)[i] == Triples(other)[i] == Triple(other[i]);
      PhaseNamesDiffer(rs[i].phase, other[i].phase);
    }
  }

  lemma PhaseNamesDiffer(p: Phase, q: Phase)
    ensures PhaseName(p) == PhaseName(q) <==> p == q
  {
    assert p != q ==> |PhaseName(p)| != |PhaseName(q)|;
  }

  // ----- The result of a review -----

  /** `phase_result` of `santos_qa_review`. */
  function QaResult(report: QaReport.QAReport, corrections: nat): string {
    QaCounts(|report.checks|, corrections) + "status=" + QaReport.FinalStatus(report) + "."
  }

  function QaCounts(checks: nat, corrections: nat): string {
    "Santos QA: " + Decimal(checks) + " checks, " + Decimal(corrections) + " citation corrections, "
  }

  lemma {:induction false} DecimalIsDigits(n: nat)
    ensures Decimal(n) != "" && forall i :: 0 <= i < |Decimal(n)| ==> '0' <= Decimal(n)[i] <= '9'
  {
    if n >= 10 { DecimalIsDigits(n / 10); }
  }

  lemma CountsHaveNoWord(checks: nat, corrections: nat)
    ensures '_' !in QaCounts(checks, corrections)
  {
    DecimalIsDigits(checks);
    DecimalIsDigits(corrections);
  }

  lemma NotInText(s: string, t: string, k: nat)
    requires k < |t| && t[k] !in s
    ensures !Contains(s, t)
  {
    forall p | 0 <= p <= |s| ensures !At(s, p, t) {
      if At(s, p, t) { AtChar(s, p, t, k); }
    }
  }

  lemma ContainedInside(a: string, w: string, z: string)
    ensures Contains(a + w + z, w)
  {
    ContainsFront(w, z);
    ContainsBehind(a, w + z, w);
    assert a + (w + z) == a + w + z;
  }

  /** A review's result is learnt as an error if a check of the report is blocking, and as a pattern otherwise. */
  lemma ReviewIsLearnt(report: QaReport.QAReport, corrections: nat, kind: MemoryType, importance: real)
    requires LearntAs(QaResult(report, corrections), kind, importance)
    ensures kind == if report.HasBlocking() then MemoryType.Error else MemoryType.Pattern
  {
    var counts := QaCounts(|report.checks|, corrections);
    CountsHaveNoWord(|report.checks|, corrections);
    StatusIsFound(QaResult(report, corrections), counts, QaReport.FinalStatus(report), "NEEDS_REVIEW", "COMPLETED",
                  "status=COMPLETED");
  }

  lemma StatusIsFound(s: string, counts: string, status: string, needs: string, completed: string, done: string)
    requires s == counts + "status=" + status + "." && '_' !in counts && (status == needs || status == completed)
    requires needs == "NEEDS_REVIEW" && completed == "COMPLETED" && done == "status=COMPLETED"
    ensures if status == needs then Contains(s, needs) else !Contains(s, needs) && Contains(s, done)
  {
    if status == needs {
      ContainedInside(counts + "status=", needs, ".");
    } else {
      NoWordIn(s, counts, status);
      NotInText(s, needs, 5);
      DoneIs("status=", status, done);
      assert s == counts + done + ".";
      ContainedInside(counts, done, ".");
    }
  }

  lemma NoWordIn(s: string, counts: string, status: string)
    requires status == "COMPLETED" && s == counts + "status=" + status + "." && '_' !in counts
    ensures '_' !in s
  {
  }

  lemma DoneIs(before: string, status: string, done: string)
    requires before == "status=" && status == "COMPLETED" && done == "status=COMPLETED"
    ensures before + status == done
  {
  }
}
