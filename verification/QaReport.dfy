/** A QA report as an object, as the JSON that is written of it, and the readers of that JSON. */
module QaReport {
  import opened Options
  import Text

  datatype Severity = Info | Warning | Blocking

  datatype QACheck = QACheck(
    field: string,
    expected: string,
    actual: string,
    severity: Severity,
    autoCorrectable: bool,
    classification: Option<string>)

  datatype QAReport = QAReport(checks: seq<QACheck>, correctionAttempts: int, maxAttempts: int) {
    predicate HasBlocking() {
      exists i :: 0 <= i < |checks| && checks[i].severity == Blocking
    }

    predicate AllResolved() {
      !HasBlocking()
    }

    predicate CanRetry() {
      correctionAttempts < maxAttempts && HasBlocking()
    }
  }

  /** An item of a check list as its readers see it: its severity text and the truth of its flag. */
  datatype CheckJson = NotAnObject | CheckObject(severity: string, autoCorrectable: bool)

  /** A report text, by what parsing makes of it. */
  datatype ReportJson =
    | Unparsable
    | NotADict
    | ChecksNotAList(attempts: int)
    | Checks(checks: seq<CheckJson>, attempts: int)

  function SeverityName(s: Severity): string {
    match s
    case Info => "INFO"
    case Warning => "WARNING"
    case Blocking => "BLOCKING"
  }

  /** What `santos_qa_review` writes. */
  function CheckToJson(c: QACheck): CheckJson {
    CheckObject(SeverityName(c.severity), c.autoCorrectable)
  }

  function ToJson(report: QAReport): ReportJson {
    Checks(seq(|report.checks|, i requires 0 <= i < |report.checks| => CheckToJson(report.checks[i])),
           report.correctionAttempts)
  }

  function FinalStatus(report: QAReport): string {
    if report.HasBlocking() then "NEEDS_REVIEW" else "COMPLETED"
  }

  /** The readers compare severities in upper case. */
  function HasSeverity(c: CheckJson, name: string): bool {
    c.CheckObject? && Text.Upper(c.severity) == name
  }

  /** `_has_retryable_blocking_issues`; a report that cannot be read counts as retryable. */
  predicate HasRetryableBlocking(report: ReportJson) {
    match report
    case Unparsable => true
    case NotADict => false
    case ChecksNotAList(_) => true
    case Checks(cs, _) => exists i :: 0 <= i < |cs| && IsBlocking(cs[i]) && cs[i].autoCorrectable
  }

  datatype QASummary = QASummary(total: nat, blocking: nat, warnings: nat, info: nat, corrections: int)

  function ChecksOf(report: ReportJson): seq<CheckJson> {
    if report.Checks? then report.checks else []
  }

  function AttemptsOf(report: ReportJson): int {
    if report.Checks? || report.ChecksNotAList? then report.attempts else 0
  }

  function CountWhere(p: CheckJson -> bool, cs: seq<CheckJson>): nat {
    if cs == [] then 0 else CountWhere(p, cs[..|cs| - 1]) + if p(cs[|cs| - 1]) then 1 else 0
  }

  predicate IsBlocking(c: CheckJson) { HasSeverity(c, "BLOCKING") }

  predicate IsWarning(c: CheckJson) { HasSeverity(c, "WARNING") }

  predicate IsOther(c: CheckJson) { c.CheckObject? && !IsBlocking(c) && !IsWarning(c) }

  predicate IsNoObject(c: CheckJson) { c.NotAnObject? }

  /** `_qa_summary_from_report`. */
  method Summarize(report: ReportJson) returns (s: QASummary)
    ensures s.total == |ChecksOf(report)| && s.corrections == AttemptsOf(report)
    ensures s.blocking == CountWhere(IsBlocking, ChecksOf(report))
    ensures s.warnings == CountWhere(IsWarning, ChecksOf(report))
    ensures s.info == CountWhere(IsOther, ChecksOf(report))
    ensures s.blocking + s.warnings + s.info + CountWhere(IsNoObject, ChecksOf(report)) == s.total
  {
    var cs := ChecksOf(report);
    var blocking, warnings, info := 0, 0, 0;
    for i := 0 to |cs|
      invariant blocking == CountWhere(IsBlocking, cs[..i])
      invariant warnings == CountWhere(IsWarning, cs[..i])
      invariant info == CountWhere(IsOther, cs[..i])
      invariant blocking + warnings + info + CountWhere(IsNoObject, cs[..i]) == i
    {
      assert cs[..i + 1][..i] == cs[..i];
      if cs[i].NotAnObject? { continue; }
      var severity := Text.Upper(cs[i].severity);
      if severity == "BLOCKING" { blocking := blocking + 1; }
      else if severity == "WARNING" { warnings := warnings + 1; }
      else { info := info + 1; }
    }
    assert cs[..|cs|] == cs;
    s := QASummary(|cs|, blocking, warnings, info, AttemptsOf(report));
  }

  // ----- The readings agree -----

  lemma UpperNames(s: Severity)
    ensures Text.Upper(SeverityName(s)) == SeverityName(s)
  {
    UpperOfUpper(SeverityName(s));
  }

  lemma {:induction false} UpperOfUpper(n: string)
    requires forall i :: 0 <= i < |n| ==> 'A' <= n[i] <= 'Z'
    ensures Text.Upper(n) == n
  {
    if n != "" { UpperOfUpper(n[1..]); }
  }

  /** A written check reads back with its own severity and no other. */
  lemma WrittenSeverity(c: QACheck)
    ensures HasSeverity(CheckToJson(c), "BLOCKING") <==> c.severity == Blocking
    ensures HasSeverity(CheckToJson(c), "WARNING") <==> c.severity == Warning
  {
    UpperNames(c.severity);
    assert "BLOCKING"[0] == 'B' && "WARNING"[0] == 'W' && "INFO"[0] == 'I';
  }

  lemma {:induction false} CountPositive(p: CheckJson -> bool, cs: seq<CheckJson>)
    ensures CountWhere(p, cs) > 0 <==> exists i :: 0 <= i < |cs| && p(cs[i])
  {
    if cs != [] {
      var init := cs[..|cs| - 1];
      CountPositive(p, init);
      if exists i :: 0 <= i < |cs| && p(cs[i]) {
        var i :| 0 <= i < |cs| && p(cs[i]);
        assert i < |init| ==> p(init[i]);
      }
    }
  }

  lemma WrittenChecks(report: QAReport, i: nat)
    requires i < |report.checks|
    ensures |ChecksOf(ToJson(report))| == |report.checks|
    ensures var c := ChecksOf(ToJson(report))[i];
            && (IsBlocking(c) <==> report.checks[i].severity == Blocking)
            && c.CheckObject? && c.autoCorrectable == report.checks[i].autoCorrectable
  {
    WrittenSeverity(report.checks[i]);
  }

  /** For every report that is written, status, object, summary and retry test tell the same story. */
  lemma ReadingsAgree(report: QAReport)
    ensures FinalStatus(report) == "NEEDS_REVIEW" <==> report.HasBlocking()
    ensures FinalStatus(report) == "COMPLETED" <==> report.AllResolved()
    ensures CountWhere(IsBlocking, ChecksOf(ToJson(report))) > 0 <==> report.HasBlocking()
    ensures report.CanRetry() ==> FinalStatus(report) == "NEEDS_REVIEW"
    ensures CountWhere(IsNoObject, ChecksOf(ToJson(report))) == 0
  {
    var cs := ChecksOf(ToJson(report));
    forall i | 0 <= i < |cs|
      ensures IsBlocking(cs[i]) <==> report.checks[i].severity == Blocking
      ensures !IsNoObject(cs[i])
    {
      WrittenChecks(report, i);
    }
    CountPositive(IsBlocking, cs);
    CountPositive(IsNoObject, cs);
    StatusNamesDiffer();
  }

  /** The retry test on a written report: some check is blocking and can be corrected. */
  lemma RetryableMeans(report: QAReport)
    ensures HasRetryableBlocking(ToJson(report))
            <==> exists i :: 0 <= i < |report.checks|
                             && report.checks[i].severity == Blocking && report.checks[i].autoCorrectable
    ensures HasRetryableBlocking(ToJson(report)) ==> report.HasBlocking()
  {
    var cs := ChecksOf(ToJson(report));
    forall i | 0 <= i < |cs|
      ensures IsBlocking(cs[i]) <==> report.checks[i].severity == Blocking
      ensures cs[i].CheckObject? && cs[i].autoCorrectable == report.checks[i].autoCorrectable
    {
      WrittenChecks(report, i);
    }
    assert HasRetryableBlocking(ToJson(report))
           <==> exists i :: 0 <= i < |cs| && IsBlocking(cs[i]) && cs[i].autoCorrectable;
  }

  /** The same letters in any case. */
  predicate SameUpper(a: CheckJson, b: CheckJson) {
    && (a.NotAnObject? <==> b.NotAnObject?)
    && (a.CheckObject? && b.CheckObject? ==>
          Text.Upper(a.severity) == Text.Upper(b.severity) && a.autoCorrectable == b.autoCorrectable)
  }

  predicate AllCorrectable(cs: seq<CheckJson>) {
    forall i :: 0 <= i < |cs| && IsBlocking(cs[i]) ==> cs[i].autoCorrectable
  }

  /**
   On any report, however it was written: the case of severities does not matter; a report that is no object is
   not corrected, one that cannot be read or has no list of checks is, and otherwise the retry test needs a
   check that the summary counts as blocking, and has one if all such can be corrected.
   */
  lemma RetryableReadings(report: ReportJson, other: ReportJson)
    ensures report.NotADict? ==> !HasRetryableBlocking(report)
    ensures report.Unparsable? || report.ChecksNotAList? ==>
              HasRetryableBlocking(report) && CountWhere(IsBlocking, ChecksOf(report)) == 0
    ensures report.Checks? && HasRetryableBlocking(report) ==> CountWhere(IsBlocking, report.checks) > 0
    ensures report.Checks? && CountWhere(IsBlocking, report.checks) > 0 && AllCorrectable(report.checks) ==>
              HasRetryableBlocking(report)
    ensures report.Checks? && other.Checks? && |report.checks| == |other.checks|
            && (forall i :: 0 <= i < |report.checks| ==> SameUpper(report.checks[i], other.checks[i]))
            ==> (HasRetryableBlocking(report) <==> HasRetryableBlocking(other))
  {
    CountPositive(IsBlocking, ChecksOf(report));
  }

  lemma StatusNamesDiffer()
    ensures "NEEDS_REVIEW" != "COMPLETED"
  {
    assert "NEEDS_REVIEW"[0] != "COMPLETED"[0];
  }
}
