/** Classification of citations and completeness of what a certificate cites, over any registry. */
module Citations {
  import opened Options
  import opened Text
  import opened Whitespace
  import opened CitationRegistry

  /** What classification asks of a registry: the normaliser, the type of a rule, the reason of a rejection. */
  datatype Registry = Registry(
    normalize: string -> Option<string>,
    rule: string -> Option<CitationType>,
    reason: string -> Option<Reason>)

  function DceRegistry(ch: Chars): Registry {
    Registry((raw: string) => NormalizeCitation(ch, raw), RuleType, (raw: string) => InvalidReason(ch, raw))
  }

  /**
   Normalising gives only ids with a rule, and is blind to the amount of white space; the reasons are
   none of those that classification gives itself.
   */
  ghost predicate Sound(reg: Registry) {
    (forall raw :: SoundAt(reg, raw)) && reg.normalize("") == None
  }

  ghost predicate SoundAt(reg: Registry, raw: string) {
    RuledAt(reg, raw) && SpacingBlindAt(reg, raw) && PatternReasonAt(reg, raw)
  }

  ghost predicate RuledAt(reg: Registry, raw: string) {
    var id := reg.normalize(raw);
    id.Some? ==> reg.rule(id.value).Some? && reg.rule(id.value).value != Invalid
  }

  ghost predicate SpacingBlindAt(reg: Registry, raw: string) {
    reg.normalize(Collapse(raw)) == reg.normalize(raw)
  }

  ghost predicate PatternReasonAt(reg: Registry, raw: string) {
    reg.reason(raw) != Some(UnknownCitation) && reg.reason(raw) != Some(NotApplicable)
  }

  lemma DceIsRuled(ch: Chars, raw: string)
    ensures RuledAt(DceRegistry(ch), raw)
  {
    NormalizedIsRegistered(ch, raw);
  }

  lemma DceIsSpacingBlind(ch: Chars, raw: string)
    ensures SpacingBlindAt(DceRegistry(ch), raw)
  {
    NormalizeIgnoresSpacing(ch, raw);
  }

  lemma DceReasons(ch: Chars, raw: string)
    ensures PatternReasonAt(DceRegistry(ch), raw)
  {
  }

  lemma DceRegistryIsSoundAt(ch: Chars, raw: string)
    ensures SoundAt(DceRegistry(ch), raw)
  {
    DceIsRuled(ch, raw);
    DceIsSpacingBlind(ch, raw);
    DceReasons(ch, raw);
  }

  lemma DceRegistryIsSound(ch: Chars)
    ensures Sound(DceRegistry(ch))
  {
    forall raw ensures SoundAt(DceRegistry(ch), raw) { DceRegistryIsSoundAt(ch, raw); }
  }

  // ----- Classification -----

  datatype Verdict = Skipped | Covered(id: string) | InvalidReference(reason: Reason) | NonCitable(reason: Reason)

  /** What one round of `classify_citations` decides. */
  function VerdictOf(reg: Registry, raw: string): Verdict {
    if raw == "" then Skipped
    else
      var canonical := reg.normalize(raw);
      if canonical.None? then
        var reason := reg.reason(raw);
        InvalidReference(if reason.Some? then reason.value else NotValid)
      else
        var rule := reg.rule(canonical.value);
        if rule.None? then InvalidReference(UnknownCitation)
        else match rule.value
          case Substantive => Covered(canonical.value)
          case Conditional => Covered(canonical.value)
          case Exemption => NonCitable(ExemptionOnly)
          case Procedural => NonCitable(ProceduralOnly)
          case Definition => NonCitable(DefinitionOnly)
          case Invalid => InvalidReference(NotApplicable)
  }

  /** The ids, and the citations with their reasons, that the lists collect. */
  function CoveredIn(reg: Registry, raws: seq<string>): seq<string> {
    if raws == [] then []
    else
      var rest := CoveredIn(reg, raws[..|raws| - 1]);
      match VerdictOf(reg, raws[|raws| - 1]) case Covered(id) => rest + [id] case _ => rest
  }

  function InvalidIn(reg: Registry, raws: seq<string>): seq<(string, Reason)> {
    if raws == [] then []
    else
      var raw := raws[|raws| - 1];
      var rest := InvalidIn(reg, raws[..|raws| - 1]);
      match VerdictOf(reg, raw) case InvalidReference(reason) => rest + [(raw, reason)] case _ => rest
  }

  function NonCitableIn(reg: Registry, raws: seq<string>): seq<(string, Reason)> {
    if raws == [] then []
    else
      var raw := raws[|raws| - 1];
      var rest := NonCitableIn(reg, raws[..|raws| - 1]);
      match VerdictOf(reg, raw) case NonCitable(reason) => rest + [(raw, reason)] case _ => rest
  }

  /** `classify_citations`. */
  method ClassifyCitations(reg: Registry, raws: seq<string>)
    returns (covered: seq<string>, invalid: seq<(string, Reason)>, nonCitable: seq<(string, Reason)>)
    ensures covered == CoveredIn(reg, raws) && invalid == InvalidIn(reg, raws) && nonCitable == NonCitableIn(reg, raws)
  {
    covered, invalid, nonCitable := [], [], [];
    for i := 0 to |raws|
      invariant covered == CoveredIn(reg, raws[..i])
      invariant invalid == InvalidIn(reg, raws[..i])
      invariant nonCitable == NonCitableIn(reg, raws[..i])
    {
      var raw := raws[i];
      assert raws[..i + 1][..i] == raws[..i];
      if raw == "" { continue; }
      var canonical := reg.normalize(raw);
      if canonical.None? {
        var reason := reg.reason(raw);
        invalid := invalid + [(raw, if reason.Some? then reason.value else NotValid)];
        continue;
      }
      var rule := reg.rule(canonical.value);
      if rule.None? {
        invalid := invalid + [(raw, UnknownCitation)];
        continue;
      }
      match rule.value
      case Substantive => covered := covered + [canonical.value];
      case Conditional => covered := covered + [canonical.value];
      case Exemption => nonCitable := nonCitable + [(raw, ExemptionOnly)];
      case Procedural => nonCitable := nonCitable + [(raw, ProceduralOnly)];
      case Definition => nonCitable := nonCitable + [(raw, DefinitionOnly)];
      case Invalid => invalid := invalid + [(raw, NotApplicable)];
    }
    assert raws[..|raws|] == raws;
  }

  predicate IsCovered(reg: Registry, raw: string) {
    var id := reg.normalize(raw);
    id.Some? && reg.rule(id.value).Some? && Citable(reg.rule(id.value).value)
  }

  predicate IsInvalid(reg: Registry, raw: string) {
    raw != "" && reg.normalize(raw).None?
  }

  predicate IsNonCitable(reg: Registry, raw: string) {
    reg.normalize(raw).Some? && !IsCovered(reg, raw)
  }

  /** Every citation has one verdict, by what it normalises to; two of the reasons are never given. */
  lemma VerdictMeans(reg: Registry, raw: string)
    requires Sound(reg)
    ensures var v := VerdictOf(reg, raw);
            && (v.Skipped? <==> raw == "")
            && (v.Covered? <==> IsCovered(reg, raw)) && (v.Covered? ==> Some(v.id) == reg.normalize(raw))
            && (v.InvalidReference? <==> IsInvalid(reg, raw))
            && (v.NonCitable? <==> IsNonCitable(reg, raw))
            && (v.InvalidReference? ==> v.reason != UnknownCitation && v.reason != NotApplicable)
  {
    assert SoundAt(reg, raw);
  }

  /** The citations of raws that satisfy p, in order. */
  function Those(p: string -> bool, raws: seq<string>): seq<string> {
    if raws == [] then []
    else if p(raws[|raws| - 1]) then Those(p, raws[..|raws| - 1]) + [raws[|raws| - 1]]
    else Those(p, raws[..|raws| - 1])
  }

  function Firsts(pairs: seq<(string, Reason)>): (r: seq<string>)
    ensures |r| == |pairs|
  {
    seq(|pairs|, i requires 0 <= i < |pairs| => pairs[i].0)
  }

  function CoveredTest(reg: Registry): string -> bool { (raw: string) => IsCovered(reg, raw) }

  function InvalidTest(reg: Registry): string -> bool { (raw: string) => IsInvalid(reg, raw) }

  function NonCitableTest(reg: Registry): string -> bool { (raw: string) => IsNonCitable(reg, raw) }

  predicate Empty(raw: string) { raw == "" }

  lemma FirstsSnoc(pairs: seq<(string, Reason)>, pair: (string, Reason))
    ensures Firsts(pairs + [pair]) == Firsts(pairs) + [pair.0]
  {
  }

  lemma {:induction false} InvalidKeepsOrder(reg: Registry, raws: seq<string>)
    requires Sound(reg)
    ensures Firsts(InvalidIn(reg, raws)) == Those(InvalidTest(reg), raws)
  {
    if raws != [] {
      var last, init := raws[|raws| - 1], raws[..|raws| - 1];
      InvalidKeepsOrder(reg, init);
      VerdictMeans(reg, last);
      var v := VerdictOf(reg, last);
      if v.InvalidReference? { FirstsSnoc(InvalidIn(reg, init), (last, v.reason)); }
    }
  }

  lemma {:induction false} NonCitableKeepsOrder(reg: Registry, raws: seq<string>)
    requires Sound(reg)
    ensures Firsts(NonCitableIn(reg, raws)) == Those(NonCitableTest(reg), raws)
  {
    if raws != [] {
      var last, init := raws[|raws| - 1], raws[..|raws| - 1];
      NonCitableKeepsOrder(reg, init);
      VerdictMeans(reg, last);
      var v := VerdictOf(reg, last);
      if v.NonCitable? { FirstsSnoc(NonCitableIn(reg, init), (last, v.reason)); }
    }
  }

  /** What the citations of a list normalise to. */
  function Normalized(reg: Registry, raws: seq<string>): (r: seq<Option<string>>)
    ensures |r| == |raws|
  {
    seq(|raws|, i requires 0 <= i < |raws| => reg.normalize(raws[i]))
  }

  function Wrapped(ids: seq<string>): (r: seq<Option<string>>)
    ensures |r| == |ids|
  {
    seq(|ids|, i requires 0 <= i < |ids| => Some(ids[i]))
  }

  lemma {:induction false} CoveredKeepsOrder(reg: Registry, raws: seq<string>)
    requires Sound(reg)
    ensures Wrapped(CoveredIn(reg, raws)) == Normalized(reg, Those(CoveredTest(reg), raws))
  {
    if raws != [] {
      var last, init := raws[|raws| - 1], raws[..|raws| - 1];
      CoveredKeepsOrder(reg, init);
      VerdictMeans(reg, last);
      var those := Those(CoveredTest(reg), init);
      if IsCovered(reg, last) {
        assert Normalized(reg, those + [last]) == Normalized(reg, those) + [reg.normalize(last)];
        var id := VerdictOf(reg, last).id;
        assert Wrapped(CoveredIn(reg, init) + [id]) == Wrapped(CoveredIn(reg, init)) + [Some(id)];
      }
    }
  }

  lemma ThoseStep(p: string -> bool, init: seq<string>, last: string)
    ensures multiset(Those(p, init + [last])) == multiset(Those(p, init))
            + if p(last) then multiset{last} else multiset{}
  {
    assert (init + [last])[..|init|] == init;
  }

  /** No citation is lost or listed twice. */
  lemma {:induction false} NothingIsLost(reg: Registry, raws: seq<string>)
    requires Sound(reg)
    ensures multiset(Those(CoveredTest(reg), raws)) + multiset(Those(InvalidTest(reg), raws))
            + multiset(Those(NonCitableTest(reg), raws)) + multiset(Those(Empty, raws)) == multiset(raws)
  {
    if raws != [] {
      var last, init := raws[|raws| - 1], raws[..|raws| - 1];
      NothingIsLost(reg, init);
      assert raws == init + [last];
      ThoseStep(CoveredTest(reg), init, last);
      ThoseStep(InvalidTest(reg), init, last);
      ThoseStep(NonCitableTest(reg), init, last);
      ThoseStep(Empty, init, last);
      OneTest(reg, last);
    }
  }

  lemma OneTest(reg: Registry, raw: string)
    requires Sound(reg)
    ensures var c, i, n, e := CoveredTest(reg)(raw), InvalidTest(reg)(raw), NonCitableTest(reg)(raw), Empty(raw);
            (c && !i && !n && !e) || (!c && i && !n && !e) || (!c && !i && n && !e) || (!c && !i && !n && e)
  {
    assert SoundAt(reg, raw);
  }

  /** Every non-empty citation is in exactly one of the three lists, and each list keeps the input order. */
  lemma ClassificationIsPartition(ch: Chars, raws: seq<string>)
    ensures var reg := DceRegistry(ch);
            && Wrapped(CoveredIn(reg, raws)) == Normalized(reg, Those(CoveredTest(reg), raws))
            && Firsts(InvalidIn(reg, raws)) == Those(InvalidTest(reg), raws)
            && Firsts(NonCitableIn(reg, raws)) == Those(NonCitableTest(reg), raws)
            && multiset(Those(CoveredTest(reg), raws)) + multiset(Those(InvalidTest(reg), raws))
               + multiset(Those(NonCitableTest(reg), raws)) + multiset(Those(Empty, raws)) == multiset(raws)
  {
    DceRegistryIsSound(ch);
    CoveredKeepsOrder(DceRegistry(ch), raws);
    InvalidKeepsOrder(DceRegistry(ch), raws);
    NonCitableKeepsOrder(DceRegistry(ch), raws);
    NothingIsLost(DceRegistry(ch), raws);
  }

  // ----- Completeness -----

  function CoveredSet(reg: Registry, raws: seq<string>): set<string> {
    set id | id in CoveredIn(reg, raws)
  }

  /** An id is covered exactly if some citation normalises to it and it may be cited. */
  lemma {:induction false} CoveredSetIs(reg: Registry, raws: seq<string>, id: string)
    requires Sound(reg)
    ensures id in CoveredSet(reg, raws)
            <==> exists i :: 0 <= i < |raws| && IsCovered(reg, raws[i]) && reg.normalize(raws[i]) == Some(id)
  {
    if raws != [] {
      var last, init := raws[|raws| - 1], raws[..|raws| - 1];
      CoveredSetIs(reg, init, id);
      VerdictMeans(reg, last);
      if id in CoveredSet(reg, init) {
        var i :| 0 <= i < |init| && IsCovered(reg, init[i]) && reg.normalize(init[i]) == Some(id);
        assert raws[i] == init[i];
      }
      if i :| 0 <= i < |raws| && IsCovered(reg, raws[i]) && reg.normalize(raws[i]) == Some(id) && i < |init| {
        assert raws[i] == init[i];
      }
    }
  }

  datatype CompletenessReport = CompletenessReport(
    missing: set<string>,
    invalid: seq<(string, Reason)>,
    nonCitable: seq<(string, Reason)>,
    covered: set<string>,
    required: set<string>,
    isComplete: bool)

  /** `build_completeness_report`, with sets where the source sorts. */
  method BuildCompletenessReport(reg: Registry, profile: Profile, provided: seq<string>) returns (r: CompletenessReport)
    ensures r.required == Required(profile) && r.covered == CoveredSet(reg, provided)
    ensures r.missing == Required(profile) - CoveredSet(reg, provided)
    ensures r.isComplete <==> Required(profile) <= CoveredSet(reg, provided)
    ensures r.invalid == InvalidIn(reg, provided) && r.nonCitable == NonCitableIn(reg, provided)
  {
    var required := RequiredCitations(profile);
    var covered, invalid, nonCitable := ClassifyCitations(reg, provided);
    var coveredSet := set id | id in covered;
    var missing := required - coveredSet;
    if missing == {} {
      forall id | id in required ensures id in coveredSet { assert id !in missing; }
    }
    r := CompletenessReport(missing, invalid, nonCitable, coveredSet, required, |missing| == 0);
  }

  function Missing(reg: Registry, profile: Profile, provided: seq<string>): set<string> {
    Required(profile) - CoveredSet(reg, provided)
  }

  /** What is missing: the ids that the product needs and to which no citation normalises. */
  lemma MissingMeans(ch: Chars, profile: Profile, provided: seq<string>, id: string)
    ensures id in Missing(DceRegistry(ch), profile, provided)
            <==> Needs(profile, id)
                 && forall i :: 0 <= i < |provided| ==> NormalizeCitation(ch, provided[i]) != Some(id)
  {
    var reg := DceRegistry(ch);
    DceRegistryIsSound(ch);
    NeededIsCitable(profile, id);
    CoveredSetIs(reg, provided, id);
    if i :| 0 <= i < |provided| && NormalizeCitation(ch, provided[i]) == Some(id) {
      assert reg.normalize(provided[i]) == Some(id);
    }
  }

  /** More citations never make more go missing; order and repetition do not matter. */
  lemma MissingIsAntitone(reg: Registry, profile: Profile, fewer: seq<string>, more: seq<string>)
    requires Sound(reg) && forall raw :: raw in fewer ==> raw in more
    ensures CoveredSet(reg, fewer) <= CoveredSet(reg, more)
    ensures Missing(reg, profile, more) <= Missing(reg, profile, fewer)
  {
    forall id | id in CoveredSet(reg, fewer) ensures id in CoveredSet(reg, more) {
      CoveredSetIs(reg, fewer, id);
      CoveredSetIs(reg, more, id);
      var i :| 0 <= i < |fewer| && IsCovered(reg, fewer[i]) && reg.normalize(fewer[i]) == Some(id);
      assert fewer[i] in fewer;
      var k :| 0 <= k < |more| && more[k] == fewer[i];
    }
  }

  /** The required ids are the missing ones and the covered ones among them, without overlap. */
  lemma RequiredSplits(reg: Registry, profile: Profile, provided: seq<string>)
    ensures var missing, met := Missing(reg, profile, provided), Required(profile) * CoveredSet(reg, provided);
            Required(profile) == missing + met && missing !! met && |Required(profile)| == |missing| + |met|
  {
    var missing, met := Missing(reg, profile, provided), Required(profile) * CoveredSet(reg, provided);
    assert Required(profile) == missing + met && missing !! met;
  }
}
