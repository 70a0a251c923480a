/** The citations that extracted data provides, and the completeness report over them. */
module CitationCompleteness {
  import opened Options
  import opened Text
  import opened Whitespace
  import opened CitationRegistry
  import opened Citations
  import opened Values

  /** `d.get(key)`. */
  function Get(d: map<string, Json>, key: string): Json {
    if key in d then d[key] else Null
  }

  /** `a or b or c`. */
  function FirstTruthy(a: Json, b: Json, c: Json): Json {
    if Truthy(a) then a else if Truthy(b) then b else c
  }

  /** The citation that an item of a list holds; an item may raise by holding something that is no text. */
  datatype Mention = Nothing | Raises | Mentions(text: string)

  function ItemMention(item: Json): Mention {
    match item
    case Str(text) => Mentions(text)
    case Dict(d) =>
      if "citation_text" !in d then Nothing
      else if d["citation_text"].Str? then Mentions(d["citation_text"].text)
      else Raises
    case _ => Nothing
  }

  /** `text.split(";")`. */
  function SplitAtSemicolons(text: string): (parts: seq<string>)
    ensures parts != []
  {
    if text == "" then [""]
    else
      var rest := SplitAtSemicolons(text[1..]);
      if text[0] == ';' then [""] + rest else [[text[0]] + rest[0]] + rest[1..]
  }

  /** `_normalize_citation`. */
  function NormalizeForDedup(c: string): string {
    var t := Strip(c);
    if t == "" then "" else Collapse(t)
  }

  lemma NormalizeForDedupCollapses(c: string)
    ensures NormalizeForDedup(c) == Collapse(c)
  {
    var t := Strip(c);
    StripParts(c);
    StripUnique("", t, "");
    assert "" + t + "" == t;
    CollapseIsSqueeze(c);
    CollapseIsSqueeze(t);
  }

  /** The collapsed citations of a list, each once, where it occurs first; blank ones are left out. */
  function FirstOccurrences(cs: seq<string>): seq<string> {
    if cs == [] then []
    else
      var rest := FirstOccurrences(cs[..|cs| - 1]);
      var c := NormalizeForDedup(cs[|cs| - 1]);
      if c == "" || c in rest then rest else rest + [c]
  }

  lemma FirstOccurrencesSnoc(cs: seq<string>, c: string)
    ensures var rest, n := FirstOccurrences(cs), NormalizeForDedup(c);
            FirstOccurrences(cs + [c]) == if n == "" || n in rest then rest else rest + [n]
  {
    assert (cs + [c])[..|cs|] == cs;
  }

  // ----- Collecting -----

  /** The two variables that `_add` changes. */
  class Collector {
    var citations: seq<string>
    var seen: set<string>
    ghost var added: seq<string>

    ghost predicate Valid()
      reads this
    {
      citations == FirstOccurrences(added) && seen == set c | c in citations
    }

    constructor ()
      ensures Valid() && added == []
    {
      citations, seen, added := [], {}, [];
    }

    /** `_add`. */
    method Add(text: string)
      requires Valid()
      modifies this
      ensures Valid() && added == old(added) + [text]
    {
      var c := NormalizeForDedup(text);
      if c != "" && c !in seen {
        seen := seen + {c};
        citations := citations + [c];
      }
      FirstOccurrencesSnoc(added, text);
      added := added + [text];
    }

    /** The loop over a list; false if an item raises. */
    method AddList(items: seq<Json>) returns (ok: bool)
      requires Valid()
      modifies this
      ensures Valid() && ok == ListMentions(items).Some?
      ensures ok ==> added == old(added) + ListMentions(items).value
    {
      for i := 0 to |items|
        invariant Valid()
        invariant ListMentions(items[..i]).Some? && added == old(added) + ListMentions(items[..i]).value
      {
        assert items[..i + 1][..i] == items[..i];
        var mention := ItemMention(items[i]);
        if mention.Raises? {
          RaisesInList(items, i);
          return false;
        }
        if mention.Mentions? { Add(mention.text); }
      }
      assert items[..|items|] == items;
      ok := true;
    }

    /** The loop over the parts of a text. */
    method AddText(text: string)
      requires Valid()
      modifies this
      ensures Valid() && added == old(added) + Stripped(SplitAtSemicolons(text))
    {
      var parts := SplitAtSemicolons(text);
      for i := 0 to |parts|
        invariant Valid()
        invariant added == old(added) + Stripped(parts[..i])
      {
        StrippedStep(parts, i);
        Add(Strip(parts[i]));
      }
      assert parts[..|parts|] == parts;
    }

    method AddValue(val: Json) returns (ok: bool)
      requires Valid()
      modifies this
      ensures Valid() && ok == ValueMentions(val).Some?
      ensures ok ==> added == old(added) + ValueMentions(val).value
    {
      ok := true;
      if val.List? { ok := AddList(val.items); }
      else if val.Str? { AddText(val.text); }
    }
  }

  function Stripped(parts: seq<string>): seq<string> {
    seq(|parts|, i requires 0 <= i < |parts| => Strip(parts[i]))
  }

  lemma StrippedStep(parts: seq<string>, i: nat)
    requires i < |parts|
    ensures Stripped(parts[..i + 1]) == Stripped(parts[..i]) + [Strip(parts[i])]
  {
  }

  /** The citations that the items of a list mention, None if one raises. */
  function ListMentions(items: seq<Json>): Option<seq<string>> {
    if items == [] then Some([])
    else
      var rest := ListMentions(items[..|items| - 1]);
      if rest.None? then None
      else match ItemMention(items[|items| - 1])
        case Mentions(text) => Some(rest.value + [text])
        case Raises => None
        case Nothing => rest
  }

  lemma {:induction false} RaisesInList(items: seq<Json>, i: nat)
    requires i < |items| && ItemMention(items[i]).Raises?
    ensures ListMentions(items) == None
  {
    if i < |items| - 1 { RaisesInList(items[..|items| - 1], i); }
  }

  function ValueMentions(val: Json): Option<seq<string>> {
    match val
    case List(items) => ListMentions(items)
    case Str(text) => Some(Stripped(SplitAtSemicolons(text)))
    case _ => Some([])
  }

  /** The data's structured fields, or the data itself. */
  function Fields(data: map<string, Json>): Json {
    if "structured_fields" in data then data["structured_fields"] else Dict(data)
  }

  function Regulations(sf: Json): Json {
    if sf.Dict? then
      FirstTruthy(Get(sf.entries, "regulations"), Get(sf.entries, "Citations"), Get(sf.entries, "citations"))
    else Null
  }

  /** The values that are searched, in order. */
  function Searched(data: map<string, Json>): seq<Json> {
    [Regulations(Fields(data)), Get(data, "Citations"), Get(data, "citations"), Get(data, "regulations")]
  }

  /** Everything that values mention, in order; None if one raises. */
  function AllMentions(vals: seq<Json>): Option<seq<string>> {
    if vals == [] then Some([])
    else
      var rest, last := AllMentions(vals[..|vals| - 1]), ValueMentions(vals[|vals| - 1]);
      if rest.None? || last.None? then None else Some(rest.value + last.value)
  }

  lemma {:induction false} RaisesAmong(vals: seq<Json>, i: nat)
    requires i < |vals| && ValueMentions(vals[i]).None?
    ensures AllMentions(vals) == None
  {
    if i < |vals| - 1 { RaisesAmong(vals[..|vals| - 1], i); }
  }

  /** `derive_provided_citations`; None where the source raises. */
  method DeriveProvidedCitations(data: map<string, Json>) returns (r: Option<seq<string>>)
    ensures var mentions := AllMentions(Searched(data));
            r == if mentions.Some? then Some(FirstOccurrences(mentions.value)) else None
  {
    var collector := new Collector();
    var vals := Searched(data);
    for i := 0 to |vals|
      invariant collector.Valid() && fresh(collector)
      invariant AllMentions(vals[..i]) == Some(collector.added)
    {
      assert vals[..i + 1][..i] == vals[..i];
      var ok := collector.AddValue(vals[i]);
      if !ok {
        RaisesAmong(vals, i);
        return None;
      }
    }
    assert vals[..|vals|] == vals;
    r := Some(collector.citations);
  }

  // ----- What deduplication keeps -----

  predicate Distinct(cs: seq<string>) {
    forall i, j :: 0 <= i < j < |cs| ==> cs[i] != cs[j]
  }

  /** The derived citations are distinct, not blank, and exactly the collapsed forms of the mentions. */
  lemma {:induction false} DerivedAre(cs: seq<string>)
    ensures Distinct(FirstOccurrences(cs))
    ensures forall c :: c in FirstOccurrences(cs) <==> c != "" && exists i :: 0 <= i < |cs| && Collapse(cs[i]) == c
  {
    if cs != [] {
      var init, last := cs[..|cs| - 1], cs[|cs| - 1];
      DerivedAre(init);
      NormalizeForDedupCollapses(last);
      forall c ensures c in FirstOccurrences(cs) <==> c != "" && exists i :: 0 <= i < |cs| && Collapse(cs[i]) == c {
        if i :| 0 <= i < |cs| && Collapse(cs[i]) == c && i < |init| {
          assert Collapse(init[i]) == c;
        }
        if c in FirstOccurrences(init) {
          var i :| 0 <= i < |init| && Collapse(init[i]) == c;
          assert Collapse(cs[i]) == c;
        }
        if c != "" && c == Collapse(last) { assert Collapse(cs[|init|]) == c; }
      }
    }
  }

  /** They stand in the order of their first mention: more mentions only add at the end. */
  lemma {:induction false} DerivedInOrder(cs: seq<string>, more: seq<string>)
    ensures FirstOccurrences(cs) <= FirstOccurrences(cs + more)
    decreases |more|
  {
    if more == [] {
      assert cs + more == cs;
    } else {
      assert (cs + more)[..|cs + more| - 1] == cs + more[..|more| - 1];
      DerivedInOrder(cs, more[..|more| - 1]);
    }
  }

  /** Deduplication loses no coverage. */
  lemma DedupKeepsCoverage(reg: Registry, profile: Profile, mentions: seq<string>)
    requires Sound(reg)
    ensures CoveredSet(reg, FirstOccurrences(mentions)) == CoveredSet(reg, mentions)
    ensures Missing(reg, profile, FirstOccurrences(mentions)) == Missing(reg, profile, mentions)
  {
    var derived := FirstOccurrences(mentions);
    DerivedAre(mentions);
    forall id ensures id in CoveredSet(reg, derived) <==> id in CoveredSet(reg, mentions) {
      CoveredSetIs(reg, derived, id);
      CoveredSetIs(reg, mentions, id);
      if i :| 0 <= i < |derived| && IsCovered(reg, derived[i]) && reg.normalize(derived[i]) == Some(id) {
        assert derived[i] in derived;
        var k :| 0 <= k < |mentions| && Collapse(mentions[k]) == derived[i];
        assert SoundAt(reg, mentions[k]);
      }
      if k :| 0 <= k < |mentions| && IsCovered(reg, mentions[k]) && reg.normalize(mentions[k]) == Some(id) {
        assert SoundAt(reg, mentions[k]);
        assert Collapse(mentions[k]) != "" && Collapse(mentions[k]) in derived;
        var i :| 0 <= i < |derived| && derived[i] == Collapse(mentions[k]);
      }
    }
  }

  // ----- The report -----

  datatype Payload = Payload(provided: seq<string>, report: CompletenessReport, unknownCount: nat,
                             webVerificationRecommended: bool)

  /** The data that the report is about: the structured fields of what could be parsed, if there are any. */
  function ExtractedData(parsed: Option<Json>): map<string, Json> {
    var data := if parsed.Some? && parsed.value.Dict? then parsed.value.entries else map[];
    if Fields(data).Dict? then Fields(data).entries else data
  }

  /**
   `compute_completeness_report`: profile and description are what `derive_product_profile` makes of the
   data. Web verification is recommended exactly if some derived citation is not covered, the product
   has no description, or there is neither a citation nor an extraction.
   */
  method ComputeCompletenessReport(reg: Registry, parsed: Option<Json>, derive: map<string, Json> -> (Profile, string),
                                   vision: string)
    returns (r: Option<Payload>)
    requires Sound(reg)
    ensures r.Some? <==> AllMentions(Searched(ExtractedData(parsed))).Some?
    ensures r.Some? ==>
              var mentions := AllMentions(Searched(ExtractedData(parsed))).value;
              var (profile, description) := derive(ExtractedData(parsed));
              && r.value.provided == FirstOccurrences(mentions)
              && r.value.report.missing == Missing(reg, profile, mentions)
              && r.value.report.covered == CoveredSet(reg, mentions)
              && r.value.unknownCount == |InvalidIn(reg, r.value.provided)|
              && (r.value.webVerificationRecommended
                  <==> Strip(description) == "" || (r.value.provided == [] && vision == "")
                       || exists c :: c in r.value.provided && !IsCovered(reg, c))
  {
    var data := ExtractedData(parsed);
    var derived := DeriveProvidedCitations(data);
    if derived.None? { return None; }
    var provided := derived.value;
    var (profile, description) := derive(data);
    var report := BuildCompletenessReport(reg, profile, provided);
    var scopeUncertain := Strip(description) == "" || (|provided| == 0 && vision == "");
    var ambiguous := |report.invalid| + |report.nonCitable|;
    DedupKeepsCoverage(reg, profile, AllMentions(Searched(data)).value);
    DerivedAre(AllMentions(Searched(data)).value);
    AmbiguousAreUncovered(reg, provided);
    r := Some(Payload(provided, report, |report.invalid|, ambiguous > 0 || scopeUncertain));
  }

  /** Some citation is listed as invalid or not citable exactly if some citation is not covered. */
  lemma {:induction false} AmbiguousAreUncovered(reg: Registry, provided: seq<string>)
    requires Sound(reg) && "" !in provided
    ensures |InvalidIn(reg, provided)| + |NonCitableIn(reg, provided)| > 0
            <==> exists c :: c in provided && !IsCovered(reg, c)
  {
    if provided != [] {
      var init, last := provided[..|provided| - 1], provided[|provided| - 1];
      assert provided == init + [last];
      AmbiguousAreUncovered(reg, init);
      VerdictMeans(reg, last);
    }
  }
}
