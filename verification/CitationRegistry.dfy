/** The DCE citation registry: normalisation, classification and completeness. */
module CitationRegistry {
  import opened Options
  import opened Text
  import opened Regex
  import opened Whitespace

  datatype CitationType = Substantive | Conditional | Exemption | Procedural | Definition | Invalid

  /** The canonical ids in the order of the registry. */
  const REGISTRY := [
    "16 CFR Part 1261", "16 CFR Part 1303", "15 U.S.C. 1278a", "16 CFR Part 1501", "16 CFR Part 1307",
    "16 CFR Part 1252", "16 CFR 1107.21", "16 CFR 1303.2", "16 CFR 1261.2"
  ]

  /** The type of a rule, None for an id that is not in the registry. */
  function RuleType(id: string): Option<CitationType> {
    match id
    case "16 CFR Part 1261" => Some(Substantive)
    case "16 CFR Part 1303" => Some(Substantive)
    case "15 U.S.C. 1278a" => Some(Substantive)
    case "16 CFR Part 1501" => Some(Conditional)
    case "16 CFR Part 1307" => Some(Conditional)
    case "16 CFR Part 1252" => Some(Exemption)
    case "16 CFR 1107.21" => Some(Procedural)
    case "16 CFR 1303.2" => Some(Definition)
    case "16 CFR 1261.2" => Some(Definition)
    case _ => None
  }

  /** Other names, in the order in which they are tried; one that stands for no rule maps to None. */
  const ALIASES: seq<(string, Option<string>)> := [
    ("compliance Sec101", Some("15 U.S.C. 1278a")),
    ("compliance Section 101", Some("15 U.S.C. 1278a")),
    ("compliance Sec 101", Some("15 U.S.C. 1278a")),
    ("compliance Sec108", Some("16 CFR Part 1307")),
    ("compliance Section 108", Some("16 CFR Part 1307")),
    ("compliance Sec 108", Some("16 CFR Part 1307")),
    ("ASTM F2057-23", Some("16 CFR Part 1261")),
    ("ASTM F2057", Some("16 CFR Part 1261")),
    ("ASTM F963-23", None),
    ("ASTM F963", None)
  ]

  /** What `\w` and `\d` accept. */
  datatype Chars = Chars(word: char -> bool, digit: char -> bool)

  // ----- Normalisation -----

  /** `\bpart\b`, ignoring case. */
  function PartWord(ch: Chars): Re {
    Boundary(ch.word, NoCase("part", Boundary(ch.word, Accept)))
  }

  /** `§\s*`. */
  const SECTION_SIGN := Lit("\U{A7}", Greedy(IsSpace, 0, Accept))

  /** What `_normalize_raw` does after stripping and collapsing. */
  function Spelled(ch: Chars, s: string): string {
    var t := Sub(SECTION_SIGN, s, 0, "");
    Sub(PartWord(ch), t, 0, "Part")
  }

  /** `_normalize_raw`. */
  function NormalizeRaw(ch: Chars, raw: string): string {
    Spelled(ch, Sub(SPACES, Strip(raw), 0, " "))
  }

  function Spaces(next: Re): Re { Greedy(IsSpace, 0, next) }

  function Optional(text: string, next: Re): Re { Else(Lit(text, next), next) }

  /** `(\d{4})(?:\.(\d+))?`: tags 1 and 2 around the part, 3 and 4 around the section. */
  function PartNumber(ch: Chars): Re {
    Mark(1, One(ch.digit, One(ch.digit, One(ch.digit, One(ch.digit, SectionNumber(ch))))))
  }

  function SectionNumber(ch: Chars): Re {
    Mark(2, Else(Lit(".", Mark(3, Greedy(ch.digit, 1, Mark(4, Accept)))), Accept))
  }

  /** `(?:Part\s+)?` before the number. */
  function OptionalPart(ch: Chars): Re {
    Else(NoCase("Part", Greedy(IsSpace, 1, PartNumber(ch))), PartNumber(ch))
  }

  /** `16\s*CFR\s*(?:Part\s+)?(\d{4})(?:\.(\d+))?`, ignoring case. */
  function PartPattern(ch: Chars): Re {
    Lit("16", Spaces(NoCase("CFR", Spaces(OptionalPart(ch)))))
  }

  /** `15\s*U\.?S\.?C\.?\s*§?\s*1278a`, ignoring case. */
  const STATUTE_PATTERN :=
    Lit("15", Spaces(
      NoCase("U", Optional(".", NoCase("S", Optional(".", NoCase("C", Optional(".", STATUTE_NUMBER))))))))

  const STATUTE_NUMBER := Spaces(Optional("\U{A7}", Spaces(NoCase("1278a", Accept))))

  /** The registry entry that a part and a section name: the section's own, or else the part's. */
  function KeyOf(part: string, section: string): Option<string> {
    var key := "16 CFR " + part + "." + section;
    var partKey := "16 CFR Part " + part;
    if section != "" && RuleType(key).Some? then Some(key)
    else if RuleType(partKey).Some? then Some(partKey)
    else None
  }

  /** `_try_match_part` on a normalised string. */
  function TryMatchPart(ch: Chars, s: string): Option<string> {
    var m := Run(PartPattern(ch), s, 0);
    var key := if m.Some? then KeyOf(Group(s, m.value, 1, 2), Group(s, m.value, 3, 4)) else None;
    if key.Some? then key
    else if Run(STATUTE_PATTERN, s, 0).Some? then Some("15 U.S.C. 1278a")
    else None
  }

  datatype Reason =
    | CanadianRegulation | EpaRegulation | FormaldehydeRule
    | NotValid | UnknownCitation | NotApplicable
    | ExemptionOnly | ProceduralOnly | DefinitionOnly

  /** `^SOR-\d`, ignoring case. A pattern with `^` can only match at the start. */
  predicate MatchesSor(ch: Chars, s: string) {
    Run(NoCase("SOR-", One(ch.digit, Accept)), s, 0).Some?
  }

  /** `^40\s*CFR`, ignoring case. */
  predicate MatchesEpa(s: string) {
    Run(Lit("40", Spaces(NoCase("CFR", Accept))), s, 0).Some?
  }

  /** `40 CFR Part 770`, ignoring case. */
  predicate FindsFormaldehyde(s: string) {
    Search(NoCase("40 CFR Part 770", Accept), s, 0).Some?
  }

  /** The first of the invalid patterns that occurs in s. */
  function InvalidReason(ch: Chars, s: string): (r: Option<Reason>)
    ensures r.Some? ==> r.value == CanadianRegulation || r.value == EpaRegulation || r.value == FormaldehydeRule
  {
    if MatchesSor(ch, s) then Some(CanadianRegulation)
    else if MatchesEpa(s) then Some(EpaRegulation)
    else if FindsFormaldehyde(s) then Some(FormaldehydeRule)
    else None
  }

  predicate HasAlias(s: string, alias: string) {
    Run(NoCase(alias, Accept), s, 0).Some? || Contains(Lower(s), Lower(alias))
  }

  /** What the first alias of s stands for. */
  function FirstAlias(aliases: seq<(string, Option<string>)>, s: string): Option<Option<string>> {
    if aliases == [] then None
    else if HasAlias(s, aliases[0].0) then Some(aliases[0].1)
    else FirstAlias(aliases[1..], s)
  }

  /** `s.lower().replace(" ", "")`. */
  function Compact(s: string): string {
    if s == "" then "" else if s[0] == ' ' then Compact(s[1..]) else [LowerChar(s[0])] + Compact(s[1..])
  }

  function FirstSameKey(ids: seq<string>, s: string): Option<string> {
    if ids == [] then None else if Compact(ids[0]) == Compact(s) then Some(ids[0]) else FirstSameKey(ids[1..], s)
  }

  /** The order of the lookups: invalid patterns, aliases, part or statute, registry key. */
  function FirstLookup(invalid: bool, alias: Option<Option<string>>, matched: Option<string>,
                       key: Option<string>): Option<string>
  {
    if invalid then None else if alias.Some? then alias.value else if matched.Some? then matched else key
  }

  function NormalizeText(ch: Chars, s: string): Option<string> {
    FirstLookup(InvalidReason(ch, s).Some?, FirstAlias(ALIASES, s), TryMatchPart(ch, s), FirstSameKey(REGISTRY, s))
  }

  /** `normalize_citation`. */
  function NormalizeCitation(ch: Chars, raw: string): Option<string> {
    if raw == "" then None else NormalizeText(ch, NormalizeRaw(ch, raw))
  }

  // ----- A normalised citation is a registry entry -----

  predicate Known(id: Option<string>) {
    id.Some? ==> RuleType(id.value).Some?
  }

  lemma {:induction false} AliasesAreKnown(aliases: seq<(string, Option<string>)>, s: string)
    requires forall i :: 0 <= i < |aliases| ==> Known(aliases[i].1)
    ensures var a := FirstAlias(aliases, s); a.Some? ==> Known(a.value)
  {
    if aliases != [] && !HasAlias(s, aliases[0].0) { AliasesAreKnown(aliases[1..], s); }
  }

  lemma {:induction false} SameKeysAreKnown(ids: seq<string>, s: string)
    requires forall i :: 0 <= i < |ids| ==> RuleType(ids[i]).Some?
    ensures Known(FirstSameKey(ids, s))
  {
    if ids != [] { SameKeysAreKnown(ids[1..], s); }
  }

  /** The registry holds exactly the ids that have a rule. */
  lemma RegistryHasRules(id: string)
    ensures id in REGISTRY <==> RuleType(id).Some?
  {
    if RuleType(id).Some? {
      assert id == REGISTRY[0] || id == REGISTRY[1] || id == REGISTRY[2] || id == REGISTRY[3] || id == REGISTRY[4]
          || id == REGISTRY[5] || id == REGISTRY[6] || id == REGISTRY[7] || id == REGISTRY[8];
    }
  }

  lemma AliasIsKnown(s: string)
    ensures FirstAlias(ALIASES, s).Some? ==> Known(FirstAlias(ALIASES, s).value)
  {
    forall i | 0 <= i < |ALIASES| ensures Known(ALIASES[i].1) { AliasTarget(ALIASES[i].1); }
    AliasesAreKnown(ALIASES, s);
  }

  lemma AliasTarget(id: Option<string>)
    requires id in [None, Some("15 U.S.C. 1278a"), Some("16 CFR Part 1307"), Some("16 CFR Part 1261")]
    ensures Known(id)
  {
  }

  lemma SameKeyIsKnown(s: string)
    ensures Known(FirstSameKey(REGISTRY, s))
  {
    forall i | 0 <= i < |REGISTRY| ensures RuleType(REGISTRY[i]).Some? { RegistryHasRules(REGISTRY[i]); }
    SameKeysAreKnown(REGISTRY, s);
  }

  lemma MatchIsKnown(ch: Chars, s: string)
    ensures Known(TryMatchPart(ch, s))
  {
  }

  lemma FirstLookupIsKnown(invalid: bool, alias: Option<Option<string>>, matched: Option<string>, key: Option<string>)
    requires alias.Some? ==> Known(alias.value)
    requires Known(matched) && Known(key)
    ensures Known(FirstLookup(invalid, alias, matched, key))
  {
  }

  lemma TextIsKnown(ch: Chars, s: string)
    ensures Known(NormalizeText(ch, s))
  {
    AliasIsKnown(s);
    MatchIsKnown(ch, s);
    SameKeyIsKnown(s);
    FirstLookupIsKnown(InvalidReason(ch, s).Some?, FirstAlias(ALIASES, s), TryMatchPart(ch, s),
                       FirstSameKey(REGISTRY, s));
  }

  lemma KnownIsRegistered(id: Option<string>)
    requires Known(id)
    ensures id.Some? ==> id.value in REGISTRY && RuleType(id.value).Some? && RuleType(id.value).value != Invalid
  {
    if id.Some? { RegistryHasRules(id.value); }
  }

  /** Normalising gives nothing or an id of the registry, whose rule is never of the type INVALID. */
  lemma NormalizedIsRegistered(ch: Chars, raw: string)
    ensures var id := NormalizeCitation(ch, raw);
            id.Some? ==> id.value in REGISTRY && RuleType(id.value).Some? && RuleType(id.value).value != Invalid
  {
    TextIsKnown(ch, NormalizeRaw(ch, raw));
    KnownIsRegistered(NormalizeCitation(ch, raw));
  }

  /** White space around and within a citation does not matter beyond where there is some. */
  lemma NormalizeIgnoresSpacing(ch: Chars, raw: string)
    ensures NormalizeRaw(ch, Collapse(raw)) == NormalizeRaw(ch, raw)
    ensures NormalizeCitation(ch, Collapse(raw)) == NormalizeCitation(ch, raw)
  {
    var t, c := Strip(raw), Collapse(raw);
    CollapseIsSqueeze(raw);
    CollapseIsStable(raw);
    SubSqueezes(t, 0);
    SubSqueezes(Strip(c), 0);
    assert t[0..] == t && Strip(c)[0..] == Strip(c);
    if c == "" {
      SqueezedEnds(t);
      BlankIsNothing(ch, c);
    }
  }

  lemma BlankIsNothing(ch: Chars, s: string)
    requires s == ""
    ensures NormalizeText(ch, Spelled(ch, s)) == None
  {
    assert Spelled(ch, s) == s;
    assert FirstLookup(InvalidReason(ch, s).Some?, FirstAlias(ALIASES, s), TryMatchPart(ch, s),
                       FirstSameKey(REGISTRY, s)) == None by {
      NoMatchInEmpty(ch, s);
      AliasOfEmpty(s);
      KeyOfEmpty(s);
    }
  }

  lemma NoMatchInEmpty(ch: Chars, s: string)
    requires s == ""
    ensures TryMatchPart(ch, s) == None
  {
  }

  lemma AliasesAreNamed()
    ensures forall i :: 0 <= i < |ALIASES| ==> ALIASES[i].0 != ""
  {
  }

  lemma AliasOfEmpty(s: string)
    requires s == ""
    ensures FirstAlias(ALIASES, s) == None
  {
    AliasesAreNamed();
    NoAliasInEmpty(ALIASES, s);
  }

  lemma KeyOfEmpty(s: string)
    requires s == ""
    ensures FirstSameKey(REGISTRY, s) == None
  {
    NoKeyIsEmpty(REGISTRY, s);
  }

  lemma {:induction false} NoAliasInEmpty(aliases: seq<(string, Option<string>)>, s: string)
    requires s == "" && forall i :: 0 <= i < |aliases| ==> aliases[i].0 != ""
    ensures FirstAlias(aliases, s) == None
  {
    if aliases != [] {
      var alias := aliases[0].0;
      assert Lower(alias) != "" && Lower(s) == "";
      assert Run(NoCase(alias, Accept), s, 0) == None;
      NoAliasInEmpty(aliases[1..], s);
    }
  }

  lemma {:induction false} NoKeyIsEmpty(ids: seq<string>, s: string)
    requires s == "" && forall i :: 0 <= i < |ids| ==> ids[i] != "" && ids[i][0] == '1'
    ensures FirstSameKey(ids, s) == None
  {
    if ids != [] {
      assert Compact(ids[0]) != "" && Compact(s) == "";
      NoKeyIsEmpty(ids[1..], s);
    }
  }

  // ----- What a product needs -----

  predicate Citable(t: CitationType) { t == Substantive || t == Conditional }

  datatype Profile = Profile(productCategory: string, ageMonths: Option<int>, isToy: bool, isChildcare: bool)

  /** What a product needs. */
  predicate Needs(profile: Profile, id: string) {
    match id
    case "16 CFR Part 1303" => true
    case "15 U.S.C. 1278a" => true
    case "16 CFR Part 1261" =>
      Lower(profile.productCategory) == "dresser" || Lower(profile.productCategory) == "clothing_storage_unit"
    case "16 CFR Part 1501" => profile.ageMonths.Some? && profile.ageMonths.value < 36
    case "16 CFR Part 1307" => profile.isToy || profile.isChildcare
    case _ => false
  }

  function Required(profile: Profile): set<string> {
    set id | id in REGISTRY && Needs(profile, id)
  }

  /** `required_citations`. */
  method RequiredCitations(profile: Profile) returns (required: set<string>)
    ensures required == Required(profile)
  {
    required := {"16 CFR Part 1303", "15 U.S.C. 1278a"};
    var category := Lower(profile.productCategory);
    if category == "dresser" || category == "clothing_storage_unit" {
      required := required + {"16 CFR Part 1261"};
    }
    if profile.ageMonths.Some? && profile.ageMonths.value < 36 {
      required := required + {"16 CFR Part 1501"};
    }
    if profile.isToy || profile.isChildcare {
      required := required + {"16 CFR Part 1307"};
    }
  }

  lemma NeededIsCitable(profile: Profile, id: string)
    ensures Needs(profile, id) ==> id in REGISTRY && RuleType(id).Some? && Citable(RuleType(id).value)
  {
    RegistryHasRules(id);
  }
}
