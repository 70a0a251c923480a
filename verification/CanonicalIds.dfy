/**
 The ids of the registry are their own normal form, so normalising twice is normalising once. Nothing in them is
 respelled, no invalid pattern and no alias stands in them, and the patterns read in each the rule that it names.
 */
module CanonicalIds {
  import opened Options
  import opened Text
  import opened Regex
  import opened IgnoreCase
  import opened Whitespace
  import opened CitationRegistry
  import opened CitationForms
  import opened Citations

  /** No M, as every alias has one, and no C where the formaldehyde rule has its letters. */
  predicate UnlistedAt(s: string, i: nat)
    requires i < |s|
  {
    LowerChar(s[i]) != 'm' && (LowerChar(s[i]) == 'c' ==> i < 3 || s[i - 3] != '4')
  }

  /** Text in which there is no invalid pattern and no alias. */
  predicate Unlisted(s: string) {
    s != "" && s[0] == '1' && forall i :: 0 <= i < |s| ==> UnlistedAt(s, i)
  }

  predicate PlainAt(s: string, i: nat)
    requires i < |s|
  {
    && s[i] != '\U{A7}' && (IsSpace(s[i]) ==> s[i] == ' ')
    && (s[i] == ' ' ==> i + 1 < |s| && s[i + 1] != ' ')
    && (LowerChar(s[i]) == 'p' ==> i + 4 <= |s| && s[i] == 'P' && s[i + 1] == 'a' && s[i + 2] == 'r' && s[i + 3] == 't')
  }

  /** Text in which normalisation finds nothing to respell: as the registry writes its ids. */
  predicate Plain(s: string) {
    forall i :: 0 <= i < |s| ==> PlainAt(s, i)
  }

  // ----- Plain text is left as it is -----

  lemma {:induction false} PlainIsSqueezed(s: string)
    requires Plain(s)
    ensures Squeezed(s) == s
  {
    if s != "" {
      assert PlainAt(s, 0);
      forall i | 0 <= i < |s| - 1 ensures PlainAt(s[1..], i) { assert PlainAt(s, i + 1); }
      PlainIsSqueezed(s[1..]);
    }
  }

  lemma PlainIsStripped(s: string)
    requires Plain(s) && s != "" && s[0] != ' '
    ensures Strip(s) == s
  {
    assert PlainAt(s, 0) && PlainAt(s, |s| - 1);
    StripUnique("", s, "");
    assert "" + s + "" == s;
  }

  lemma {:induction false} NoSectionSign(s: string, p: nat)
    requires p <= |s| && Plain(s)
    ensures Sub(SECTION_SIGN, s, p, "") == s[p..]
    decreases |s| - p
  {
    if p < |s| {
      assert PlainAt(s, p);
      assert Run(SECTION_SIGN, s, p) == None;
      NoSectionSign(s, p + 1);
    }
  }

  lemma PartMatch(ch: Chars, s: string, p: nat)
    requires p < |s| && Run(PartWord(ch), s, p).Some?
    ensures LowerChar(s[p]) == 'p' && p + 4 <= |s| && Run(PartWord(ch), s, p) == Some(map[0 := p + 4])
  {
    var next := Boundary(ch.word, Accept);
    NoCaseMatch("part", next, s, p);
    assert Run(next, s, p + 4) == Run(Accept, s, p + 4);
  }

  /** The word is respelled wherever it stands alone, in any case, and nowhere else. */
  lemma PartWordIs(ch: Chars, s: string, p: nat)
    requires p <= |s| && forall c :: LowerChar(c) == 'p' || LowerChar(c) == 't' ==> ch.word(c)
    ensures Run(PartWord(ch), s, p).Some?
            <==> SameAt(s, p, "part") && (p == 0 || !ch.word(s[p - 1])) && (p + 4 == |s| || !ch.word(s[p + 4]))
  {
    var next := Boundary(ch.word, Accept);
    NoCaseIs("part", next, s, p);
    if SameAt(s, p, "part") {
      assert LowerChar(s[p + 0]) == 'p' && LowerChar(s[p + 3]) == LowerChar("part"[3]) == 't';
      assert Run(Accept, s, p + 4).Some?;
    }
  }

  lemma {:induction false} PartStays(ch: Chars, s: string, p: nat)
    requires p <= |s| && Plain(s)
    ensures Sub(PartWord(ch), s, p, "Part") == s[p..]
    decreases |s| - p
  {
    if p < |s| {
      if Run(PartWord(ch), s, p).Some? {
        PartMatch(ch, s, p);
        assert PlainAt(s, p);
        PartStays(ch, s, p + 4);
        assert s[p..] == "Part" + s[p + 4..];
      } else {
        PartStays(ch, s, p + 1);
      }
    }
  }

  lemma PlainIsNormal(ch: Chars, s: string)
    requires Plain(s) && s != "" && s[0] != ' '
    ensures NormalizeRaw(ch, s) == s
  {
    assert s[0..] == s;
    PlainIsStripped(s);
    SubSqueezes(s, 0);
    PlainIsSqueezed(s);
    NoSectionSign(s, 0);
    PartStays(ch, s, 0);
  }

  // ----- Unlisted text matches no invalid pattern and no alias -----

  lemma NoFormaldehyde(s: string, text: string)
    requires Unlisted(s) && text == "40 CFR Part 770"
    ensures Search(NoCase(text, Accept), s, 0) == None
  {
    FoundIs(text, s);
    forall p: nat | p + |text| <= |s| ensures !SameAt(s, p, text) {
      assert UnlistedAt(s, p + 3);
      assert LowerChar(s[p + 0]) != LowerChar(text[0]) || LowerChar(s[p + 3]) != LowerChar(text[3]);
    }
  }

  lemma UnlistedIsNotInvalid(ch: Chars, s: string)
    requires Unlisted(s)
    ensures InvalidReason(ch, s) == None
  {
    StartsDifferently("SOR-", One(ch.digit, Accept), s, 0);
    assert Run(Lit("40", Spaces(NoCase("CFR", Accept))), s, 0) == None;
    NoFormaldehyde(s, "40 CFR Part 770");
  }

  lemma {:induction false} LowerAt(s: string)
    ensures |Lower(s)| == |s| && forall i :: 0 <= i < |s| ==> Lower(s)[i] == LowerChar(s[i])
  {
    if s != "" { LowerAt(s[1..]); }
  }

  /** An alias is had exactly if it stands somewhere in the text, ignoring case. */
  lemma HasAliasIs(s: string, alias: string)
    ensures HasAlias(s, alias) <==> Found(alias, s)
  {
    NoCaseIs(alias, Accept, s, 0);
    LowerAt(s);
    LowerAt(alias);
    forall p: nat ensures At(Lower(s), p, Lower(alias)) <==> SameAt(s, p, alias) {
      AtSlice(Lower(s), p, Lower(alias));
      if At(Lower(s), p, Lower(alias)) {
        forall i | 0 <= i < |alias| ensures LowerChar(s[p + i]) == LowerChar(alias[i]) {
          AtChar(Lower(s), p, Lower(alias), i);
        }
      }
    }
  }

  /** Every alias has an M. */
  predicate HasM(alias: string) {
    |alias| > 3 && (LowerChar(alias[2]) == 'm' || LowerChar(alias[3]) == 'm')
  }

  lemma {:induction false} NoAliasOf(s: string, aliases: seq<(string, Option<string>)>)
    requires Unlisted(s) && forall i :: 0 <= i < |aliases| ==> HasM(aliases[i].0)
    ensures FirstAlias(aliases, s) == None
  {
    if aliases != [] {
      var alias := aliases[0].0;
      HasAliasIs(s, alias);
      var i := if LowerChar(alias[2]) == 'm' then 2 else 3;
      forall p: nat | p + |alias| <= |s| ensures !SameAt(s, p, alias) { assert UnlistedAt(s, p + i); }
      NoAliasOf(s, aliases[1..]);
    }
  }

  lemma AliasesHaveM()
    ensures forall i :: 0 <= i < |ALIASES| ==> HasM(ALIASES[i].0)
  {
  }

  lemma UnlistedHasNoAlias(s: string)
    requires Unlisted(s)
    ensures FirstAlias(ALIASES, s) == None
  {
    AliasesHaveM();
    NoAliasOf(s, ALIASES);
  }

  /** What the part and statute patterns make of unlisted text is its normal form, or else the entry with its key. */
  lemma UnlistedNormalizes(ch: Chars, raw: string)
    requires Unlisted(NormalizeRaw(ch, raw))
    ensures var s := NormalizeRaw(ch, raw);
            NormalizeCitation(ch, raw)
            == if TryMatchPart(ch, s).Some? then TryMatchPart(ch, s) else FirstSameKey(REGISTRY, s)
  {
    UnlistedText(ch, NormalizeRaw(ch, raw));
    NothingIsSpelled(ch);
  }

  lemma UnlistedText(ch: Chars, s: string)
    requires Unlisted(s)
    ensures NormalizeText(ch, s)
            == if TryMatchPart(ch, s).Some? then TryMatchPart(ch, s) else FirstSameKey(REGISTRY, s)
  {
    UnlistedIsNotInvalid(ch, s);
    UnlistedHasNoAlias(s);
  }

  lemma NothingIsSpelled(ch: Chars)
    ensures NormalizeRaw(ch, "") == ""
  {
    assert Sub(SPACES, "", 0, " ") == "" && Sub(SECTION_SIGN, "", 0, "") == "";
  }

  // ----- The ids -----

  /** Every id of the registry is its own normal form. */
  lemma IdIsFixed(ch: Chars, id: string)
    requires HasDigits(ch) && id in REGISTRY
    ensures NormalizeCitation(ch, id) == Some(id)
  {
    IdIsPlain(id);
    IdMatches(ch, id);
    PlainIsNormal(ch, id);
    UnlistedNormalizes(ch, id);
  }

  lemma IdMatches(ch: Chars, id: string)
    requires HasDigits(ch) && id in REGISTRY
    ensures TryMatchPart(ch, id) == Some(id)
  {
    if id == "15 U.S.C. 1278a" {
      StatuteIsRead(ch, StatuteForm(true, true, true, true, true), id);
    } else {
      var d, e := IdParts(id);
      if e == "" { PartIdIsFixed(ch, id, d); } else { SectionIdIsFixed(ch, id, d, e); }
    }
  }

  /** All ids but that of the statute name a part, or a section of one. */
  lemma IdParts(id: string) returns (d: string, e: string)
    requires id in REGISTRY && id != "15 U.S.C. 1278a"
    ensures |d| == 4 && Digits(d, 0, 4) && Digits(e, 0, |e|)
    ensures id == if e == "" then "16 CFR Part " + d else "16 CFR " + d + "." + e
  {
    d, e := if id[7] == 'P' then id[12..] else id[7..11], if id[7] == 'P' then "" else id[12..];
  }

  /** A part's id names itself. */
  lemma PartIdIsFixed(ch: Chars, s: string, d: string)
    requires HasDigits(ch) && s == "16 CFR Part " + d && |d| == 4 && Digits(d, 0, 4) && RuleType(s).Some?
    ensures TryMatchPart(ch, s) == Some(s)
  {
    var f := Form(true, true, true);
    assert f.Head() == "16 CFR Part ";
    assert s[12..] == d + ("" + "");
    CitationIsRead(ch, f, s, d, "", "");
  }

  /** A section's id names itself. */
  lemma SectionIdIsFixed(ch: Chars, s: string, d: string, e: string)
    requires HasDigits(ch) && s == "16 CFR " + d + "." + e && |d| == 4 && Digits(d, 0, 4) && e != ""
             && Digits(e, 0, |e|)
    requires RuleType(s).Some?
    ensures TryMatchPart(ch, s) == Some(s)
  {
    var f := Form(true, true, false);
    assert f.Head() == "16 CFR ";
    assert s[7..] == d + (("." + e) + "");
    CitationIsRead(ch, f, s, d, e, "");
  }

  lemma IdIsPlain(id: string)
    requires id in REGISTRY
    ensures Plain(id) && Unlisted(id)
  {
    if id == "15 U.S.C. 1278a" {
      StatuteIsPlain(id);
    } else {
      var d, e := IdParts(id);
      if e == "" { NumberIsPlain(id, "16 CFR Part ", d); } else { NumberIsPlain(id, "16 CFR ", d + "." + e); }
    }
  }

  lemma StatuteIsPlain(s: string)
    requires s == "15 U.S.C. 1278a"
    ensures Plain(s) && Unlisted(s)
  {
  }

  /** Digits and full stops behind the letters of a citation. */
  lemma NumberIsPlain(s: string, head: string, number: string)
    requires (head == "16 CFR Part " || head == "16 CFR ") && s == head + number && number != ""
    requires forall i :: 0 <= i < |number| ==> number[i] == '.' || '0' <= number[i] <= '9'
    ensures Plain(s) && Unlisted(s)
  {
    assert forall i :: |head| <= i < |s| ==> s[i] == number[i - |head|];
    assert forall i :: 0 <= i < |head| ==> s[i] == head[i];
    forall i | 0 <= i < |s| ensures PlainAt(s, i) && UnlistedAt(s, i) {
    }
  }

  /** Normalising twice is normalising once. */
  lemma NormalizeIsIdempotent(ch: Chars, raw: string)
    requires HasDigits(ch)
    ensures var id := NormalizeCitation(ch, raw); id.Some? ==> NormalizeCitation(ch, id.value) == id
  {
    NormalizedIsRegistered(ch, raw);
    if NormalizeCitation(ch, raw).Some? { IdIsFixed(ch, NormalizeCitation(ch, raw).value); }
  }

  /** A certificate that cites every required id misses nothing. */
  lemma CitingTheRequiredIsComplete(ch: Chars, profile: Profile, provided: seq<string>)
    requires HasDigits(ch) && forall id :: id in Required(profile) ==> id in provided
    ensures Missing(DceRegistry(ch), profile, provided) == {}
  {
    forall id | id in Required(profile) ensures id !in Missing(DceRegistry(ch), profile, provided) {
      IdIsFixed(ch, id);
      MissingMeans(ch, profile, provided, id);
      var i :| 0 <= i < |provided| && provided[i] == id;
    }
  }
}
