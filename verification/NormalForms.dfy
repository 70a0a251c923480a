/**
 Which id a citation normalises to.

 A citation of a part or of one of its sections normalises to what its number names, in every spelling; the
 statute in every one of its spellings to its id; and an alias to the rule that it stands for. The citation is
 taken as it came: white space, section signs and the case of its letters do not matter.
 */
module NormalForms {
  import opened Options
  import opened Text
  import opened Regex
  import opened IgnoreCase
  import opened Whitespace
  import opened CitationRegistry
  import opened CitationForms
  import opened CanonicalIds
  import opened Citations
  import opened InvalidReasons

  /** A citation of part d, or of its section e: a section of its own, or else the part, or else nothing. */
  predicate NamesRule(id: Option<string>, d: string, e: string) {
    var own, part := "16 CFR " + d + "." + e, "16 CFR Part " + d;
    if e != "" && own in REGISTRY then id == Some(own) else if part in REGISTRY then id == Some(part) else id == None
  }

  lemma CitationIsMatched(ch: Chars, f: Form, s: string, d: string, e: string, rest: string)
    requires HasDigits(ch) && |d| == 4 && Digits(d, 0, 4) && Digits(e, 0, |e|)
    requires Cites(s, f, d, e, rest) && Ends(ch, e, rest)
    ensures NamesRule(TryMatchPart(ch, s), d, e)
  {
    CitationIsRead(ch, f, s, d, e, rest);
    RegistryHasRules("16 CFR " + d + "." + e);
    RegistryHasRules("16 CFR Part " + d);
    assert LowerChar(s[0 + 1]) == LowerChar(f.Head()[1]) == '6';
    assert Run(STATUTE_PATTERN, s, 0) == None;
  }

  lemma CitationIsUnlisted(f: Form, s: string, d: string, e: string)
    requires |d| == 4 && Digits(d, 0, 4) && Digits(e, 0, |e|) && Cites(s, f, d, e, "")
    ensures Unlisted(s)
  {
    var head, number := f.Head(), d + (Section(e) + "");
    HeadIsUnlisted(f);
    NumberHasNoLetter(d, e);
    forall i | 0 <= i < |head| ensures LowerChar(s[i]) == LowerChar(head[i]) {
      assert LowerChar(s[0 + i]) == LowerChar(head[i]);
    }
    UnlistedParts(s, head, number);
  }

  lemma NumberHasNoLetter(d: string, e: string)
    requires |d| == 4 && Digits(d, 0, 4) && Digits(e, 0, |e|)
    ensures var number := d + (Section(e) + "");
            forall i :: 0 <= i < |number| ==> number[i] == '.' || '0' <= number[i] <= '9'
  {
  }

  /** The only C of the head is close to the front. */
  lemma HeadIsUnlisted(f: Form)
    ensures var head := f.Head();
            LowerChar(head[0]) == '1'
            && forall i :: 0 <= i < |head| ==> LowerChar(head[i]) != 'm' && (LowerChar(head[i]) == 'c' ==> i < 4)
  {
  }

  lemma UnlistedParts(s: string, head: string, number: string)
    requires 0 < |head| <= |s| && s[|head|..] == number && LowerChar(head[0]) == '1'
    requires forall i :: 0 <= i < |head| ==> LowerChar(s[i]) == LowerChar(head[i])
    requires forall i :: 0 <= i < |head| ==> LowerChar(head[i]) != 'm' && (LowerChar(head[i]) == 'c' ==> i < 4)
    requires forall i :: 0 <= i < |number| ==> number[i] == '.' || '0' <= number[i] <= '9'
    ensures Unlisted(s)
  {
    assert s[0] == '1';
    forall i | 0 <= i < |s| ensures UnlistedAt(s, i) {
      if i >= |head| { assert s[i] == number[i - |head|]; }
    }
  }

  // ----- Keys -----

  lemma {:induction false} CompactAppend(a: string, b: string)
    ensures Compact(a + b) == Compact(a) + Compact(b)
  {
    if a == "" {
      assert a + b == b;
    } else {
      assert (a + b)[1..] == a[1..] + b;
      CompactAppend(a[1..], b);
    }
  }

  lemma {:induction false} CompactIgnoresCase(a: string, b: string)
    requires |a| == |b| && forall i :: 0 <= i < |a| ==> LowerChar(a[i]) == LowerChar(b[i])
    ensures Compact(a) == Compact(b)
  {
    if a != "" {
      assert LowerChar(a[0]) == LowerChar(b[0]);
      CompactIgnoresCase(a[1..], b[1..]);
    }
  }

  lemma {:induction false} CompactSolid(s: string, lower: string)
    requires |s| == |lower| && forall i :: 0 <= i < |s| ==> s[i] != ' ' && LowerChar(s[i]) == lower[i]
    ensures Compact(s) == lower
  {
    if s != "" { CompactSolid(s[1..], lower[1..]); }
  }

  /** The letters of a key. */
  function Letters(part: bool): string { if part then "16cfrpart" else "16cfr" }

  lemma CompactHead(f: Form)
    ensures Compact(f.Head()) == Letters(f.part)
  {
    CompactPieces("16", Blank(f.first), "CFR", f.Rest());
    CompactLetters(f.first);
    CompactRest(f);
    LettersAre(f.part);
  }

  lemma LettersAre(part: bool)
    ensures Letters(part) == "16" + ("" + ("cfr" + (if part then "part" else "")))
  {
  }

  lemma CompactPieces(a: string, b: string, c: string, d: string)
    ensures Compact(a + (b + (c + d))) == Compact(a) + (Compact(b) + (Compact(c) + Compact(d)))
  {
    CompactAppend(c, d);
    CompactAppend(b, c + d);
    CompactAppend(a, b + (c + d));
  }

  lemma CompactLetters(blank: bool)
    ensures Compact("CFR") == "cfr" && Compact("16") == "16" && Compact(Blank(blank)) == ""
  {
    CompactSolid("CFR", "cfr");
    CompactSolid("16", "16");
  }

  lemma CompactRest(f: Form)
    ensures Compact(f.Rest()) == if f.part then "part" else ""
  {
    CompactAppend(Blank(f.second), f.Word());
    assert "Part" + " " == "Part ";
    CompactAppend("Part", " ");
    CompactSolid("Part", "part");
    assert Compact(" ") == "" && "part" + "" == "part";
  }

  lemma KeyOfCitation(f: Form, s: string, d: string, e: string)
    requires |d| == 4 && Digits(d, 0, 4) && Digits(e, 0, |e|) && Cites(s, f, d, e, "")
    ensures Compact(s) == Letters(f.part) + (d + Section(e))
  {
    var head, number := f.Head(), d + (Section(e) + "");
    NumberHasNoLetter(d, e);
    CompactHead(f);
    forall i | 0 <= i < |head| ensures LowerChar(s[i]) == LowerChar(head[i]) {
      assert LowerChar(s[0 + i]) == LowerChar(head[i]);
    }
    KeyOfParts(s, head, number);
    assert number == d + Section(e);
  }

  lemma KeyOfParts(s: string, head: string, number: string)
    requires |head| <= |s| && s[|head|..] == number
    requires forall i :: 0 <= i < |head| ==> LowerChar(s[i]) == LowerChar(head[i])
    requires forall i :: 0 <= i < |number| ==> number[i] == '.' || '0' <= number[i] <= '9'
    ensures Compact(s) == Compact(head) + number
  {
    assert s == s[..|head|] + number;
    CompactIgnoresCase(s[..|head|], head);
    CompactSolid(number, number);
    CompactAppend(s[..|head|], number);
  }

  lemma KeyOfId(id: string, d: string, e: string)
    requires |d| == 4 && Digits(d, 0, 4) && Digits(e, 0, |e|)
    requires id == if e == "" then "16 CFR Part " + d else "16 CFR " + d + "." + e
    ensures Compact(id) == Letters(e == "") + (d + Section(e))
  {
    var head, number := if e == "" then "16 CFR Part " else "16 CFR ", d + Section(e);
    assert id == head + number;
    IdHead(head, e == "");
    NumberHasNoLetter(d, e);
    assert number == d + (Section(e) + "");
    HeadedKey(id, head, number);
  }

  lemma HeadedKey(id: string, head: string, number: string)
    requires id == head + number && forall i :: 0 <= i < |number| ==> number[i] == '.' || '0' <= number[i] <= '9'
    ensures Compact(id) == Compact(head) + number
  {
    assert id[|head|..] == number && forall i :: 0 <= i < |head| ==> id[i] == head[i];
    KeyOfParts(id, head, number);
  }

  lemma IdHead(head: string, part: bool)
    requires head == if part then "16 CFR Part " else "16 CFR "
    ensures Compact(head) == Letters(part)
  {
    CompactHead(Form(true, true, part));
    HeadIs(part);
  }

  lemma HeadIs(part: bool)
    ensures Form(true, true, part).Head() == if part then "16 CFR Part " else "16 CFR "
  {
  }

  lemma SameLetters(part: bool, other: bool, d: string, e: string, d': string, e': string)
    requires |d| == 4 && Digits(d, 0, 4) && |d'| == 4 && Digits(d', 0, 4)
    requires Letters(part) + (d + Section(e)) == Letters(other) + (d' + Section(e'))
    ensures part == other && d == d' && e == e'
  {
    var a, b := Letters(part) + (d + Section(e)), Letters(other) + (d' + Section(e'));
    assert part ==> a[5] == 'p';
    assert !part ==> a[5] == d[0];
    assert other ==> b[5] == 'p';
    assert !other ==> b[5] == d'[0];
    var u, v := a[|Letters(part)|..], b[|Letters(part)|..];
    assert u == d + Section(e) && v == d' + Section(e');
    assert u[..4] == d && v[..4] == d' && u[4..] == Section(e) && v[4..] == Section(e');
    if e != "" && e' != "" { assert Section(e)[1..] == e && Section(e')[1..] == e'; }
  }

  /** An entry with the key of a citation is the one that the citation names. */
  lemma SameKeyIsNamed(f: Form, s: string, d: string, e: string, id: string)
    requires |d| == 4 && Digits(d, 0, 4) && Digits(e, 0, |e|) && Cites(s, f, d, e, "")
    requires id in REGISTRY && Compact(id) == Compact(s)
    ensures id == if e == "" then "16 CFR Part " + d else "16 CFR " + d + "." + e
  {
    KeyOfCitation(f, s, d, e);
    if id == "15 U.S.C. 1278a" {
      StatuteKey(id, f.part, d + Section(e));
    } else {
      var d', e' := IdParts(id);
      NamedByKey(f.part, id, d, e, d', e');
    }
  }

  lemma NamedByKey(part: bool, id: string, d: string, e: string, d': string, e': string)
    requires |d| == 4 && Digits(d, 0, 4) && |d'| == 4 && Digits(d', 0, 4) && Digits(e', 0, |e'|)
    requires id == if e' == "" then "16 CFR Part " + d' else "16 CFR " + d' + "." + e'
    requires Compact(id) == Letters(part) + (d + Section(e))
    ensures id == if e == "" then "16 CFR Part " + d else "16 CFR " + d + "." + e
  {
    KeyOfId(id, d', e');
    SameLetters(part, e' == "", d, e, d', e');
  }

  lemma StatuteKey(id: string, part: bool, number: string)
    requires id == "15 U.S.C. 1278a"
    ensures Compact(id) != Letters(part) + number
  {
    var rest := id[2..];
    assert id == "15" + rest;
    CompactAppend("15", rest);
    CompactSolid("15", "15");
    assert ("15" + Compact(rest))[1] == '5' && (Letters(part) + number)[1] == '6';
  }

  lemma {:induction false} SameKeyIsFirst(ids: seq<string>, s: string)
    ensures var id := FirstSameKey(ids, s); id.Some? ==> id.value in ids && Compact(id.value) == Compact(s)
  {
    if ids != [] && Compact(ids[0]) != Compact(s) { SameKeyIsFirst(ids[1..], s); }
  }

  /**
   A citation of a part or of a section, in any of its spellings, normalises to the entry of the section if it
   has one of its own, or else to that of the part, or else to nothing.
   */
  lemma NormalFormIs(ch: Chars, f: Form, raw: string, d: string, e: string)
    requires HasDigits(ch) && |d| == 4 && Digits(d, 0, 4) && Digits(e, 0, |e|)
    requires Cites(NormalizeRaw(ch, raw), f, d, e, "")
    ensures NamesRule(NormalizeCitation(ch, raw), d, e)
  {
    var s := NormalizeRaw(ch, raw);
    CitationIsMatched(ch, f, s, d, e, "");
    CitationIsUnlisted(f, s, d, e);
    UnlistedNormalizes(ch, raw);
    SameKeyIsFirst(REGISTRY, s);
    if FirstSameKey(REGISTRY, s).Some? { SameKeyIsNamed(f, s, d, e, FirstSameKey(REGISTRY, s).value); }
  }

  /** So it does with something behind its number, if its own section or its part has an entry. */
  lemma NumberDecides(ch: Chars, f: Form, raw: string, d: string, e: string, rest: string)
    requires HasDigits(ch) && |d| == 4 && Digits(d, 0, 4) && Digits(e, 0, |e|)
    requires Cites(NormalizeRaw(ch, raw), f, d, e, rest) && Ends(ch, e, rest) && Unlisted(NormalizeRaw(ch, raw))
    requires "16 CFR Part " + d in REGISTRY || (e != "" && "16 CFR " + d + "." + e in REGISTRY)
    ensures NamesRule(NormalizeCitation(ch, raw), d, e)
  {
    CitationIsMatched(ch, f, NormalizeRaw(ch, raw), d, e, rest);
    UnlistedNormalizes(ch, raw);
  }

  // ----- From the citation as it came -----

  /** The same text, ignoring case. */
  predicate SameText(s: string, text: string) {
    |s| == |text| && SameAt(s, 0, text)
  }

  lemma SameRecased(s: string, t: string, text: string)
    requires Recased(s, t) && SameAt(s, 0, text)
    ensures SameAt(t, 0, text)
  {
    forall i | 0 <= i < |text| ensures LowerChar(t[0 + i]) == LowerChar(text[i]) {
      assert LowerChar(s[0 + i]) == LowerChar(text[i]) && SameLetter(s[i], t[i]);
    }
  }

  /** Digits and full stops have no case. */
  lemma NumberRecased(s: string, t: string, n: nat, number: string)
    requires Recased(s, t) && n <= |s| && s[n..] == number
    requires forall i :: 0 <= i < |number| ==> number[i] == '.' || '0' <= number[i] <= '9'
    ensures t[n..] == number
  {
    forall i | 0 <= i < |number| ensures t[n..][i] == number[i] {
      assert s[n + i] == number[i] && SameLetter(s[n + i], t[n + i]);
    }
  }

  lemma UnsignedStays(s: string)
    requires '\U{A7}' !in s
    ensures Sub(SECTION_SIGN, s, 0, "") == s
  {
    assert s[0..|s|] == s;
    AtSlice(s, 0, s);
    UnsignedCopies(s, 0, s);
    assert s + "" == s;
  }

  /** Up to case, the normal spelling is the collapsed citation without its section signs. */
  lemma NormalIsRecased(ch: Chars, raw: string)
    ensures Recased(Sub(SECTION_SIGN, Collapse(raw), 0, ""), NormalizeRaw(ch, raw))
  {
    NormalIsSpelled(ch, raw);
    RespelledIsRecased(ch, Sub(SECTION_SIGN, Collapse(raw), 0, ""));
  }

  lemma CitesRecased(s: string, t: string, f: Form, d: string, e: string)
    requires Recased(s, t) && Cites(s, f, d, e, "") && |d| == 4 && Digits(d, 0, 4) && Digits(e, 0, |e|)
    ensures Cites(t, f, d, e, "")
  {
    NumberHasNoLetter(d, e);
    SameRecased(s, t, f.Head());
    NumberRecased(s, t, |f.Head()|, d + (Section(e) + ""));
  }

  /**
   A citation of a part or of a section, with white space anywhere between its words, in any case and with
   section signs or without, normalises to the rule that its number names.
   */
  lemma CitationNormalizes(ch: Chars, f: Form, raw: string, d: string, e: string)
    requires HasDigits(ch) && |d| == 4 && Digits(d, 0, 4) && Digits(e, 0, |e|)
    requires Cites(Sub(SECTION_SIGN, Collapse(raw), 0, ""), f, d, e, "")
    ensures NamesRule(NormalizeCitation(ch, raw), d, e)
  {
    NormalIsRecased(ch, raw);
    CitesRecased(Sub(SECTION_SIGN, Collapse(raw), 0, ""), NormalizeRaw(ch, raw), f, d, e);
    NormalFormIs(ch, f, raw, d, e);
  }

  lemma CoveredByPart(ch: Chars, raw: string, id: string)
    requires NormalizeCitation(ch, raw) == Some(id) && id in REGISTRY
    ensures RuleType(id).Some?
    ensures Citable(RuleType(id).value) ==> VerdictOf(DceRegistry(ch), raw) == Covered(id)
  {
    RegistryHasRules(id);
    DceRegistryIsSound(ch);
    VerdictMeans(DceRegistry(ch), raw);
  }

  /** A section of a part without an entry of its own counts as a citation of the part. */
  lemma SectionCoversPart(ch: Chars, f: Form, provided: seq<string>, k: nat, d: string, e: string, profile: Profile)
    requires HasDigits(ch) && |d| == 4 && Digits(d, 0, 4) && Digits(e, 0, |e|) && k < |provided|
    requires Cites(Sub(SECTION_SIGN, Collapse(provided[k]), 0, ""), f, d, e, "")
    requires "16 CFR Part " + d in REGISTRY && (e == "" || "16 CFR " + d + "." + e !in REGISTRY)
    ensures RuleType("16 CFR Part " + d).Some?
    ensures Citable(RuleType("16 CFR Part " + d).value) ==>
              VerdictOf(DceRegistry(ch), provided[k]) == Covered("16 CFR Part " + d)
    ensures "16 CFR Part " + d !in Missing(DceRegistry(ch), profile, provided)
    ensures !IsInvalid(DceRegistry(ch), provided[k])
  {
    CitationNormalizes(ch, f, provided[k], d, e);
    MissingMeans(ch, profile, provided, "16 CFR Part " + d);
    CoveredByPart(ch, provided[k], "16 CFR Part " + d);
  }

  /** A section sign and the blank behind it are dropped. */
  lemma SignIsDropped(a: string, blank: bool, b: string)
    requires '\U{A7}' !in a + b && b != "" && !IsSpace(b[0])
    ensures Sub(SECTION_SIGN, a + ("\U{A7}" + (Blank(blank) + b)), 0, "") == a + b
  {
    var s := a + ("\U{A7}" + (Blank(blank) + b));
    var n, q := |a|, |a| + 1 + |Blank(blank)|;
    SignStands(a, blank, b, s);
    SignTaken(s, n, blank);
    UnsignedEnd(s, q, b);
    UnsignedStart(s, a);
  }

  lemma SignStands(a: string, blank: bool, b: string, s: string)
    requires s == a + ("\U{A7}" + (Blank(blank) + b)) && b != ""
    ensures var n, q := |a|, |a| + 1 + |Blank(blank)|;
            s[0..n] == a && s[q..] == b && s[n] == '\U{A7}' && (blank ==> s[n + 1] == ' ') && s[q] == b[0]
  {
  }

  lemma UnsignedEnd(s: string, q: nat, b: string)
    requires q <= |s| && s[q..] == b && '\U{A7}' !in b
    ensures "" + Sub(SECTION_SIGN, s, q, "") == b
  {
    assert s[q..q + |b|] == b;
    AtSlice(s, q, b);
    UnsignedCopies(s, q, b);
    assert "" + (b + "") == b;
  }

  lemma UnsignedStart(s: string, a: string)
    requires |a| <= |s| && s[0..|a|] == a && '\U{A7}' !in a
    ensures Sub(SECTION_SIGN, s, 0, "") == a + Sub(SECTION_SIGN, s, |a|, "")
  {
    AtSlice(s, 0, a);
    UnsignedCopies(s, 0, a);
  }

  lemma SignTaken(s: string, n: nat, blank: bool)
    requires var q := n + 1 + |Blank(blank)|;
             q < |s| && s[n] == '\U{A7}' && (blank ==> s[n + 1] == ' ') && !IsSpace(s[q])
    ensures Sub(SECTION_SIGN, s, n, "") == "" + Sub(SECTION_SIGN, s, n + 1 + |Blank(blank)|, "")
  {
    var q := n + 1 + |Blank(blank)|;
    assert Run(Accept, s, q) == Some(map[0 := q]);
    BlankTaken(Accept, s, n + 1, blank);
    assert At(s, n, "\U{A7}");
    assert Run(SECTION_SIGN, s, n) == Some(map[0 := q]);
  }

  // ----- The statute -----

  /** Neither the letter of every alias nor the digit of the formaldehyde rule. */
  predicate Harmless(s: string) {
    forall i :: 0 <= i < |s| ==> LowerChar(s[i]) != 'm' && s[i] != '4'
  }

  lemma StatuteIsHarmless(f: StatuteForm)
    ensures Harmless(f.Text())
  {
    assert Harmless(f.NumberText());
    assert Harmless(f.CText());
    assert Harmless(f.SText());
    assert Harmless(f.UText());
  }

  lemma HarmlessIsUnlisted(s: string, text: string)
    requires SameText(s, text) && Harmless(text) && text != "" && text[0] == '1'
    ensures Unlisted(s)
  {
    forall i | 0 <= i < |s| ensures LowerChar(s[i]) != 'm' && s[i] != '4' {
      assert LowerChar(s[0 + i]) == LowerChar(text[i]) && LowerChar(text[i]) != 'm' && text[i] != '4';
    }
    assert LowerChar(s[0 + 0]) == LowerChar(text[0]);
    forall i | 0 <= i < |s| ensures UnlistedAt(s, i) {
    }
  }

  /** The statute, with full stops and blanks or without and in any case, normalises to its id. */
  lemma StatuteNormalizes(ch: Chars, f: StatuteForm, raw: string)
    requires SameText(Sub(SECTION_SIGN, Collapse(raw), 0, ""), f.Text())
    ensures NormalizeCitation(ch, raw) == Some("15 U.S.C. 1278a")
  {
    NormalIsRecased(ch, raw);
    SameRecased(Sub(SECTION_SIGN, Collapse(raw), 0, ""), NormalizeRaw(ch, raw), f.Text());
    StatuteIsHarmless(f);
    HarmlessIsUnlisted(NormalizeRaw(ch, raw), f.Text());
    StatuteIsRead(ch, f, NormalizeRaw(ch, raw));
    UnlistedNormalizes(ch, raw);
  }

  // ----- Aliases -----

  /** The first alias that stands in a text decides, or one before which only names of the same rule stand in it. */
  lemma {:induction false} FirstAliasIs(aliases: seq<(string, Option<string>)>, s: string, i: nat)
    requires i < |aliases| && Found(aliases[i].0, s)
    requires forall j :: 0 <= j < i && aliases[j].1 != aliases[i].1 ==> !Found(aliases[j].0, s)
    ensures FirstAlias(aliases, s) == Some(aliases[i].1)
  {
    HasAliasIs(s, aliases[0].0);
    if !HasAlias(s, aliases[0].0) { FirstAliasIs(aliases[1..], s, i - 1); }
  }

  /** The rule of the first alias that stands anywhere in a citation is its normal form, unless it is invalid. */
  lemma AliasDecides(ch: Chars, raw: string, i: nat)
    requires i < |ALIASES| && Found(ALIASES[i].0, NormalizeRaw(ch, raw))
    requires forall j :: 0 <= j < i && ALIASES[j].1 != ALIASES[i].1 ==> !Found(ALIASES[j].0, NormalizeRaw(ch, raw))
    requires InvalidReason(ch, NormalizeRaw(ch, raw)).None?
    ensures NormalizeCitation(ch, raw) == ALIASES[i].1
  {
    FirstAliasIs(ALIASES, NormalizeRaw(ch, raw), i);
    AliasLooksUp(ch, NormalizeRaw(ch, raw), ALIASES[i].1);
    NothingIsSpelled(ch);
    AliasOfEmpty("");
  }

  lemma AliasLooksUp(ch: Chars, s: string, rule: Option<string>)
    requires InvalidReason(ch, s).None? && FirstAlias(ALIASES, s) == Some(rule)
    ensures NormalizeText(ch, s) == rule
  {
  }

  lemma FoundInSame(text: string, s: string, other: string)
    requires SameText(s, other) && Found(text, s)
    ensures Found(text, other)
  {
    var p: nat :| SameAt(s, p, text);
    forall i | 0 <= i < |text| ensures LowerChar(other[p + i]) == LowerChar(text[i]) {
      assert LowerChar(s[p + i]) == LowerChar(text[i]) && LowerChar(s[0 + (p + i)]) == LowerChar(other[p + i]);
    }
    assert SameAt(other, p, text);
  }

  lemma LacksLetter(text: string, k: nat, s: string)
    requires k < |text| && forall i :: 0 <= i < |s| ==> LowerChar(s[i]) != LowerChar(text[k])
    ensures !Found(text, s)
  {
    forall p: nat | p + |text| <= |s| ensures !SameAt(s, p, text) { assert LowerChar(s[p + k]) != LowerChar(text[k]); }
  }

  predicate IsStatuteName(a: string) {
    |a| > 3 && a[0] == 'c' && a[|a| - 1] == '1' && a[|a| - 3] == '1'
  }

  predicate IsPhthalateName(a: string) {
    |a| > 3 && a[0] == 'c' && '4' !in a && forall i :: 0 <= i < |a| && a[i] == '1' ==> i == |a| - 3
  }

  predicate IsStandardName(a: string) {
    |a| > 3 && a[0] == 'A' && '4' !in a && forall i :: 0 <= i < |a| ==> LowerChar(a[i]) != 'c'
  }

  lemma NamesAre(i: nat)
    requires i < |ALIASES|
    ensures var a := ALIASES[i].0;
            if i < 3 then IsStatuteName(a) && '4' !in a else if i < 6 then IsPhthalateName(a) else IsStandardName(a)
    ensures var a := ALIASES[i].0;
            (6 <= i < 8 ==> |a| > 9 && a[9] == '7') && (8 <= i ==> '7' !in a)
  {
  }

  lemma TwoOnes(a: string, b: string)
    requires IsStatuteName(a) && IsPhthalateName(b)
    ensures !Found(a, b)
  {
    forall p: nat | p + |a| <= |b| ensures !SameAt(b, p, a) {
      assert LowerChar(b[p + (|a| - 1)]) != LowerChar(a[|a| - 1])
             || LowerChar(b[p + (|a| - 3)]) != LowerChar(a[|a| - 3]);
    }
  }

  /** An earlier alias for another rule does not stand in an alias. */
  lemma NamesAreApart(i: nat, j: nat)
    requires j < i < |ALIASES| && ALIASES[j].1 != ALIASES[i].1
    ensures !Found(ALIASES[j].0, ALIASES[i].0)
  {
    NamesAre(i);
    NamesAre(j);
    if i < 6 {
      assert j < 3 <= i by { TargetsAre(i, j); }
      TwoOnes(ALIASES[j].0, ALIASES[i].0);
    } else if j < 6 {
      LacksLetter(ALIASES[j].0, 0, ALIASES[i].0);
    } else {
      assert j < 8 <= i by { TargetsAre(i, j); }
      LacksLetter(ALIASES[j].0, 9, ALIASES[i].0);
    }
  }

  lemma TargetsAre(i: nat, j: nat)
    requires j < i < |ALIASES| && ALIASES[j].1 != ALIASES[i].1
    ensures (i < 6 ==> j < 3 <= i) && (6 <= j ==> j < 8 <= i)
  {
  }

  lemma NameIsNotInvalid(ch: Chars, s: string, name: string)
    requires SameText(s, name) && name != "" && (name[0] == 'c' || name[0] == 'A') && '4' !in name
    ensures InvalidReason(ch, s) == None
  {
    assert LowerChar(s[0 + 0]) == LowerChar(name[0]);
    StartsDifferently("SOR-", One(ch.digit, Accept), s, 0);
    EpaIs(s);
    forall i | 0 <= i < |s| ensures LowerChar(s[i]) != '4' {
      assert LowerChar(s[0 + i]) == LowerChar(name[i]) && name[i] != '4';
    }
    LacksLetter(FORMALDEHYDE, 0, s);
    FoundIs(FORMALDEHYDE, s);
  }

  /** Every alias, in any case and with any amount of white space, normalises to the rule it stands for. */
  lemma AliasNormalizes(ch: Chars, raw: string, i: nat)
    requires i < |ALIASES| && SameText(Sub(SECTION_SIGN, Collapse(raw), 0, ""), ALIASES[i].0)
    ensures NormalizeCitation(ch, raw) == ALIASES[i].1
  {
    var s, name := NormalizeRaw(ch, raw), ALIASES[i].0;
    NormalIsRecased(ch, raw);
    SameRecased(Sub(SECTION_SIGN, Collapse(raw), 0, ""), s, name);
    assert SameAt(s, 0, name);
    NamesAre(i);
    NameIsNotInvalid(ch, s, name);
    forall j | 0 <= j < i && ALIASES[j].1 != ALIASES[i].1 ensures !Found(ALIASES[j].0, s) {
      if Found(ALIASES[j].0, s) {
        FoundInSame(ALIASES[j].0, s, name);
        NamesAreApart(i, j);
        assert false;
      }
    }
    AliasDecides(ch, raw, i);
  }
}
