/**
 How the part pattern and the statute pattern read a citation that is spelled out: with or without blanks, full
 stops and the word for a part, in any case, and whatever stands behind its number.
 */
module CitationForms {
  import opened Options
  import opened Text
  import opened Regex
  import opened IgnoreCase
  import opened CitationRegistry

  /** `\d` accepts the ASCII digits. */
  ghost predicate HasDigits(ch: Chars) {
    forall c :: '0' <= c <= '9' ==> ch.digit(c)
  }

  predicate Digits(s: string, p: nat, q: nat)
    requires p <= q <= |s|
  {
    forall i :: p <= i < q ==> '0' <= s[i] <= '9'
  }

  function Blank(present: bool): string { if present then " " else "" }

  function Section(e: string): string { if e == "" then "" else "." + e }

  /** A way to write what stands before the number: with or without blanks, and with or without "Part". */
  datatype Form = Form(first: bool, second: bool, part: bool) {
    function Word(): string { if part then "Part " else "" }

    function Rest(): string { Blank(second) + Word() }

    function Head(): string { "16" + (Blank(first) + ("CFR" + Rest())) }
  }

  /** s cites the part d, or its section e if that is not empty: in any case, and with something behind it or not. */
  predicate Cites(s: string, f: Form, d: string, e: string, rest: string) {
    SameAt(s, 0, f.Head()) && s[|f.Head()|..] == d + (Section(e) + rest)
  }

  /** The match names the part d and the section e. */
  predicate Names(r: Option<Marks>, s: string, d: string, e: string) {
    r.Some? && Group(s, r.value, 1, 2) == d && Group(s, r.value, 3, 4) == e
  }

  // ----- The number -----

  lemma FourOnes(ch: Chars, rest: Re, s: string, p: nat)
    requires HasDigits(ch) && p + 4 <= |s| && Digits(s, p, p + 4)
    ensures Run(One(ch.digit, One(ch.digit, One(ch.digit, One(ch.digit, rest)))), s, p) == Run(rest, s, p + 4)
  {
    assert Run(One(ch.digit, rest), s, p + 3) == Run(rest, s, p + 4);
    assert Run(One(ch.digit, One(ch.digit, rest)), s, p + 2) == Run(rest, s, p + 4);
    assert Run(One(ch.digit, One(ch.digit, One(ch.digit, rest))), s, p + 1) == Run(rest, s, p + 4);
  }

  /** A section starts at p: a full stop and a digit. */
  predicate SectionAt(ch: Chars, s: string, p: nat) {
    p + 1 < |s| && s[p] == '.' && ch.digit(s[p + 1])
  }

  lemma NoSection(ch: Chars, s: string, p: nat)
    requires p <= |s| && !SectionAt(ch, s, p)
    ensures Run(SectionNumber(ch), s, p) == Some(map[0 := p][2 := p])
  {
    var digits := Greedy(ch.digit, 1, Mark(4, Accept));
    var dotted := Lit(".", Mark(3, digits));
    if At(s, p, ".") {
      assert RunLength(ch.digit, s, p + 1) == 0;
      assert Run(digits, s, p + 1) == RunGreedy(digits, s, p + 1, 0) == None;
    }
    assert Run(dotted, s, p) == None;
    assert Run(Accept, s, p) == Some(map[0 := p]);
    assert Run(Else(dotted, Accept), s, p) == Some(map[0 := p]);
  }

  lemma WithSection(ch: Chars, s: string, p: nat, q: nat)
    requires p + 1 < q <= |s| && s[p] == '.' && (q < |s| ==> !ch.digit(s[q]))
    requires HasDigits(ch) && Digits(s, p + 1, q)
    ensures Run(SectionNumber(ch), s, p) == Some(map[0 := q][4 := q][3 := p + 1][2 := p])
  {
    var last := Mark(4, Accept);
    var digits := Greedy(ch.digit, 1, last);
    RunLengthIs(ch.digit, s, p + 1, q - p - 1);
    assert Run(Accept, s, q) == Some(map[0 := q]);
    assert Run(last, s, q) == Some(map[0 := q][4 := q]);
    assert Run(digits, s, p + 1) == RunGreedy(digits, s, p + 1, q - p - 1);
    var dotted := Lit(".", Mark(3, digits));
    assert At(s, p, ".");
    assert Run(Mark(3, digits), s, p + 1) == Some(map[0 := q][4 := q][3 := p + 1]);
    assert Run(dotted, s, p) == Some(map[0 := q][4 := q][3 := p + 1]);
    assert Run(Else(dotted, Accept), s, p) == Some(map[0 := q][4 := q][3 := p + 1]);
  }

  /** What stands behind a number does not go on with it. */
  predicate Ends(ch: Chars, e: string, rest: string) {
    if e == "" then !SectionAt(ch, rest, 0) else rest != "" ==> !ch.digit(rest[0])
  }

  lemma NumberIs(ch: Chars, s: string, p: nat, d: string, e: string, rest: string)
    requires HasDigits(ch) && p <= |s| && s[p..] == d + (Section(e) + rest) && Ends(ch, e, rest)
    requires |d| == 4 && Digits(d, 0, 4) && Digits(e, 0, |e|)
    ensures Names(Run(PartNumber(ch), s, p), s, d, e)
  {
    var t := s[p..];
    assert t[..4] == d && t[4..] == Section(e) + rest;
    assert s[p..p + 4] == d && s[p + 4..] == t[4..];
    forall i | p <= i < p + 4 ensures '0' <= s[i] <= '9' { assert s[i] == d[i - p]; }
    FourOnes(ch, SectionNumber(ch), s, p);
    SectionIs(ch, s, p + 4, e, rest);
  }

  lemma SectionIs(ch: Chars, s: string, p: nat, e: string, rest: string)
    requires HasDigits(ch) && p <= |s| && s[p..] == Section(e) + rest && Digits(e, 0, |e|) && Ends(ch, e, rest)
    ensures var r := Run(SectionNumber(ch), s, p);
            r.Some? && 2 in r.value && 1 !in r.value && r.value[2] == p && Group(s, r.value, 3, 4) == e
  {
    if e == "" {
      assert Section(e) + rest == rest;
      NumberStops(ch, s, p, rest);
    } else {
      SectionParts(ch, s, p, e, rest);
      WithSection(ch, s, p, p + 1 + |e|);
    }
  }

  lemma NumberStops(ch: Chars, s: string, p: nat, rest: string)
    requires p <= |s| && s[p..] == rest && !SectionAt(ch, rest, 0)
    ensures Run(SectionNumber(ch), s, p) == Some(map[0 := p][2 := p])
  {
    assert |rest| == |s| - p && forall i :: 0 <= i < |rest| ==> rest[i] == s[p + i];
    assert p + 1 < |s| ==> rest[0] == s[p] && rest[1] == s[p + 1];
    NoSection(ch, s, p);
  }

  lemma SectionParts(ch: Chars, s: string, p: nat, e: string, rest: string)
    requires p <= |s| && e != "" && s[p..] == "." + e + rest && Digits(e, 0, |e|) && Ends(ch, e, rest)
    ensures var q := p + 1 + |e|;
            q <= |s| && s[p] == '.' && s[p + 1..q] == e && Digits(s, p + 1, q) && (q < |s| ==> !ch.digit(s[q]))
  {
    var t, q := s[p..], p + 1 + |e|;
    assert t[1..1 + |e|] == e && t[1 + |e|..] == rest && t[0] == '.';
    assert s[p + 1..q] == t[1..1 + |e|];
    forall i | p + 1 <= i < q ensures '0' <= s[i] <= '9' { assert s[i] == s[p + 1..q][i - p - 1] == e[i - p - 1]; }
    if q < |s| { assert s[q] == t[1 + |e|] == rest[0]; }
  }

  // ----- What stands before it -----

  lemma SpacesTake(next: Re, s: string, p: nat, n: nat)
    requires p + n <= |s| && RunLength(IsSpace, s, p) == n && Run(next, s, p + n).Some?
    ensures Run(Spaces(next), s, p) == Run(next, s, p + n)
  {
    assert Run(Spaces(next), s, p) == RunGreedy(Spaces(next), s, p, n);
  }

  /** A blank or none, and then something that matches and is no white space. */
  lemma BlankTaken(next: Re, s: string, p: nat, blank: bool)
    requires var q := p + |Blank(blank)|;
             q < |s| && (blank ==> s[p] == ' ') && !IsSpace(s[q]) && Run(next, s, q).Some?
    ensures Run(Spaces(next), s, p) == Run(next, s, p + |Blank(blank)|)
  {
    RunLengthIs(IsSpace, s, p, |Blank(blank)|);
    SpacesTake(next, s, p, |Blank(blank)|);
  }

  lemma WordTaken(ch: Chars, s: string, p: nat)
    requires SameAt(s, p, "Part") && p + 5 < |s| && s[p + 4] == ' ' && !IsSpace(s[p + 5])
    requires Run(PartNumber(ch), s, p + 5).Some?
    ensures Run(OptionalPart(ch), s, p) == Run(PartNumber(ch), s, p + 5)
  {
    var spaced := Greedy(IsSpace, 1, PartNumber(ch));
    RunLengthIs(IsSpace, s, p + 4, 1);
    assert Run(spaced, s, p + 4) == RunGreedy(spaced, s, p + 4, 1);
    NoCaseIs("Part", spaced, s, p);
  }

  lemma NoWord(ch: Chars, s: string, p: nat)
    requires p < |s| && LowerChar(s[p]) != 'p'
    ensures Run(OptionalPart(ch), s, p) == Run(PartNumber(ch), s, p)
  {
    StartsDifferently("Part", Greedy(IsSpace, 1, PartNumber(ch)), s, p);
  }

  lemma CfrTaken(next: Re, s: string, p: nat, blank: bool)
    requires SameAt(s, p, "CFR")
    requires var q := p + 3 + |Blank(blank)|;
             q < |s| && (blank ==> s[p + 3] == ' ') && !IsSpace(s[q]) && Run(next, s, q).Some?
    ensures Run(NoCase("CFR", Spaces(next)), s, p) == Run(next, s, p + 3 + |Blank(blank)|)
  {
    BlankTaken(next, s, p + 3, blank);
    NoCaseIs("CFR", Spaces(next), s, p);
  }

  // ----- The whole citation -----

  lemma SameAtSplit(s: string, p: nat, a: string, b: string)
    requires SameAt(s, p, a + b)
    ensures SameAt(s, p, a) && SameAt(s, p + |a|, b)
  {
    forall i | 0 <= i < |a| ensures LowerChar(s[p + i]) == LowerChar(a[i]) { assert (a + b)[i] == a[i]; }
    forall i | 0 <= i < |b| ensures LowerChar(s[p + |a| + i]) == LowerChar(b[i]) {
      assert s[p + |a| + i] == s[p + (|a| + i)] && (a + b)[|a| + i] == b[i];
    }
  }

  /** A blank has no case. */
  lemma BlankAt(s: string, p: nat, blank: bool, rest: string)
    requires SameAt(s, p, Blank(blank) + rest)
    ensures (blank ==> s[p] == ' ') && SameAt(s, p + |Blank(blank)|, rest)
  {
    SameAtSplit(s, p, Blank(blank), rest);
    if blank { assert LowerChar(s[p + 0]) == LowerChar(" "[0]); }
  }

  /** The word "Part" and its blank, or none, and then a number. */
  lemma WordIsTaken(ch: Chars, f: Form, s: string, p: nat)
    requires var n := p + |f.Word()|;
             SameAt(s, p, f.Word()) && n < |s| && '0' <= s[n] <= '9' && Run(PartNumber(ch), s, n).Some?
    ensures Run(OptionalPart(ch), s, p) == Run(PartNumber(ch), s, p + |f.Word()|) && !IsSpace(s[p])
  {
    if f.part {
      assert LowerChar(s[p + 0]) == LowerChar("Part "[0]) && LowerChar(s[p + 4]) == LowerChar("Part "[4]);
      assert "Part" + " " == "Part ";
      SameAtSplit(s, p, "Part", " ");
      WordTaken(ch, s, p);
    } else {
      NoWord(ch, s, p);
    }
  }

  lemma CfrIsTaken(ch: Chars, f: Form, s: string, c: nat, n: nat)
    requires n == c + |"CFR" + f.Rest()| && SameAt(s, c, "CFR" + f.Rest())
    requires n < |s| && '0' <= s[n] <= '9' && Run(PartNumber(ch), s, n).Some?
    ensures !IsSpace(s[c])
    ensures Run(NoCase("CFR", Spaces(OptionalPart(ch))), s, c) == Run(PartNumber(ch), s, n)
  {
    CfrParts(s, c, f.second, f.Word());
    WordIsTaken(ch, f, s, c + 3 + |Blank(f.second)|);
    CfrTaken(OptionalPart(ch), s, c, f.second);
  }

  lemma CfrParts(s: string, c: nat, blank: bool, word: string)
    requires SameAt(s, c, "CFR" + (Blank(blank) + word))
    ensures SameAt(s, c, "CFR") && (blank ==> s[c + 3] == ' ') && SameAt(s, c + 3 + |Blank(blank)|, word)
    ensures !IsSpace(s[c])
  {
    SameAtSplit(s, c, "CFR", Blank(blank) + word);
    BlankAt(s, c + 3, blank, word);
    assert LowerChar(s[c + 0]) == LowerChar("CFR"[0]);
  }

  lemma SixteenParts(s: string, blank: bool, rest: string)
    requires SameAt(s, 0, "16" + (Blank(blank) + rest))
    ensures At(s, 0, "16") && (blank ==> s[2] == ' ') && SameAt(s, 2 + |Blank(blank)|, rest)
  {
    SameAtSplit(s, 0, "16", Blank(blank) + rest);
    BlankAt(s, 2, blank, rest);
    NumeralAt(s, "16");
  }

  lemma SixteenTaken(next: Re, s: string, blank: bool)
    requires var q := 2 + |Blank(blank)|;
             At(s, 0, "16") && q < |s| && (blank ==> s[2] == ' ') && !IsSpace(s[q]) && Run(next, s, q).Some?
    ensures Run(Lit("16", Spaces(next)), s, 0) == Run(next, s, 2 + |Blank(blank)|)
  {
    BlankTaken(next, s, 2, blank);
  }

  lemma HeadIsTaken(ch: Chars, f: Form, s: string)
    requires var n := |f.Head()|;
             SameAt(s, 0, f.Head()) && n < |s| && '0' <= s[n] <= '9' && Run(PartNumber(ch), s, n).Some?
    ensures Run(PartPattern(ch), s, 0) == Run(PartNumber(ch), s, |f.Head()|)
  {
    var q, n := 2 + |Blank(f.first)|, |f.Head()|;
    SixteenParts(s, f.first, "CFR" + f.Rest());
    assert n == q + |"CFR" + f.Rest()|;
    CfrIsTaken(ch, f, s, q, n);
    SixteenThen(PartNumber(ch), NoCase("CFR", Spaces(OptionalPart(ch))), s, f.first, q, n);
  }

  lemma SixteenThen(number: Re, next: Re, s: string, blank: bool, q: nat, n: nat)
    requires At(s, 0, "16") && n <= |s| && Run(number, s, n).Some?
    requires q == 2 + |Blank(blank)| && q < |s| && (blank ==> s[2] == ' ') && !IsSpace(s[q])
    requires Run(next, s, q) == Run(number, s, n)
    ensures Run(Lit("16", Spaces(next)), s, 0) == Run(number, s, n)
  {
    SixteenTaken(next, s, blank);
  }

  lemma NumeralAt(s: string, digits: string)
    requires |digits| == 2 && Digits(digits, 0, 2) && SameAt(s, 0, digits)
    ensures At(s, 0, digits)
  {
    assert LowerChar(s[0 + 0]) == LowerChar(digits[0]) && LowerChar(s[0 + 1]) == LowerChar(digits[1]);
    AtSlice(s, 0, digits);
    assert s[0..2] == [s[0], s[1]] == digits;
  }

  /** The part pattern reads the part and the section of every citation that is spelled out. */
  lemma CitationIsRead(ch: Chars, f: Form, s: string, d: string, e: string, rest: string)
    requires HasDigits(ch) && |d| == 4 && Digits(d, 0, 4) && Digits(e, 0, |e|)
    requires Cites(s, f, d, e, rest) && Ends(ch, e, rest)
    ensures Names(Run(PartPattern(ch), s, 0), s, d, e)
  {
    NumberIs(ch, s, |f.Head()|, d, e, rest);
    assert s[|f.Head()|..][0] == d[0];
    HeadIsTaken(ch, f, s);
  }

  // ----- The statute -----

  function Dot(present: bool): string { if present then "." else "" }

  /** A way to write the statute: with or without blanks and full stops. */
  datatype StatuteForm = StatuteForm(first: bool, dotU: bool, dotS: bool, dotC: bool, second: bool) {
    function NumberText(): string { Blank(second) + "1278a" }

    function CText(): string { "C" + Dot(dotC) + NumberText() }

    function SText(): string { "S" + Dot(dotS) + CText() }

    function UText(): string { "U" + Dot(dotU) + SText() }

    function Text(): string { "15" + (Blank(first) + UText()) }
  }

  lemma OptionalTake(text: string, next: Re, s: string, p: nat)
    requires At(s, p, text) && Run(next, s, p + |text|).Some?
    ensures Run(Optional(text, next), s, p).Some?
  {
  }

  lemma OptionalSkip(text: string, next: Re, s: string, p: nat)
    requires p <= |s| && Run(next, s, p).Some?
    ensures Run(Optional(text, next), s, p).Some?
  {
  }

  /** One letter and its optional full stop. */
  lemma LetterTaken(letter: string, dot: bool, next: Re, s: string, p: nat)
    requires |letter| == 1 && SameAt(s, p, letter)
    requires var q := p + 1 + |Dot(dot)|;
             q <= |s| && (dot ==> s[p + 1] == '.') && Run(next, s, q).Some?
    ensures Run(NoCase(letter, Optional(".", next)), s, p).Some?
  {
    if dot { OptionalTake(".", next, s, p + 1); } else { OptionalSkip(".", next, s, p + 1); }
    NoCaseIs(letter, Optional(".", next), s, p);
  }

  lemma StatuteNumberTaken(s: string, p: nat, blank: bool)
    requires SameAt(s, p + |Blank(blank)|, "1278a") && (blank ==> s[p] == ' ')
    ensures Run(STATUTE_NUMBER, s, p).Some?
  {
    var digits, q := NoCase("1278a", Accept), p + |Blank(blank)|;
    NoCaseIs("1278a", Accept, s, q);
    assert LowerChar(s[q + 0]) == '1';
    assert Run(Accept, s, q + 5).Some?;
    BlankTaken(digits, s, q, false);
    OptionalSkip("\U{A7}", Spaces(digits), s, q);
    BlankTaken(Optional("\U{A7}", Spaces(digits)), s, p, blank);
  }

  lemma LetterAt(s: string, p: nat, letter: string, dot: bool, rest: string)
    requires |letter| == 1 && SameAt(s, p, letter + Dot(dot) + rest)
    ensures SameAt(s, p, letter) && (dot ==> s[p + 1] == '.') && SameAt(s, p + 1 + |Dot(dot)|, rest)
  {
    SameAtSplit(s, p, letter + Dot(dot), rest);
    SameAtSplit(s, p, letter, Dot(dot));
    if dot { assert LowerChar(s[p + 1 + 0]) == LowerChar("."[0]); }
  }

  /** Wherever the text stands, in any case, the pattern matches. */
  ghost predicate Reads(re: Re, text: string) {
    forall s: string, p: nat :: SameAt(s, p, text) ==> Run(re, s, p).Some?
  }

  lemma NumberReads(blank: bool)
    ensures Reads(STATUTE_NUMBER, Blank(blank) + "1278a")
  {
    forall s: string, p: nat | SameAt(s, p, Blank(blank) + "1278a") ensures Run(STATUTE_NUMBER, s, p).Some? {
      BlankAt(s, p, blank, "1278a");
      StatuteNumberTaken(s, p, blank);
    }
  }

  /** A letter and its optional full stop in front. */
  lemma LetterReads(letter: string, dot: bool, text: string, next: Re)
    requires |letter| == 1 && Reads(next, text)
    ensures Reads(NoCase(letter, Optional(".", next)), letter + Dot(dot) + text)
  {
    forall s: string, p: nat | SameAt(s, p, letter + Dot(dot) + text)
      ensures Run(NoCase(letter, Optional(".", next)), s, p).Some?
    {
      LetterAt(s, p, letter, dot, text);
      LetterTaken(letter, dot, next, s, p);
    }
  }

  lemma LettersRead(f: StatuteForm, c: Re, next: Re)
    requires c == NoCase("C", Optional(".", STATUTE_NUMBER)) && next == NoCase("S", Optional(".", c))
    ensures Reads(NoCase("U", Optional(".", next)), f.UText())
  {
    NumberReads(f.second);
    LetterReads("C", f.dotC, f.NumberText(), STATUTE_NUMBER);
    LetterReads("S", f.dotS, f.CText(), c);
    LetterReads("U", f.dotU, f.SText(), next);
  }

  lemma StatuteHead(f: StatuteForm, s: string)
    requires SameAt(s, 0, f.Text())
    ensures var q := 2 + |Blank(f.first)|;
            SameAt(s, q, f.UText()) && At(s, 0, "15") && (f.first ==> s[2] == ' ') && LowerChar(s[q]) == 'u'
  {
    var q := 2 + |Blank(f.first)|;
    SameAtSplit(s, 0, "15", Blank(f.first) + f.UText());
    BlankAt(s, 2, f.first, f.UText());
    NumeralAt(s, "15");
    assert LowerChar(s[q + 0]) == LowerChar(f.UText()[0]);
  }

  /** The statute is read in every one of its spellings, in any case and whatever follows. */
  lemma StatuteIsRead(ch: Chars, f: StatuteForm, s: string)
    requires SameAt(s, 0, f.Text())
    ensures TryMatchPart(ch, s) == Some("15 U.S.C. 1278a")
  {
    var c := NoCase("C", Optional(".", STATUTE_NUMBER));
    var next := NoCase("S", Optional(".", c));
    StatuteHead(f, s);
    LettersRead(f, c, next);
    HeadThen(NoCase("U", Optional(".", next)), s, f.first, f.UText());
    StatuteRuns(next, s);
  }

  lemma HeadThen(next: Re, s: string, blank: bool, text: string)
    requires var q := 2 + |Blank(blank)|;
             Reads(next, text) && SameAt(s, q, text) && (blank ==> s[2] == ' ') && q < |s| && LowerChar(s[q]) == 'u'
    ensures Run(Spaces(next), s, 2).Some?
  {
    BlankTaken(next, s, 2, blank);
  }

  lemma StatuteRuns(next: Re, s: string)
    requires next == NoCase("S", Optional(".", NoCase("C", Optional(".", STATUTE_NUMBER))))
    requires At(s, 0, "15") && Run(Spaces(NoCase("U", Optional(".", next))), s, 2).Some?
    ensures Run(STATUTE_PATTERN, s, 0).Some? && s[1] == '5'
  {
    AtChar(s, 0, "15", 1);
  }
}
