/** Patterns of plain text that ignore case, without the matcher. */
module IgnoreCase {
  import opened Options
  import opened Text
  import opened Regex

  /** The text at p is `text`, ignoring case. */
  predicate SameAt(s: string, p: nat, text: string) {
    p + |text| <= |s| && forall i :: 0 <= i < |text| ==> LowerChar(s[p + i]) == LowerChar(text[i])
  }

  lemma SameAtTail(s: string, p: nat, text: string)
    requires text != "" && p < |s|
    ensures SameAt(s, p, text) <==> LowerChar(s[p]) == LowerChar(text[0]) && SameAt(s, p + 1, text[1..])
  {
    var rest := text[1..];
    if LowerChar(s[p]) == LowerChar(text[0]) && SameAt(s, p + 1, rest) {
      forall i | 0 <= i < |text| ensures LowerChar(s[p + i]) == LowerChar(text[i]) {
        if i > 0 { assert s[p + i] == s[p + 1 + (i - 1)] && text[i] == rest[i - 1]; }
      }
    }
  }

  lemma {:induction false} NoCaseIs(text: string, next: Re, s: string, p: nat)
    requires p <= |s|
    ensures Run(NoCase(text, next), s, p) == if SameAt(s, p, text) then Run(next, s, p + |text|) else None
    decreases |text|
  {
    if text != "" && p < |s| {
      SameAtTail(s, p, text);
      NoCaseIs(text[1..], next, s, p + 1);
    }
  }

  /** The text stands somewhere in s, ignoring case. */
  ghost predicate Found(text: string, s: string) {
    exists p: nat :: SameAt(s, p, text)
  }

  lemma FoundIs(text: string, s: string)
    ensures Search(NoCase(text, Accept), s, 0).Some? <==> Found(text, s)
  {
    SearchIsLeftmost(NoCase(text, Accept), s, 0);
    forall p: nat | p <= |s| ensures Run(NoCase(text, Accept), s, p).Some? <==> SameAt(s, p, text) {
      NoCaseIs(text, Accept, s, p);
      assert p + |text| <= |s| ==> Run(Accept, s, p + |text|).Some?;
    }
  }

  lemma NotInShort(text: string, s: string)
    requires |s| < |text|
    ensures Search(NoCase(text, Accept), s, 0) == None
  {
    FoundIs(text, s);
  }
}
