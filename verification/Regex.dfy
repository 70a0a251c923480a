/**
 A backtracking matcher with the semantics of Python's `re` for the constructs the modelled patterns
 use. A pattern is written in continuation style: every node carries what must match after it, so an
 optional group `(?:X)?R` is the ordered choice `Else(X R, R)`.
 */
module Regex {
  import opened Options
  import opened Text

  datatype Re =
    | Accept
    | Mark(tag: nat, next: Re)                               // remember the position (group borders)
    | Lit(text: string, next: Re)                              // the characters of text
    | One(accepts: char -> bool, next: Re)                     // a class, once
    | Greedy(accepts: char -> bool, min: nat, next: Re)        // a class, min or more times, longest first
    | Lazy(accepts: char -> bool, min: nat, next: Re)          // a class, min or more times, shortest first
    | LineStart(next: Re)                                      // ^ in MULTILINE mode
    | Boundary(word: char -> bool, next: Re)                   // \b
    | BeforeOrEnd(text: string, next: Re)                      // (?=text|\Z)
    | Else(first: Re, second: Re)                              // first, or else second

  /** Border positions by tag; tag 0 is the end of the match. */
  type Marks = map<nat, nat>

  /** How many characters from p on are accepted without a gap. */
  function RunLength(accepts: char -> bool, s: string, p: nat): (n: nat)
    requires p <= |s|
    ensures p + n <= |s|
    decreases |s| - p
  {
    if p < |s| && accepts(s[p]) then 1 + RunLength(accepts, s, p + 1) else 0
  }

  /** The run is the longest: everything in it is accepted and what follows is not. */
  lemma {:induction false} RunLengthIs(accepts: char -> bool, s: string, p: nat, n: nat)
    requires p + n <= |s|
    requires forall i :: p <= i < p + n ==> accepts(s[i])
    requires p + n < |s| ==> !accepts(s[p + n])
    ensures RunLength(accepts, s, p) == n
    decreases n
  {
    if n > 0 { RunLengthIs(accepts, s, p + 1, n - 1); }
  }

  /** Exactly one of the characters around p is a word character. */
  predicate AtBoundary(word: char -> bool, s: string, p: nat)
    requires p <= |s|
  {
    (p > 0 && word(s[p - 1])) != (p < |s| && word(s[p]))
  }

  /** The first match of re at position p in backtracking order. */
  function Run(re: Re, s: string, p: nat): (r: Option<Marks>)
    requires p <= |s|
    decreases re, 1, 0
  {
    match re
    case Accept => Some(map[0 := p])
    case Mark(tag, next) =>
      var r := Run(next, s, p);
      if r.Some? then Some(r.value[tag := p]) else None
    case Lit(text, next) => if At(s, p, text) then Run(next, s, p + |text|) else None
    case One(accepts, next) => if p < |s| && accepts(s[p]) then Run(next, s, p + 1) else None
    case Greedy(accepts, min, next) => RunGreedy(re, s, p, RunLength(accepts, s, p))
    case Lazy(accepts, min, next) => RunLazy(re, s, p, min)
    case LineStart(next) => if p == 0 || s[p - 1] == '\n' then Run(next, s, p) else None
    case Boundary(word, next) => if AtBoundary(word, s, p) then Run(next, s, p) else None
    case BeforeOrEnd(text, next) => if p == |s| || At(s, p, text) then Run(next, s, p) else None
    case Else(first, second) =>
      var r := Run(first, s, p);
      if r.Some? then r else Run(second, s, p)
  }

  /** A greedy repetition tried with n characters, then with fewer. */
  function RunGreedy(re: Re, s: string, p: nat, n: nat): (r: Option<Marks>)
    requires re.Greedy? && p + n <= |s|
    decreases re, 0, n
  {
    if n < re.min then None
    else
      var r := Run(re.next, s, p + n);
      if r.Some? || n == 0 then r else RunGreedy(re, s, p, n - 1)
  }

  /** A lazy repetition tried with n characters, then with more. */
  function RunLazy(re: Re, s: string, p: nat, n: nat): (r: Option<Marks>)
    requires re.Lazy? && p <= |s|
    decreases re, 0, |s| - p - n
  {
    if n > RunLength(re.accepts, s, p) then None
    else
      var r := Run(re.next, s, p + n);
      if r.Some? then r else RunLazy(re, s, p, n + 1)
  }

  /** `pattern.search`: the leftmost match from p on, with its start. */
  function Search(re: Re, s: string, p: nat): (r: Option<(nat, Marks)>)
    requires p <= |s|
    ensures r.Some? ==> p <= r.value.0 <= |s|
    decreases |s| - p
  {
    var r := Run(re, s, p);
    if r.Some? then Some((p, r.value))
    else if p == |s| then None
    else Search(re, s, p + 1)
  }

  lemma {:induction false} SearchIsLeftmost(re: Re, s: string, p: nat)
    requires p <= |s|
    ensures var r := Search(re, s, p);
            if r.None? then forall q :: p <= q <= |s| ==> Run(re, s, q).None?
            else Run(re, s, r.value.0) == Some(r.value.1) && forall q :: p <= q < r.value.0 ==> Run(re, s, q).None?
    decreases |s| - p
  {
    if Run(re, s, p).None? && p < |s| { SearchIsLeftmost(re, s, p + 1); }
  }

  /** `pattern.finditer`: the matches from p on, each search going on where the last match ended. */
  function FindAll(re: Re, s: string, p: nat): seq<Marks>
    requires p <= |s|
    decreases |s| - p, 1
  {
    AllFrom(re, s, p, Search(re, s, p))
  }

  /** The matches from one on that was found at p or behind. */
  function AllFrom(re: Re, s: string, p: nat, found: Option<(nat, Marks)>): seq<Marks>
    requires p <= |s| && (found.Some? ==> p <= found.value.0 <= |s|)
    decreases |s| - p, 0
  {
    if found.None? then []
    else
      var (start, marks) := found.value;
      var from := if 0 in marks && marks[0] > start then marks[0] else start + 1;
      [marks] + (if from <= |s| then FindAll(re, s, from) else [])
  }

  /** One step of `finditer`, for a pattern that cannot match nothing. */
  lemma FindAllStep(re: Re, s: string, p: nat)
    requires p <= |s|
    ensures var r := Run(re, s, p);
            match r
            case Some(m) => 0 in m && p < m[0] <= |s| ==> FindAll(re, s, p) == [m] + FindAll(re, s, m[0])
            case None => FindAll(re, s, p) == if p == |s| then [] else FindAll(re, s, p + 1)
  {
    SearchStep(re, s, p);
    if Run(re, s, p).None? && p < |s| { FindAllSame(re, s, p, p + 1); }
  }

  lemma FindAllSame(re: Re, s: string, p: nat, q: nat)
    requires p <= |s| && q <= |s| && Search(re, s, p) == Search(re, s, q)
    ensures FindAll(re, s, p) == FindAll(re, s, q)
  {
  }

  lemma SearchStep(re: Re, s: string, p: nat)
    requires p <= |s|
    ensures Search(re, s, p) == match Run(re, s, p)
                                case Some(m) => Some((p, m))
                                case None => if p == |s| then None else Search(re, s, p + 1)
  {
  }

  lemma {:induction false} RunLengthAccepts(accepts: char -> bool, s: string, p: nat)
    requires p <= |s|
    ensures forall i :: p <= i < p + RunLength(accepts, s, p) ==> accepts(s[i])
    decreases |s| - p
  {
    if p < |s| && accepts(s[p]) { RunLengthAccepts(accepts, s, p + 1); }
  }

  /** The text between two borders. */
  function Group(s: string, m: Marks, from: nat, to: nat): string {
    if from in m && to in m && m[from] <= m[to] <= |s| then s[m[from]..m[to]] else ""
  }

  /** What a pattern denotes, without an order: it can match s from p up to e. */
  ghost predicate Denotes(re: Re, s: string, p: nat, e: nat)
    requires p <= |s|
    decreases re
  {
    match re
    case Accept => e == p
    case Mark(tag, next) => Denotes(next, s, p, e)
    case Lit(text, next) => At(s, p, text) && Denotes(next, s, p + |text|, e)
    case One(accepts, next) => p < |s| && accepts(s[p]) && Denotes(next, s, p + 1, e)
    case Greedy(accepts, min, next) =>
      exists q :: p + min <= q <= p + RunLength(accepts, s, p) && Denotes(next, s, q, e)
    case Lazy(accepts, min, next) => exists q :: p + min <= q <= p + RunLength(accepts, s, p) && Denotes(next, s, q, e)
    case LineStart(next) => (p == 0 || s[p - 1] == '\n') && Denotes(next, s, p, e)
    case Boundary(word, next) => AtBoundary(word, s, p) && Denotes(next, s, p, e)
    case BeforeOrEnd(text, next) => (p == |s| || At(s, p, text)) && Denotes(next, s, p, e)
    case Else(first, second) => Denotes(first, s, p, e) || Denotes(second, s, p, e)
  }

  /** Tag 0 is kept for the end of the match. */
  predicate EndUntouched(re: Re) {
    match re
    case Accept => true
    case Mark(tag, next) => tag != 0 && EndUntouched(next)
    case Lit(_, next) => EndUntouched(next)
    case One(_, next) => EndUntouched(next)
    case Greedy(_, _, next) => EndUntouched(next)
    case Lazy(_, _, next) => EndUntouched(next)
    case LineStart(next) => EndUntouched(next)
    case Boundary(_, next) => EndUntouched(next)
    case BeforeOrEnd(_, next) => EndUntouched(next)
    case Else(first, second) => EndUntouched(first) && EndUntouched(second)
  }

  /** Every match has an end, at or after its start. */
  lemma {:induction false} RunEnds(re: Re, s: string, p: nat)
    requires p <= |s|
    ensures var r := Run(re, s, p); r.Some? ==> 0 in r.value && p <= r.value[0] <= |s|
    decreases re
  {
    match re
    case Accept =>
    case Mark(tag, next) => RunEnds(next, s, p);
    case Lit(text, next) => if At(s, p, text) { RunEnds(next, s, p + |text|); }
    case One(accepts, next) => if p < |s| { RunEnds(next, s, p + 1); }
    case Greedy(accepts, min, next) =>
      var q := RunGreedyTries(re, s, p, RunLength(accepts, s, p));
      if Run(re, s, p).Some? { RunEnds(next, s, q); }
    case Lazy(accepts, min, next) =>
      var q := RunLazyTries(re, s, p, min);
      if Run(re, s, p).Some? { RunEnds(next, s, q); }
    case LineStart(next) => RunEnds(next, s, p);
    case Boundary(_, next) => RunEnds(next, s, p);
    case BeforeOrEnd(_, next) => RunEnds(next, s, p);
    case Else(first, second) =>
      RunEnds(first, s, p);
      RunEnds(second, s, p);
  }

  /** Backtracking finds a match wherever there is one, and only matches that are there. */
  lemma {:induction false} RunIsSoundAndComplete(re: Re, s: string, p: nat)
    requires p <= |s| && EndUntouched(re)
    ensures Run(re, s, p).Some? ==> 0 in Run(re, s, p).value && Denotes(re, s, p, Run(re, s, p).value[0])
    ensures Run(re, s, p).None? ==> forall e: nat :: !Denotes(re, s, p, e)
    decreases re
  {
    match re
    case Accept =>
    case Mark(tag, next) => RunIsSoundAndComplete(next, s, p);
    case Lit(text, next) => if At(s, p, text) { RunIsSoundAndComplete(next, s, p + |text|); }
    case One(accepts, next) => if p < |s| { RunIsSoundAndComplete(next, s, p + 1); }
    case Greedy(accepts, min, next) =>
      forall q | p <= q <= |s| { RunIsSoundAndComplete(next, s, q); }
      var q := RunGreedyTries(re, s, p, RunLength(accepts, s, p));
      if Run(re, s, p).None? {
        forall e: nat, i | p + min <= i <= p + RunLength(accepts, s, p)
          ensures !Denotes(next, s, i, e)
        {
          assert Run(next, s, i).None?;
        }
      }
    case Lazy(accepts, min, next) =>
      forall q | p <= q <= |s| { RunIsSoundAndComplete(next, s, q); }
      var q := RunLazyTries(re, s, p, min);
      if Run(re, s, p).None? {
        forall e: nat, i | p + min <= i <= p + RunLength(accepts, s, p)
          ensures !Denotes(next, s, i, e)
        {
          assert Run(next, s, i).None?;
        }
      }
    case LineStart(next) => RunIsSoundAndComplete(next, s, p);
    case Boundary(_, next) => RunIsSoundAndComplete(next, s, p);
    case BeforeOrEnd(_, next) => RunIsSoundAndComplete(next, s, p);
    case Else(first, second) =>
      RunIsSoundAndComplete(first, s, p);
      RunIsSoundAndComplete(second, s, p);
  }

  /** A greedy repetition takes the longest of the lengths up to n after which the rest matches, at q. */
  lemma {:induction false} RunGreedyTries(re: Re, s: string, p: nat, n: nat) returns (q: nat)
    requires re.Greedy? && p + n <= |s|
    ensures var r := RunGreedy(re, s, p, n);
            if r.None? then forall i :: p + re.min <= i <= p + n ==> Run(re.next, s, i).None?
            else p + re.min <= q <= p + n && Run(re.next, s, q) == r
                 && forall i :: q < i <= p + n ==> Run(re.next, s, i).None?
    decreases n
  {
    q := p + n;
    if n >= re.min && Run(re.next, s, p + n).None? && n > 0 {
      q := RunGreedyTries(re, s, p, n - 1);
    }
  }

  /** A lazy repetition takes the shortest of the lengths from n on after which the rest matches, at q. */
  lemma {:induction false} RunLazyTries(re: Re, s: string, p: nat, n: nat) returns (q: nat)
    requires re.Lazy? && p <= |s|
    ensures var r := RunLazy(re, s, p, n);
            var last := p + RunLength(re.accepts, s, p);
            if r.None? then forall i :: p + n <= i <= last ==> Run(re.next, s, i).None?
            else p + n <= q <= last && Run(re.next, s, q) == r
                 && forall i :: p + n <= i < q ==> Run(re.next, s, i).None?
    decreases |s| - p - n
  {
    q := p + n;
    if n <= RunLength(re.accepts, s, p) && Run(re.next, s, p + n).None? {
      q := RunLazyTries(re, s, p, n + 1);
    }
  }

  // ----- Patterns in IGNORECASE mode, and substitution -----

  /** `re.escape(text)` in IGNORECASE mode. */
  function NoCase(text: string, next: Re): Re {
    if text == "" then next
    else
      var first := text[0];
      One((c: char) => LowerChar(c) == LowerChar(first), NoCase(text[1..], next))
  }

  /** A literal that ignores case, where it matches, goes on behind itself. */
  lemma {:induction false} NoCaseMatch(text: string, next: Re, s: string, p: nat)
    requires p <= |s| && Run(NoCase(text, next), s, p).Some?
    ensures p + |text| <= |s| && Run(NoCase(text, next), s, p) == Run(next, s, p + |text|)
    ensures text != "" ==> LowerChar(s[p]) == LowerChar(text[0])
  {
    if text != "" { NoCaseMatch(text[1..], next, s, p + 1); }
  }

  lemma {:induction false} NoCaseTake(text: string, next: Re, s: string, p: nat)
    requires At(s, p, text)
    ensures Run(NoCase(text, next), s, p) == Run(next, s, p + |text|)
  {
    if text != "" { NoCaseTake(text[1..], next, s, p + 1); }
  }

  lemma StartsDifferently(text: string, next: Re, s: string, p: nat)
    requires text != "" && p <= |s| && (p < |s| ==> LowerChar(s[p]) != LowerChar(text[0]))
    ensures Run(NoCase(text, next), s, p) == None
  {
  }

  /** A literal is not found where its first letter does not occur. */
  lemma {:induction false} SearchNeedsFirst(text: string, next: Re, s: string, p: nat)
    requires text != "" && p <= |s| && forall i :: p <= i < |s| ==> LowerChar(s[i]) != LowerChar(text[0])
    ensures Search(NoCase(text, next), s, p) == None
    decreases |s| - p
  {
    StartsDifferently(text, next, s, p);
    if p < |s| { SearchNeedsFirst(text, next, s, p + 1); }
  }

  /** `pattern.sub(text, s)` from p on, for a pattern that matches no empty text. */
  function Sub(re: Re, s: string, p: nat, text: string): string
    requires p <= |s|
    decreases |s| - p
  {
    if p == |s| then ""
    else
      var r := Run(re, s, p);
      if r.Some? && 0 in r.value && p < r.value[0] <= |s| then text + Sub(re, s, r.value[0], text)
      else [s[p]] + Sub(re, s, p + 1, text)
  }
}
