/** `list.sort(key=..., reverse=True)` followed by a slice: stable descending ranking. */
module Ranking {

  datatype Scored<T> = Scored(item: T, score: real)

  /** x in front of everything that does not outscore it. */
  function Insert<T>(x: Scored<T>, s: seq<Scored<T>>): seq<Scored<T>> {
    if s != [] && s[0].score > x.score then [s[0]] + Insert(x, s[1..]) else [x] + s
  }

  /** The stable sort by descending score. */
  function SortDesc<T>(s: seq<Scored<T>>): seq<Scored<T>> {
    if s == [] then [] else Insert(s[0], SortDesc(s[1..]))
  }

  function Filter<T>(keep: T -> bool, s: seq<T>): seq<T> {
    if s == [] then [] else (if keep(s[0]) then [s[0]] else []) + Filter(keep, s[1..])
  }

  function Map<T, U>(f: T -> U, s: seq<T>): (r: seq<U>)
    ensures |r| == |s|
  {
    if s == [] then [] else [f(s[0])] + Map(f, s[1..])
  }

  /** Python's `s[:k]`, where a negative k counts from the end. */
  function Take<T>(s: seq<T>, k: int): seq<T> {
    if k < 0 then (if |s| + k <= 0 then [] else s[..|s| + k])
    else if k <= |s| then s[..k] else s
  }

  // ----- What a stable descending sort is -----

  predicate Descending<T>(s: seq<Scored<T>>) {
    forall i, j :: 0 <= i < j < |s| ==> s[i].score >= s[j].score
  }

  /** The elements of one score, in order. */
  function Tied<T>(s: seq<Scored<T>>, score: real): seq<Scored<T>> {
    Filter((x: Scored<T>) => x.score == score, s)
  }

  /** t is descending and holds, for each score, the same elements in the same order as s. */
  ghost predicate IsStableSort<T>(s: seq<Scored<T>>, t: seq<Scored<T>>) {
    Descending(t) && forall score :: Tied(t, score) == Tied(s, score)
  }

  ghost predicate All<T>(ok: T -> bool, s: seq<T>) {
    forall i :: 0 <= i < |s| ==> ok(s[i])
  }

  lemma {:induction false} AllInsert<T>(ok: Scored<T> -> bool, x: Scored<T>, s: seq<Scored<T>>)
    requires ok(x) && All(ok, s)
    ensures All(ok, Insert(x, s))
  {
    if s != [] && s[0].score > x.score {
      AllInsert(ok, x, s[1..]);
    }
  }

  lemma {:induction false} InsertDescending<T>(x: Scored<T>, s: seq<Scored<T>>)
    requires Descending(s)
    ensures Descending(Insert(x, s))
  {
    if s != [] && s[0].score > x.score {
      InsertDescending(x, s[1..]);
      AllInsert((y: Scored<T>) => s[0].score >= y.score, x, s[1..]);
    }
  }

  lemma FilterCons<T>(keep: T -> bool, x: T, s: seq<T>)
    ensures Filter(keep, [x] + s) == (if keep(x) then [x] else []) + Filter(keep, s)
  {
    assert ([x] + s)[1..] == s;
  }

  lemma {:induction false} AllFilter<T>(ok: T -> bool, keep: T -> bool, s: seq<T>)
    requires All(ok, s)
    ensures All(ok, Filter(keep, s)) && All(keep, Filter(keep, s))
  {
    if s != [] {
      AllFilter(ok, keep, s[1..]);
    }
  }

  /** Filtering commutes with inserting into a descending sequence. */
  lemma {:induction false} FilterInsert<T>(keep: Scored<T> -> bool, x: Scored<T>, s: seq<Scored<T>>)
    requires Descending(s)
    ensures Filter(keep, Insert(x, s)) == if keep(x) then Insert(x, Filter(keep, s)) else Filter(keep, s)
  {
    if s != [] && s[0].score > x.score {
      FilterInsert(keep, x, s[1..]);
      FilterCons(keep, s[0], Insert(x, s[1..]));
      var rest := Filter(keep, s[1..]);
      assert ([s[0]] + rest)[1..] == rest;
      if keep(s[0]) {
        assert Filter(keep, s) == [s[0]] + rest;
      } else {
        assert Filter(keep, s) == rest;
      }
    } else {
      FilterCons(keep, x, s);
      AllFilter((y: Scored<T>) => s == [] || s[0].score >= y.score, keep, s);
    }
  }

  /** Filtering commutes with the stable sort: ranking and then dropping is dropping and then ranking. */
  lemma {:induction false} FilterSort<T>(keep: Scored<T> -> bool, s: seq<Scored<T>>)
    ensures Filter(keep, SortDesc(s)) == SortDesc(Filter(keep, s))
  {
    if s != [] {
      FilterSort(keep, s[1..]);
      SortIsDescending(s[1..]);
      FilterInsert(keep, s[0], SortDesc(s[1..]));
      var rest := Filter(keep, s[1..]);
      assert ([s[0]] + rest)[1..] == rest;
      assert Filter(keep, s) == if keep(s[0]) then [s[0]] + rest else rest;
    }
  }

  lemma {:induction false} SortIsDescending<T>(s: seq<Scored<T>>)
    ensures Descending(SortDesc(s))
  {
    if s != [] {
      SortIsDescending(s[1..]);
      InsertDescending(s[0], SortDesc(s[1..]));
    }
  }

  /** All elements tied: the sort leaves them where they are. */
  lemma {:induction false} SortOfTied<T>(s: seq<Scored<T>>, score: real)
    requires forall i :: 0 <= i < |s| ==> s[i].score == score
    ensures SortDesc(s) == s
  {
    if s != [] {
      SortOfTied(s[1..], score);
      assert s == [s[0]] + s[1..];
    }
  }

  /** SortDesc is a stable sort. */
  lemma SortIsStable<T>(s: seq<Scored<T>>)
    ensures IsStableSort(s, SortDesc(s))
  {
    SortIsDescending(s);
    forall score ensures Tied(SortDesc(s), score) == Tied(s, score) {
      var tie := (x: Scored<T>) => x.score == score;
      var tie' := (x: Scored<T>) => true;
      FilterSort(tie, s);
      AllFilter(tie', tie, s);
      SortOfTied(Filter(tie, s), score);
    }
  }

  lemma TiedTail<T>(t: seq<Scored<T>>, score: real)
    requires t != []
    ensures Tied(t, score) == (if t[0].score == score then [t[0]] else []) + Tied(t[1..], score)
  {
  }

  lemma HeadIsTied<T>(t: seq<Scored<T>>)
    ensures t != [] ==> Tied(t, t[0].score) != []
  {
  }

  lemma HeadHas<T>(ok: T -> bool, s: seq<T>)
    requires All(ok, s)
    ensures s != [] ==> ok(s[0])
  {
  }

  /** Nothing outscores the head of a descending sequence. */
  lemma NoTieAboveHead<T>(t: seq<Scored<T>>, score: real)
    requires Descending(t) && (t != [] ==> t[0].score < score)
    ensures Tied(t, score) == []
  {
    var below := (x: Scored<T>) => x.score < score;
    AllFilter(below, (x: Scored<T>) => x.score == score, t);
    HeadHas(below, Tied(t, score));
    HeadHas((x: Scored<T>) => x.score == score, Tied(t, score));
  }

  /** There is only one stable descending sort, so every implementation of it ranks like SortDesc. */
  lemma {:induction false} StableSortIsUnique<T>(t: seq<Scored<T>>, u: seq<Scored<T>>)
    requires Descending(t) && Descending(u) && forall score :: Tied(t, score) == Tied(u, score)
    ensures t == u
    decreases |t|
  {
    if t == [] {
      HeadIsTied(u);
    } else {
      TiedTail(t, t[0].score);
      assert Tied(t, t[0].score) == Tied(u, t[0].score);
      if u == [] || u[0].score < t[0].score { NoTieAboveHead(u, t[0].score); }
      TiedTail(u, u[0].score);
      assert Tied(t, u[0].score) == Tied(u, u[0].score);
      if t[0].score < u[0].score { NoTieAboveHead(t, u[0].score); }
      assert t[0] == Tied(t, t[0].score)[0] == Tied(u, u[0].score)[0] == u[0];
      forall score ensures Tied(t[1..], score) == Tied(u[1..], score) {
        TiedTail(t, score);
        TiedTail(u, score);
        assert Tied(t, score) == Tied(u, score);
        if t[0].score == score {
          assert Tied(t[1..], score) == Tied(t, score)[1..];
          assert Tied(u[1..], score) == Tied(u, score)[1..];
        } else {
          assert Tied(t[1..], score) == Tied(t, score);
        }
      }
      StableSortIsUnique(t[1..], u[1..]);
      assert t == [t[0]] + t[1..];
    }
  }

  /** The sort is the one stable descending arrangement. */
  lemma StableSortIsSortDesc<T>(s: seq<Scored<T>>, t: seq<Scored<T>>)
    ensures IsStableSort(s, t) <==> t == SortDesc(s)
  {
    SortIsStable(s);
    if IsStableSort(s, t) {
      forall score ensures Tied(t, score) == Tied(SortDesc(s), score) {
        assert Tied(t, score) == Tied(s, score);
      }
      StableSortIsUnique(t, SortDesc(s));
    }
  }

  // ----- Maps and slices -----

  lemma {:induction false} FilterMap<T, U>(f: T -> U, keepT: T -> bool, keepU: U -> bool, s: seq<T>)
    requires forall i :: 0 <= i < |s| ==> keepU(f(s[i])) == keepT(s[i])
    ensures Filter(keepU, Map(f, s)) == Map(f, Filter(keepT, s))
  {
    if s != [] {
      FilterMap(f, keepT, keepU, s[1..]);
      FilterCons(keepU, f(s[0]), Map(f, s[1..]));
      var rest := Filter(keepT, s[1..]);
      assert ([s[0]] + rest)[1..] == rest;
      assert Filter(keepT, s) == if keepT(s[0]) then [s[0]] + rest else rest;
      assert Map(f, [s[0]] + rest) == [f(s[0])] + Map(f, rest);
    }
  }

  lemma {:induction false} FilterTwice<T>(a: T -> bool, b: T -> bool, both: T -> bool, s: seq<T>)
    requires forall i :: 0 <= i < |s| ==> both(s[i]) == (a(s[i]) && b(s[i]))
    ensures Filter(b, Filter(a, s)) == Filter(both, s)
  {
    if s != [] {
      FilterTwice(a, b, both, s[1..]);
      var rest := Filter(a, s[1..]);
      FilterCons(b, s[0], rest);
      assert Filter(a, s) == if a(s[0]) then [s[0]] + rest else rest;
    }
  }

  lemma {:induction false} MapAt<T, U>(f: T -> U, s: seq<T>, i: nat)
    requires i < |s|
    ensures Map(f, s)[i] == f(s[i])
  {
    if i > 0 { MapAt(f, s[1..], i - 1); }
  }

  /** How many of n elements a slice with count k has. */
  function Taken(n: nat, k: int): nat {
    if k >= 0 then (if k <= n then k else n) else if n + k >= 0 then n + k else 0
  }

  /**
   One slice starts with another exactly if it has no fewer elements, as a larger count gives as long as
   both counts have the same sign.
   */
  lemma TakePrefix<T>(s: seq<T>, j: int, k: int)
    ensures |Take(s, j)| == Taken(|s|, j)
    ensures Take(s, j) <= Take(s, k) <==> Taken(|s|, j) <= Taken(|s|, k)
    ensures j <= k && (0 <= j || k < 0) ==> Take(s, j) <= Take(s, k)
  {
    if Taken(|s|, j) <= Taken(|s|, k) {
      assert Take(s, j) == s[..Taken(|s|, j)] && Take(s, k) == s[..Taken(|s|, k)];
      assert s[..Taken(|s|, k)][..Taken(|s|, j)] == s[..Taken(|s|, j)];
    }
  }

  // ----- Ranking by a score -----

  function WithScore<T>(score: T -> real): T -> Scored<T> {
    x => Scored(x, score(x))
  }

  function Item<T>(x: Scored<T>): T {
    x.item
  }

  /** All of s, best first, equals in the order of s. */
  function Rank<T>(score: T -> real, s: seq<T>): seq<T> {
    Map((x: Scored<T>) => Item(x), SortDesc(Map(WithScore(score), s)))
  }

  ghost predicate Honest<T>(score: T -> real, s: seq<Scored<T>>) {
    forall i :: 0 <= i < |s| ==> s[i].score == score(s[i].item)
  }

  lemma {:induction false} HonestSort<T>(score: T -> real, s: seq<T>)
    ensures Honest(score, SortDesc(Map(WithScore(score), s)))
  {
    if s != [] {
      var scored := Map(WithScore(score), s);
      HonestSort(score, s[1..]);
      assert scored == [WithScore(score)(s[0])] + Map(WithScore(score), s[1..]);
      assert scored[1..] == Map(WithScore(score), s[1..]);
      AllInsert((x: Scored<T>) => x.score == score(x.item), scored[0], SortDesc(scored[1..]));
    }
  }

  /** Ranking what is left after dropping some is dropping them from the ranking. */
  lemma RankFilter<T>(score: T -> real, keep: T -> bool, s: seq<T>)
    ensures Rank(score, Filter(keep, s)) == Filter(keep, Rank(score, s))
  {
    var scored := Map(WithScore(score), s);
    var keepScored := (x: Scored<T>) => keep(x.item);
    FilterMap(WithScore(score), keep, keepScored, s);
    FilterSort(keepScored, scored);
    FilterMap((x: Scored<T>) => Item(x), keepScored, keep, SortDesc(scored));
  }

  /** A better rank never has a lower score. */
  lemma RankOrder<T>(score: T -> real, s: seq<T>, i: nat, j: nat)
    requires i <= j < |Rank(score, s)|
    ensures score(Rank(score, s)[i]) >= score(Rank(score, s)[j])
  {
    var sorted := SortDesc(Map(WithScore(score), s));
    SortIsDescending(Map(WithScore(score), s));
    HonestSort(score, s);
    MapAt((x: Scored<T>) => Item(x), sorted, i);
    MapAt((x: Scored<T>) => Item(x), sorted, j);
  }

  lemma {:induction false} InsertPermutes<T>(x: Scored<T>, s: seq<Scored<T>>)
    ensures multiset(Insert(x, s)) == multiset([x] + s)
  {
    if s != [] && s[0].score > x.score {
      InsertPermutes(x, s[1..]);
      assert s == [s[0]] + s[1..];
    }
  }

  lemma {:induction false} SortPermutes<T>(s: seq<Scored<T>>)
    ensures multiset(SortDesc(s)) == multiset(s)
  {
    if s != [] {
      SortPermutes(s[1..]);
      InsertPermutes(s[0], SortDesc(s[1..]));
      assert s == [s[0]] + s[1..];
    }
  }

  lemma {:induction false} MapIn<T, U>(f: T -> U, s: seq<T>, y: U)
    ensures y in Map(f, s) <==> exists i :: 0 <= i < |s| && y == f(s[i])
  {
    forall i | 0 <= i < |s| ensures Map(f, s)[i] == f(s[i]) { MapAt(f, s, i); }
  }

  /** A ranking leaves nothing out and adds nothing. */
  lemma RankSameElements<T>(score: T -> real, s: seq<T>, x: T)
    ensures x in Rank(score, s) <==> x in s
  {
    var scored := Map(WithScore(score), s);
    var sorted := SortDesc(scored);
    SortPermutes(scored);
    HonestSort(score, s);
    MapIn((y: Scored<T>) => Item(y), sorted, x);
    MapIn(WithScore(score), s, Scored(x, score(x)));
    assert Scored(x, score(x)) in sorted <==> Scored(x, score(x)) in multiset(sorted);
    assert Scored(x, score(x)) in scored <==> Scored(x, score(x)) in multiset(scored);
    if x in Rank(score, s) {
      var i :| 0 <= i < |sorted| && x == Item(sorted[i]);
      assert sorted[i] in sorted;
    }
  }

  function HasScore<T>(score: T -> real, tie: real): T -> bool {
    x => score(x) == tie
  }

  /** Equal scores keep their order. */
  lemma RankKeepsTies<T>(score: T -> real, s: seq<T>, tie: real)
    ensures Filter(HasScore(score, tie), Rank(score, s)) == Filter(HasScore(score, tie), s)
  {
    var keep := HasScore(score, tie);
    RankFilter(score, keep, s);
    AllFilter((x: T) => true, keep, s);
    RankOfTied(score, Filter(keep, s), tie);
  }

  /** The first of a ranking is outscored by none. */
  lemma FirstIsBest<T>(score: T -> real, s: seq<T>, x: T)
    requires x in s
    ensures Rank(score, s) != [] && score(Rank(score, s)[0]) >= score(x)
  {
    RankSameElements(score, s, x);
    var i :| 0 <= i < |Rank(score, s)| && Rank(score, s)[i] == x;
    RankOrder(score, s, 0, i);
  }

  lemma RankOfTied<T>(score: T -> real, s: seq<T>, tie: real)
    requires forall i :: 0 <= i < |s| ==> score(s[i]) == tie
    ensures Rank(score, s) == s
  {
    var scored := Map(WithScore(score), s);
    forall i | 0 <= i < |s| ensures scored[i] == Scored(s[i], tie) { MapAt(WithScore(score), s, i); }
    SortOfTied(scored, tie);
    forall i | 0 <= i < |s| ensures Rank(score, s)[i] == s[i] { MapAt((x: Scored<T>) => Item(x), scored, i); }
  }
}
