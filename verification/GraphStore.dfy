/** The in-memory stores: soft-deleted memory nodes ranked by similarity, and the semantic pattern store. */
module GraphStore {
  import opened Options
  import opened Ranking
  import opened Cosine

  datatype MemoryType = Fact | Decision | Pattern | Preference | Error

  datatype Node = Node(
    id: nat,
    domain: string,
    content: string,
    memoryType: MemoryType,
    importance: real,
    embedding: seq<real>,
    source: Option<string>,
    metadata: map<string, string>)

  predicate InDomain(forgotten: set<nat>, domain: string, n: Node) {
    n.domain == domain && n.id !in forgotten
  }

  predicate IsCandidate(forgotten: set<nat>, domain: string, types: Option<set<MemoryType>>, n: Node) {
    InDomain(forgotten, domain, n) && (types.None? || n.memoryType in types.value)
  }

  function Candidates(nodes: seq<Node>, forgotten: set<nat>, domain: string,
                      types: Option<set<MemoryType>>): seq<Node> {
    Filter((n: Node) => IsCandidate(forgotten, domain, types, n), nodes)
  }

  function ScoreBy(root: real -> real, query: seq<real>): Node -> real {
    (n: Node) => Similarity(root, query, n.embedding)
  }

  /** Every candidate, best first: what a search gives when it is not cut. */
  function FullRanking(root: real -> real, nodes: seq<Node>, forgotten: set<nat>, domain: string,
                       types: Option<set<MemoryType>>, query: seq<real>): seq<Node> {
    Rank(ScoreBy(root, query), Candidates(nodes, forgotten, domain, types))
  }

  /** `InMemoryGraphStore`; a random UUID is a number not handed out before. */
  class InMemoryGraphStore {
    const root: real -> real
    const embedDocument: string -> seq<real>
    const embedQuery: string -> seq<real>
    var nodes: seq<Node>
    var forgotten: set<nat>
    var nextId: nat

    ghost predicate Valid()
      reads this
    {
      && (forall i :: 0 <= i < |nodes| ==> nodes[i].id < nextId)
      && (forall i, j :: 0 <= i < j < |nodes| ==> nodes[i].id != nodes[j].id)
      && forall x :: x in forgotten ==> x < nextId
    }

    constructor (root: real -> real, embedDocument: string -> seq<real>, embedQuery: string -> seq<real>)
      ensures Valid() && nodes == [] && forgotten == {}
      ensures this.root == root && this.embedDocument == embedDocument && this.embedQuery == embedQuery
    {
      this.root, this.embedDocument, this.embedQuery := root, embedDocument, embedQuery;
      nodes, forgotten, nextId := [], {}, 0;
    }

    method Store(domain: string, content: string, memoryType: MemoryType, importance: real,
                 source: Option<string>, metadata: map<string, string>)
      returns (id: nat)
      requires Valid()
      modifies this
      ensures Valid() && forgotten == old(forgotten) && id == old(nextId) && nextId == id + 1
      ensures nodes == old(nodes) + [Node(id, domain, content, memoryType, importance, embedDocument(content), source,
                                          metadata)]
    {
      id := nextId;
      nextId := nextId + 1;
      nodes := nodes + [Node(id, domain, content, memoryType, importance, embedDocument(content), source, metadata)];
    }

    method Get(id: nat) returns (n: Option<Node>)
      requires Valid()
      ensures n.Some? ==> n.value in nodes && n.value.id == id && id !in forgotten
      ensures n.None? ==> id in forgotten || forall m :: m in nodes ==> m.id != id
    {
      if id in forgotten { return None; }
      for i := 0 to |nodes|
        invariant forall j :: 0 <= j < i ==> nodes[j].id != id
      {
        if nodes[i].id == id { return Some(nodes[i]); }
      }
      n := None;
    }

    method Forget(id: nat) returns (done: bool)
      requires Valid()
      modifies this`forgotten
      ensures Valid()
      ensures done <==> id !in old(forgotten) && exists i :: 0 <= i < |nodes| && nodes[i].id == id
      ensures forgotten == if done then old(forgotten) + {id} else old(forgotten)
    {
      var n := Get(id);
      done := n.Some?;
      if done { forgotten := forgotten + {id}; }
    }

    method ListByDomain(domain: string) returns (r: seq<Node>)
      ensures r == Candidates(nodes, forgotten, domain, None)
    {
      r := [];
      for i := 0 to |nodes|
        invariant r == Candidates(nodes[..i], forgotten, domain, None)
      {
        CandidatesSnoc(nodes[..i], nodes[i], forgotten, domain, None);
        assert nodes[..i + 1] == nodes[..i] + [nodes[i]];
        if nodes[i].domain == domain && nodes[i].id !in forgotten { r := r + [nodes[i]]; }
      }
      assert nodes[..|nodes|] == nodes;
    }

    method Search(domain: string, query: string, matchCount: int, types: Option<set<MemoryType>>) returns (r: seq<Node>)
      ensures r == Take(FullRanking(root, nodes, forgotten, domain, types, embedQuery(query)), matchCount)
    {
      var vector := embedQuery(query);
      var candidates := [];
      for i := 0 to |nodes|
        invariant candidates == Candidates(nodes[..i], forgotten, domain, types)
      {
        CandidatesSnoc(nodes[..i], nodes[i], forgotten, domain, types);
        assert nodes[..i + 1] == nodes[..i] + [nodes[i]];
        if IsCandidate(forgotten, domain, types, nodes[i]) { candidates := candidates + [nodes[i]]; }
      }
      assert nodes[..|nodes|] == nodes;
      r := Take(Rank(ScoreBy(root, vector), candidates), matchCount);
    }
  }

  lemma {:induction false} FilterSnoc<T>(keep: T -> bool, s: seq<T>, x: T)
    ensures Filter(keep, s + [x]) == Filter(keep, s) + if keep(x) then [x] else []
  {
    if s == [] {
      assert s + [x] == [x];
    } else {
      FilterSnoc(keep, s[1..], x);
      assert (s + [x])[1..] == s[1..] + [x];
    }
  }

  lemma CandidatesSnoc(nodes: seq<Node>, n: Node, forgotten: set<nat>, domain: string, types: Option<set<MemoryType>>)
    ensures Candidates(nodes + [n], forgotten, domain, types)
            == Candidates(nodes, forgotten, domain, types)
            + if IsCandidate(forgotten, domain, types, n) then [n] else []
  {
    FilterSnoc((m: Node) => IsCandidate(forgotten, domain, types, m), nodes, n);
  }

  // ----- Searching and forgetting -----

  /** After forgetting x a search gives the old full ranking without x, cut afterwards. */
  lemma ForgetCommutesWithSearch(root: real -> real, nodes: seq<Node>, forgotten: set<nat>, x: nat, domain: string,
                                 types: Option<set<MemoryType>>, query: seq<real>, k: int)
    ensures Take(FullRanking(root, nodes, forgotten + {x}, domain, types, query), k)
            == Take(Filter((n: Node) => n.id != x, FullRanking(root, nodes, forgotten, domain, types, query)), k)
  {
    var notX := (n: Node) => n.id != x;
    FilterTwice((n: Node) => IsCandidate(forgotten, domain, types, n), notX,
                (n: Node) => IsCandidate(forgotten + {x}, domain, types, n), nodes);
    RankFilter(ScoreBy(root, query), notX, Candidates(nodes, forgotten, domain, types));
  }

  lemma {:induction false} FilterElements<T>(keep: T -> bool, s: seq<T>, x: T)
    ensures x in Filter(keep, s) <==> x in s && keep(x)
  {
    if s != [] {
      FilterElements(keep, s[1..], x);
      assert s == [s[0]] + s[1..];
      var rest := Filter(keep, s[1..]);
      assert x in [s[0]] + rest <==> x == s[0] || x in rest;
    }
  }

  /** A node is ranked exactly if it was stored, is not forgotten and fits the domain and the types. */
  lemma RankedIffCandidate(root: real -> real, nodes: seq<Node>, forgotten: set<nat>, domain: string,
                           types: Option<set<MemoryType>>, query: seq<real>, n: Node)
    ensures n in FullRanking(root, nodes, forgotten, domain, types, query)
            <==> n in nodes && n.domain == domain && n.id !in forgotten && (types.None? || n.memoryType in types.value)
  {
    RankSameElements(ScoreBy(root, query), Candidates(nodes, forgotten, domain, types), n);
    FilterElements((m: Node) => IsCandidate(forgotten, domain, types, m), nodes, n);
  }

  lemma RankedAt(s: seq<Node>, k: int, n: Node)
    requires n in s
    ensures exists i :: 0 <= i < |s| && s[i] == n && (n !in Take(s, k) ==> |Take(s, k)| <= i)
  {
    var i :| 0 <= i < |s| && s[i] == n;
    assert i < |Take(s, k)| ==> Take(s, k)[i] == n;
  }

  /** No candidate that a search leaves out outscores one that it returns. */
  lemma SearchReturnsTheBest(root: real -> real, nodes: seq<Node>, forgotten: set<nat>, domain: string,
                             types: Option<set<MemoryType>>, query: seq<real>, k: int, hit: Node, miss: Node)
    requires hit in Take(FullRanking(root, nodes, forgotten, domain, types, query), k)
    requires miss in Candidates(nodes, forgotten, domain, types)
    requires miss !in Take(FullRanking(root, nodes, forgotten, domain, types, query), k)
    ensures Similarity(root, query, hit.embedding) >= Similarity(root, query, miss.embedding)
  {
    var full := FullRanking(root, nodes, forgotten, domain, types, query);
    var score := ScoreBy(root, query);
    RankSameElements(score, Candidates(nodes, forgotten, domain, types), miss);
    RankedAt(full, k, miss);
    var j :| 0 <= j < |full| && full[j] == miss && |Take(full, k)| <= j;
    var i :| 0 <= i < |Take(full, k)| && Take(full, k)[i] == hit;
    RankOrder(score, Candidates(nodes, forgotten, domain, types), i, j);
  }

  /** Candidates of equal similarity come out in the order in which they were stored. */
  lemma TiesKeepInsertionOrder(root: real -> real, nodes: seq<Node>, forgotten: set<nat>, domain: string,
                               types: Option<set<MemoryType>>, query: seq<real>, tie: real)
    ensures Filter(HasScore(ScoreBy(root, query), tie), FullRanking(root, nodes, forgotten, domain, types, query))
            == Filter(HasScore(ScoreBy(root, query), tie), Candidates(nodes, forgotten, domain, types))
  {
    RankKeepsTies(ScoreBy(root, query), Candidates(nodes, forgotten, domain, types), tie);
  }

  lemma {:induction false} MapSame<T, U>(f: T -> U, g: T -> U, s: seq<T>)
    requires forall x :: f(x) == g(x)
    ensures Map(f, s) == Map(g, s)
  {
    if s != [] { MapSame(f, g, s[1..]); }
  }

  /** The length of the query vector does not matter to a search. */
  lemma QueryLengthIrrelevant(root: real -> real, nodes: seq<Node>, forgotten: set<nat>, domain: string,
                              types: Option<set<MemoryType>>, query: seq<real>, c: real)
    requires IsRoot(root) && c > 0.0
    ensures FullRanking(root, nodes, forgotten, domain, types, Scale(c, query))
            == FullRanking(root, nodes, forgotten, domain, types, query)
  {
    var long, short := ScoreBy(root, Scale(c, query)), ScoreBy(root, query);
    forall n: Node ensures WithScore(long)(n) == WithScore(short)(n) {
      SimilarityScale(root, c, query, n.embedding);
    }
    MapSame(WithScore(long), WithScore(short), Candidates(nodes, forgotten, domain, types));
  }

  /** Where the query points, the search goes first: no candidate outscores one that is a positive multiple of it. */
  lemma MultipleIsOutscoredByNone(root: real -> real, nodes: seq<Node>, forgotten: set<nat>, domain: string,
                                  types: Option<set<MemoryType>>, query: seq<real>, c: real, n: Node, m: Node)
    requires IsRoot(root) && c > 0.0 && query != [] && Dot(query, query) > 0.0
    requires n in Candidates(nodes, forgotten, domain, types) && n.embedding == Scale(c, query)
    ensures Similarity(root, query, m.embedding) <= Similarity(root, query, n.embedding) == 1.0
  {
    SimilarToMultiple(root, c, query);
    SimilarityBounded(root, query, m.embedding);
  }

  /** So the first hit of a search points where the query does, if any candidate does. */
  lemma FirstHitPointsThere(root: real -> real, nodes: seq<Node>, forgotten: set<nat>, domain: string,
                            types: Option<set<MemoryType>>, query: seq<real>, k: nat, c: real, n: Node)
    requires IsRoot(root) && c > 0.0 && query != [] && Dot(query, query) > 0.0
    requires n in Candidates(nodes, forgotten, domain, types) && n.embedding == Scale(c, query) && k >= 1
    ensures var hits := Take(FullRanking(root, nodes, forgotten, domain, types, query), k);
            hits != [] && Similarity(root, query, hits[0].embedding) == 1.0
  {
    var candidates := Candidates(nodes, forgotten, domain, types);
    FirstIsBest(ScoreBy(root, query), candidates, n);
    var first := Rank(ScoreBy(root, query), candidates)[0];
    MultipleIsOutscoredByNone(root, nodes, forgotten, domain, types, query, c, n, first);
  }

  // ----- The semantic store -----

  datatype PatternRecord = PatternRecord(domain: string, category: string, description: string, embedding: seq<real>)

  function PatternsOf(domain: string, patterns: seq<PatternRecord>): seq<PatternRecord> {
    Filter((p: PatternRecord) => p.domain == domain, patterns)
  }

  function PatternScore(root: real -> real, query: seq<real>): PatternRecord -> real {
    (p: PatternRecord) => Similarity(root, query, p.embedding)
  }

  class SemanticStore {
    const root: real -> real
    var patterns: seq<PatternRecord>

    constructor (root: real -> real)
      ensures patterns == [] && this.root == root
    {
      this.root, patterns := root, [];
    }

    method Store(p: PatternRecord)
      modifies this`patterns
      ensures patterns == old(patterns) + [p]
    {
      patterns := patterns + [p];
    }

    method Retrieve(domain: string, query: seq<real>, topK: int) returns (r: seq<PatternRecord>)
      ensures r == Take(Rank(PatternScore(root, query), PatternsOf(domain, patterns)), topK)
    {
      var inDomain := [];
      for i := 0 to |patterns|
        invariant inDomain == PatternsOf(domain, patterns[..i])
      {
        FilterSnoc((p: PatternRecord) => p.domain == domain, patterns[..i], patterns[i]);
        assert patterns[..i + 1] == patterns[..i] + [patterns[i]];
        if patterns[i].domain == domain { inDomain := inDomain + [patterns[i]]; }
      }
      assert patterns[..|patterns|] == patterns;
      r := Take(Rank(PatternScore(root, query), inDomain), topK);
    }
  }

  /** The first pattern that is retrieved points where the query does, if any pattern of the domain does. */
  lemma FirstPatternPointsThere(root: real -> real, domain: string, patterns: seq<PatternRecord>, query: seq<real>,
                                topK: nat, c: real, p: PatternRecord)
    requires IsRoot(root) && c > 0.0 && query != [] && Dot(query, query) > 0.0 && topK >= 1
    requires p in patterns && p.domain == domain && p.embedding == Scale(c, query)
    ensures var r := Take(Rank(PatternScore(root, query), PatternsOf(domain, patterns)), topK);
            r != [] && Similarity(root, query, r[0].embedding) == 1.0
  {
    FilterElements((q: PatternRecord) => q.domain == domain, patterns, p);
    FirstIsBest(PatternScore(root, query), PatternsOf(domain, patterns), p);
    SimilarToMultiple(root, c, query);
    SimilarityBounded(root, query, Rank(PatternScore(root, query), PatternsOf(domain, patterns))[0].embedding);
  }
}
