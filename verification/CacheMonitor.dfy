/** Cache statistics per domain and agent: what `CacheMonitor` accumulates and how its rates relate. */
module CacheMonitor {
  import opened Options
  import opened Usage

  type Pair = (string, string)

  /** `CacheStats`, which is also what a bucket holds. */
  datatype CacheStats = CacheStats(calls: int, input: int, creation: int, read: int) {
    function HitRate(): real {
      if creation + read == 0 then 0.0 else read as real / (creation + read) as real
    }

    function Plus(usage: TokenUsage): CacheStats {
      CacheStats(calls + 1, input + usage.input, creation + usage.cacheCreation, read + usage.cacheRead)
    }
  }

  const NO_STATS := CacheStats(0, 0, 0, 0)

  datatype Record = Record(pair: Pair, usage: TokenUsage)

  /** The sum of the records of one pair. */
  function StatsOf(records: seq<Record>, pair: Pair): CacheStats {
    if records == [] then NO_STATS
    else
      var rest := StatsOf(records[..|records| - 1], pair);
      if records[|records| - 1].pair == pair then rest.Plus(records[|records| - 1].usage) else rest
  }

  /** What is counted of a call, and where a bucket holds it. */
  datatype Field = Calls | Input | Creation | Read {
    function Of(usage: TokenUsage): int {
      match this
      case Calls => 1
      case Input => usage.input
      case Creation => usage.cacheCreation
      case Read => usage.cacheRead
    }

    function In(stats: CacheStats): int {
      match this
      case Calls => stats.calls
      case Input => stats.input
      case Creation => stats.creation
      case Read => stats.read
    }
  }

  /** The sum of a field over records. */
  function Total(f: Field, records: seq<Record>): int {
    if records == [] then 0 else Total(f, records[..|records| - 1]) + f.Of(records[|records| - 1].usage)
  }

  /** The records of one pair. */
  function RecordsOf(records: seq<Record>, pair: Pair): seq<Record> {
    if records == [] then []
    else
      var rest, last := RecordsOf(records[..|records| - 1], pair), records[|records| - 1];
      if last.pair == pair then rest + [last] else rest
  }

  /** The pairs in the order of their first record. */
  function PairsOf(records: seq<Record>): seq<Pair> {
    if records == [] then []
    else
      var rest := PairsOf(records[..|records| - 1]);
      if records[|records| - 1].pair in rest then rest else rest + [records[|records| - 1].pair]
  }

  /** The sum of a field over the buckets of pairs. */
  function PairSum(f: Field, records: seq<Record>, pairs: seq<Pair>): int {
    if pairs == [] then 0
    else PairSum(f, records, pairs[..|pairs| - 1]) + f.In(StatsOf(records, pairs[|pairs| - 1]))
  }

  datatype Summary = Summary(entries: seq<(Pair, CacheStats, real)>, overallHitRate: real)

  function Rate(creation: int, read: int): real {
    if creation + read > 0 then read as real / (creation + read) as real else 0.0
  }

  class CacheMonitor {
    var data: map<Pair, CacheStats>
    var order: seq<Pair>  // the keys of data as they were inserted
    ghost var records: seq<Record>

    /** Each bucket is the sum of its own records. */
    ghost predicate Valid()
      reads this
    {
      && order == PairsOf(records)
      && (forall p :: p in data <==> p in order)
      && (forall p :: p in data ==> data[p] == StatsOf(records, p))
    }

    constructor ()
      ensures Valid() && records == []
    {
      data, order, records := map[], [], [];
    }

    /** `record`. */
    method RecordUsage(domain: string, agent: string, usage: TokenUsage)
      requires Valid()
      modifies this
      ensures Valid() && records == old(records) + [Record((domain, agent), usage)]
    {
      var key := (domain, agent);
      ghost var before := records;
      NoRecords(before, key);
      if key !in data {
        data, order := data[key := NO_STATS], order + [key];
      }
      var bucket := data[key];
      data := data[key := bucket.Plus(usage)];
      records := records + [Record(key, usage)];
      assert records[..|records| - 1] == before;
    }

    /** `get_stats`: the sum of the pair's records, zero for a pair without any. */
    method GetStats(domain: string, agent: string) returns (r: CacheStats)
      requires Valid()
      ensures r == StatsOf(records, (domain, agent))
    {
      NoRecords(records, (domain, agent));
      r := if (domain, agent) in data then data[(domain, agent)] else NO_STATS;
    }

    /** `summary`: an entry for each pair, and the rate over all of them. */
    method Summarize() returns (r: Summary)
      requires Valid()
      ensures |r.entries| == |PairsOf(records)|
      ensures forall i :: 0 <= i < |r.entries| ==>
                var p := PairsOf(records)[i];
                r.entries[i] == (p, StatsOf(records, p), StatsOf(records, p).HitRate())
      ensures r.overallHitRate == Rate(Total(Creation, records), Total(Read, records))
    {
      var entries: seq<(Pair, CacheStats, real)> := [];
      var creation, read := 0, 0;
      for i := 0 to |order|
        invariant |entries| == i
        invariant forall k :: 0 <= k < i ==>
                    entries[k] == (order[k], StatsOf(records, order[k]), StatsOf(records, order[k]).HitRate())
        invariant creation == PairSum(Creation, records, order[..i]) && read == PairSum(Read, records, order[..i])
      {
        var stats := GetStats(order[i].0, order[i].1);
        PairSumTake(Creation, records, order, i);
        PairSumTake(Read, records, order, i);
        entries := entries + [(order[i], stats, stats.HitRate())];
        creation := creation + stats.creation;
        read := read + stats.read;
      }
      assert order[..|order|] == order;
      NothingIsLost(Creation, records);
      NothingIsLost(Read, records);
      r := Summary(entries, Rate(creation, read));
    }
  }

  lemma PairSumTake(f: Field, records: seq<Record>, pairs: seq<Pair>, i: nat)
    requires i < |pairs|
    ensures PairSum(f, records, pairs[..i + 1])
            == PairSum(f, records, pairs[..i]) + f.In(StatsOf(records, pairs[i]))
  {
    assert pairs[..i + 1][..i] == pairs[..i];
  }

  lemma {:induction false} NoRecords(records: seq<Record>, pair: Pair)
    ensures pair !in PairsOf(records) ==> StatsOf(records, pair) == NO_STATS
  {
    if records != [] { NoRecords(records[..|records| - 1], pair); }
  }

  // ----- Conservation -----

  lemma TotalSnoc(f: Field, records: seq<Record>, last: Record)
    ensures Total(f, records + [last]) == Total(f, records) + f.Of(last.usage)
  {
    assert (records + [last])[..|records|] == records;
  }

  /** A bucket holds the sums over the records of its pair, whatever comes between them. */
  lemma {:induction false} StatsAre(f: Field, records: seq<Record>, pair: Pair)
    ensures f.In(StatsOf(records, pair)) == Total(f, RecordsOf(records, pair))
  {
    if records != [] {
      var init, last := records[..|records| - 1], records[|records| - 1];
      StatsAre(f, init, pair);
      TotalSnoc(f, RecordsOf(init, pair), last);
    }
  }

  /** Its calls are counted one by one. */
  lemma {:induction false} CallsAreCounted(records: seq<Record>)
    ensures Total(Calls, records) == |records|
  {
    if records != [] { CallsAreCounted(records[..|records| - 1]); }
  }

  lemma {:induction false} RecordsOfPair(records: seq<Record>, pair: Pair, r: Record)
    ensures r in RecordsOf(records, pair) <==> r in records && r.pair == pair
  {
    if records != [] {
      RecordsOfPair(records[..|records| - 1], pair, r);
      assert records == records[..|records| - 1] + [records[|records| - 1]];
    }
  }

  predicate Distinct(pairs: seq<Pair>) {
    pairs == [] || (pairs[|pairs| - 1] !in pairs[..|pairs| - 1] && Distinct(pairs[..|pairs| - 1]))
  }

  lemma {:induction false} PairsAreDistinct(records: seq<Record>)
    ensures Distinct(PairsOf(records))
  {
    if records != [] {
      var rest, pair := PairsOf(records[..|records| - 1]), records[|records| - 1].pair;
      PairsAreDistinct(records[..|records| - 1]);
      assert (rest + [pair])[..|rest|] == rest;
    }
  }

  /** One record more changes a sum by what it counts, if its pair is summed, once. */
  lemma {:induction false} SumStep(f: Field, records: seq<Record>, last: Record, pairs: seq<Pair>)
    requires Distinct(pairs)
    ensures PairSum(f, records + [last], pairs) == PairSum(f, records, pairs)
            + if last.pair in pairs then f.Of(last.usage) else 0
  {
    if pairs != [] {
      var init, pair := pairs[..|pairs| - 1], pairs[|pairs| - 1];
      assert (records + [last])[..|records|] == records;
      SumStep(f, records, last, init);
      assert last.pair in pairs <==> last.pair in init || last.pair == pair by { assert pairs == init + [pair]; }
    }
  }

  /** The buckets together hold the calls and the tokens of all records. */
  lemma {:induction false} NothingIsLost(f: Field, records: seq<Record>)
    ensures PairSum(f, records, PairsOf(records)) == Total(f, records)
  {
    if records != [] {
      var init, last := records[..|records| - 1], records[|records| - 1];
      var before, pairs := PairsOf(init), PairsOf(records);
      assert records == init + [last] && last.pair in pairs;
      NothingIsLost(f, init);
      PairsAreDistinct(records);
      SumStep(f, init, last, pairs);
      assert PairSum(f, init, pairs) == PairSum(f, init, before) by {
        if last.pair !in before { NewPairAddsNothing(f, init, last.pair, before); }
      }
    }
  }

  lemma NewPairAddsNothing(f: Field, records: seq<Record>, pair: Pair, pairs: seq<Pair>)
    requires pairs == PairsOf(records) && pair !in pairs
    ensures PairSum(f, records, pairs + [pair]) == PairSum(f, records, pairs)
  {
    assert (pairs + [pair])[..|pairs|] == pairs;
    NoRecords(records, pair);
  }

  // ----- The mediant bound -----

  ghost predicate NonNegative(records: seq<Record>) {
    forall i :: 0 <= i < |records| ==> records[i].usage.cacheCreation >= 0 && records[i].usage.cacheRead >= 0
  }

  lemma {:induction false} StatsAreNonNegative(records: seq<Record>, pair: Pair)
    requires NonNegative(records)
    ensures StatsOf(records, pair).creation >= 0 && StatsOf(records, pair).read >= 0
  {
    if records != [] { StatsAreNonNegative(records[..|records| - 1], pair); }
  }

  /** Every pair with cacheable tokens has a rate between lo and hi. */
  ghost predicate RatesWithin(records: seq<Record>, pairs: seq<Pair>, lo: real, hi: real) {
    forall i :: 0 <= i < |pairs| ==> Within(StatsOf(records, pairs[i]), lo, hi)
  }

  lemma RateTimesTotal(rate: real, read: real, total: real)
    requires total > 0.0
    ensures rate <= read / total <==> rate * total <= read
    ensures read / total <= rate <==> read <= rate * total
  {
    var q := read / total;
    assert q * total == read;
    if rate <= q { Scaled(rate, q, total); } else { ScaledStrictly(q, rate, total); }
    if q <= rate { Scaled(q, rate, total); } else { ScaledStrictly(rate, q, total); }
  }

  lemma Scaled(a: real, b: real, c: real)
    requires a <= b && c >= 0.0
    ensures a * c <= b * c
  {
  }

  lemma ScaledStrictly(a: real, b: real, c: real)
    requires a < b && c > 0.0
    ensures a * c < b * c
  {
  }

  /** The sums of two fractions with rates within bounds have a rate within them. */
  lemma Mediant(lo: real, hi: real, total: real, read: real, moreTotal: real, moreRead: real)
    requires lo * total <= read <= hi * total && lo * moreTotal <= moreRead <= hi * moreTotal
    ensures lo * (total + moreTotal) <= read + moreRead <= hi * (total + moreTotal)
  {
    assert lo * (total + moreTotal) == lo * total + lo * moreTotal;
    assert hi * (total + moreTotal) == hi * total + hi * moreTotal;
  }

  /** `Within` without the division. */
  ghost predicate Bounded(creation: int, read: int, lo: real, hi: real) {
    lo * (creation + read) as real <= read as real <= hi * (creation + read) as real
  }

  ghost predicate Within(s: CacheStats, lo: real, hi: real) {
    s.creation + s.read > 0 ==> lo <= s.HitRate() <= hi
  }

  lemma StatsWithin(s: CacheStats, lo: real, hi: real)
    requires s.creation >= 0 && s.read >= 0 && Within(s, lo, hi)
    ensures Bounded(s.creation, s.read, lo, hi)
  {
    var total := s.creation + s.read;
    if total > 0 {
      RateTimesTotal(lo, s.read as real, total as real);
      RateTimesTotal(hi, s.read as real, total as real);
    } else {
      assert s.read == 0 && total as real == 0.0;
    }
  }

  lemma BoundedSum(c: int, r: int, c': int, r': int, lo: real, hi: real)
    requires Bounded(c, r, lo, hi) && Bounded(c', r', lo, hi)
    ensures Bounded(c + c', r + r', lo, hi)
  {
    Mediant(lo, hi, (c + r) as real, r as real, (c' + r') as real, r' as real);
    assert (c + c' + (r + r')) as real == (c + r) as real + (c' + r') as real;
  }

  lemma {:induction false} SumsWithin(records: seq<Record>, pairs: seq<Pair>, lo: real, hi: real)
    requires NonNegative(records) && RatesWithin(records, pairs, lo, hi)
    ensures var c, r := PairSum(Creation, records, pairs), PairSum(Read, records, pairs);
            c >= 0 && r >= 0 && Bounded(c, r, lo, hi)
  {
    if pairs != [] {
      var init, s := pairs[..|pairs| - 1], StatsOf(records, pairs[|pairs| - 1]);
      SumsWithin(records, init, lo, hi);
      StatsAreNonNegative(records, pairs[|pairs| - 1]);
      assert Within(s, lo, hi);
      StatsWithin(s, lo, hi);
      BoundedSum(PairSum(Creation, records, init), PairSum(Read, records, init), s.creation, s.read, lo, hi);
    }
  }

  lemma RateWithin(creation: int, read: int, lo: real, hi: real)
    requires creation + read > 0 && Bounded(creation, read, lo, hi)
    ensures lo <= Rate(creation, read) <= hi
  {
    RateTimesTotal(lo, read as real, (creation + read) as real);
    RateTimesTotal(hi, read as real, (creation + read) as real);
  }

  lemma PairSumsAreMediant(records: seq<Record>, pairs: seq<Pair>, c: int, r: int, lo: real, hi: real)
    requires NonNegative(records) && RatesWithin(records, pairs, lo, hi)
    requires c == PairSum(Creation, records, pairs) && r == PairSum(Read, records, pairs) && c + r > 0
    ensures lo <= Rate(c, r) <= hi
  {
    assert Bounded(c, r, lo, hi) by { SumsWithin(records, pairs, lo, hi); }
    RateWithin(c, r, lo, hi);
  }

  /** The overall rate lies between bounds of the rates of the pairs with cacheable tokens, if there are any. */
  lemma OverallIsMediant(records: seq<Record>, lo: real, hi: real)
    requires NonNegative(records) && RatesWithin(records, PairsOf(records), lo, hi)
    requires Total(Creation, records) + Total(Read, records) > 0
    ensures lo <= Rate(Total(Creation, records), Total(Read, records)) <= hi
  {
    NothingIsLost(Creation, records);
    NothingIsLost(Read, records);
    PairSumsAreMediant(records, PairsOf(records), Total(Creation, records), Total(Read, records), lo, hi);
  }

  lemma ReadShare(read: real, total: real)
    requires total != 0.0
    ensures (read / total) * total == read
  {
  }

  /** A rate is what was read from the cache over all that could have been: a rate times its total is the reads. */
  lemma RatesAreShares(s: CacheStats, creation: int, read: int)
    ensures s.creation + s.read != 0 ==> s.HitRate() * (s.creation + s.read) as real == s.read as real
    ensures s.creation + s.read == 0 ==> s.HitRate() == 0.0
    ensures creation + read > 0 ==> Rate(creation, read) * (creation + read) as real == read as real
    ensures creation + read <= 0 ==> Rate(creation, read) == 0.0
  {
    if s.creation + s.read != 0 { ReadShare(s.read as real, (s.creation + s.read) as real); }
    if creation + read > 0 { ReadShare(read as real, (creation + read) as real); }
  }

  /** A rate is a fraction: with no negative tokens every rate lies between 0 and 1. */
  lemma RatesAreFractions(records: seq<Record>, pair: Pair)
    requires NonNegative(records)
    ensures 0.0 <= StatsOf(records, pair).HitRate() <= 1.0
  {
    StatsAreNonNegative(records, pair);
    var s := StatsOf(records, pair);
    if s.creation + s.read > 0 {
      RateTimesTotal(0.0, s.read as real, (s.creation + s.read) as real);
      RateTimesTotal(1.0, s.read as real, (s.creation + s.read) as real);
    }
  }
}
