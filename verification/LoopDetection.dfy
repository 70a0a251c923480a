/** `ResourceEditTracker`: counting calls per resource, and how many of them draw a warning. */
module LoopDetection {
  import opened Transcript

  /** `_extract_resource`; an API call without an operation has the empty resource. */
  function Resource(name: string, input: map<string, string>): string {
    if name == "execute_api" then (if "operation" in input then input["operation"] else "") else name
  }

  function Count(log: seq<string>, r: string): nat {
    if log == [] then 0 else Count(log[..|log| - 1], r) + if log[|log| - 1] == r then 1 else 0
  }

  /** What a call of a tool answers when its resource has been used `times` times. */
  function GuidanceFor(threshold: int, name: string, resource: string, times: nat): Guidance {
    if times >= threshold then Reconsider(name, resource, times) else NoGuidance
  }

  class ResourceEditTracker {
    const threshold: int
    var counts: map<string, nat>
    ghost var log: seq<string>

    ghost predicate Valid()
      reads this
    {
      && (forall r :: r in log <==> r in counts)
      && forall r :: r in counts ==> counts[r] == Count(log, r)
    }

    constructor (threshold: int)
      ensures Valid() && log == [] && counts == map[] && this.threshold == threshold
    {
      this.threshold, counts, log := threshold, map[], [];
    }

    method Record(name: string, input: map<string, string>) returns (guidance: Guidance)
      requires Valid()
      modifies this
      ensures Valid()
      ensures var resource := Resource(name, input);
              if resource == "" then log == old(log) && counts == old(counts) && guidance == NoGuidance
              else log == old(log) + [resource]
                   && guidance == GuidanceFor(threshold, name, resource, Count(log, resource))
    {
      var resource := Resource(name, input);
      if resource == "" { return NoGuidance; }
      CountSnoc(log, resource);
      CountAbsent(log, resource);
      counts := counts[resource := (if resource in counts then counts[resource] else 0) + 1];
      log := log + [resource];
      if counts[resource] >= threshold {
        return Reconsider(name, resource, counts[resource]);
      }
      return NoGuidance;
    }

    method Reset()
      requires Valid()
      modifies this
      ensures Valid() && counts == map[] && log == []
    {
      counts, log := map[], [];
    }
  }

  lemma CountSnoc(log: seq<string>, x: string)
    ensures forall r :: Count(log + [x], r) == Count(log, r) + if r == x then 1 else 0
  {
    assert (log + [x])[..|log|] == log;
  }

  lemma {:induction false} CountAbsent(log: seq<string>, r: string)
    ensures Count(log, r) == 0 <==> r !in log
  {
    if log != [] {
      CountAbsent(log[..|log| - 1], r);
      assert log == log[..|log| - 1] + [log[|log| - 1]];
    }
  }

  // ----- How many warnings a log draws -----

  /** One warning for every entry whose resource has then been seen threshold times or more. */
  function Warnings(log: seq<string>, threshold: int): nat {
    if log == [] then 0
    else
      var init, last := log[..|log| - 1], log[|log| - 1];
      Warnings(init, threshold) + if Count(log, last) >= threshold then 1 else 0
  }

  /** How many of n calls on one resource are warned about: all from the threshold-th on. */
  function Excess(n: nat, threshold: int): nat {
    if threshold <= 1 then n else if n < threshold then 0 else n - threshold + 1
  }

  ghost function SumOver(rs: set<string>, f: string -> nat): nat {
    if rs == {} then 0 else var r :| r in rs; f(r) + SumOver(rs - {r}, f)
  }

  lemma {:induction false} SumPick(rs: set<string>, f: string -> nat, x: string)
    requires x in rs
    ensures SumOver(rs, f) == f(x) + SumOver(rs - {x}, f)
    decreases |rs|
  {
    var r :| r in rs && SumOver(rs, f) == f(r) + SumOver(rs - {r}, f);
    if r != x {
      SumPick(rs - {r}, f, x);
      SumPick(rs - {x}, f, r);
      assert rs - {r} - {x} == rs - {x} - {r};
    }
  }

  lemma {:induction false} SumSame(rs: set<string>, f: string -> nat, g: string -> nat)
    requires forall r :: r in rs ==> f(r) == g(r)
    ensures SumOver(rs, f) == SumOver(rs, g)
    decreases |rs|
  {
    if rs != {} {
      var r :| r in rs;
      SumPick(rs, f, r);
      SumPick(rs, g, r);
      SumSame(rs - {r}, f, g);
    }
  }

  function Resources(log: seq<string>): set<string> {
    set r | r in log
  }

  function ExcessIn(log: seq<string>, threshold: int): string -> nat {
    r => Excess(Count(log, r), threshold)
  }

  /** The warnings of a whole log in closed form: for each resource, the calls from the threshold-th on. */
  lemma {:induction false} WarningsClosedForm(log: seq<string>, threshold: int)
    ensures Warnings(log, threshold) == SumOver(Resources(log), ExcessIn(log, threshold))
  {
    if log == [] {
      assert Resources(log) == {};
    } else {
      var init, x := log[..|log| - 1], log[|log| - 1];
      var before, after := ExcessIn(init, threshold), ExcessIn(log, threshold);
      assert log == init + [x];
      WarningsClosedForm(init, threshold);
      CountSnoc(init, x);
      CountAbsent(init, x);
      var others := Resources(init) - {x};
      assert Resources(log) == others + {x};
      assert Resources(log) - {x} == others;
      SumPick(Resources(log), after, x);
      SumSame(others, before, after);
      if x in init {
        SumPick(Resources(init), before, x);
      } else {
        assert Resources(init) == others;
      }
    }
  }
}
