/** `AuditLogger`: a capped log with an index per caller that eviction keeps in step. */
module AuditLog {

  datatype AuditEvent = Request | AuthFailure | RateLimited | Dispatch | InjectionDetected

  datatype Details = Details(domain: string, operativoId: string, path: string, httpMethod: string, statusCode: int,
                             requestId: string)

  /** An entry is an object, because eviction compares entries by identity. */
  class AuditEntry {
    const event: AuditEvent
    const callerId: string
    const details: Details
    const timestamp: real

    constructor (event: AuditEvent, callerId: string, details: Details, timestamp: real)
      ensures this.event == event && this.callerId == callerId && this.details == details && this.timestamp == timestamp
    {
      this.event, this.callerId, this.details, this.timestamp := event, callerId, details, timestamp;
    }
  }

  /** The entries of one caller, in order. */
  function OfCaller(entries: seq<AuditEntry>, caller: string): seq<AuditEntry> {
    if entries == [] then []
    else if entries[0].callerId == caller then [entries[0]] + OfCaller(entries[1..], caller)
    else OfCaller(entries[1..], caller)
  }

  /** The last n elements, all of them if there are fewer, none for a number below one. */
  function LastN<T>(s: seq<T>, n: int): seq<T> {
    if n <= 0 then [] else if |s| <= n then s else s[|s| - n..]
  }

  lemma {:induction false} OfCallerAppend(a: seq<AuditEntry>, b: seq<AuditEntry>, caller: string)
    ensures OfCaller(a + b, caller) == OfCaller(a, caller) + OfCaller(b, caller)
  {
    if a == [] {
      assert a + b == b;
    } else {
      assert (a + b)[1..] == a[1..] + b;
      OfCallerAppend(a[1..], b, caller);
    }
  }

  lemma OfCallerOne(e: AuditEntry, caller: string)
    ensures OfCaller([e], caller) == if e.callerId == caller then [e] else []
  {
    assert [e][1..] == [];
  }

  /** The list of a caller holds just the entries of that caller. */
  lemma {:induction false} OfCallerElements(entries: seq<AuditEntry>, caller: string, e: AuditEntry)
    ensures e in OfCaller(entries, caller) <==> e in entries && e.callerId == caller
  {
    if entries != [] {
      OfCallerElements(entries[1..], caller, e);
      assert e in entries <==> e == entries[0] || e in entries[1..];
    }
  }

  /** Trimming after each entry leaves what trimming once at the end would. */
  lemma LastNStep<T>(s: seq<T>, x: T, n: int)
    ensures LastN(LastN(s, n) + [x], n) == LastN(s + [x], n)
  {
  }

  class AuditLogger {
    const max: int
    var entries: seq<AuditEntry>
    var byCaller: map<string, seq<AuditEntry>>
    ghost var logged: seq<AuditEntry>

    ghost predicate Valid()
      reads this
    {
      && entries == LastN(logged, max)
      && Indexes(byCaller, entries)
    }

    constructor (max: int)
      ensures Valid() && logged == [] && this.max == max
    {
      this.max, entries, byCaller, logged := max, [], map[], [];
    }

    /** `now` is what the wall clock shows; it replaces a missing timestamp. */
    method Log(entry: AuditEntry, now: real)
      requires Valid()
      modifies this
      ensures Valid()
      ensures |logged| == |old(logged)| + 1 && logged[..|old(logged)|] == old(logged)
      ensures var last := logged[|old(logged)|];
              if entry.timestamp == 0.0 then
                fresh(last) && last.timestamp == now
                && last.event == entry.event && last.callerId == entry.callerId && last.details == entry.details
              else last == entry
    {
      var e := entry;
      if entry.timestamp == 0.0 {
        e := new AuditEntry(entry.event, entry.callerId, entry.details, now);
      }
      IndexesSnoc(byCaller, entries, e);
      LastNStep(logged, e, max);
      logged := logged + [e];
      entries := entries + [e];
      if e.callerId != "" {
        byCaller := byCaller[e.callerId := Listed(byCaller, e.callerId) + [e]];
      }
      if |entries| > max {
        var overflow := |entries| - max;
        var removed := if overflow <= |entries| then entries[..overflow] else entries;
        assert entries == removed + entries[|removed|..];
        entries := entries[|removed|..];
        Evict(removed);
      }
    }

    /** The clean-up loop: the head of the caller's list is the entry that goes, so every guard holds. */
    method Evict(removed: seq<AuditEntry>)
      requires Indexes(byCaller, removed + entries)
      modifies this`byCaller
      ensures Indexes(byCaller, entries)
    {
      for i := 0 to |removed|
        invariant Indexes(byCaller, removed[i..] + entries)
      {
        var r := removed[i];
        var left := removed[i + 1..] + entries;
        assert removed[i..] + entries == [r] + left;
        IndexesTail(byCaller, r, left);
        if r.callerId != "" && r.callerId in byCaller {
          var callerList := byCaller[r.callerId];
          assert callerList != [] && callerList[0] == r;
          if callerList != [] && callerList[0] == r {
            byCaller := byCaller[r.callerId := callerList[1..]];
          }
        }
      }
      assert removed[|removed|..] + entries == entries;
    }

    method Entries() returns (r: seq<AuditEntry>)
      requires Valid()
      ensures r == LastN(logged, max)
    {
      r := entries;
    }

    method EntriesByCaller(caller: string) returns (r: seq<AuditEntry>)
      requires Valid()
      ensures r == if caller == "" then [] else OfCaller(LastN(logged, max), caller)
    {
      r := Listed(byCaller, caller);
    }
  }

  function Listed(byCaller: map<string, seq<AuditEntry>>, caller: string): seq<AuditEntry> {
    if caller in byCaller then byCaller[caller] else []
  }

  /** The list of every caller is the subsequence of its entries; no name, no list. */
  ghost predicate Indexes(byCaller: map<string, seq<AuditEntry>>, entries: seq<AuditEntry>) {
    "" !in byCaller && forall c :: c != "" ==> Listed(byCaller, c) == OfCaller(entries, c)
  }

  lemma IndexesSnoc(byCaller: map<string, seq<AuditEntry>>, entries: seq<AuditEntry>, e: AuditEntry)
    requires Indexes(byCaller, entries)
    ensures Indexes(if e.callerId == "" then byCaller else byCaller[e.callerId := Listed(byCaller, e.callerId) + [e]],
                    entries + [e])
  {
    var after := if e.callerId == "" then byCaller else byCaller[e.callerId := Listed(byCaller, e.callerId) + [e]];
    forall c | c != "" ensures Listed(after, c) == OfCaller(entries + [e], c) {
      OfCallerAppend(entries, [e], c);
      OfCallerOne(e, c);
      assert Listed(byCaller, c) == OfCaller(entries, c);
    }
  }

  /** Dropping the oldest entry drops the head of its caller's list, which is that very entry. */
  lemma IndexesTail(byCaller: map<string, seq<AuditEntry>>, r: AuditEntry, left: seq<AuditEntry>)
    requires Indexes(byCaller, [r] + left)
    ensures r.callerId == "" ==> Indexes(byCaller, left)
    ensures r.callerId != "" ==> r.callerId in byCaller && byCaller[r.callerId] != [] && byCaller[r.callerId][0] == r
    ensures r.callerId != "" ==> Indexes(byCaller[r.callerId := byCaller[r.callerId][1..]], left)
  {
    assert ([r] + left)[1..] == left;
    assert forall c :: OfCaller([r] + left, c) == (if r.callerId == c then [r] else []) + OfCaller(left, c);
    if r.callerId != "" {
      assert Listed(byCaller, r.callerId) == [r] + OfCaller(left, r.callerId);
      var after := byCaller[r.callerId := byCaller[r.callerId][1..]];
      forall c | c != "" ensures Listed(after, c) == OfCaller(left, c) {
        assert Listed(byCaller, c) == OfCaller([r] + left, c);
      }
    } else {
      forall c | c != "" ensures Listed(byCaller, c) == OfCaller(left, c) {
        assert Listed(byCaller, c) == OfCaller([r] + left, c);
      }
    }
  }
}
