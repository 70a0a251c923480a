/** `InMemoryRateLimiter`: a pruned list per caller that decides like the full history of admissions. */
module RateLimiter {

  datatype Request = Request(caller: string, time: real)

  datatype RateLimitResult = RateLimitResult(allowed: bool, remaining: int, retryAfter: real)

  // ----- The full history -----

  /** How many admissions of a caller lie in the half-open window (from, to]. */
  function CountIn(history: seq<Request>, caller: string, from: real, to: real): nat {
    if history == [] then 0
    else
      var last := history[|history| - 1];
      CountIn(history[..|history| - 1], caller, from, to)
      + if last.caller == caller && from < last.time <= to then 1 else 0
  }

  predicate Admits(history: seq<Request>, r: Request, max: int, window: real) {
    CountIn(history, r.caller, r.time - window, r.time) < max
  }

  /** The admissions of a run of requests, each decided by counting the window before it. */
  function History(requests: seq<Request>, max: int, window: real): seq<Request> {
    if requests == [] then []
    else
      var before := History(requests[..|requests| - 1], max, window);
      var last := requests[|requests| - 1];
      if Admits(before, last, max, window) then before + [last] else before
  }

  predicate NotAfter(requests: seq<Request>, now: real) {
    requests == [] || (requests[|requests| - 1].time <= now && NotAfter(requests[..|requests| - 1], now))
  }

  /** Times never decrease. */
  predicate InOrder(requests: seq<Request>) {
    requests == []
    || (InOrder(requests[..|requests| - 1]) && NotAfter(requests[..|requests| - 1], requests[|requests| - 1].time))
  }

  lemma {:induction false} NotAfterLater(history: seq<Request>, t: real, later: real)
    requires NotAfter(history, t) && t <= later
    ensures NotAfter(history, later)
  {
    if history != [] { NotAfterLater(history[..|history| - 1], t, later); }
  }

  lemma InOrderSnoc(history: seq<Request>, r: Request)
    requires InOrder(history) && NotAfter(history, r.time)
    ensures InOrder(history + [r]) && NotAfter(history + [r], r.time)
  {
    assert (history + [r])[..|history|] == history;
  }

  // ----- What the limiter keeps of it -----

  function Times(history: seq<Request>, caller: string): seq<real> {
    if history == [] then []
    else
      var init, last := Times(history[..|history| - 1], caller), history[|history| - 1];
      if last.caller == caller then init + [last.time] else init
  }

  /** The times after the cut-off. */
  function After(times: seq<real>, cut: real): seq<real> {
    if times == [] then []
    else
      var init, last := After(times[..|times| - 1], cut), times[|times| - 1];
      if last > cut then init + [last] else init
  }

  lemma AfterSnoc(times: seq<real>, t: real, cut: real)
    ensures After(times + [t], cut) == if t > cut then After(times, cut) + [t] else After(times, cut)
  {
    assert (times + [t])[..|times|] == times;
  }

  lemma {:induction false} AfterLater(times: seq<real>, cut: real, later: real)
    requires cut <= later
    ensures After(After(times, cut), later) == After(times, later)
  {
    if times != [] {
      var init, last := times[..|times| - 1], times[|times| - 1];
      AfterLater(init, cut, later);
      AfterSnoc(After(init, cut), last, later);
    }
  }

  /** The kept times are those that the window count counts. */
  lemma {:induction false} AfterCounts(history: seq<Request>, caller: string, from: real, to: real)
    requires NotAfter(history, to)
    ensures |After(Times(history, caller), from)| == CountIn(history, caller, from, to)
  {
    if history != [] {
      var init, last := history[..|history| - 1], history[|history| - 1];
      AfterCounts(init, caller, from, to);
      AfterSnoc(Times(init, caller), last.time, from);
    }
  }

  predicate Sorted(times: seq<real>) {
    forall i, j :: 0 <= i < j < |times| ==> times[i] <= times[j]
  }

  predicate AtMost(times: seq<real>, t: real) {
    forall i :: 0 <= i < |times| ==> times[i] <= t
  }

  lemma {:induction false} AfterSorted(times: seq<real>, cut: real)
    requires Sorted(times)
    ensures Sorted(After(times, cut))
    ensures forall i :: 0 <= i < |After(times, cut)| ==> After(times, cut)[i] > cut
  {
    if times != [] {
      var init, last := times[..|times| - 1], times[|times| - 1];
      AfterSorted(init, cut);
      AfterAtMost(init, cut, last);
    }
  }

  lemma {:induction false} AfterAtMost(times: seq<real>, cut: real, t: real)
    requires AtMost(times, t)
    ensures AtMost(After(times, cut), t)
  {
    if times != [] { AfterAtMost(times[..|times| - 1], cut, t); }
  }

  lemma {:induction false} TimesSorted(history: seq<Request>, caller: string)
    requires InOrder(history)
    ensures Sorted(Times(history, caller))
  {
    if history != [] {
      var init, last := history[..|history| - 1], history[|history| - 1];
      TimesSorted(init, caller);
      TimesAtMost(init, caller, last.time);
    }
  }

  lemma {:induction false} TimesAtMost(history: seq<Request>, caller: string, t: real)
    requires NotAfter(history, t)
    ensures AtMost(Times(history, caller), t)
  {
    if history != [] { TimesAtMost(history[..|history| - 1], caller, t); }
  }

  /** Everything after one cut-off also lies after an earlier one that the oldest survives. */
  lemma {:induction false} AfterAll(times: seq<real>, cut: real)
    requires forall i :: 0 <= i < |times| ==> times[i] > cut
    ensures After(times, cut) == times
  {
    if times != [] { AfterAll(times[..|times| - 1], cut); }
  }

  lemma {:induction false} AfterFewer(times: seq<real>, cut: real)
    requires times != [] && times[0] <= cut
    ensures |After(times, cut)| < |times|
  {
    if |times| > 1 { AfterFewer(times[..|times| - 1], cut); }
  }

  lemma {:induction false} AfterShorter(times: seq<real>, cut: real)
    ensures |After(times, cut)| <= |times|
  {
    if times != [] { AfterShorter(times[..|times| - 1], cut); }
  }

  // ----- The limiter -----

  /** The two lists of times agree on everything after any cut-off from `cut` on. */
  ghost predicate SameAfter(kept: seq<real>, all: seq<real>, cut: real) {
    forall c: real :: c >= cut ==> After(kept, c) == After(all, c)
  }

  lemma SameAfterSnoc(kept: seq<real>, all: seq<real>, cut: real, t: real)
    requires SameAfter(kept, all, cut)
    ensures SameAfter(kept + [t], all + [t], cut)
  {
    forall c: real | c >= cut ensures After(kept + [t], c) == After(all + [t], c) {
      AfterSnoc(kept, t, c);
      AfterSnoc(all, t, c);
    }
  }

  /** Pruning keeps the agreement for later cut-offs. */
  lemma SameAfterPruned(kept: seq<real>, all: seq<real>, cut: real, later: real)
    requires SameAfter(kept, all, cut) && cut <= later
    ensures After(kept, later) == After(all, later)
    ensures SameAfter(After(kept, later), all, later)
  {
    forall c: real | c >= later ensures After(After(kept, later), c) == After(all, c) {
      AfterLater(kept, later, c);
    }
  }

  lemma TimesSnoc(history: seq<Request>, r: Request)
    ensures forall c ::
              Times(history + [r], c) == if r.caller == c then Times(history, c) + [r.time] else Times(history, c)
  {
    assert (history + [r])[..|history|] == history;
  }

  /** How long a refused caller has to wait: until the oldest admission in the window leaves it. */
  function RetryAfter(history: seq<Request>, caller: string, now: real, window: real): real {
    var inWindow := After(Times(history, caller), now - window);
    if inWindow == [] then 0.0 else inWindow[0] + window - now
  }

  function Kept(requests: map<string, seq<real>>, caller: string): seq<real> {
    if caller in requests then requests[caller] else []
  }

  /** From the cut-off on the list of each caller tells the same as its full history. */
  ghost predicate Agrees(requests: map<string, seq<real>>, history: seq<Request>, max: int, cut: real) {
    forall c :: SameAfter(Kept(requests, c), Times(history, c), cut) && (c in requests ==> |requests[c]| <= max)
  }

  /** What the limiter keeps at some time is in step with the admissions until then. */
  ghost predicate InStep(requests: map<string, seq<real>>, history: seq<Request>, max: int, window: real, clock: real) {
    InOrder(history) && NotAfter(history, clock) && Agrees(requests, history, max, clock - window)
  }

  class InMemoryRateLimiter {
    const max: int
    const window: real
    const enabled: bool
    var requests: map<string, seq<real>>
    ghost var checks: seq<Request>
    ghost var history: seq<Request>
    ghost var clock: real

    /** Every check so far is in checks; history is what they admitted. */
    ghost predicate Valid()
      reads this
    {
      && Sound()
      && InOrder(checks) && NotAfter(checks, clock)
      && history == if max > 0 then History(checks, max, window) else []
    }

    /** What the limiter keeps agrees with the admissions. */
    ghost predicate Sound()
      reads this`requests, this`history, this`clock
    {
      enabled == (max > 0) && InStep(requests, history, max, window, clock)
    }

    constructor (max: int, window: real, now: real)
      ensures Valid() && checks == [] && clock == now && this.max == max && this.window == window
    {
      this.max, this.window, enabled := max, window, max > 0;
      requests, checks, history, clock := map[], [], [], now;
    }

    /** The clock never goes back, and now is what it shows. */
    method Check(caller: string, now: real) returns (r: RateLimitResult)
      requires Valid() && now >= clock
      modifies this
      ensures Valid() && clock == now && checks == old(checks) + [Request(caller, now)]
      ensures max <= 0 ==> r == RateLimitResult(true, 0, 0.0)
      ensures max > 0 ==> Decides(old(history), caller, now, max, window, r)
      ensures r.allowed <==> max <= 0 || Admits(old(history), Request(caller, now), max, window)
    {
      ChecksStep(checks, history, clock, max, window, Request(caller, now));
      r := CheckWindow(caller, now);
      checks := checks + [Request(caller, now)];
    }

    /** The check itself. */
    method CheckWindow(caller: string, now: real) returns (r: RateLimitResult)
      requires Sound() && now >= clock
      modifies this`requests, this`history, this`clock
      ensures Sound() && clock == now
      ensures max <= 0 ==> r == RateLimitResult(true, 0, 0.0)
      ensures max > 0 ==> Decides(old(history), caller, now, max, window, r)
      ensures r.allowed <==> max <= 0 || Admits(old(history), Request(caller, now), max, window)
      ensures history == NextHistory(old(history), Request(caller, now), max, window)
    {
      var cutoff := now - window;
      var kept := After(Kept(requests, caller), cutoff);
      if !enabled {
        InStepLater(requests, history, max, window, clock, now);
        clock := now;
        return RateLimitResult(true, 0, 0.0);
      }
      if |kept| >= max {
        RefusalIsRight(requests, history, max, window, clock, now, caller, kept);
        requests, clock := requests[caller := kept], now;
        var retryAfter := kept[0] + window - now;
        return RateLimitResult(false, 0, if retryAfter > 0.0 then retryAfter else 0.0);
      }
      AdmissionIsRight(requests, history, max, window, clock, now, caller, kept);
      history, clock := history + [Request(caller, now)], now;
      requests := requests[caller := kept + [now]];
      r := RateLimitResult(true, max - |kept| - 1, 0.0);
    }
  }

  /** The history after a check. */
  function NextHistory(history: seq<Request>, r: Request, max: int, window: real): seq<Request> {
    if max > 0 && Admits(history, r, max, window) then history + [r] else history
  }

  lemma ChecksStep(checks: seq<Request>, history: seq<Request>, clock: real, max: int, window: real, r: Request)
    requires InOrder(checks) && NotAfter(checks, clock) && clock <= r.time
    requires history == if max > 0 then History(checks, max, window) else []
    ensures InOrder(checks + [r]) && NotAfter(checks + [r], r.time)
    ensures NextHistory(history, r, max, window) == if max > 0 then History(checks + [r], max, window) else []
  {
    NotAfterLater(checks, clock, r.time);
    InOrderSnoc(checks, r);
    HistorySnoc(checks, r, max, window);
  }

  lemma InStepLater(requests: map<string, seq<real>>, history: seq<Request>, max: int, window: real, clock: real,
                    now: real)
    requires InStep(requests, history, max, window, clock) && clock <= now
    ensures InStep(requests, history, max, window, now)
  {
    NotAfterLater(history, clock, now);
    AgreesLater(requests, history, max, clock - window, now - window);
  }

  lemma RefusalIsRight(requests: map<string, seq<real>>, history: seq<Request>, max: int, window: real, clock: real,
                       now: real, caller: string, kept: seq<real>)
    requires InStep(requests, history, max, window, clock) && clock <= now
    requires kept == After(Kept(requests, caller), now - window) && |kept| >= max > 0
    ensures InStep(requests[caller := kept], history, max, window, now)
    ensures kept[0] + window - now > 0.0
    ensures Decides(history, caller, now, max, window, RateLimitResult(false, 0, kept[0] + window - now))
    ensures !Admits(history, Request(caller, now), max, window)
    ensures NextHistory(history, Request(caller, now), max, window) == history
  {
    InStepPruned(requests, history, max, window, clock, now, caller, kept);
    FullWindowRefuses(history, max, window, now, caller, kept);
  }

  lemma FullWindowRefuses(history: seq<Request>, max: int, window: real, now: real, caller: string, kept: seq<real>)
    requires InOrder(history) && NotAfter(history, now)
    requires kept == After(Times(history, caller), now - window) && |kept| == max > 0
    ensures kept[0] + window - now > 0.0
    ensures Decides(history, caller, now, max, window, RateLimitResult(false, 0, kept[0] + window - now))
    ensures !Admits(history, Request(caller, now), max, window)
  {
    KeptIsWindow(history, caller, now, window, kept);
  }

  lemma InStepPruned(requests: map<string, seq<real>>, history: seq<Request>, max: int, window: real, clock: real,
                     now: real, caller: string, kept: seq<real>)
    requires InStep(requests, history, max, window, clock) && clock <= now
    requires kept == After(Kept(requests, caller), now - window) && max > 0
    ensures InStep(requests[caller := kept], history, max, window, now)
    ensures kept == After(Times(history, caller), now - window) && |kept| <= max
  {
    NotAfterLater(history, clock, now);
    AgreesPruned(requests, history, max, clock - window, now - window, caller, kept);
  }

  lemma AdmissionIsRight(requests: map<string, seq<real>>, history: seq<Request>, max: int, window: real, clock: real,
                         now: real, caller: string, kept: seq<real>)
    requires InStep(requests, history, max, window, clock) && clock <= now
    requires kept == After(Kept(requests, caller), now - window) && |kept| < max
    ensures InStep(requests[caller := kept + [now]], history + [Request(caller, now)], max, window, now)
    ensures Decides(history, caller, now, max, window, RateLimitResult(true, max - |kept| - 1, 0.0))
    ensures Admits(history, Request(caller, now), max, window)
    ensures max > 0 ==> NextHistory(history, Request(caller, now), max, window) == history + [Request(caller, now)]
  {
    InStepAdmitted(requests, history, max, window, clock, now, caller, kept);
    KeptIsWindow(history, caller, now, window, kept);
  }

  lemma InStepAdmitted(requests: map<string, seq<real>>, history: seq<Request>, max: int, window: real, clock: real,
                       now: real, caller: string, kept: seq<real>)
    requires InStep(requests, history, max, window, clock) && clock <= now
    requires kept == After(Kept(requests, caller), now - window) && |kept| < max
    ensures InStep(requests[caller := kept + [now]], history + [Request(caller, now)], max, window, now)
    ensures kept == After(Times(history, caller), now - window) && NotAfter(history, now)
  {
    NotAfterLater(history, clock, now);
    InOrderSnoc(history, Request(caller, now));
    AgreesAdmitted(requests, history, max, clock - window, now, window, caller, kept);
  }

  /** The answer that counting the full history gives. */
  predicate Decides(history: seq<Request>, caller: string, now: real, max: int, window: real, r: RateLimitResult) {
    var count := CountIn(history, caller, now - window, now);
    if count < max then r == RateLimitResult(true, max - count - 1, 0.0)
    else count == max && r == RateLimitResult(false, 0, RetryAfter(history, caller, now, window))
  }

  lemma AgreesLater(requests: map<string, seq<real>>, history: seq<Request>, max: int, cut: real, later: real)
    requires Agrees(requests, history, max, cut) && cut <= later
    ensures Agrees(requests, history, max, later)
  {
    forall c ensures SameAfter(Kept(requests, c), Times(history, c), later) {
      SameAfterLater(Kept(requests, c), Times(history, c), cut, later);
    }
  }

  lemma AgreesPruned(requests: map<string, seq<real>>, history: seq<Request>, max: int, cut: real, later: real,
                     caller: string, kept: seq<real>)
    requires Agrees(requests, history, max, cut) && cut <= later && max > 0
             && kept == After(Kept(requests, caller), later)
    ensures Agrees(requests[caller := kept], history, max, later)
    ensures kept == After(Times(history, caller), later) && |kept| <= max
  {
    AgreesLater(requests, history, max, cut, later);
    SameAfterPruned(Kept(requests, caller), Times(history, caller), cut, later);
    AfterShorter(Kept(requests, caller), later);
    forall c ensures SameAfter(Kept(requests[caller := kept], c), Times(history, c), later) {
      if c != caller { assert Kept(requests[caller := kept], c) == Kept(requests, c); }
    }
  }

  lemma AgreesAdmitted(requests: map<string, seq<real>>, history: seq<Request>, max: int, cut: real, now: real,
                       window: real, caller: string, kept: seq<real>)
    requires Agrees(requests, history, max, cut) && cut <= now - window
    requires kept == After(Kept(requests, caller), now - window) && |kept| < max
    ensures kept == After(Times(history, caller), now - window)
    ensures Agrees(requests[caller := kept + [now]], history + [Request(caller, now)], max, now - window)
  {
    var later := now - window;
    var requests', history' := requests[caller := kept + [now]], history + [Request(caller, now)];
    AgreesPruned(requests, history, max, cut, later, caller, kept);
    assert SameAfter(Kept(requests[caller := kept], caller), Times(history, caller), later);
    SameAfterSnoc(kept, Times(history, caller), later, now);
    TimesSnoc(history, Request(caller, now));
    forall c ensures SameAfter(Kept(requests', c), Times(history', c), later) {
      if c != caller {
        assert Kept(requests', c) == Kept(requests[caller := kept], c);
        assert Times(history', c) == Times(history, c);
      }
    }
  }

  lemma SameAfterLater(kept: seq<real>, all: seq<real>, cut: real, later: real)
    requires SameAfter(kept, all, cut) && cut <= later
    ensures SameAfter(kept, all, later)
  {
  }

  /** The pruned list is the window: as many times as the window counts, the oldest first, none expired. */
  lemma KeptIsWindow(history: seq<Request>, caller: string, now: real, window: real, kept: seq<real>)
    requires InOrder(history) && NotAfter(history, now)
    requires kept == After(Times(history, caller), now - window)
    ensures |kept| == CountIn(history, caller, now - window, now)
    ensures kept != [] ==>
              kept[0] + window - now > 0.0 && kept[0] + window - now == RetryAfter(history, caller, now, window)
  {
    AfterCounts(history, caller, now - window, now);
    TimesSorted(history, caller);
    AfterSorted(Times(history, caller), now - window);
  }

  // ----- What that means over whole runs -----

  lemma HistorySnoc(requests: seq<Request>, r: Request, max: int, window: real)
    ensures History(requests + [r], max, window)
            == var before := History(requests, max, window);
               if Admits(before, r, max, window) then before + [r] else before
  {
    assert (requests + [r])[..|requests|] == requests;
  }

  lemma {:induction false} HistoryInOrder(requests: seq<Request>, max: int, window: real)
    requires InOrder(requests)
    ensures InOrder(History(requests, max, window))
  {
    if requests != [] {
      var init, last := requests[..|requests| - 1], requests[|requests| - 1];
      HistoryInOrder(init, max, window);
      HistoryNotAfter(init, max, window, last.time);
      InOrderSnoc(History(init, max, window), last);
    }
  }

  lemma {:induction false} HistoryNotAfter(requests: seq<Request>, max: int, window: real, t: real)
    requires NotAfter(requests, t)
    ensures NotAfter(History(requests, max, window), t)
  {
    if requests != [] { HistoryNotAfter(requests[..|requests| - 1], max, window, t); }
  }

  /** Of two windows with the same admissions behind them, the wider one counts no less. */
  lemma {:induction false} CountMonotone(history: seq<Request>, caller: string, from: real, to: real, from': real,
                                         to': real)
    requires from' <= from && NotAfter(history, to')
    ensures CountIn(history, caller, from, to) <= CountIn(history, caller, from', to')
  {
    if history != [] { CountMonotone(history[..|history| - 1], caller, from, to, from', to'); }
  }

  /** No window of the given length ever holds more admissions of a caller than allowed. */
  lemma {:induction false} NoWindowOverflows(requests: seq<Request>, max: int, window: real, caller: string, t: real)
    requires InOrder(requests) && max > 0
    ensures CountIn(History(requests, max, window), caller, t - window, t) <= max
  {
    if requests != [] {
      var init, last := requests[..|requests| - 1], requests[|requests| - 1];
      var before := History(init, max, window);
      NoWindowOverflows(init, max, window, caller, t);
      HistorySnoc(init, last, max, window);
      assert init + [last] == requests;
      if Admits(before, last, max, window) {
        assert (before + [last])[..|before|] == before;
        if last.caller == caller && t - window < last.time <= t {
          HistoryNotAfter(init, max, window, last.time);
          CountMonotone(before, caller, t - window, t, last.time - window, last.time);
        }
      }
    }
  }

  function Of(requests: seq<Request>, caller: string): seq<Request> {
    if requests == [] then []
    else
      var init, last := Of(requests[..|requests| - 1], caller), requests[|requests| - 1];
      if last.caller == caller then init + [last] else init
  }

  lemma OfSnoc(requests: seq<Request>, r: Request, caller: string)
    ensures Of(requests + [r], caller)
            == if r.caller == caller then Of(requests, caller) + [r] else Of(requests, caller)
  {
    assert (requests + [r])[..|requests|] == requests;
  }

  lemma {:induction false} CountOfOwn(history: seq<Request>, caller: string, from: real, to: real)
    ensures CountIn(Of(history, caller), caller, from, to) == CountIn(history, caller, from, to)
  {
    if history != [] {
      var init, last := history[..|history| - 1], history[|history| - 1];
      CountOfOwn(init, caller, from, to);
      assert (Of(init, caller) + [last])[..|Of(init, caller)|] == Of(init, caller);
    }
  }

  /** A caller's admissions are what they would be if no one else had ever called. */
  lemma {:induction false} CallersAreIndependent(requests: seq<Request>, max: int, window: real, caller: string)
    ensures Of(History(requests, max, window), caller) == History(Of(requests, caller), max, window)
  {
    if requests != [] {
      var init, last := requests[..|requests| - 1], requests[|requests| - 1];
      var before := History(init, max, window);
      CallersAreIndependent(init, max, window, caller);
      OwnStep(before, last, max, window, caller, Of(init, caller));
    }
  }

  /** One more request, in the history of everyone and in the history of the caller's own requests. */
  lemma OwnStep(before: seq<Request>, last: Request, max: int, window: real, caller: string, own: seq<Request>)
    requires Of(before, caller) == History(own, max, window)
    ensures Of(if Admits(before, last, max, window) then before + [last] else before, caller)
            == History(if last.caller == caller then own + [last] else own, max, window)
  {
    OfSnoc(before, last, caller);
    CountOfOwn(before, caller, last.time - window, last.time);
    HistorySnoc(own, last, max, window);
  }

  /**
   The wait named in a refusal is exact: any earlier check of the caller would be refused as well, and
   a check at that very moment is admitted.
   */
  lemma RetryAfterIsExact(history: seq<Request>, caller: string, now: real, max: int, window: real, later: real)
    requires InOrder(history) && NotAfter(history, now) && max > 0
    requires CountIn(history, caller, now - window, now) == max && later >= now
    ensures RetryAfter(history, caller, now, window) > 0.0
    ensures later < now + RetryAfter(history, caller, now, window)
            ==> !Admits(history, Request(caller, later), max, window)
    ensures later == now + RetryAfter(history, caller, now, window)
            ==> Admits(history, Request(caller, later), max, window)
  {
    var inWindow := After(Times(history, caller), now - window);
    KeptIsWindow(history, caller, now, window, inWindow);
    LaterCount(history, caller, now, window, later, inWindow);
    WhatIsLeft(inWindow, later - window);
  }

  /** Checks later on count what is left of the window. */
  lemma LaterCount(history: seq<Request>, caller: string, now: real, window: real, later: real, inWindow: seq<real>)
    requires InOrder(history) && NotAfter(history, now) && later >= now
    requires inWindow == After(Times(history, caller), now - window)
    ensures |After(inWindow, later - window)| == CountIn(history, caller, later - window, later) && Sorted(inWindow)
  {
    NotAfterLater(history, now, later);
    AfterCounts(history, caller, later - window, later);
    AfterLater(Times(history, caller), now - window, later - window);
    TimesSorted(history, caller);
    AfterSorted(Times(history, caller), now - window);
  }

  /** Everything is left of sorted times until the oldest goes. */
  lemma WhatIsLeft(times: seq<real>, cut: real)
    requires Sorted(times) && times != []
    ensures cut < times[0] ==> After(times, cut) == times
    ensures cut >= times[0] ==> |After(times, cut)| < |times|
  {
    if cut < times[0] { AfterAll(times, cut); } else { AfterFewer(times, cut); }
  }

  /** The same request n times. */
  function Repeated(r: Request, n: nat): seq<Request> {
    if n == 0 then [] else Repeated(r, n - 1) + [r]
  }

  lemma {:induction false} CountRepeated(history: seq<Request>, r: Request, n: nat, window: real)
    requires window > 0.0
    ensures CountIn(history + Repeated(r, n), r.caller, r.time - window, r.time)
            == CountIn(history, r.caller, r.time - window, r.time) + n
  {
    if n == 0 {
      assert history + [] == history;
    } else {
      var longer := history + Repeated(r, n);
      assert longer[|longer| - 1] == r && longer[..|longer| - 1] == history + Repeated(r, n - 1);
      CountRepeated(history, r, n - 1, window);
    }
  }

  lemma {:induction false} NothingInEmptyWindow(history: seq<Request>, caller: string, from: real, to: real)
    requires to <= from
    ensures CountIn(history, caller, from, to) == 0
  {
    if history != [] { NothingInEmptyWindow(history[..|history| - 1], caller, from, to); }
  }

  /**
   The number named in an admission is exact: that many more checks at the same moment are admitted, and no more,
   unless the window is empty, where all are.
   */
  lemma RemainingIsExact(history: seq<Request>, r: Request, max: int, window: real, answer: RateLimitResult, more: nat)
    requires Decides(history, r.caller, r.time, max, window, answer) && answer.allowed
    ensures Admits(history + Repeated(r, 1 + more), r, max, window) <==> more < answer.remaining || window <= 0.0
  {
    if window > 0.0 {
      CountRepeated(history, r, 1 + more, window);
    } else {
      NothingInEmptyWindow(history + Repeated(r, 1 + more), r.caller, r.time - window, r.time);
    }
  }
}
