/**
 * The per-IP limiter: 100 requests per 60-second window counted from the
 * window's first request, and a 300-second block for whoever exceeds it.
 *
 * Instants are integer milliseconds. A request first reads the block key, then
 * increments the counter and, if that exceeds the limit, sets the block key; the
 * steps of different requests may interleave in any way.
 */
module IpRateLimit {
  const MAX_REQUESTS := 100
  const WINDOW := 60000
  const BLOCK := 300000

  /**
   * The cache entries of one IP: the counter and when it expires, when the
   * block expires, which requests have seen no block, which have exceeded the
   * limit and not yet set it, and when requests were admitted.
   */
  datatype Limiter = Limiter(
    count: nat,
    expires: int,
    blockedUntil: int,
    passed: set<nat>,
    over: set<nat>,
    admitted: seq<int>)

  datatype Event =
    | CheckBlock(request: nat, at: int)
    | Increment(request: nat, at: int)
    | SetBlock(request: nat, at: int)

  predicate Blocked(s: Limiter, at: int) { at < s.blockedUntil }

  /** The counter's new value: one more while the window lives, a fresh window otherwise. */
  function Incremented(s: Limiter, at: int): Limiter {
    if s.count > 0 && at < s.expires then s.(count := s.count + 1) else s.(count := 1, expires := at + WINDOW)
  }

  function Step(s: Limiter, e: Event): Limiter {
    match e
    case CheckBlock(r, at) =>
      if Blocked(s, at) then s else s.(passed := s.passed + {r})
    case Increment(r, at) =>
      if r !in s.passed then s
      else
        var s1 := Incremented(s, at).(passed := s.passed - {r});
        if s1.count > MAX_REQUESTS then s1.(over := s1.over + {r}) else s1.(admitted := s1.admitted + [at])
    case SetBlock(r, at) =>
      if r !in s.over then s else s.(blockedUntil := at + BLOCK, over := s.over - {r})
  }

  function Fresh(start: int): Limiter { Limiter(0, start, start, {}, {}, []) }

  function Run(s: Limiter, es: seq<Event>): Limiter {
    if es == [] then s else Step(Run(s, es[..|es| - 1]), es[|es| - 1])
  }

  /** A request's check and increment, and the whole of it, taken without interruption. */
  function Arrival(s: Limiter, r: nat, at: int): Limiter {
    Step(Step(s, CheckBlock(r, at)), Increment(r, at))
  }

  function Request(s: Limiter, r: nat, at: int): Limiter { Step(Arrival(s, r, at), SetBlock(r, at)) }

  ghost predicate InOrder(es: seq<Event>) {
    forall i, j :: 0 <= i < j < |es| ==> es[i].at <= es[j].at
  }

  function CountFrom(times: seq<int>, from: int): nat {
    if times == [] then 0
    else CountFrom(times[..|times| - 1], from) + if times[|times| - 1] >= from then 1 else 0
  }

  function CountIn(times: seq<int>, from: int, to: int): nat {
    if times == [] then 0
    else CountIn(times[..|times| - 1], from, to) + if from <= times[|times| - 1] < to then 1 else 0
  }

  /** Windows begun in a span of `x` milliseconds after the one already open. */
  function WindowsAfter(x: int): nat {
    if x <= 0 then 0 else (x + WINDOW - 1) / WINDOW
  }

  // ---------------------------------------------------------------------
  // The counting bound
  // ---------------------------------------------------------------------

  /** With the current window begun at `expires - WINDOW`, what can have been admitted since `from`. */
  ghost predicate CountBounded(s: Limiter, from: int) {
    && (s.count == 0 ==> CountFrom(s.admitted, from) == 0)
    && (s.count > 0 && s.expires <= from ==> CountFrom(s.admitted, from) == 0)
    && (s.count > 0 && s.expires > from ==>
          CountFrom(s.admitted, from)
            <= MAX_REQUESTS * WindowsAfter(s.expires - WINDOW - from)
               + (if s.count < MAX_REQUESTS then s.count else MAX_REQUESTS))
  }

  lemma AppendTime(times: seq<int>, t: int, from: int, to: int)
    ensures CountFrom(times + [t], from) == CountFrom(times, from) + if t >= from then 1 else 0
    ensures CountIn(times + [t], from, to) == CountIn(times, from, to) + if from <= t < to then 1 else 0
  {
    assert (times + [t])[..|times|] == times;
  }

  lemma NextWindow(earlier: int, later: int)
    requires earlier > -WINDOW && later >= earlier + WINDOW
    ensures WindowsAfter(later) >= WindowsAfter(earlier) + 1
  {
  }

  lemma LaterWindows(x: int, y: int)
    requires x <= y
    ensures WindowsAfter(x) <= WindowsAfter(y)
  {
  }

  lemma StepKeepsCount(s: Limiter, e: Event, from: int)
    requires CountBounded(s, from)
    ensures CountBounded(Step(s, e), from)
  {
    if e.Increment? && e.request in s.passed {
      AppendTime(s.admitted, e.at, from, from);
      if s.count > 0 && s.expires > from && e.at >= s.expires {
        NextWindow(s.expires - WINDOW - from, e.at - from);
      }
    }
  }

  lemma {:induction false} CountOverRuns(start: int, es: seq<Event>, from: int)
    ensures CountBounded(Run(Fresh(start), es), from)
  {
    if es != [] {
      CountOverRuns(start, es[..|es| - 1], from);
      StepKeepsCount(Run(Fresh(start), es[..|es| - 1]), es[|es| - 1], from);
    }
  }

  /** Every admission and every window begins at some event's instant. */
  lemma {:induction false} TimesAreEvents(start: int, es: seq<Event>, to: int)
    requires forall k :: 0 <= k < |es| ==> es[k].at < to
    ensures var s := Run(Fresh(start), es);
      && (forall k :: 0 <= k < |s.admitted| ==> s.admitted[k] < to)
      && (s.count > 0 ==> s.expires - WINDOW < to)
  {
    if es != [] {
      TimesAreEvents(start, es[..|es| - 1], to);
    }
  }

  lemma {:induction false} CountInIsCountFrom(times: seq<int>, from: int, to: int)
    requires forall k :: 0 <= k < |times| ==> times[k] < to
    ensures CountIn(times, from, to) == CountFrom(times, from)
  {
    if times != [] { CountInIsCountFrom(times[..|times| - 1], from, to); }
  }

  /** When no event of the run comes after the span, everything admitted since it began was admitted in it. */
  lemma BoundUpTo(start: int, es: seq<Event>, from: int, length: nat)
    requires length > 0 && forall k :: 0 <= k < |es| ==> es[k].at < from + length
    ensures CountIn(Run(Fresh(start), es).admitted, from, from + length)
      <= MAX_REQUESTS * (WindowsAfter(length - 1) + 1)
  {
    var s := Run(Fresh(start), es);
    TimesAreEvents(start, es, from + length);
    CountOverRuns(start, es, from);
    CountInIsCountFrom(s.admitted, from, from + length);
    if s.count > 0 { LaterWindows(s.expires - WINDOW - from, length - 1); }
  }

  lemma LateEventsDoNotCount(s: Limiter, e: Event, from: int, to: int)
    requires e.at >= to
    ensures CountIn(Step(s, e).admitted, from, to) == CountIn(s.admitted, from, to)
  {
    AppendTime(s.admitted, e.at, from, to);
  }

  /**
   * Over every interleaving, any span of `length` milliseconds admits at most
   * a hundred requests for each window that can begin in it, plus the one
   * already open.
   */
  lemma {:induction false} AdmissionBound(start: int, es: seq<Event>, from: int, length: nat)
    requires InOrder(es) && length > 0
    ensures CountIn(Run(Fresh(start), es).admitted, from, from + length)
      <= 100 * ((length + 59998) / 60000 + 1)
  {
    if es != [] && es[|es| - 1].at >= from + length {
      var n := |es| - 1;
      AdmissionBound(start, es[..n], from, length);
      LateEventsDoNotCount(Run(Fresh(start), es[..n]), es[n], from, from + length);
    } else {
      BoundUpTo(start, es, from, length);
    }
  }

  // ---------------------------------------------------------------------
  // The bound is reached
  // ---------------------------------------------------------------------

  /** Request `i` arrives, uninterrupted, at the start of window `i / 100`. */
  function FullBursts(n: nat): seq<Event> {
    if n == 0 then []
    else
      var at := BurstTime(n);
      FullBursts(n - 1) + [CheckBlock(n - 1, at)] + [Increment(n - 1, at)]
  }

  /** When request `n - 1` of the bursts arrives. */
  function BurstTime(n: nat): int { if n == 0 then 0 else (n - 1) / MAX_REQUESTS * WINDOW }

  lemma LaterBurst(n: nat)
    requires n > 0
    ensures 0 <= BurstTime(n - 1) <= BurstTime(n)
  {
  }

  lemma {:induction false} BurstsAreInOrder(n: nat)
    ensures InOrder(FullBursts(n))
    ensures forall k :: 0 <= k < |FullBursts(n)| ==> 0 <= FullBursts(n)[k].at <= BurstTime(n)
  {
    if n > 0 {
      BurstsAreInOrder(n - 1);
      LaterBurst(n);
    }
  }

  /** The limiter after `n` such requests. */
  ghost predicate AfterBursts(s: Limiter, n: nat) {
    && s.blockedUntil == 0 && s.passed == {} && |s.admitted| == n
    && (n == 0 ==> s.count == 0)
    && (n > 0 ==>
          var window := (n - 1) / MAX_REQUESTS * WINDOW;
          && s.count == (n - 1) % MAX_REQUESTS + 1 && s.expires == window + WINDOW
          && forall k :: 0 <= k < n ==> 0 <= s.admitted[k] <= window)
  }

  lemma BurstStep(s: Limiter, n: nat)
    requires AfterBursts(s, n)
    ensures AfterBursts(Arrival(s, n, n / MAX_REQUESTS * WINDOW), n + 1)
  {
    if n > 0 { NextBurst(n); }
    assert s.passed + {n} - {n} == {};
  }

  lemma {:induction false} BurstsAreAdmitted(n: nat)
    ensures AfterBursts(Run(Fresh(0), FullBursts(n)), n)
  {
    if n > 0 {
      var at := (n - 1) / MAX_REQUESTS * WINDOW;
      var before := FullBursts(n - 1);
      var e1, e2 := CheckBlock(n - 1, at), Increment(n - 1, at);
      BurstsAreAdmitted(n - 1);
      BurstStep(Run(Fresh(0), before), n - 1);
      assert (before + [e1])[..|before|] == before;
      assert (before + [e1] + [e2])[..|before + [e1]|] == before + [e1];
      assert Run(Fresh(0), before + [e1]) == Step(Run(Fresh(0), before), e1);
      assert Run(Fresh(0), before + [e1] + [e2]) == Step(Run(Fresh(0), before + [e1]), e2);
    }
  }

  /** Either the same window goes on, or the previous one is full and over. */
  lemma NextBurst(m: nat)
    requires m > 0
    ensures m % MAX_REQUESTS != 0 ==>
        m / MAX_REQUESTS == (m - 1) / MAX_REQUESTS && m % MAX_REQUESTS == (m - 1) % MAX_REQUESTS + 1
    ensures m % MAX_REQUESTS == 0 ==> m / MAX_REQUESTS == (m - 1) / MAX_REQUESTS + 1
  {
  }

  lemma {:induction false} CountAll(times: seq<int>, from: int, to: int)
    requires forall k :: 0 <= k < |times| ==> from <= times[k] < to
    ensures CountIn(times, from, to) == |times|
  {
    if times != [] { CountAll(times[..|times| - 1], from, to); }
  }

  lemma LastBurst(windows: nat)
    ensures (MAX_REQUESTS * (windows + 1) - 1) / MAX_REQUESTS == windows
    ensures WindowsAfter(windows * WINDOW) == windows
  {
  }

  lemma BurstsFill(n: nat, windows: nat)
    requires n > 0 && (n - 1) / MAX_REQUESTS == windows
    ensures CountIn(Run(Fresh(0), FullBursts(n)).admitted, 0, windows * WINDOW + 1) == n
  {
    BurstsAreAdmitted(n);
    CountAll(Run(Fresh(0), FullBursts(n)).admitted, 0, windows * WINDOW + 1);
  }

  /** For every number of windows, a span just long enough to start them admits exactly the bound. */
  lemma BoundIsReached(windows: nat)
    ensures var length := windows * WINDOW + 1;
      var es := FullBursts(MAX_REQUESTS * (windows + 1));
      && InOrder(es)
      && CountIn(Run(Fresh(0), es).admitted, 0, length) == 100 * ((length + 59998) / 60000 + 1)
  {
    var n := MAX_REQUESTS * (windows + 1);
    LastBurst(windows);
    BurstsAreInOrder(n);
    BurstsFill(n, windows);
  }

  // ---------------------------------------------------------------------
  // The block
  // ---------------------------------------------------------------------

  /** Does this event exceed the limit? */
  predicate Trips(s: Limiter, e: Event) {
    e.Increment? && e.request in s.passed && Incremented(s, e.at).count > MAX_REQUESTS
  }

  /** Does this event set the block? */
  predicate Blocks(s: Limiter, e: Event) { e.SetBlock? && e.request in s.over }

  /**
   * Whoever exceeds the limit is refused, and until the window ends nobody is
   * admitted, whether or not the block is set yet.
   */
  lemma {:induction false} FullWindowAdmitsNothing(s: Limiter, trip: Event, es: seq<Event>)
    requires Trips(s, trip)
    requires forall k :: 0 <= k < |es| ==> es[k].at < Step(s, trip).expires
    ensures var later := Run(Step(s, trip), es);
      later.admitted == s.admitted && later.count > 100 && later.expires == Step(s, trip).expires
  {
    if es != [] { FullWindowAdmitsNothing(s, trip, es[..|es| - 1]); }
  }

  /** Under every interleaving: once the block is set, no block check in the next 300 seconds is passed. */
  lemma {:induction false} BlockHolds(s: Limiter, block: Event, es: seq<Event>, check: Event)
    requires Blocks(s, block)
    requires forall k :: 0 <= k < |es| ==> es[k].at >= block.at
    requires check.CheckBlock? && check.at < block.at + 300000
    ensures Run(Step(s, block), es).blockedUntil >= block.at + 300000
    ensures Step(Run(Step(s, block), es), check) == Run(Step(s, block), es)
  {
    if es != [] { BlockHolds(s, block, es[..|es| - 1], check); }
  }

  /** So those 300 seconds admit at most the requests that were past their check when the block was set. */
  lemma {:induction false} OnlyInFlightAdmitted(s: Limiter, block: Event, es: seq<Event>)
    requires Blocks(s, block)
    requires forall k :: 0 <= k < |es| ==> block.at <= es[k].at < block.at + BLOCK
    ensures var later := Run(Step(s, block), es);
      && later.passed <= s.passed
      && |later.admitted| + |later.passed| <= |s.admitted| + |s.passed|
  {
    if es != [] {
      var n := |es| - 1;
      OnlyInFlightAdmitted(s, block, es[..n]);
      if es[n].CheckBlock? { BlockHolds(s, block, es[..n], es[n]); }
    }
  }

  predicate Admits(s: Limiter, r: nat, at: int) {
    |Request(s, r, at).admitted| > |s.admitted|
  }

  /** Nothing is in flight, and no window outlives the instant it was last used by more than its length. */
  ghost predicate Quiet(s: Limiter, clock: int) {
    s.passed == {} && s.over == {} && (s.count > 0 ==> s.expires <= clock + WINDOW)
  }

  function Requests(s: Limiter, times: seq<int>): Limiter {
    if times == [] then s else Request(Requests(s, times[..|times| - 1]), |times| - 1, times[|times| - 1])
  }

  predicate NonDecreasing(start: int, times: seq<int>) {
    && (forall k :: 0 <= k < |times| ==> start <= times[k])
    && (forall j, k :: 0 <= j < k < |times| ==> times[j] <= times[k])
  }

  lemma RequestKeepsQuiet(s: Limiter, r: nat, clock: int, at: int)
    requires Quiet(s, clock) && clock <= at
    ensures Quiet(Request(s, r, at), at)
  {
    assert {} + {r} - {r} == {};
  }

  /** Between requests taken one at a time the limiter is always quiet. */
  lemma {:induction false} QuietOverRuns(start: int, times: seq<int>, clock: int)
    requires NonDecreasing(start, times) && start <= clock
    requires forall k :: 0 <= k < |times| ==> times[k] <= clock
    ensures Quiet(Requests(Fresh(start), times), clock)
  {
    if times != [] {
      var n := |times| - 1;
      QuietOverRuns(start, times[..n], times[n]);
      RequestKeepsQuiet(Requests(Fresh(start), times[..n]), n, times[n], times[n]);
    }
  }

  lemma BlockedChangesNothing(s: Limiter, r: nat, at: int)
    requires Blocked(s, at) && s.passed == {} && s.over == {}
    ensures Request(s, r, at) == s
  {
  }

  lemma {:induction false} BlockedAllAlong(s: Limiter, times: seq<int>)
    requires s.passed == {} && s.over == {} && forall k :: 0 <= k < |times| ==> Blocked(s, times[k])
    ensures Requests(s, times) == s
  {
    if times != [] {
      BlockedAllAlong(s, times[..|times| - 1]);
      BlockedChangesNothing(s, |times| - 1, times[|times| - 1]);
    }
  }

  lemma TrippedState(s: Limiter, r: nat, at: int)
    requires Quiet(s, at) && !Blocked(s, at) && Incremented(s, at).count > MAX_REQUESTS
    ensures var tripped := Request(s, r, at);
      && tripped.admitted == s.admitted && tripped.blockedUntil == at + BLOCK
      && tripped.passed == {} && tripped.over == {} && tripped.expires <= at + WINDOW
  {
    assert {} + {r} - {r} == {};
  }

  /**
   * One request at a time, after any history: the request that trips the limit
   * is refused and starts a block; refused requests change nothing, so the block
   * ends exactly 300 seconds after the trip and the next request is admitted.
   */
  lemma {:induction false} BlockIsExact(start: int, before: seq<int>, r: nat, at: int, times: seq<int>)
    requires NonDecreasing(start, before + [at]) && start <= at
    requires var s := Requests(Fresh(start), before); !Blocked(s, at) && Incremented(s, at).count > MAX_REQUESTS
    requires forall k :: 0 <= k < |times| ==> at <= times[k] < at + BLOCK
    ensures var s := Requests(Fresh(start), before);
      var tripped := Request(s, r, at);
      && tripped.admitted == s.admitted && tripped.blockedUntil == at + 300000
      && Requests(tripped, times) == tripped
      && forall later :: later >= at + 300000 ==> Admits(tripped, r, later)
  {
    var s := Requests(Fresh(start), before);
    assert forall k :: 0 <= k < |before| ==> (before + [at])[k] == before[k];
    assert (before + [at])[|before|] == at;
    QuietOverRuns(start, before, at);
    TrippedState(s, r, at);
    BlockedAllAlong(Request(s, r, at), times);
  }

  /** The guard, for one IP. */
  class IpRateLimitGuard {
    var count: nat
    var expires: int
    var blockedUntil: int
    ghost var admitted: seq<int>

    ghost function State(): Limiter
      reads this
    {
      Limiter(count, expires, blockedUntil, {}, {}, admitted)
    }

    constructor (now: int)
      ensures State() == Fresh(now)
    {
      count, expires, blockedUntil, admitted := 0, now, now, [];
    }

    method IncrementWithTtlNx(now: int) returns (n: nat)
      modifies this
      ensures State() == Incremented(old(State()), now) && n == count
    {
      if count > 0 && now < expires {
        count := count + 1;
      } else {
        count := 1;
        expires := now + WINDOW;
      }
      n := count;
    }

    method CanActivate(now: int) returns (allowed: bool)
      modifies this
      ensures State() == Request(old(State()), 0, now)
      ensures allowed <==> Admits(old(State()), 0, now)
      ensures now < old(blockedUntil) ==> !allowed && State() == old(State())
      ensures !allowed ==> now < blockedUntil
    {
      if now < blockedUntil { return false; }
      var requestCount := IncrementWithTtlNx(now);
      if requestCount > MAX_REQUESTS {
        blockedUntil := now + BLOCK;
        return false;
      }
      admitted := admitted + [now];
      return true;
    }
  }
}
