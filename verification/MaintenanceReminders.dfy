/**
 * "You marked it resolved: please confirm." A resolved request is reminded
 * about twice, a week apart, and closed a week after that.
 *
 * Instants are integer milliseconds since the epoch. The seven-day gate counts
 * Lagos days (UTC+1); the reminder window counts UTC days.
 */
module MaintenanceReminders {
  const DAY := 86400000
  const LAGOS_OFFSET := 3600000
  const INTERVAL_DAYS := 7
  const MAX_REMINDERS := 2

  function LagosDay(at: int): int { (at + LAGOS_OFFSET) / DAY }

  function UtcDay(at: int): int { at / DAY }

  datatype Status = Resolved | Closed | Reopened

  /** A queued reminder; it stops counting when its delivery fails for good. */
  datatype Reminder = Reminder(at: int, live: bool)

  datatype Request = Request(resolvedAt: int, status: Status, autoClosed: bool, hasPhone: bool, log: seq<Reminder>)

  // ---------------------------------------------------------------------
  // One request, one tick
  // ---------------------------------------------------------------------

  predicate DueForAction(r: Request, now: int) {
    && r.status == Resolved
    && LagosDay(now) - LagosDay(r.resolvedAt) >= INTERVAL_DAYS
    && r.hasPhone
  }

  /** A live reminder exists in today's or the previous six UTC days. */
  predicate RemindedRecently(log: seq<Reminder>, now: int) {
    exists i :: 0 <= i < |log| && log[i].live && log[i].at >= (UtcDay(now) - (INTERVAL_DAYS - 1)) * DAY
  }

  function LiveCount(log: seq<Reminder>): nat {
    if log == [] then 0 else LiveCount(log[..|log| - 1]) + if log[|log| - 1].live then 1 else 0
  }

  function Remind(r: Request, now: int): Request {
    r.(log := r.log + [Reminder(now, true)])
  }

  /** The conditional flip: only a request still resolved is closed. */
  function AutoClose(r: Request): Request {
    if r.status == Resolved then r.(status := Closed, autoClosed := true) else r
  }

  datatype Outcome = Skipped | Reminded | ClosedIt

  function Decide(r: Request, now: int): Outcome {
    if !DueForAction(r, now) || RemindedRecently(r.log, now) then Skipped
    else if LiveCount(r.log) >= MAX_REMINDERS then ClosedIt
    else Reminded
  }

  function Process(r: Request, now: int): Request {
    match Decide(r, now)
    case Skipped => r
    case Reminded => Remind(r, now)
    case ClosedIt => AutoClose(r)
  }

  // ---------------------------------------------------------------------
  // Runs: ticks at any instants, deliveries that fail, tenants who answer
  // ---------------------------------------------------------------------

  datatype Event = Tick(now: int) | DeliveryFails(row: nat) | TenantAnswers(fixed: bool)

  function Step(r: Request, e: Event): Request {
    match e
    case Tick(now) => Process(r, now)
    case DeliveryFails(i) =>
      if i < |r.log| then r.(log := r.log[i := r.log[i].(live := false)]) else r
    case TenantAnswers(fixed) =>
      if r.status == Resolved then r.(status := if fixed then Closed else Reopened) else r
  }

  function JustResolved(at: int, hasPhone: bool): Request {
    Request(at, Resolved, false, hasPhone, [])
  }

  function Run(r: Request, es: seq<Event>): Request {
    if es == [] then r else Step(Run(r, es[..|es| - 1]), es[|es| - 1])
  }

  /** Reminders that still count were queued a full window before everything queued after them. */
  ghost predicate Spaced(log: seq<Reminder>) {
    forall i, j :: 0 <= i < j < |log| && log[i].live ==> UtcDay(log[j].at) - UtcDay(log[i].at) >= INTERVAL_DAYS
  }

  ghost predicate Sound(r: Request) {
    && Spaced(r.log)
    && LiveCount(r.log) <= MAX_REMINDERS
    && (forall i :: 0 <= i < |r.log| ==> LagosDay(r.log[i].at) - LagosDay(r.resolvedAt) >= INTERVAL_DAYS)
    && (r.autoClosed ==> r.status == Closed)
  }

  lemma DaysApart(x: int, y: int)
    ensures x >= (UtcDay(y) - (INTERVAL_DAYS - 1)) * DAY <==> UtcDay(x) >= UtcDay(y) - (INTERVAL_DAYS - 1)
    ensures UtcDay(x) <= LagosDay(x) <= UtcDay(x) + 1
  {
  }

  lemma WindowClear(log: seq<Reminder>, now: int)
    requires !RemindedRecently(log, now)
    ensures forall i :: 0 <= i < |log| && log[i].live ==> UtcDay(now) - UtcDay(log[i].at) >= INTERVAL_DAYS
  {
    forall i | 0 <= i < |log| && log[i].live ensures UtcDay(now) - UtcDay(log[i].at) >= INTERVAL_DAYS {
      DaysApart(log[i].at, now);
    }
  }

  lemma AppendCount(log: seq<Reminder>, row: Reminder)
    ensures LiveCount(log + [row]) == LiveCount(log) + if row.live then 1 else 0
  {
    assert (log + [row])[..|log|] == log;
  }

  lemma {:induction false} FailureOnlyLowers(log: seq<Reminder>, i: nat)
    requires i < |log|
    ensures LiveCount(log[i := log[i].(live := false)]) == LiveCount(log) - if log[i].live then 1 else 0
  {
    var n := |log| - 1;
    var failed := log[i].(live := false);
    if i == n {
      assert log[i := failed][..n] == log[..n];
    } else {
      FailureOnlyLowers(log[..n], i);
      assert log[i := failed][..n] == log[..n][i := failed];
    }
  }

  lemma RemindKeepsSound(r: Request, now: int)
    requires Sound(r) && Decide(r, now) == Reminded
    ensures Sound(Remind(r, now))
  {
    WindowClear(r.log, now);
    AppendCount(r.log, Reminder(now, true));
  }

  lemma FailureKeepsSound(r: Request, i: nat)
    requires Sound(r) && i < |r.log|
    ensures Sound(r.(log := r.log[i := r.log[i].(live := false)]))
  {
    FailureOnlyLowers(r.log, i);
  }

  lemma StepKeepsSound(r: Request, e: Event)
    requires Sound(r)
    ensures Sound(Step(r, e)) && Step(r, e).resolvedAt == r.resolvedAt
  {
    match e
    case Tick(now) =>
      if Decide(r, now) == Reminded { RemindKeepsSound(r, now); }
    case DeliveryFails(i) =>
      if i < |r.log| { FailureKeepsSound(r, i); }
    case TenantAnswers(fixed) =>
  }

  /**
   * Whatever the tick instants, failures and answers: at most two reminders
   * count at any time, counting ones are at least seven days apart, and the
   * first waits a full week.
   */
  lemma {:induction false} SoundOverRuns(at: int, hasPhone: bool, es: seq<Event>)
    ensures Sound(Run(JustResolved(at, hasPhone), es))
    ensures Run(JustResolved(at, hasPhone), es).resolvedAt == at
  {
    if es != [] {
      SoundOverRuns(at, hasPhone, es[..|es| - 1]);
      StepKeepsSound(Run(JustResolved(at, hasPhone), es[..|es| - 1]), es[|es| - 1]);
    }
  }

  /**
   * The job acts exactly on a resolved request with a phone, from the seventh
   * Lagos day after it was resolved, whose counting reminders are all at least
   * seven UTC days old; it closes the request if two count and reminds if not.
   */
  lemma DecidedIff(r: Request, now: int)
    ensures Decide(r, now) != Skipped <==>
      (r.status == Resolved && r.hasPhone
       && (now + 3600000) / 86400000 - (r.resolvedAt + 3600000) / 86400000 >= 7
       && forall i :: 0 <= i < |r.log| && r.log[i].live ==> now / 86400000 - r.log[i].at / 86400000 >= 7)
    ensures Decide(r, now) == ClosedIt ==>
      LiveCount(r.log) >= 2 && Process(r, now) == r.(status := Closed, autoClosed := true)
    ensures Decide(r, now) == Reminded ==>
      LiveCount(r.log) < 2 && Process(r, now) == r.(log := r.log + [Reminder(now, true)])
    ensures Decide(r, now) == Skipped ==> Process(r, now) == r
  {
    if RemindedRecently(r.log, now) {
      var i :| 0 <= i < |r.log| && r.log[i].live && r.log[i].at >= (UtcDay(now) - (INTERVAL_DAYS - 1)) * DAY;
      DaysApart(r.log[i].at, now);
    } else {
      WindowClear(r.log, now);
    }
  }

  /** Without a phone number a request is never reminded about and never closed by the job. */
  lemma {:induction false} NoPhoneNoAction(at: int, es: seq<Event>)
    ensures var r := Run(JustResolved(at, false), es);
      !r.hasPhone && r.log == [] && !r.autoClosed
  {
    if es != [] { NoPhoneNoAction(at, es[..|es| - 1]); }
  }

  lemma {:induction false} TwoLive(log: seq<Reminder>)
    requires LiveCount(log) >= 1
    ensures exists j :: 0 <= j < |log| && log[j].live && LiveCount(log[..j]) == LiveCount(log) - 1
  {
    var n := |log| - 1;
    if log[n].live {
      assert log[..n] == log[..|log| - 1];
    } else {
      TwoLive(log[..n]);
      var j :| 0 <= j < n && log[..n][j].live && LiveCount(log[..n][..j]) == LiveCount(log[..n]) - 1;
      assert log[..n][..j] == log[..j];
      assert log[j].live;
    }
  }

  /** A close comes after two counting reminders, the first at least two weeks of UTC days before it. */
  lemma CloseFollowsTwoReminders(r: Request, now: int) returns (first: nat, second: nat)
    requires Sound(r) && Decide(r, now) == ClosedIt
    ensures first < second < |r.log| && r.log[first].live && r.log[second].live
    ensures UtcDay(r.log[second].at) - UtcDay(r.log[first].at) >= INTERVAL_DAYS
    ensures UtcDay(now) - UtcDay(r.log[second].at) >= INTERVAL_DAYS
    ensures LagosDay(now) - LagosDay(r.resolvedAt) >= 20
  {
    TwoLive(r.log);
    second :| 0 <= second < |r.log| && r.log[second].live && LiveCount(r.log[..second]) == LiveCount(r.log) - 1;
    TwoLive(r.log[..second]);
    var f :| 0 <= f < second && r.log[..second][f].live;
    first := f;
    assert r.log[first].live;
    WindowClear(r.log, now);
    DaysApart(r.log[first].at, now);
    DaysApart(now, now);
  }

  /**
   * Three full Lagos weeks are guaranteed when every tick runs at an hour on
   * which Lagos and UTC agree about the day, as the 08:00 schedule does.
   */
  lemma {:induction false} ThreeWeeksOnSchedule(at: int, hasPhone: bool, es: seq<Event>, now: int)
    requires forall k :: 0 <= k < |es| && es[k].Tick? ==> UtcDay(es[k].now) == LagosDay(es[k].now)
    requires Decide(Run(JustResolved(at, hasPhone), es), now) == ClosedIt
    ensures LagosDay(now) - LagosDay(at) >= 21
  {
    var r := Run(JustResolved(at, hasPhone), es);
    SoundOverRuns(at, hasPhone, es);
    RemindersAreTicks(JustResolved(at, hasPhone), es);
    var first, second := CloseFollowsTwoReminders(r, now);
    DaysApart(now, now);
    assert r.log[first].at in TickTimes(es);
    TickTimesAreTicks(es, r.log[first].at);
  }

  function TickTimes(es: seq<Event>): set<int> {
    set k | 0 <= k < |es| && es[k].Tick? :: es[k].now
  }

  lemma TickTimesAreTicks(es: seq<Event>, at: int)
    requires at in TickTimes(es)
    requires forall k :: 0 <= k < |es| && es[k].Tick? ==> UtcDay(es[k].now) == LagosDay(es[k].now)
    ensures UtcDay(at) == LagosDay(at)
  {
  }

  lemma {:induction false} RemindersAreTicks(r: Request, es: seq<Event>)
    requires r.log == []
    ensures forall i :: 0 <= i < |Run(r, es).log| ==> Run(r, es).log[i].at in TickTimes(es)
  {
    if es != [] {
      var n := |es| - 1;
      RemindersAreTicks(r, es[..n]);
      assert forall k :: 0 <= k < n ==> es[..n][k] == es[k];
      assert TickTimes(es[..n]) <= TickTimes(es);
      if es[n].Tick? { assert es[n].now in TickTimes(es); }
    }
  }

  lemma DecideUnreminded(r: Request, now: int)
    requires r.log == [] && DueForAction(r, now)
    ensures Decide(r, now) == Reminded
  {
  }

  lemma DecideAfterOne(r: Request, first: int, now: int)
    requires r.log == [Reminder(first, true)] && DueForAction(r, now)
    ensures Decide(r, now) == if UtcDay(now) - UtcDay(first) >= INTERVAL_DAYS then Reminded else Skipped
  {
    DaysApart(first, now);
    AppendCount([], Reminder(first, true));
    assert [] + [Reminder(first, true)] == r.log;
    assert r.log[0].live;
  }

  lemma DecideAfterTwo(r: Request, first: int, second: int, now: int)
    requires r.log == [Reminder(first, true)] + [Reminder(second, true)] && DueForAction(r, now)
    requires UtcDay(first) <= UtcDay(second)
    ensures Decide(r, now) == if UtcDay(now) - UtcDay(second) >= INTERVAL_DAYS then ClosedIt else Skipped
  {
    DaysApart(first, now);
    DaysApart(second, now);
    AppendCount([], Reminder(first, true));
    AppendCount([Reminder(first, true)], Reminder(second, true));
    assert [] + [Reminder(first, true)] == [Reminder(first, true)];
    assert r.log[1].live;
  }

  /** Three ticks that remind, remind again and close. */
  ghost predicate Completes(at: int, first: int, second: int, close: int) {
    var r1 := Process(JustResolved(at, true), first);
    var r2 := Process(r1, second);
    && first <= second <= close
    && Decide(JustResolved(at, true), first) == Reminded
    && Decide(r1, second) == Reminded
    && Decide(r2, close) == ClosedIt
  }

  lemma CompletesMeans(at: int, first: int, second: int, close: int)
    requires first <= second <= close && LagosDay(first) - LagosDay(at) >= INTERVAL_DAYS
    ensures Completes(at, first, second, close) <==>
      UtcDay(second) - UtcDay(first) >= INTERVAL_DAYS && UtcDay(close) - UtcDay(second) >= INTERVAL_DAYS
  {
    var r0 := JustResolved(at, true);
    var r1 := Remind(r0, first);
    LaterDays(first, second);
    LaterDays(second, close);
    DecideUnreminded(r0, first);
    assert r1.log == [Reminder(first, true)];
    DecideAfterOne(r1, first, second);
    if UtcDay(second) - UtcDay(first) >= INTERVAL_DAYS {
      DecideAfterTwo(Remind(r1, second), first, second, close);
    }
  }

  lemma LaterDays(x: int, y: int)
    requires x <= y
    ensures LagosDay(x) <= LagosDay(y) && UtcDay(x) <= UtcDay(y)
  {
  }

  /**
   * Exactly when a first reminder leaves the tenant three full Lagos weeks,
   * whatever ticks follow: when its UTC day is already a week after resolution.
   * The first Lagos hour of the seventh day is the hour that fails.
   */
  lemma ThreeWeeksIff(at: int, first: int)
    requires LagosDay(first) - LagosDay(at) >= INTERVAL_DAYS
    ensures (forall second, close :: Completes(at, first, second, close) ==> LagosDay(close) - LagosDay(at) >= 21)
      <==> UtcDay(first) - LagosDay(at) >= INTERVAL_DAYS
  {
    if UtcDay(first) - LagosDay(at) >= INTERVAL_DAYS {
      forall second, close | Completes(at, first, second, close) ensures LagosDay(close) - LagosDay(at) >= 21 {
        CompletesMeans(at, first, second, close);
        DaysApart(close, close);
      }
    } else {
      var second := (UtcDay(first) + 7) * DAY;
      var close := (UtcDay(first) + 14) * DAY;
      DaysApart(first, first);
      assert UtcDay(second) == UtcDay(first) + 7 && UtcDay(close) == UtcDay(first) + 14;
      assert LagosDay(close) == UtcDay(close);
      CompletesMeans(at, first, second, close);
      assert Completes(at, first, second, close);
    }
  }

  /** The earliest counting reminder of a log. */
  predicate FirstCounting(log: seq<Reminder>, i: nat) {
    i < |log| && log[i].live && forall j :: 0 <= j < i ==> !log[j].live
  }

  lemma CloseAfterFirst(at: int, es: seq<Event>, now: int, i: nat)
    requires Decide(Run(JustResolved(at, true), es), now) == ClosedIt
    requires FirstCounting(Run(JustResolved(at, true), es).log, i)
    ensures LagosDay(now) >= UtcDay(Run(JustResolved(at, true), es).log[i].at) + 14
  {
    var r := Run(JustResolved(at, true), es);
    SoundOverRuns(at, true, es);
    var first, second := CloseFollowsTwoReminders(r, now);
    assert i <= first < second;
    DaysApart(now, now);
  }

  /** A run that closes after first reminding at `first`. */
  predicate ClosesAfter(at: int, first: int, es: seq<Event>, now: int, i: nat) {
    var r := Run(JustResolved(at, true), es);
    Decide(r, now) == ClosedIt && FirstCounting(r.log, i) && r.log[i].at == first
  }

  lemma RunOfTwo(at: int, first: int, second: int)
    ensures Run(JustResolved(at, true), [Tick(first), Tick(second)])
      == Process(Process(JustResolved(at, true), first), second)
  {
    var es := [Tick(first), Tick(second)];
    assert es[..|es| - 1] == [Tick(first)];
    assert [Tick(first)][..0] == [];
    assert Run(JustResolved(at, true), [Tick(first)]) == Process(JustResolved(at, true), first);
  }

  lemma CompletedRun(at: int, first: int, second: int, close: int)
    requires Completes(at, first, second, close)
    ensures ClosesAfter(at, first, [Tick(first), Tick(second)], close, 0)
  {
    RunOfTwo(at, first, second);
    var r := Process(Process(JustResolved(at, true), first), second);
    assert r.log == [] + [Reminder(first, true)] + [Reminder(second, true)];
    assert r.log[0] == Reminder(first, true);
  }

  lemma EarlyClose(at: int, first: int) returns (second: int, close: int)
    requires LagosDay(first) - LagosDay(at) >= INTERVAL_DAYS && UtcDay(first) - LagosDay(at) < INTERVAL_DAYS
    ensures Completes(at, first, second, close) && LagosDay(close) - LagosDay(at) < 21
  {
    ThreeWeeksIff(at, first);
    second, close :| Completes(at, first, second, close) && LagosDay(close) - LagosDay(at) < 21;
  }

  /**
   * Over whole runs, with reminders that fail and tenants who answer: a first
   * counting reminder leaves three full Lagos weeks, whatever else happens,
   * exactly when its UTC day is already a week after resolution.
   */
  lemma ThreeWeeksOverRunsIff(at: int, first: int)
    requires LagosDay(first) - LagosDay(at) >= INTERVAL_DAYS
    ensures (forall es, now, i :: ClosesAfter(at, first, es, now, i) ==> LagosDay(now) - LagosDay(at) >= 21)
      <==> UtcDay(first) - LagosDay(at) >= INTERVAL_DAYS
  {
    if UtcDay(first) - LagosDay(at) >= INTERVAL_DAYS {
      forall es, now, i | ClosesAfter(at, first, es, now, i) ensures LagosDay(now) - LagosDay(at) >= 21 {
        CloseAfterFirst(at, es, now, i);
      }
    } else {
      var second, close := EarlyClose(at, first);
      CompletedRun(at, first, second, close);
    }
  }

  /** Ticks at 23:00 UTC on day 6, then at 00:00 UTC on days 13 and 20: closed on the twentieth Lagos day. */
  lemma {:induction false} TwentyDaysCanDo()
    ensures Completes(0, 7 * DAY - LAGOS_OFFSET, 13 * DAY, 20 * DAY)
    ensures LagosDay(20 * DAY) - LagosDay(0) == 20
  {
    CompletesMeans(0, 7 * DAY - LAGOS_OFFSET, 13 * DAY, 20 * DAY);
  }

  // ---------------------------------------------------------------------
  // The production schedule: one tick a day at 08:00 in Lagos
  // ---------------------------------------------------------------------

  function EightInTheMorning(day: int): int { day * DAY + 7 * LAGOS_OFFSET }

  /** A silent tenant's request after the ticks of the resolution day and the `n - 1` days after it. */
  function Silent(at: int, n: nat): Request {
    if n == 0 then JustResolved(at, true)
    else Process(Silent(at, n - 1), EightInTheMorning(LagosDay(at) + n - 1))
  }

  function RemindersBy(at: int, n: nat): seq<Reminder> {
    var d := LagosDay(at);
    (if n > 7 then [Reminder(EightInTheMorning(d + 7), true)] else [])
      + if n > 14 then [Reminder(EightInTheMorning(d + 14), true)] else []
  }

  /** A silent tenant's request, said outright. */
  function SilentBy(at: int, n: nat): Request {
    Request(at, if n > 21 then Closed else Resolved, n > 21, true, RemindersBy(at, n))
  }

  lemma MorningDays(d: int)
    ensures UtcDay(EightInTheMorning(d)) == LagosDay(EightInTheMorning(d)) == d
  {
  }

  lemma SilentFirstWeek(at: int, n: nat)
    requires n <= 7
    ensures Process(SilentBy(at, n), EightInTheMorning(LagosDay(at) + n)) == SilentBy(at, n + 1)
  {
    var now := EightInTheMorning(LagosDay(at) + n);
    MorningDays(LagosDay(at) + n);
    if n == 7 {
      DecideUnreminded(SilentBy(at, n), now);
      assert [] + [Reminder(now, true)] == [Reminder(now, true)] + [];
    }
  }

  lemma SilentSecondWeek(at: int, n: nat)
    requires 7 < n <= 14
    ensures Process(SilentBy(at, n), EightInTheMorning(LagosDay(at) + n)) == SilentBy(at, n + 1)
  {
    var first := EightInTheMorning(LagosDay(at) + 7);
    MorningDays(LagosDay(at) + 7);
    MorningDays(LagosDay(at) + n);
    assert RemindersBy(at, n) == [Reminder(first, true)];
    DecideAfterOne(SilentBy(at, n), first, EightInTheMorning(LagosDay(at) + n));
  }

  lemma SilentLater(at: int, n: nat)
    requires n > 14
    ensures Process(SilentBy(at, n), EightInTheMorning(LagosDay(at) + n)) == SilentBy(at, n + 1)
  {
    if n <= 21 {
      MorningDays(LagosDay(at) + 7);
      MorningDays(LagosDay(at) + 14);
      MorningDays(LagosDay(at) + n);
      DecideAfterTwo(SilentBy(at, n), EightInTheMorning(LagosDay(at) + 7), EightInTheMorning(LagosDay(at) + 14),
                     EightInTheMorning(LagosDay(at) + n));
    }
  }

  lemma SilentDay(at: int, n: nat)
    ensures Process(SilentBy(at, n), EightInTheMorning(LagosDay(at) + n)) == SilentBy(at, n + 1)
  {
    if n <= 7 {
      SilentFirstWeek(at, n);
    } else if n <= 14 {
      SilentSecondWeek(at, n);
    } else {
      SilentLater(at, n);
    }
  }

  lemma SilentAtFirst(at: int)
    ensures Silent(at, 0) == SilentBy(at, 0)
  {
  }

  lemma SilentNext(at: int, n: nat)
    ensures Silent(at, n + 1) == Process(Silent(at, n), EightInTheMorning(LagosDay(at) + n))
  {
  }

  /** Reminded on day 7 and day 14, closed on day 21, and on no other day. */
  lemma {:induction false} SilentTenantTimeline(at: int, n: nat)
    ensures Silent(at, n) == SilentBy(at, n)
  {
    if n == 0 {
      SilentAtFirst(at);
    } else {
      var before := n - 1;
      SilentTenantTimeline(at, before);
      SilentDay(at, before);
      SilentNext(at, before);
    }
  }

  // ---------------------------------------------------------------------
  // The tick, over every request
  // ---------------------------------------------------------------------

  /** How many requests a tick acts on in a given way. */
  function Tally(requests: seq<Request>, now: int, o: Outcome): nat {
    if requests == [] then 0
    else
      var n := |requests| - 1;
      Tally(requests[..n], now, o) + if Decide(requests[n], now) == o then 1 else 0
  }

  class MaintenanceReminderService {
    var requests: seq<Request>

    constructor (requests: seq<Request>)
      ensures this.requests == requests
    {
      this.requests := requests;
    }

    /** Processes each request once and counts what was done. */
    method RunDailyConfirmationReminderCheck(now: int) returns (reminded: nat, closed: nat)
      modifies this
      ensures |requests| == |old(requests)|
      ensures forall i :: 0 <= i < |requests| ==> requests[i] == Process(old(requests)[i], now)
      ensures reminded == Tally(old(requests), now, Reminded) && closed == Tally(old(requests), now, ClosedIt)
    {
      reminded, closed := 0, 0;
      ghost var was := requests;
      for k := 0 to |requests|
        invariant |requests| == |was|
        invariant forall i :: 0 <= i < k ==> requests[i] == Process(was[i], now)
        invariant forall i :: k <= i < |was| ==> requests[i] == was[i]
        invariant reminded == Tally(was[..k], now, Reminded) && closed == Tally(was[..k], now, ClosedIt)
      {
        assert was[..k + 1][..k] == was[..k];
        var outcome := ProcessRequest(k, now);
        if outcome == Reminded {
          reminded := reminded + 1;
        } else if outcome == ClosedIt {
          closed := closed + 1;
        }
      }
      assert was[..|requests|] == was;
    }

    method ProcessRequest(k: nat, now: int) returns (outcome: Outcome)
      requires k < |requests|
      modifies this
      ensures requests == old(requests)[k := Process(old(requests)[k], now)]
      ensures outcome == Decide(old(requests)[k], now)
    {
      var r := requests[k];
      if !DueForAction(r, now) { return Skipped; }
      if RemindedRecently(r.log, now) { return Skipped; }
      var sent := LiveCount(r.log);
      if sent >= MAX_REMINDERS {
        requests := requests[k := AutoClose(r)];
        return ClosedIt;
      }
      requests := requests[k := r.(log := r.log + [Reminder(now, true)])];
      return Reminded;
    }
  }
}
