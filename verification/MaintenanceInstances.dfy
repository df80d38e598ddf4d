/**
 * Several cron instances working on the same request, each taking its query,
 * window check, count and action as separate database steps.
 */
module MaintenanceInstances {
  import opened MaintenanceReminders

  /** Where one instance's pass over the request has got to. */
  datatype Phase = Queried | WindowSeenClear | Counted(live: nat) | Finished(outcome: Outcome)

  datatype System = System(request: Request, passes: map<nat, Phase>)

  datatype InstanceEvent =
    | Query(pass: nat, now: int)
    | CheckWindow(pass: nat, now: int)
    | CountReminders(pass: nat)
    | Act(pass: nat, now: int)
    | Outside(event: Event)

  predicate At(s: System, pass: nat, p: Phase) {
    pass in s.passes && s.passes[pass] == p
  }

  function Move(s: System, pass: nat, p: Phase): System {
    s.(passes := s.passes[pass := p])
  }

  function InstanceStep(s: System, e: InstanceEvent): System {
    match e
    case Query(p, now) =>
      if p in s.passes then s else Move(s, p, if DueForAction(s.request, now) then Queried else Finished(Skipped))
    case CheckWindow(p, now) =>
      if !At(s, p, Queried) then s
      else Move(s, p, if RemindedRecently(s.request.log, now) then Finished(Skipped) else WindowSeenClear)
    case CountReminders(p) =>
      if !At(s, p, WindowSeenClear) then s else Move(s, p, Counted(LiveCount(s.request.log)))
    case Act(p, now) =>
      if p !in s.passes || !s.passes[p].Counted? then s
      else if s.passes[p].live < MAX_REMINDERS then
        Move(s.(request := Remind(s.request, now)), p, Finished(Reminded))
      else
        Move(s.(request := AutoClose(s.request)), p,
             Finished(if s.request.status == Resolved then ClosedIt else Skipped))
    case Outside(ev) =>
      if ev.Tick? then s else s.(request := Step(s.request, ev))
  }

  function InstanceRun(s: System, es: seq<InstanceEvent>): System {
    if es == [] then s else InstanceStep(InstanceRun(s, es[..|es| - 1]), es[|es| - 1])
  }

  /** A pass taken without interruption is the sequential decision. */
  lemma UninterruptedPass(s: System, p: nat, now: int)
    requires p !in s.passes
    ensures var checked := InstanceStep(InstanceStep(s, Query(p, now)), CheckWindow(p, now));
      var s' := InstanceStep(InstanceStep(checked, CountReminders(p)), Act(p, now));
      s'.request == Process(s.request, now) && p in s'.passes && s'.passes[p] == Finished(Decide(s.request, now))
  {
  }

  predicate DidClose(s: System, p: nat) { At(s, p, Finished(ClosedIt)) }

  ghost predicate CloseIsUnique(s: System) {
    && (forall p, q :: DidClose(s, p) && DidClose(s, q) ==> p == q)
    && ((exists p :: DidClose(s, p)) <==> s.request.autoClosed)
    && (s.request.autoClosed ==> s.request.status == Closed)
  }

  lemma InstanceStepKeepsUnique(s: System, e: InstanceEvent)
    requires CloseIsUnique(s)
    ensures CloseIsUnique(InstanceStep(s, e))
  {
    var s' := InstanceStep(s, e);
    if e.Act? && e.pass in s.passes && s.passes[e.pass].Counted? && s.passes[e.pass].live >= MAX_REMINDERS
       && s.request.status == Resolved {
      assert forall p :: !DidClose(s, p);
      forall p ensures DidClose(s', p) <==> p == e.pass {
        assert !DidClose(s, p);
      }
      assert DidClose(s', e.pass);
    } else {
      forall p ensures DidClose(s', p) <==> DidClose(s, p) {}
      assert s'.request.autoClosed == s.request.autoClosed;
      if s.request.autoClosed {
        var p :| DidClose(s, p);
        assert DidClose(s', p);
      }
    }
  }

  /**
   * However the instances interleave, the request is auto-closed exactly when
   * one pass closed it, and no two passes ever do.
   */
  lemma {:induction false} AtMostOneInstanceCloses(at: int, hasPhone: bool, es: seq<InstanceEvent>)
    ensures CloseIsUnique(InstanceRun(System(JustResolved(at, hasPhone), map[]), es))
  {
    if es != [] {
      AtMostOneInstanceCloses(at, hasPhone, es[..|es| - 1]);
      InstanceStepKeepsUnique(InstanceRun(System(JustResolved(at, hasPhone), map[]), es[..|es| - 1]), es[|es| - 1]);
    }
  }

  // ---------------------------------------------------------------------
  // What the window check does not guard across instances
  // ---------------------------------------------------------------------

  lemma Then(s: System, es: seq<InstanceEvent>, e: InstanceEvent)
    ensures InstanceRun(s, es + [e]) == InstanceStep(InstanceRun(s, es), e)
  {
    assert (es + [e])[..|es|] == es;
  }

  /** Two instances that both check and count before either queues. */
  lemma BothCount(at: int, day7: int) returns (es: seq<InstanceEvent>)
    requires LagosDay(day7) - LagosDay(at) >= INTERVAL_DAYS
    ensures InstanceRun(System(JustResolved(at, true), map[]), es)
      == System(JustResolved(at, true), map[1 := Counted(0), 2 := Counted(0)])
  {
    var s := System(JustResolved(at, true), map[]);
    assert LiveCount([]) == 0;
    es := [];
    Then(s, es, Query(1, day7));
    es := es + [Query(1, day7)];
    Then(s, es, Query(2, day7));
    es := es + [Query(2, day7)];
    Then(s, es, CheckWindow(1, day7));
    es := es + [CheckWindow(1, day7)];
    Then(s, es, CheckWindow(2, day7));
    es := es + [CheckWindow(2, day7)];
    assert InstanceRun(s, es) == System(s.request, map[1 := WindowSeenClear, 2 := WindowSeenClear]);
    Then(s, es, CountReminders(1));
    es := es + [CountReminders(1)];
    Then(s, es, CountReminders(2));
    es := es + [CountReminders(2)];
  }

  lemma DoubleTick(at: int, day7: int) returns (es: seq<InstanceEvent>)
    requires LagosDay(day7) - LagosDay(at) >= INTERVAL_DAYS
    ensures InstanceRun(System(JustResolved(at, true), map[]), es).request
      == JustResolved(at, true).(log := [Reminder(day7, true)] + [Reminder(day7, true)])
  {
    var s := System(JustResolved(at, true), map[]);
    var counted := BothCount(at, day7);
    var once := counted + [Act(1, day7)];
    es := once + [Act(2, day7)];
    Then(s, counted, Act(1, day7));
    Then(s, once, Act(2, day7));
    assert InstanceRun(s, once) == System(Remind(s.request, day7), map[1 := Finished(Reminded), 2 := Counted(0)]);
    assert [] + [Reminder(day7, true)] == [Reminder(day7, true)];
  }

  /** With two reminders of a week before, the next tick closes. */
  lemma TwoRemindersClose(r: Request, at: int, now: int)
    requires r.log == [Reminder(at, true)] + [Reminder(at, true)]
    requires UtcDay(now) - UtcDay(at) >= INTERVAL_DAYS && DueForAction(r, now)
    ensures Decide(r, now) == ClosedIt
  {
    AppendCount([Reminder(at, true)], Reminder(at, true));
    AppendCount([], Reminder(at, true));
    assert [] + [Reminder(at, true)] == [Reminder(at, true)];
    DaysApart(at, now);
  }

  /**
   * Interleaved like that, both reminders go out on day 7 and the request is
   * closed on day 14. `MaintenancePasses` says exactly which runs avoid this.
   */
  lemma OverlappingPassesCloseEarly(at: int) returns (es: seq<InstanceEvent>)
    ensures var d := LagosDay(at);
      var r := InstanceRun(System(JustResolved(at, true), map[]), es).request;
      && |r.log| == 2 && r.log[0].at == r.log[1].at == EightInTheMorning(d + 7)
      && Decide(r, EightInTheMorning(d + 14)) == ClosedIt
  {
    var d := LagosDay(at);
    MorningDays(d + 7);
    MorningDays(d + 14);
    es := DoubleTick(at, EightInTheMorning(d + 7));
    TwoRemindersClose(InstanceRun(System(JustResolved(at, true), map[]), es).request,
                      EightInTheMorning(d + 7), EightInTheMorning(d + 14));
  }
}
