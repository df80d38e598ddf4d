/**
 * When several cron instances keep the weekly spacing and the three weeks:
 * exactly when every reminder is still due as it is queued, and in particular
 * when no other pass reminds between a pass's window check and its own action.
 */
module MaintenancePasses {
  import opened MaintenanceReminders
  import opened MaintenanceInstances

  // ---------------------------------------------------------------------
  // Runs in time order
  // ---------------------------------------------------------------------

  predicate Timed(e: InstanceEvent) { e.Query? || e.CheckWindow? || e.Act? }

  function Instant(e: InstanceEvent, otherwise: int): int { if Timed(e) then e.now else otherwise }

  /** The last instant of a run that starts at `start`. */
  function Clock(start: int, es: seq<InstanceEvent>): int {
    if es == [] then start else Instant(es[|es| - 1], Clock(start, es[..|es| - 1]))
  }

  predicate InOrder(start: int, es: seq<InstanceEvent>) {
    es == [] || (InOrder(start, es[..|es| - 1]) && Clock(start, es[..|es| - 1]) <= Clock(start, es))
  }

  /** Every step is taken at an hour on which Lagos and UTC agree about the day. */
  predicate CalendarsAgree(es: seq<InstanceEvent>) {
    forall n :: 0 <= n < |es| && Timed(es[n]) ==> UtcDay(es[n].now) == LagosDay(es[n].now)
  }

  function Begin(at: int, hasPhone: bool): System { System(JustResolved(at, hasPhone), map[]) }

  predicate Reminds(s: System, e: InstanceEvent) {
    e.Act? && e.pass in s.passes && s.passes[e.pass].Counted? && s.passes[e.pass].live < MAX_REMINDERS
  }

  predicate Closes(s: System, e: InstanceEvent) {
    && e.Act? && e.pass in s.passes && s.passes[e.pass].Counted? && s.passes[e.pass].live >= MAX_REMINDERS
    && s.request.status == Resolved
  }

  predicate PastCheck(s: System, p: nat) {
    p in s.passes && (s.passes[p].WindowSeenClear? || s.passes[p].Counted?)
  }

  /** The passes that had made their window check when another pass reminded. */
  function Overtaken(s: System, es: seq<InstanceEvent>): set<nat> {
    if es == [] then {}
    else
      var n := |es| - 1;
      Overtaken(s, es[..n]) + NewlyOvertaken(InstanceRun(s, es[..n]), es[n])
  }

  function NewlyOvertaken(s: System, e: InstanceEvent): set<nat> {
    if Reminds(s, e) then set p | p in s.passes && p != e.pass && PastCheck(s, p) else {}
  }

  /** No pass reminds or closes after another has reminded since its own window check. */
  predicate NoneOvertaken(s: System, es: seq<InstanceEvent>) {
    es == []
    || (var n := |es| - 1;
        var before := InstanceRun(s, es[..n]);
        && NoneOvertaken(s, es[..n])
        && (Reminds(before, es[n]) || Closes(before, es[n]) ==> es[n].pass !in Overtaken(s, es[..n])))
  }

  // ---------------------------------------------------------------------
  // One reminder
  // ---------------------------------------------------------------------

  /** No counting reminder is in the window, and there is room for one more. */
  predicate StillDue(r: Request, now: int) {
    !RemindedRecently(r.log, now) && LiveCount(r.log) < MAX_REMINDERS
  }

  lemma SpacedMeansClear(log: seq<Reminder>, now: int)
    requires Spaced(log + [Reminder(now, true)])
    ensures !RemindedRecently(log, now)
  {
    var later := log + [Reminder(now, true)];
    forall i | 0 <= i < |log| && log[i].live ensures log[i].at < (UtcDay(now) - (INTERVAL_DAYS - 1)) * DAY {
      assert later[i] == log[i] && later[|log|].at == now;
      DaysApart(log[i].at, now);
    }
  }

  /** Queuing a reminder keeps a sound request sound exactly if it is still due at that moment. */
  lemma RemindKeepsSoundIff(r: Request, now: int)
    requires Sound(r) && LagosDay(now) - LagosDay(r.resolvedAt) >= INTERVAL_DAYS
    ensures Sound(Remind(r, now)) <==> StillDue(r, now)
  {
    AppendCount(r.log, Reminder(now, true));
    if StillDue(r, now) {
      WindowClear(r.log, now);
    }
    if Sound(Remind(r, now)) {
      SpacedMeansClear(r.log, now);
    }
  }

  /** The same of the step that queues it, whatever the other passes are doing. */
  lemma {:induction false} ActKeepsSoundIff(s: System, p: nat, now: int)
    requires Sound(s.request) && Reminds(s, Act(p, now))
    requires LagosDay(now) - LagosDay(s.request.resolvedAt) >= INTERVAL_DAYS
    ensures Sound(InstanceStep(s, Act(p, now)).request) <==> StillDue(s.request, now)
  {
    RemindKeepsSoundIff(s.request, now);
  }

  lemma OtherStepsKeepSound(s: System, e: InstanceEvent)
    requires Sound(s.request) && !Reminds(s, e)
    ensures Sound(InstanceStep(s, e).request)
  {
    if e.Outside? && !e.event.Tick? { StepKeepsSound(s.request, e.event); }
  }

  // ---------------------------------------------------------------------
  // Exactly which runs stay sound
  // ---------------------------------------------------------------------

  /** Passes under way saw a request a week old. */
  ghost predicate WeekOld(s: System, clock: int) {
    forall p :: p in s.passes && !s.passes[p].Finished? ==>
        LagosDay(clock) - LagosDay(s.request.resolvedAt) >= INTERVAL_DAYS
  }

  lemma LagosDayMoves(x: int, y: int)
    requires x <= y
    ensures LagosDay(x) <= LagosDay(y) && UtcDay(x) <= UtcDay(y)
  {
  }

  lemma StepKeepsWeekOld(s: System, e: InstanceEvent, clock: int)
    requires WeekOld(s, clock) && clock <= Instant(e, clock)
    ensures WeekOld(InstanceStep(s, e), Instant(e, clock))
    ensures InstanceStep(s, e).request.resolvedAt == s.request.resolvedAt
  {
    LagosDayMoves(clock, Instant(e, clock));
  }

  lemma {:induction false} WeekOldOverRuns(at: int, hasPhone: bool, es: seq<InstanceEvent>)
    requires InOrder(at, es)
    ensures WeekOld(InstanceRun(Begin(at, hasPhone), es), Clock(at, es))
    ensures InstanceRun(Begin(at, hasPhone), es).request.resolvedAt == at
  {
    if es != [] {
      var n := |es| - 1;
      WeekOldOverRuns(at, hasPhone, es[..n]);
      StepKeepsWeekOld(InstanceRun(Begin(at, hasPhone), es[..n]), es[n], Clock(at, es[..n]));
    }
  }

  ghost predicate SoundThroughout(s: System, es: seq<InstanceEvent>) {
    Sound(InstanceRun(s, es).request) && (es == [] || SoundThroughout(s, es[..|es| - 1]))
  }

  /** Every reminder of the run is still due when it is queued. */
  predicate AlwaysDue(s: System, es: seq<InstanceEvent>) {
    es == []
    || (var n := |es| - 1;
        var before := InstanceRun(s, es[..n]);
        AlwaysDue(s, es[..n]) && (Reminds(before, es[n]) ==> StillDue(before.request, es[n].now)))
  }

  /**
   * Under every interleaving of any number of instances, the reminders stay
   * spaced and at most two throughout exactly if each was still due as it was
   * queued.
   */
  lemma {:induction false} SoundThroughoutIff(at: int, hasPhone: bool, es: seq<InstanceEvent>)
    requires InOrder(at, es)
    ensures SoundThroughout(Begin(at, hasPhone), es) <==> AlwaysDue(Begin(at, hasPhone), es)
  {
    if es != [] {
      var n := |es| - 1;
      var s := InstanceRun(Begin(at, hasPhone), es[..n]);
      SoundThroughoutIff(at, hasPhone, es[..n]);
      if SoundThroughout(Begin(at, hasPhone), es[..n]) {
        if Reminds(s, es[n]) {
          WeekOldOverRuns(at, hasPhone, es[..n]);
          LagosDayMoves(Clock(at, es[..n]), es[n].now);
          ActKeepsSoundIff(s, es[n].pass, es[n].now);
        } else {
          OtherStepsKeepSound(s, es[n]);
        }
      }
    }
  }

  // ---------------------------------------------------------------------
  // Runs in which no pass is overtaken
  // ---------------------------------------------------------------------

  predicate Clear(log: seq<Reminder>, clock: int) {
    forall i :: 0 <= i < |log| && log[i].live ==> UtcDay(clock) - UtcDay(log[i].at) >= INTERVAL_DAYS
  }

  /** What a pass not overtaken can still rely on; `grace` is how old a request counted as reminded twice is. */
  ghost predicate PassFits(r: Request, p: Phase, clock: int, grace: int) {
    && (p.WindowSeenClear? || p.Counted? ==> Clear(r.log, clock))
    && (p.Counted? ==> LiveCount(r.log) <= p.live)
    && (p.Counted? && p.live >= MAX_REMINDERS ==> LagosDay(clock) - LagosDay(r.resolvedAt) >= grace)
  }

  ghost predicate PassesFit(s: System, clock: int, overtaken: set<nat>, grace: int) {
    forall p :: p in s.passes && p !in overtaken ==> PassFits(s.request, s.passes[p], clock, grace)
  }

  predicate LogAgrees(log: seq<Reminder>) {
    forall i :: 0 <= i < |log| ==> UtcDay(log[i].at) == LagosDay(log[i].at)
  }

  function Grace(agree: bool): int { if agree then 21 else 20 }

  ghost predicate Fit(s: System, clock: int, overtaken: set<nat>, agree: bool) {
    && Sound(s.request) && WeekOld(s, clock)
    && (agree ==> LogAgrees(s.request.log))
    && PassesFit(s, clock, overtaken, Grace(agree))
  }

  lemma FitsLater(r: Request, p: Phase, clock: int, later: int, grace: int)
    requires PassFits(r, p, clock, grace) && clock <= later
    ensures PassFits(r, p, later, grace)
  {
    LagosDayMoves(clock, later);
  }

  /** Two counting reminders, and the window clear: the request is at least that old. */
  lemma TwoRemindersTakeTime(r: Request, clock: int, agree: bool)
    requires Sound(r) && Clear(r.log, clock) && LiveCount(r.log) >= MAX_REMINDERS
    requires agree ==> LogAgrees(r.log)
    ensures LagosDay(clock) - LagosDay(r.resolvedAt) >= Grace(agree)
  {
    TwoLive(r.log);
    var second :| 0 <= second < |r.log| && r.log[second].live && LiveCount(r.log[..second]) == LiveCount(r.log) - 1;
    TwoLive(r.log[..second]);
    var first :| 0 <= first < second && r.log[..second][first].live;
    assert r.log[first].live;
    DaysApart(r.log[first].at, clock);
    DaysApart(clock, clock);
  }

  lemma QueryFits(s: System, p: nat, now: int, clock: int, overtaken: set<nat>, grace: int)
    requires PassesFit(s, clock, overtaken, grace) && clock <= now
    ensures PassesFit(InstanceStep(s, Query(p, now)), now, overtaken, grace)
  {
    forall q | q in s.passes && q !in overtaken ensures PassFits(s.request, s.passes[q], now, grace) {
      FitsLater(s.request, s.passes[q], clock, now, grace);
    }
  }

  lemma CheckFits(s: System, p: nat, now: int, clock: int, overtaken: set<nat>, grace: int)
    requires PassesFit(s, clock, overtaken, grace) && clock <= now
    ensures PassesFit(InstanceStep(s, CheckWindow(p, now)), now, overtaken, grace)
  {
    forall q | q in s.passes && q !in overtaken ensures PassFits(s.request, s.passes[q], now, grace) {
      FitsLater(s.request, s.passes[q], clock, now, grace);
    }
    if !RemindedRecently(s.request.log, now) { WindowClear(s.request.log, now); }
  }

  lemma CountFits(s: System, p: nat, clock: int, overtaken: set<nat>, agree: bool)
    requires Sound(s.request) && PassesFit(s, clock, overtaken, Grace(agree))
    requires agree ==> LogAgrees(s.request.log)
    ensures PassesFit(InstanceStep(s, CountReminders(p)), clock, overtaken, Grace(agree))
  {
    if At(s, p, WindowSeenClear) && p !in overtaken {
      assert PassFits(s.request, s.passes[p], clock, Grace(agree));
      if LiveCount(s.request.log) >= MAX_REMINDERS { TwoRemindersTakeTime(s.request, clock, agree); }
    }
  }

  lemma OutsideFits(s: System, e: Event, clock: int, overtaken: set<nat>, grace: int)
    requires PassesFit(s, clock, overtaken, grace)
    ensures PassesFit(InstanceStep(s, Outside(e)), clock, overtaken, grace)
  {
    if e.DeliveryFails? && e.row < |s.request.log| { FailureOnlyLowers(s.request.log, e.row); }
  }

  lemma RemindFits(s: System, p: nat, now: int, clock: int, overtaken: set<nat>, grace: int)
    requires PassesFit(s, clock, overtaken, grace) && Reminds(s, Act(p, now))
    ensures PassesFit(InstanceStep(s, Act(p, now)), now, overtaken + NewlyOvertaken(s, Act(p, now)), grace)
  {
  }

  lemma CloseFits(s: System, p: nat, now: int, clock: int, overtaken: set<nat>, grace: int)
    requires PassesFit(s, clock, overtaken, grace) && !Reminds(s, Act(p, now)) && clock <= now
    ensures PassesFit(InstanceStep(s, Act(p, now)), now, overtaken, grace)
  {
    forall q | q in s.passes && q !in overtaken ensures PassFits(s.request, s.passes[q], now, grace) {
      FitsLater(s.request, s.passes[q], clock, now, grace);
    }
  }

  lemma ClearIsDue(r: Request, clock: int, now: int)
    requires Clear(r.log, clock) && clock <= now
    ensures !RemindedRecently(r.log, now)
  {
    LagosDayMoves(clock, now);
    forall i | 0 <= i < |r.log| && r.log[i].live ensures r.log[i].at < (UtcDay(now) - (INTERVAL_DAYS - 1)) * DAY {
      DaysApart(r.log[i].at, now);
    }
  }

  lemma StepKeepsRequestSound(s: System, e: InstanceEvent, clock: int, overtaken: set<nat>, agree: bool)
    requires Fit(s, clock, overtaken, agree) && clock <= Instant(e, clock)
    requires Reminds(s, e) ==> e.pass !in overtaken
    ensures Sound(InstanceStep(s, e).request)
  {
    if Reminds(s, e) {
      assert PassFits(s.request, s.passes[e.pass], clock, Grace(agree));
      ClearIsDue(s.request, clock, e.now);
      LagosDayMoves(clock, e.now);
      ActKeepsSoundIff(s, e.pass, e.now);
    } else {
      OtherStepsKeepSound(s, e);
    }
  }

  lemma StepKeepsPassesFit(s: System, e: InstanceEvent, clock: int, overtaken: set<nat>, agree: bool)
    requires Fit(s, clock, overtaken, agree) && clock <= Instant(e, clock)
    ensures PassesFit(InstanceStep(s, e), Instant(e, clock), overtaken + NewlyOvertaken(s, e), Grace(agree))
  {
    assert !Reminds(s, e) ==> overtaken + NewlyOvertaken(s, e) == overtaken;
    match e
    case Query(p, now) => QueryFits(s, p, now, clock, overtaken, Grace(agree));
    case CheckWindow(p, now) => CheckFits(s, p, now, clock, overtaken, Grace(agree));
    case CountReminders(p) => CountFits(s, p, clock, overtaken, agree);
    case Act(p, now) =>
      if Reminds(s, e) {
        RemindFits(s, p, now, clock, overtaken, Grace(agree));
      } else {
        CloseFits(s, p, now, clock, overtaken, Grace(agree));
      }
    case Outside(ev) => OutsideFits(s, ev, clock, overtaken, Grace(agree));
  }

  lemma StepKeepsLogAgreeing(s: System, e: InstanceEvent)
    requires LogAgrees(s.request.log) && (Timed(e) ==> UtcDay(e.now) == LagosDay(e.now))
    ensures LogAgrees(InstanceStep(s, e).request.log)
  {
  }

  lemma StepKeepsFit(s: System, e: InstanceEvent, clock: int, overtaken: set<nat>, agree: bool)
    requires Fit(s, clock, overtaken, agree) && clock <= Instant(e, clock)
    requires agree && Timed(e) ==> UtcDay(e.now) == LagosDay(e.now)
    requires Reminds(s, e) ==> e.pass !in overtaken
    ensures Fit(InstanceStep(s, e), Instant(e, clock), overtaken + NewlyOvertaken(s, e), agree)
  {
    StepKeepsRequestSound(s, e, clock, overtaken, agree);
    StepKeepsWeekOld(s, e, clock);
    StepKeepsPassesFit(s, e, clock, overtaken, agree);
    if agree { StepKeepsLogAgreeing(s, e); }
  }

  lemma {:induction false} FitOverRuns(at: int, hasPhone: bool, es: seq<InstanceEvent>, agree: bool)
    requires InOrder(at, es) && NoneOvertaken(Begin(at, hasPhone), es) && (agree ==> CalendarsAgree(es))
    ensures Fit(InstanceRun(Begin(at, hasPhone), es), Clock(at, es), Overtaken(Begin(at, hasPhone), es), agree)
  {
    if es != [] {
      var n := |es| - 1;
      FitOverRuns(at, hasPhone, es[..n], agree);
      StepKeepsFit(InstanceRun(Begin(at, hasPhone), es[..n]), es[n], Clock(at, es[..n]),
                   Overtaken(Begin(at, hasPhone), es[..n]), agree);
    }
  }

  /**
   * Several instances, in whatever order: as long as no pass acts after another
   * has reminded since its own window check, the reminders stay a week apart
   * and at most two.
   */
  lemma {:induction false} SeparatePassesStaySound(at: int, hasPhone: bool, es: seq<InstanceEvent>)
    requires InOrder(at, es) && NoneOvertaken(Begin(at, hasPhone), es)
    ensures Sound(InstanceRun(Begin(at, hasPhone), es).request)
  {
    FitOverRuns(at, hasPhone, es, false);
  }

  /** The close then comes at least 20 Lagos days after resolution, and 21 where the calendars agree. */
  lemma SeparatePassesCloseLate(at: int, hasPhone: bool, es: seq<InstanceEvent>, close: InstanceEvent)
    requires InOrder(at, es + [close]) && NoneOvertaken(Begin(at, hasPhone), es + [close])
    requires Closes(InstanceRun(Begin(at, hasPhone), es), close)
    ensures LagosDay(close.now) - LagosDay(at) >= 20
    ensures CalendarsAgree(es) ==> LagosDay(close.now) - LagosDay(at) >= 21
  {
    assert (es + [close])[..|es|] == es;
    CloseIsLate(at, hasPhone, es, close, false);
    if CalendarsAgree(es) { CloseIsLate(at, hasPhone, es, close, true); }
  }

  lemma CloseIsLate(at: int, hasPhone: bool, es: seq<InstanceEvent>, close: InstanceEvent, agree: bool)
    requires InOrder(at, es) && NoneOvertaken(Begin(at, hasPhone), es) && (agree ==> CalendarsAgree(es))
    requires close.Act? && Clock(at, es) <= close.now && close.pass !in Overtaken(Begin(at, hasPhone), es)
    requires Closes(InstanceRun(Begin(at, hasPhone), es), close)
    ensures LagosDay(close.now) - LagosDay(at) >= Grace(agree)
  {
    var s := InstanceRun(Begin(at, hasPhone), es);
    FitOverRuns(at, hasPhone, es, agree);
    WeekOldOverRuns(at, hasPhone, es);
    assert PassFits(s.request, s.passes[close.pass], Clock(at, es), Grace(agree));
    LagosDayMoves(Clock(at, es), close.now);
  }
}
