/**
 * One installment and several job runs on it: each reads the stamp, queues the
 * reminder and writes the stamp as separate steps, and may stop in between.
 */
module InstallmentInstances {
  import opened Options
  import opened InstallmentReminders

  /** Where one run has got to with the installment; it goes by the day it started on. */
  datatype Phase = Deciding(today: int) | Queued(today: int) | Finished

  datatype System = System(due: int, stamp: Option<int>, sends: seq<Sent>, passes: map<nat, Phase>)

  datatype PassEvent = Read(pass: nat, today: int) | Queue(pass: nat) | WriteStamp(pass: nat) | Stop(pass: nat)

  function Move(s: System, p: nat, phase: Phase): System { s.(passes := s.passes[p := phase]) }

  predicate Queues(s: System, e: PassEvent) { e.Queue? && e.pass in s.passes && s.passes[e.pass].Deciding? }

  function PassStep(s: System, e: PassEvent): System {
    match e
    case Read(p, today) =>
      if p in s.passes then s else Move(s, p, if ShouldSend(s.due, s.stamp, today) then Deciding(today) else Finished)
    case Queue(p) =>
      if !Queues(s, e) then s
      else
        var today := s.passes[p].today;
        Move(s.(sends := s.sends + [Sent(today, s.due)]), p, Queued(today))
    case WriteStamp(p) =>
      if p !in s.passes || !s.passes[p].Queued? then s
      else Move(s.(stamp := Some(s.passes[p].today)), p, Finished)
    case Stop(p) => if p !in s.passes then s else Move(s, p, Finished)
  }

  function Unsent(due: int): System { System(due, None, [], map[]) }

  function PassRun(due: int, es: seq<PassEvent>): System {
    if es == [] then Unsent(due) else PassStep(PassRun(due, es[..|es| - 1]), es[|es| - 1])
  }

  function LastDay(sends: seq<Sent>): Option<int> {
    if sends == [] then None else Some(sends[|sends| - 1].day)
  }

  /** Read, queue and stamp in a row are one tick of the cadence. */
  lemma UninterruptedPass(s: System, p: nat, today: int)
    requires p !in s.passes
    ensures var queued := PassStep(PassStep(s, Read(p, today)), Queue(p));
      var s' := PassStep(queued, WriteStamp(p));
      && s'.stamp == Tick(s.due, s.stamp, today)
      && s'.sends == s.sends + if ShouldSend(s.due, s.stamp, today) then [Sent(today, s.due)] else []
  {
  }

  // ---------------------------------------------------------------------
  // Exactly which runs keep the spacing
  // ---------------------------------------------------------------------

  lemma {:induction false} LastIsLatest(h: seq<Sent>, k: nat)
    requires WellSpaced(h) && k < |h|
    ensures h[k].day <= h[|h| - 1].day
  {
  }

  lemma PrefixWellSpaced(h: seq<Sent>, x: Sent)
    requires WellSpaced(h + [x])
    ensures x.day <= x.due ==> x.due - x.day == 7 || x.due - x.day == 1 || x.due - x.day == 0
    ensures h != [] ==> h[|h| - 1].day < x.day && (h[|h| - 1].day > x.due ==> x.day - h[|h| - 1].day >= 7)
  {
    var all := h + [x];
    assert all[|h|] == x;
    if h != [] { assert all[|h| - 1] == h[|h| - 1]; }
  }

  /** One more reminder keeps the spacing exactly if the cadence, judged by the last one sent, still asks for it. */
  lemma QueueKeepsSpacedIff(h: seq<Sent>, due: int, today: int)
    requires WellSpaced(h)
    ensures WellSpaced(h + [Sent(today, due)]) <==> ShouldSend(due, LastDay(h), today)
  {
    if ShouldSend(due, LastDay(h), today) {
      OneMoreSent(h, LastDay(h), due, today);
    }
    if WellSpaced(h + [Sent(today, due)]) {
      PrefixWellSpaced(h, Sent(today, due));
    }
  }

  predicate SpacedThroughout(due: int, es: seq<PassEvent>) {
    WellSpaced(PassRun(due, es).sends) && (es == [] || SpacedThroughout(due, es[..|es| - 1]))
  }

  /** Every reminder of the run is still asked for, by the last one sent, as it is queued. */
  predicate AlwaysAskedFor(due: int, es: seq<PassEvent>) {
    es == []
    || (var n := |es| - 1;
        var before := PassRun(due, es[..n]);
        && AlwaysAskedFor(due, es[..n])
        && (Queues(before, es[n]) ==> ShouldSend(due, LastDay(before.sends), before.passes[es[n].pass].today)))
  }

  lemma {:induction false} DueStays(due: int, es: seq<PassEvent>)
    ensures PassRun(due, es).due == due
  {
    if es != [] { DueStays(due, es[..|es| - 1]); }
  }

  /** Under every interleaving of runs and stops the reminders stay spaced throughout exactly if each was. */
  lemma {:induction false} SpacedThroughoutIff(due: int, es: seq<PassEvent>)
    ensures SpacedThroughout(due, es) <==> AlwaysAskedFor(due, es)
  {
    if es != [] {
      var n := |es| - 1;
      var before := PassRun(due, es[..n]);
      SpacedThroughoutIff(due, es[..n]);
      DueStays(due, es[..n]);
      if SpacedThroughout(due, es[..n]) && Queues(before, es[n]) {
        QueueKeepsSpacedIff(before.sends, due, before.passes[es[n].pass].today);
      }
    }
  }

  // ---------------------------------------------------------------------
  // Runs that do not disturb one another
  // ---------------------------------------------------------------------

  /** Passes that read a stamp telling the last reminder, with none queued since. */
  function Informed(due: int, es: seq<PassEvent>): set<nat> {
    if es == [] then {}
    else
      var n := |es| - 1;
      var before := PassRun(due, es[..n]);
      if Queues(before, es[n]) then {}
      else if es[n].Read? && es[n].pass !in before.passes && before.stamp == LastDay(before.sends) then
        Informed(due, es[..n]) + {es[n].pass}
      else Informed(due, es[..n])
  }

  /** No run queues after another has since its own read, or having read before a queued reminder was stamped. */
  predicate NoneDisturbed(due: int, es: seq<PassEvent>) {
    es == []
    || (var n := |es| - 1;
        && NoneDisturbed(due, es[..n])
        && (Queues(PassRun(due, es[..n]), es[n]) ==> es[n].pass in Informed(due, es[..n])))
  }

  ghost predicate InformedRight(s: System, informed: set<nat>) {
    forall p :: p in informed && p in s.passes && s.passes[p].Deciding? ==>
      ShouldSend(s.due, LastDay(s.sends), s.passes[p].today)
  }

  lemma {:induction false} InformedOverRuns(due: int, es: seq<PassEvent>)
    ensures InformedRight(PassRun(due, es), Informed(due, es))
    ensures forall p :: p in Informed(due, es) ==> p in PassRun(due, es).passes
  {
    if es != [] {
      InformedOverRuns(due, es[..|es| - 1]);
    }
  }

  /** Such runs, however many, keep the spacing of a single one. */
  lemma {:induction false} UndisturbedStaySpaced(due: int, es: seq<PassEvent>)
    requires NoneDisturbed(due, es)
    ensures AlwaysAskedFor(due, es) && SpacedThroughout(due, es)
  {
    if es != [] {
      var n := |es| - 1;
      UndisturbedStaySpaced(due, es[..n]);
      InformedOverRuns(due, es[..n]);
      DueStays(due, es[..n]);
    }
    SpacedThroughoutIff(due, es);
  }

  lemma Then(due: int, es: seq<PassEvent>, e: PassEvent)
    ensures PassRun(due, es + [e]) == PassStep(PassRun(due, es), e)
  {
    assert (es + [e])[..|es|] == es;
  }

  /** Two runs that both read before either stamps remind twice on one day. */
  lemma TwoRunsRemindTwice(due: int) returns (es: seq<PassEvent>)
    ensures PassRun(due, es).sends == [Sent(due, due)] + [Sent(due, due)]
  {
    Then(due, [], Read(1, due));
    es := [] + [Read(1, due)];
    Then(due, es, Read(2, due));
    es := es + [Read(2, due)];
    Then(due, es, Queue(1));
    es := es + [Queue(1)];
    assert PassRun(due, es).sends == [Sent(due, due)];
    Then(due, es, Queue(2));
    es := es + [Queue(2)];
  }

  /** So does a run repeated after one that stopped between queueing and the stamp. */
  lemma StoppedRunRemindsTwice(due: int) returns (es: seq<PassEvent>)
    ensures PassRun(due, es).sends == [Sent(due, due)] + [Sent(due, due)]
  {
    Then(due, [], Read(1, due));
    es := [] + [Read(1, due)];
    Then(due, es, Queue(1));
    es := es + [Queue(1)];
    assert PassRun(due, es).sends == [Sent(due, due)];
    Then(due, es, Stop(1));
    es := es + [Stop(1)];
    Then(due, es, Read(2, due));
    es := es + [Read(2, due)];
    Then(due, es, Queue(2));
    es := es + [Queue(2)];
  }
}
