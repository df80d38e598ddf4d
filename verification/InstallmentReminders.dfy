/**
 * Payment-plan installment reminders: one installment per plan at a time, on a
 * cadence kept by a single stamp, the day of the last send.
 *
 * Days are integer UTC day indices.
 */
module InstallmentReminders {
  import opened Options

  datatype InstallmentStatus = Pending | Partial | Paid

  datatype Installment = Installment(plan: nat, sequence: nat, due: int, status: InstallmentStatus,
                                     lastSent: Option<int>)

  predicate Unpaid(inst: Installment) { inst.status != Paid }

  /** The decision the job takes from the due day and the stamp alone. */
  predicate ShouldSend(due: int, lastSent: Option<int>, today: int) {
    if lastSent.Some? && lastSent.value >= today then false
    else if due - today >= 0 then due - today == 7 || due - today == 1 || due - today == 0
    else if lastSent.None? || lastSent.value <= due then true
    else today - lastSent.value >= 7
  }

  // ---------------------------------------------------------------------
  // One installment: the stamped cadence against a calendar
  // ---------------------------------------------------------------------

  function Tick(due: int, lastSent: Option<int>, today: int): Option<int> {
    if ShouldSend(due, lastSent, today) then Some(today) else lastSent
  }

  /** The stamp after ticking once a day for `n` days from day `start`. */
  function DailyStamp(due: int, start: int, n: nat): Option<int> {
    if n == 0 then None else Tick(due, DailyStamp(due, start, n - 1), start + n - 1)
  }

  function Max(x: int, y: int): int { if x < y then y else x }

  /** The calendar: seven days, one day and no days ahead, then weekly from the first overdue day seen. */
  predicate OnCalendar(due: int, start: int, today: int) {
    || due - today == 7 || due - today == 1 || due - today == 0
    || (today > due && (today - Max(start, due + 1)) % 7 == 0)
  }

  lemma {:induction false} StampFacts(due: int, start: int, n: nat)
    ensures var s := DailyStamp(due, start, n);
      var first := Max(start, due + 1);
      && (s.Some? ==> start <= s.value < start + n && OnCalendar(due, start, s.value))
      && (start + n <= first ==> s.None? || s.value <= due)
      && (start + n > first ==>
          s.Some? && s.value >= first && (s.value - first) % 7 == 0 && start + n - 1 - s.value < 7)
  {
    if n > 0 {
      StampFacts(due, start, n - 1);
      var first := Max(start, due + 1);
      var s := DailyStamp(due, start, n - 1);
      var today := start + n - 1;
      if today > first {
        assert ShouldSend(due, s, today) <==> today - s.value == 7;
      }
    }
  }

  /**
   * With one tick a day from the day an installment becomes the earliest
   * unpaid, the stamped cadence sends exactly on the calendar.
   */
  lemma CadenceIsTheCalendar(due: int, start: int, n: nat)
    ensures ShouldSend(due, DailyStamp(due, start, n), start + n) <==> OnCalendar(due, start, start + n)
  {
    StampFacts(due, start, n);
    var first := Max(start, due + 1);
    var today := start + n;
    var s := DailyStamp(due, start, n);
    if today > first {
      assert today - s.value <= 7;
      if (today - first) % 7 == 0 {
        assert (today - s.value) % 7 == 0 && today - s.value > 0;
      }
    }
  }

  // ---------------------------------------------------------------------
  // Any schedule: missed days, repeated runs
  // ---------------------------------------------------------------------

  predicate NonDecreasing(ticks: seq<int>) {
    forall i, j :: 0 <= i < j < |ticks| ==> ticks[i] <= ticks[j]
  }

  /** The stamp and the days sent on after some ticks. */
  function Sends(due: int, lastSent: Option<int>, ticks: seq<int>): (seq<int>, Option<int>) {
    if ticks == [] then ([], lastSent)
    else
      var n := |ticks| - 1;
      var (sent, stamp) := Sends(due, lastSent, ticks[..n]);
      if ShouldSend(due, stamp, ticks[n]) then (sent + [ticks[n]], Some(ticks[n])) else (sent, stamp)
  }

  /**
   * Whatever the tick days, nothing is sent twice in a day, upcoming notices
   * fall only on the three windows and overdue notices are a week apart.
   */
  lemma {:induction false} AnyScheduleIsSpaced(due: int, ticks: seq<int>)
    requires NonDecreasing(ticks)
    ensures var (sent, stamp) := Sends(due, None, ticks);
      && (sent == [] ==> stamp == None)
      && (sent != [] ==> stamp == Some(sent[|sent| - 1]) && ticks != [] && sent[|sent| - 1] <= ticks[|ticks| - 1])
      && (forall i, j :: 0 <= i < j < |sent| ==> sent[i] < sent[j] && (sent[i] > due ==> sent[j] - sent[i] >= 7))
      && (forall i :: 0 <= i < |sent| && sent[i] <= due ==>
          due - sent[i] == 7 || due - sent[i] == 1 || due - sent[i] == 0)
  {
    if ticks != [] {
      var n := |ticks| - 1;
      AnyScheduleIsSpaced(due, ticks[..n]);
      var (sent, stamp) := Sends(due, None, ticks[..n]);
      if sent != [] {
        var last := sent[|sent| - 1];
        assert forall i :: 0 <= i < |sent| ==> sent[i] <= last;
      }
    }
  }

  // ---------------------------------------------------------------------
  // The daily job over every installment
  // ---------------------------------------------------------------------

  /** Installments ordered by plan, then by sequence, as the job reads them. */
  predicate Ordered(rows: seq<Installment>) {
    forall i, j :: 0 <= i < j < |rows| ==>
      rows[i].plan < rows[j].plan || (rows[i].plan == rows[j].plan && rows[i].sequence < rows[j].sequence)
  }

  /** Row `i` is its plan's earliest unpaid installment. */
  predicate EarliestUnpaid(rows: seq<Installment>, i: nat)
    requires i < |rows|
  {
    && Unpaid(rows[i])
    && forall j :: 0 <= j < |rows| && rows[j].plan == rows[i].plan && Unpaid(rows[j]) ==>
        rows[i].sequence <= rows[j].sequence
  }

  predicate UnpaidBefore(rows: seq<Installment>, i: nat, plan: nat)
    requires i <= |rows|
  {
    exists j :: 0 <= j < i && Unpaid(rows[j]) && rows[j].plan == plan
  }

  /** In reading order a plan's earliest unpaid row is the one no unpaid row of the plan comes before. */
  lemma EarliestIsFirst(rows: seq<Installment>, i: nat)
    requires Ordered(rows) && i < |rows|
    ensures EarliestUnpaid(rows, i) <==> Unpaid(rows[i]) && !UnpaidBefore(rows, i, rows[i].plan)
    ensures forall p ::
      UnpaidBefore(rows, i + 1, p) <==> UnpaidBefore(rows, i, p) || (Unpaid(rows[i]) && rows[i].plan == p)
  {
  }

  /** What the job finds out on a day: which plans are active and which rows' messages can be queued. */
  datatype Day = Day(today: int, activePlans: set<nat>, reachable: set<nat>)

  /** The cadence says so and the message can be queued. */
  predicate Goes(row: Installment, i: nat, day: Day) {
    ShouldSend(row.due, row.lastSent, day.today) && i in day.reachable
  }

  predicate IsFirst(rows: seq<Installment>, i: nat, active: set<nat>)
    requires i < |rows|
  {
    EarliestUnpaid(rows, i) && rows[i].plan in active
  }

  predicate IsSent(rows: seq<Installment>, i: nat, day: Day)
    requires i < |rows|
  {
    IsFirst(rows, i, day.activePlans) && Goes(rows[i], i, day)
  }

  /** The rows the job keeps after reducing to one per plan, among the first `n`. */
  function Firsts(rows: seq<Installment>, active: set<nat>, n: nat): (ids: seq<nat>)
    requires n <= |rows|
    ensures forall k :: 0 <= k < |ids| ==> ids[k] < n
    ensures forall j, k :: 0 <= j < k < |ids| ==> ids[j] < ids[k]
  {
    if n == 0 then []
    else Firsts(rows, active, n - 1) + if IsFirst(rows, n - 1, active) then [n - 1] else []
  }

  /** The sends made by going through some of the rows. */
  function SendsFor(rows: seq<Installment>, ids: seq<nat>, day: Day): seq<(int, nat)>
    requires forall k :: 0 <= k < |ids| ==> ids[k] < |rows|
  {
    if ids == [] then []
    else
      var i := ids[|ids| - 1];
      SendsFor(rows, ids[..|ids| - 1], day) + if Goes(rows[i], i, day) then [(day.today, i)] else []
  }

  /** The sends of one tick, in reading order. */
  function Dispatches(rows: seq<Installment>, day: Day): seq<(int, nat)> {
    SendsFor(rows, Firsts(rows, day.activePlans, |rows|), day)
  }

  function StampedRow(rows: seq<Installment>, i: nat, day: Day): Installment
    requires i < |rows|
  {
    if IsSent(rows, i, day) then rows[i].(lastSent := Some(day.today)) else rows[i]
  }

  function Stamped(rows: seq<Installment>, day: Day): seq<Installment> {
    seq(|rows|, i requires 0 <= i < |rows| => StampedRow(rows, i, day))
  }

  /** The installment table and every send so far: the day and the row. */
  datatype Book = Book(rows: seq<Installment>, sends: seq<(int, nat)>)

  /** A paid installment stays paid; any other may change to any status. A due day may be edited at any time. */
  datatype Event = Job(day: Day) | SetStatus(row: nat, status: InstallmentStatus) | SetDue(row: nat, due: int)

  function Step(b: Book, e: Event): Book {
    match e
    case Job(day) => Book(Stamped(b.rows, day), b.sends + Dispatches(b.rows, day))
    case SetStatus(i, status) =>
      if i >= |b.rows| || !Unpaid(b.rows[i]) then b
      else b.(rows := b.rows[i := b.rows[i].(status := status)])
    case SetDue(i, due) =>
      if i >= |b.rows| then b else b.(rows := b.rows[i := b.rows[i].(due := due)])
  }

  function Run(rows: seq<Installment>, es: seq<Event>): Book {
    if es == [] then Book(rows, []) else Step(Run(rows, es[..|es| - 1]), es[|es| - 1])
  }

  predicate SamePlans(a: seq<Installment>, b: seq<Installment>) {
    |a| == |b| && forall i :: 0 <= i < |a| ==> a[i].plan == b[i].plan && a[i].sequence == b[i].sequence
  }

  /** Every installment before row `i` in its plan is paid. */
  predicate EarlierPaid(rows: seq<Installment>, i: nat) {
    && i < |rows|
    && forall j :: 0 <= j < |rows| && rows[j].plan == rows[i].plan && rows[j].sequence < rows[i].sequence ==>
         !Unpaid(rows[j])
  }

  predicate AllEarlierPaid(rows: seq<Installment>, sends: seq<(int, nat)>) {
    forall k :: 0 <= k < |sends| ==> EarlierPaid(rows, sends[k].1)
  }

  predicate Forward(rows: seq<Installment>, sends: seq<(int, nat)>)
    requires AllEarlierPaid(rows, sends)
  {
    forall k, m :: 0 <= k < m < |sends| && rows[sends[k].1].plan == rows[sends[m].1].plan ==>
      rows[sends[k].1].sequence <= rows[sends[m].1].sequence
  }

  /** Whatever was reminded had everything before it paid, and a plan's reminders never go back to an earlier one. */
  ghost predicate Sequential(b: Book) {
    AllEarlierPaid(b.rows, b.sends) && Forward(b.rows, b.sends)
  }

  lemma {:induction false} FirstsMeans(rows: seq<Installment>, active: set<nat>, n: nat, i: nat)
    requires n <= |rows|
    ensures i in Firsts(rows, active, n) <==> i < n && IsFirst(rows, i, active)
  {
    if n > 0 { FirstsMeans(rows, active, n - 1, i); }
  }

  lemma {:induction false} SendsForMeans(rows: seq<Installment>, ids: seq<nat>, day: Day)
    requires forall k :: 0 <= k < |ids| ==> ids[k] < |rows|
    requires forall j, k :: 0 <= j < k < |ids| ==> ids[j] < ids[k]
    ensures forall k :: 0 <= k < |SendsFor(rows, ids, day)| ==>
      var (at, i) := SendsFor(rows, ids, day)[k]; at == day.today && i in ids && Goes(rows[i], i, day)
    ensures forall k, m :: 0 <= k < m < |SendsFor(rows, ids, day)| ==>
      SendsFor(rows, ids, day)[k].1 < SendsFor(rows, ids, day)[m].1
  {
    if ids != [] {
      var n := |ids| - 1;
      assert ids == ids[..n] + [ids[n]];
      SendsForMeans(rows, ids[..n], day);
    }
  }

  lemma DispatchesAreSent(rows: seq<Installment>, day: Day)
    ensures forall k :: 0 <= k < |Dispatches(rows, day)| ==>
      var (at, i) := Dispatches(rows, day)[k]; at == day.today && i < |rows| && IsSent(rows, i, day)
    ensures forall k, m ::
      0 <= k < m < |Dispatches(rows, day)| ==> Dispatches(rows, day)[k].1 < Dispatches(rows, day)[m].1
  {
    var ids := Firsts(rows, day.activePlans, |rows|);
    SendsForMeans(rows, ids, day);
    forall i: nat | i in ids ensures i < |rows| && IsFirst(rows, i, day.activePlans) {
      FirstsMeans(rows, day.activePlans, |rows|, i);
    }
  }

  lemma {:induction false} SendsForMember(rows: seq<Installment>, ids: seq<nat>, day: Day, i: nat)
    requires forall k :: 0 <= k < |ids| ==> ids[k] < |rows|
    ensures (day.today, i) in SendsFor(rows, ids, day) <==> i in ids && i < |rows| && Goes(rows[i], i, day)
  {
    if ids != [] {
      var n := |ids| - 1;
      assert ids == ids[..n] + [ids[n]];
      SendsForMember(rows, ids[..n], day, i);
    }
  }

  lemma DispatchedIfSent(rows: seq<Installment>, day: Day, i: nat)
    ensures (day.today, i) in Dispatches(rows, day) <==> i < |rows| && IsSent(rows, i, day)
  {
    SendsForMember(rows, Firsts(rows, day.activePlans, |rows|), day, i);
    FirstsMeans(rows, day.activePlans, |rows|, i);
  }

  /** By statuses: a row of an active plan, unpaid or half paid, with everything before it in the plan paid in full. */
  ghost predicate NextInPlan(rows: seq<Installment>, active: set<nat>, i: nat) {
    && i < |rows| && rows[i].plan in active && (rows[i].status == Pending || rows[i].status == Partial)
    && forall j :: 0 <= j < |rows| && rows[j].plan == rows[i].plan && rows[j].sequence < rows[i].sequence
         ==> rows[j].status == Paid
  }

  /** Such a row can be reached and the cadence names the day. */
  ghost predicate AskedFor(rows: seq<Installment>, day: Day, i: nat) {
    NextInPlan(rows, day.activePlans, i) && i in day.reachable && ShouldSend(rows[i].due, rows[i].lastSent, day.today)
  }

  lemma IsFirstMeans(rows: seq<Installment>, i: nat, active: set<nat>)
    requires i < |rows|
    ensures IsFirst(rows, i, active) <==> NextInPlan(rows, active, i)
  {
  }

  /**
   * A tick reminds a row exactly if its plan is active, it is unpaid or half
   * paid, every installment before it in its plan is paid in full, it can be
   * reached, and the cadence names the day; and stamps just those rows.
   */
  lemma DispatchedIff(rows: seq<Installment>, day: Day, i: nat)
    ensures (day.today, i) in Dispatches(rows, day) <==>
      (i < |rows| && rows[i].plan in day.activePlans && (rows[i].status == Pending || rows[i].status == Partial)
       && (forall j :: 0 <= j < |rows| && rows[j].plan == rows[i].plan && rows[j].sequence < rows[i].sequence
             ==> rows[j].status == Paid)
       && i in day.reachable && ShouldSend(rows[i].due, rows[i].lastSent, day.today))
    ensures i < |rows| ==>
      Stamped(rows, day)[i] == if AskedFor(rows, day, i) then rows[i].(lastSent := Some(day.today)) else rows[i]
  {
    DispatchedIfSent(rows, day, i);
    if i < |rows| {
      IsFirstMeans(rows, i, day.activePlans);
      assert Stamped(rows, day)[i] == StampedRow(rows, i, day);
    }
  }

  lemma EarliestMeansEarlierPaid(rows: seq<Installment>, i: nat)
    requires i < |rows| && EarliestUnpaid(rows, i)
    ensures EarlierPaid(rows, i)
  {
  }

  lemma EarlierStaysPaid(was: seq<Installment>, now: seq<Installment>, i: nat)
    requires SamePlans(was, now) && EarlierPaid(was, i)
    requires forall j :: 0 <= j < |was| && !Unpaid(was[j]) ==> !Unpaid(now[j])
    ensures EarlierPaid(now, i)
  {
  }

  /** At most one installment of a plan is reminded in a tick. */
  lemma OnePerPlan(rows: seq<Installment>, day: Day, i: nat, j: nat)
    requires Ordered(rows) && i < |rows| && j < |rows| && IsSent(rows, i, day) && IsSent(rows, j, day)
    requires i != j
    ensures rows[i].plan != rows[j].plan
  {
  }

  lemma NotBack(rows: seq<Installment>, i: nat, j: nat)
    requires EarlierPaid(rows, i) && j < |rows| && Unpaid(rows[j]) && rows[i].plan == rows[j].plan
    ensures rows[i].sequence <= rows[j].sequence
  {
  }

  lemma DispatchesAppend(rows: seq<Installment>, sends: seq<(int, nat)>, day: Day)
    requires Ordered(rows) && AllEarlierPaid(rows, sends) && Forward(rows, sends)
    ensures AllEarlierPaid(rows, sends + Dispatches(rows, day))
    ensures Forward(rows, sends + Dispatches(rows, day))
  {
    var later := Dispatches(rows, day);
    DispatchesAreSent(rows, day);
    forall k | 0 <= k < |later| ensures EarlierPaid(rows, later[k].1) && IsSent(rows, later[k].1, day) {
      EarliestMeansEarlierPaid(rows, later[k].1);
    }
    forall k, m | 0 <= k < |sends| && 0 <= m < |later| && rows[sends[k].1].plan == rows[later[m].1].plan
      ensures rows[sends[k].1].sequence <= rows[later[m].1].sequence
    {
      NotBack(rows, sends[k].1, later[m].1);
    }
    forall k, m | 0 <= k < m < |later| ensures rows[later[k].1].plan != rows[later[m].1].plan {
      OnePerPlan(rows, day, later[k].1, later[m].1);
    }
  }

  lemma StampingKeeps(rows: seq<Installment>, sends: seq<(int, nat)>, day: Day)
    requires AllEarlierPaid(rows, sends) && Forward(rows, sends)
    ensures AllEarlierPaid(Stamped(rows, day), sends) && Forward(Stamped(rows, day), sends)
  {
    var now := Stamped(rows, day);
    assert SamePlans(rows, now);
    forall k | 0 <= k < |sends| ensures EarlierPaid(now, sends[k].1) {
      EarlierStaysPaid(rows, now, sends[k].1);
    }
  }

  lemma JobKeepsSequential(b: Book, day: Day)
    requires Sequential(b) && Ordered(b.rows)
    ensures Sequential(Step(b, Job(day)))
  {
    DispatchesAppend(b.rows, b.sends, day);
    StampingKeeps(b.rows, b.sends + Dispatches(b.rows, day), day);
  }

  lemma EditKeepsSequential(b: Book, e: Event)
    requires Sequential(b) && !e.Job?
    ensures Sequential(Step(b, e))
  {
    var b' := Step(b, e);
    forall k | 0 <= k < |b'.sends| ensures EarlierPaid(b'.rows, b'.sends[k].1) {
      EarlierStaysPaid(b.rows, b'.rows, b.sends[k].1);
    }
  }

  /**
   * Over any run of ticks, payments and edits: no installment is ever
   * reminded with an earlier one of its plan unpaid, and a plan's reminders
   * only move forward through its sequence.
   */
  lemma {:induction false} RemindersAreSequential(rows: seq<Installment>, es: seq<Event>)
    requires Ordered(rows)
    ensures var b := Run(rows, es);
      && |b.rows| == |rows|
      && (forall k :: 0 <= k < |b.sends| ==> b.sends[k].1 < |rows|)
      && (forall k, j | 0 <= k < |b.sends| && 0 <= j < |rows| ::
            b.rows[j].plan == b.rows[b.sends[k].1].plan && b.rows[j].sequence < b.rows[b.sends[k].1].sequence
            ==> b.rows[j].status == Paid)
      && (forall k, m :: 0 <= k < m < |b.sends| && b.rows[b.sends[k].1].plan == b.rows[b.sends[m].1].plan ==>
            b.rows[b.sends[k].1].sequence <= b.rows[b.sends[m].1].sequence)
  {
    SequentialOverRuns(rows, es);
    var b := Run(rows, es);
    forall k | 0 <= k < |b.sends| ensures EarlierPaid(b.rows, b.sends[k].1) {}
  }

  lemma {:induction false} SequentialOverRuns(rows: seq<Installment>, es: seq<Event>)
    requires Ordered(rows)
    ensures Sequential(Run(rows, es)) && SamePlans(rows, Run(rows, es).rows)
  {
    if es != [] {
      var n := |es| - 1;
      SequentialOverRuns(rows, es[..n]);
      var b := Run(rows, es[..n]);
      assert Ordered(b.rows);
      match es[n]
      case Job(day) => JobKeepsSequential(b, day);
      case _ => EditKeepsSequential(b, es[n]);
    }
  }

  // ---------------------------------------------------------------------
  // One row of the table, over whole runs
  // ---------------------------------------------------------------------

  datatype Sent = Sent(day: int, due: int)

  /** When row `i` was reminded in a run, each time with the due day it then had. */
  function History(rows: seq<Installment>, es: seq<Event>, i: nat): seq<Sent> {
    if es == [] then []
    else
      var n := |es| - 1;
      History(rows, es[..n], i) + SentIn(Run(rows, es[..n]).rows, es[n], i)
  }

  function SentIn(rows: seq<Installment>, e: Event, i: nat): seq<Sent> {
    if e.Job? && i < |rows| && IsSent(rows, i, e.day) then [Sent(e.day.today, rows[i].due)] else []
  }

  /**
   * Reminders of one row, earliest first: on different days, upcoming ones on their
   * windows, overdue ones a week apart.
   */
  predicate WellSpaced(h: seq<Sent>) {
    && (forall k :: 0 <= k < |h| && h[k].day <= h[k].due ==>
          h[k].due - h[k].day == 7 || h[k].due - h[k].day == 1 || h[k].due - h[k].day == 0)
    && (forall k, m :: 0 <= k < m < |h| ==> h[k].day < h[m].day)
    && (forall k, m :: 0 <= k < m < |h| && h[k].day > h[m].due ==> h[m].day - h[k].day >= 7)
  }

  predicate StampIsLast(h: seq<Sent>, lastSent: Option<int>) {
    if h == [] then lastSent == None else lastSent == Some(h[|h| - 1].day)
  }

  lemma OneMoreSent(h: seq<Sent>, lastSent: Option<int>, due: int, today: int)
    requires WellSpaced(h) && StampIsLast(h, lastSent) && ShouldSend(due, lastSent, today)
    ensures WellSpaced(h + [Sent(today, due)])
  {
    if h != [] { assert forall k :: 0 <= k < |h| ==> h[k].day <= h[|h| - 1].day; }
  }

  lemma StepStamp(b: Book, e: Event, i: nat)
    requires i < |b.rows|
    ensures |Step(b, e).rows| == |b.rows|
    ensures Step(b, e).rows[i].lastSent
      == if e.Job? && IsSent(b.rows, i, e.day) then Some(e.day.today) else b.rows[i].lastSent
  {
    if e.Job? { assert Step(b, e).rows[i] == StampedRow(b.rows, i, e.day); }
  }

  lemma HistoryStep(rows: seq<Installment>, e: Event, h: seq<Sent>, i: nat, stamp: Option<int>)
    requires i < |rows| && WellSpaced(h) && StampIsLast(h, rows[i].lastSent)
    requires stamp == if e.Job? && IsSent(rows, i, e.day) then Some(e.day.today) else rows[i].lastSent
    ensures WellSpaced(h + SentIn(rows, e, i)) && StampIsLast(h + SentIn(rows, e, i), stamp)
  {
    if e.Job? && IsSent(rows, i, e.day) {
      OneMoreSent(h, rows[i].lastSent, rows[i].due, e.day.today);
      assert SentIn(rows, e, i) == [Sent(e.day.today, rows[i].due)];
    } else {
      assert h + SentIn(rows, e, i) == h;
    }
  }

  /**
   * Over any run, whatever days are missed or repeated and however due days are
   * edited in between: a row is never reminded twice in a day, and once overdue
   * only a week after any reminder that fell past the due day in force.
   */
  lemma {:induction false} HistoryIsSpaced(rows: seq<Installment>, es: seq<Event>, i: nat)
    requires i < |rows| && rows[i].lastSent == None
    ensures WellSpaced(History(rows, es, i))
    ensures |Run(rows, es).rows| == |rows| && StampIsLast(History(rows, es, i), Run(rows, es).rows[i].lastSent)
  {
    if es != [] {
      var n := |es| - 1;
      HistoryIsSpaced(rows, es[..n], i);
      StepStamp(Run(rows, es[..n]), es[n], i);
      HistoryStep(Run(rows, es[..n]).rows, es[n], History(rows, es[..n], i), i, Run(rows, es).rows[i].lastSent);
    }
  }

  function Ticks(es: seq<Event>): nat {
    if es == [] then 0 else Ticks(es[..|es| - 1]) + if es[|es| - 1].Job? then 1 else 0
  }

  /**
   * A job on `today` finds row `i` its active plan's earliest unpaid and reachable; an
   * edit leaves its due day alone.
   */
  predicate Attends(rows: seq<Installment>, e: Event, i: nat, today: int)
    requires i < |rows|
  {
    match e
    case Job(day) => day.today == today && IsFirst(rows, i, day.activePlans) && i in day.reachable
    case SetDue(j, _) => j != i
    case SetStatus(_, _) => true
  }

  /** From day `start` the job runs once a day and attends to row `i` each time. */
  predicate Attended(rows: seq<Installment>, es: seq<Event>, i: nat, start: int) {
    es == []
    || (var n := |es| - 1;
        var before := Run(rows, es[..n]).rows;
        Attended(rows, es[..n], i, start) && i < |before| && Attends(before, es[n], i, start + Ticks(es[..n])))
  }

  lemma StepDue(b: Book, e: Event, i: nat)
    requires i < |b.rows| && (e.SetDue? ==> e.row != i)
    ensures |Step(b, e).rows| == |b.rows| && Step(b, e).rows[i].due == b.rows[i].due
  {
    if e.Job? { assert Step(b, e).rows[i] == StampedRow(b.rows, i, e.day); }
  }

  lemma AttendedStep(b: Book, e: Event, i: nat, start: int, ticks: nat)
    requires i < |b.rows| && Attends(b.rows, e, i, start + ticks)
    requires b.rows[i].lastSent == DailyStamp(b.rows[i].due, start, ticks)
    ensures |Step(b, e).rows| == |b.rows|
    ensures Step(b, e).rows[i].lastSent == DailyStamp(b.rows[i].due, start, if e.Job? then ticks + 1 else ticks)
  {
    StepStamp(b, e, i);
  }

  lemma {:induction false} AttendedStamp(rows: seq<Installment>, es: seq<Event>, i: nat, start: int)
    requires i < |rows| && rows[i].lastSent == None && Attended(rows, es, i, start)
    ensures |Run(rows, es).rows| == |rows| && Run(rows, es).rows[i].due == rows[i].due
    ensures Run(rows, es).rows[i].lastSent == DailyStamp(rows[i].due, start, Ticks(es))
  {
    if es != [] {
      var n := |es| - 1;
      AttendedStamp(rows, es[..n], i, start);
      AttendedStep(Run(rows, es[..n]), es[n], i, start, Ticks(es[..n]));
      StepDue(Run(rows, es[..n]), es[n], i);
    }
  }

  /** In the table as well, such a row is reminded exactly on the calendar. */
  lemma TableFollowsCalendar(rows: seq<Installment>, es: seq<Event>, day: Day, i: nat, start: int)
    requires i < |rows| && rows[i].lastSent == None && Attended(rows, es + [Job(day)], i, start)
    ensures i < |Run(rows, es).rows|
    ensures IsSent(Run(rows, es).rows, i, day) <==> OnCalendar(rows[i].due, start, day.today)
  {
    assert (es + [Job(day)])[..|es|] == es;
    AttendedStamp(rows, es, i, start);
    CadenceIsTheCalendar(rows[i].due, start, Ticks(es));
  }

  // ---------------------------------------------------------------------
  // The job's loop
  // ---------------------------------------------------------------------

  predicate StampedFor(was: seq<Installment>, now: seq<Installment>, ids: seq<nat>, day: Day) {
    && |now| == |was|
    && forall i: nat :: i < |was| ==>
         now[i] == if i in ids && Goes(was[i], i, day) then was[i].(lastSent := Some(day.today)) else was[i]
  }

  lemma SendsForNext(rows: seq<Installment>, ids: seq<nat>, i: nat, day: Day)
    requires i < |rows| && forall k :: 0 <= k < |ids| ==> ids[k] < |rows|
    ensures SendsFor(rows, ids + [i], day)
      == SendsFor(rows, ids, day) + if Goes(rows[i], i, day) then [(day.today, i)] else []
  {
    assert (ids + [i])[..|ids|] == ids;
  }

  lemma Regroup(a: seq<(int, nat)>, b: seq<(int, nat)>, x: (int, nat))
    ensures a + b + [x] == a + (b + [x]) && a + (b + []) == a + b
  {
    assert b + [] == b;
  }

  /** The job's loop after going through `ids`, from `was` to `now`. */
  ghost predicate WentThrough(was: Book, now: Book, ids: seq<nat>, day: Day)
    requires forall k :: 0 <= k < |ids| ==> ids[k] < |was.rows|
  {
    var stamped := StampedFor(was.rows, now.rows, ids, day);
    stamped && now.sends == was.sends + SendsFor(was.rows, ids, day)
  }

  function SendOne(b: Book, i: nat, day: Day): Book
    requires i < |b.rows|
  {
    if Goes(b.rows[i], i, day) then
      Book(b.rows[i := b.rows[i].(lastSent := Some(day.today))], b.sends + [(day.today, i)])
    else b
  }

  lemma NextOfIncreasing(ids: seq<nat>, k: nat)
    requires k < |ids| && forall i, j :: 0 <= i < j < |ids| ==> ids[i] < ids[j]
    ensures ids[k] !in ids[..k] && ids[..k + 1] == ids[..k] + [ids[k]]
  {
  }

  lemma GoThroughNext(was: Book, now: Book, ids: seq<nat>, i: nat, day: Day)
    requires forall k :: 0 <= k < |ids| ==> ids[k] < |was.rows|
    requires WentThrough(was, now, ids, day) && i < |was.rows| && i !in ids
    ensures WentThrough(was, SendOne(now, i, day), ids + [i], day)
  {
    StampNext(was.rows, now.rows, ids, i, day);
    SendsForNext(was.rows, ids, i, day);
    Regroup(was.sends, SendsFor(was.rows, ids, day), (day.today, i));
  }

  lemma StampedForFirsts(was: seq<Installment>, now: seq<Installment>, day: Day)
    requires StampedFor(was, now, Firsts(was, day.activePlans, |was|), day)
    ensures now == Stamped(was, day)
  {
    forall i | 0 <= i < |was| ensures now[i] == StampedRow(was, i, day) {
      FirstsMeans(was, day.activePlans, |was|, i);
    }
  }

  lemma StampNext(was: seq<Installment>, now: seq<Installment>, ids: seq<nat>, i: nat, day: Day)
    requires StampedFor(was, now, ids, day) && i < |was| && i !in ids
    ensures now[i] == was[i]
    ensures var stamped := now[i := was[i].(lastSent := Some(day.today))];
      StampedFor(was, if Goes(was[i], i, day) then stamped else now, ids + [i], day)
  {
  }

  lemma JobDone(was: Book, now: Book, day: Day)
    requires WentThrough(was, now, Firsts(was.rows, day.activePlans, |was.rows|), day)
    ensures now == Step(was, Job(day))
  {
    StampedForFirsts(was.rows, now.rows, day);
  }

  lemma FirstsByStatus(rows: seq<Installment>, active: set<nat>)
    ensures forall i: nat :: i in Firsts(rows, active, |rows|) <==> NextInPlan(rows, active, i)
  {
    forall i: nat ensures i in Firsts(rows, active, |rows|) <==> NextInPlan(rows, active, i) {
      FirstsMeans(rows, active, |rows|, i);
      if i < |rows| { IsFirstMeans(rows, i, active); }
    }
  }

  /** What one job adds to the sends and does to the rows. */
  lemma JobMeans(was: Book, now: Book, day: Day)
    requires now == Step(was, Job(day))
    ensures |now.rows| == |was.rows| && was.sends <= now.sends
    ensures forall i: nat :: (day.today, i) in now.sends[|was.sends|..] <==> AskedFor(was.rows, day, i)
    ensures forall i :: 0 <= i < |was.rows| ==>
      now.rows[i] == if AskedFor(was.rows, day, i) then was.rows[i].(lastSent := Some(day.today)) else was.rows[i]
  {
    assert now.sends[|was.sends|..] == Dispatches(was.rows, day);
    forall i: nat
      ensures (day.today, i) in Dispatches(was.rows, day) <==> AskedFor(was.rows, day, i)
      ensures i < |was.rows| ==>
        now.rows[i] == if AskedFor(was.rows, day, i) then was.rows[i].(lastSent := Some(day.today)) else was.rows[i]
    {
      DispatchedIff(was.rows, day, i);
    }
  }

  /** The installment table, with the job that stamps it. */
  class InstallmentTable {
    var rows: seq<Installment>
    var sends: seq<(int, nat)>

    constructor (rows: seq<Installment>)
      ensures this.rows == rows && sends == []
    {
      this.rows := rows;
      sends := [];
    }

    /** Reduces the unpaid rows to one per plan, filters by the cadence, sends and stamps. */
    method CheckInstallmentReminders(day: Day)
      requires Ordered(rows)
      modifies this
      ensures Book(rows, sends) == Step(Book(old(rows), old(sends)), Job(day))
      ensures |rows| == |old(rows)| && old(sends) <= sends
      ensures forall i: nat :: (day.today, i) in sends[|old(sends)|..] <==> AskedFor(old(rows), day, i)
      ensures forall i :: 0 <= i < |rows| ==>
        rows[i] == if AskedFor(old(rows), day, i) then old(rows)[i].(lastSent := Some(day.today)) else old(rows)[i]
    {
      var earliest := EarliestUnpaidByPlan(day.activePlans);
      ghost var was := Book(rows, sends);
      for k := 0 to |earliest|
        invariant WentThrough(was, Book(rows, sends), earliest[..k], day)
      {
        var i := earliest[k];
        NextOfIncreasing(earliest, k);
        GoThroughNext(was, Book(rows, sends), earliest[..k], i, day);
        if Goes(rows[i], i, day) {
          rows := rows[i := rows[i].(lastSent := Some(day.today))];
          sends := sends + [(day.today, i)];
        }
      }
      assert earliest[..|earliest|] == earliest;
      JobDone(was, Book(rows, sends), day);
      JobMeans(was, Book(rows, sends), day);
    }

    /** The first unpaid row seen for each active plan, in reading order. */
    method EarliestUnpaidByPlan(active: set<nat>) returns (earliest: seq<nat>)
      requires Ordered(rows)
      ensures earliest == Firsts(rows, active, |rows|)
      ensures forall i: nat :: i in earliest <==> NextInPlan(rows, active, i)
    {
      earliest := [];
      var seen: set<nat> := {};
      for i := 0 to |rows|
        invariant forall p :: p in seen <==> p in active && UnpaidBefore(rows, i, p)
        invariant earliest == Firsts(rows, active, i)
      {
        EarliestIsFirst(rows, i);
        if Unpaid(rows[i]) && rows[i].plan in active && rows[i].plan !in seen {
          seen := seen + {rows[i].plan};
          earliest := earliest + [i];
        }
      }
      FirstsByStatus(rows, active);
    }
  }
}
